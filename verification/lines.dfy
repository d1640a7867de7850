/**
 * The byte arrays AddLines and AddPoints build before handing them to
 * AddLineLoop (GltfExtensions.cs:1296-1370): three floats per vertex, and
 * ushort indices — pairs for LINES, one per vertex for POINTS.
 */
module LineEncoding {
  import opened Bytes
  import opened Geometry
  import opened MeshLayout

  /** The three floats of each point, in order (the `vBuff` array). */
  function PointBytes(ps: seq<Vec3>): (r: seq<byte>)
    ensures |r| == 12 * |ps|
  {
    if ps == [] then [] else PointBytes(ps[..|ps| - 1]) + Vec3Bytes(ps[|ps| - 1])
  }

  /**
   * Whether iteration `i` of the AddLines loop writes the pair (i, i + 1):
   * every i < n - 1 for a loop, every even i < n - 1 otherwise
   * (GltfExtensions.cs:1323).
   */
  predicate Writes(i: nat, n: nat, lineLoop: bool)
  {
    if lineLoop then i < n - 1 else i % 2 == 0 && i < n - 1
  }

  /** How many pairs the first `i` iterations write. */
  function Written(i: nat, n: nat, lineLoop: bool): (w: nat)
    ensures w <= i
  {
    if i == 0 then 0 else Written(i - 1, n, lineLoop) + (if Writes(i - 1, n, lineLoop) then 1 else 0)
  }

  /** The index bytes the first `i` iterations write, from offset 0 on. */
  function PairBytes(i: nat, n: nat, lineLoop: bool): (r: seq<byte>)
    ensures |r| == 4 * Written(i, n, lineLoop)
  {
    if i == 0 then []
    else PairBytes(i - 1, n, lineLoop) + (if Writes(i - 1, n, lineLoop) then U16(i - 1) + U16(i) else [])
  }

  /**
   * The whole `indices` array of AddLines for `n` vertices: it is allocated
   * with 4n bytes, the written pairs fill its start and the rest stays zero.
   */
  function LineIndexBytes(n: nat, lineLoop: bool): (r: seq<byte>)
    ensures |r| == 4 * n
  {
    PairBytes(n, n, lineLoop) + Zeros(4 * n - 4 * Written(n, n, lineLoop))
  }

  /** The `indices` array of AddPoints: index i as a ushort at slot i. */
  function PointIndexBytes(n: nat): (r: seq<byte>)
    ensures |r| == 2 * n
  {
    if n == 0 then [] else PointIndexBytes(n - 1) + U16(n - 1)
  }

  // ---------------------------------------------------------------------------
  // What the arrays hold
  // ---------------------------------------------------------------------------

  /** How many pairs are written: n - 1 for a loop, n / 2 otherwise (none for fewer than two vertices). */
  lemma {:induction false} WrittenCount(i: nat, n: nat, lineLoop: bool)
    ensures var m := if n == 0 then 0 else n - 1;
      var k := if i < m then i else m;
      Written(i, n, lineLoop) == if lineLoop then k else (k + 1) / 2
  {
    if i > 0 {
      WrittenCount(i - 1, n, lineLoop);
    }
  }

  /** Earlier iterations' bytes are a prefix of later iterations' bytes. */
  lemma {:induction false} PairBytesPrefix(j: nat, i: nat, n: nat, lineLoop: bool)
    requires j <= i
    ensures Written(j, n, lineLoop) <= Written(i, n, lineLoop)
    ensures PairBytes(i, n, lineLoop)[..4 * Written(j, n, lineLoop)] == PairBytes(j, n, lineLoop)
    decreases i - j
  {
    WrittenMonotone(j, i, n, lineLoop);
    if j < i {
      PairBytesPrefix(j, i - 1, n, lineLoop);
      var before := PairBytes(i - 1, n, lineLoop);
      assert Written(j, n, lineLoop) <= Written(i - 1, n, lineLoop) by { WrittenMonotone(j, i - 1, n, lineLoop); }
      assert PairBytes(i, n, lineLoop)[..|before|] == before;
    }
  }

  lemma {:induction false} WrittenMonotone(j: nat, i: nat, n: nat, lineLoop: bool)
    requires j <= i
    ensures Written(j, n, lineLoop) <= Written(i, n, lineLoop)
    decreases i - j
  {
    if j < i {
      WrittenMonotone(j, i - 1, n, lineLoop);
    }
  }

  /** The pair written by iteration i ends the bytes of the first i + 1 iterations. */
  lemma PairEnds(i: nat, n: nat, lineLoop: bool)
    requires Writes(i, n, lineLoop)
    ensures var at := 4 * Written(i, n, lineLoop);
      PairBytes(i + 1, n, lineLoop)[at..at + 4] == U16(i) + U16(i + 1)
  {
  }

  /** A written pair (i, i + 1) sits at the slot given by the number of pairs written before it. */
  lemma PairAt(i: nat, n: nat, lineLoop: bool)
    requires i < n && Writes(i, n, lineLoop)
    ensures var at := 4 * Written(i, n, lineLoop);
      at + 4 <= |LineIndexBytes(n, lineLoop)| &&
      LineIndexBytes(n, lineLoop)[at..at + 4] == U16(i) + U16(i + 1)
  {
    var at := 4 * Written(i, n, lineLoop);
    var upto := PairBytes(i + 1, n, lineLoop);
    var all := LineIndexBytes(n, lineLoop);
    assert |upto| == at + 4;
    PairEnds(i, n, lineLoop);
    PairBytesPrefix(i + 1, n, n, lineLoop);
    assert all[..|upto|] == upto by {
      assert all[..|upto|] == PairBytes(n, n, lineLoop)[..|upto|];
    }
    assert all[at..at + 4] == upto[at..at + 4];
  }

  /**
   * Loop mode (ModelCurve): pair k is (k, k + 1) for every k < n - 1, and the
   * last four bytes stay zero: there is no closing pair (n - 1, 0).
   */
  lemma LoopIndices(n: nat)
    requires n > 0
    ensures var b := LineIndexBytes(n, true);
      && (forall k :: 0 <= k < n - 1 ==> b[4 * k..4 * k + 4] == U16(k) + U16(k + 1))
      && b[4 * (n - 1)..] == [0, 0, 0, 0]
  {
    var b := LineIndexBytes(n, true);
    forall k | 0 <= k < n - 1
      ensures b[4 * k..4 * k + 4] == U16(k) + U16(k + 1)
    {
      WrittenCount(k, n, true);
      PairAt(k, n, true);
    }
    WrittenCount(n, n, true);
    assert b[4 * (n - 1)..] == Zeros(4);
  }

  /**
   * With two or more vertices (and fewer than 65537, so that n - 1 does not
   * wrap to 0 as a ushort), the loop is not closed: the bytes after the last
   * written pair are not the pair (n - 1, 0).
   */
  lemma LoopIsNotClosed(n: nat)
    requires 2 <= n <= UshortMax + 1
    ensures LineIndexBytes(n, true)[4 * (n - 1)..] != U16(n - 1) + U16(0)
  {
    LoopIndices(n);
    var closing := U16(n - 1) + U16(0);
    assert ToUshort(n - 1) == n - 1;
    assert closing[0] == (n - 1) % 256 && closing[1] == (n - 1) / 256;
    assert closing[0] != 0 || closing[1] != 0;
  }

  /**
   * Segment mode (edges): pair (i, i + 1) for each even i < n - 1, packed at
   * byte 2i; that is n / 2 pairs, and the remaining 4n - 4(n / 2) bytes are
   * zero. The accessor still reads all 2n indices, so the zero tail draws
   * degenerate segments from vertex 0 to vertex 0.
   */
  lemma SegmentIndices(n: nat)
    ensures var b := LineIndexBytes(n, false);
      && (forall i :: 0 <= i < n - 1 && i % 2 == 0 ==> b[2 * i..2 * i + 4] == U16(i) + U16(i + 1))
      && Written(n, n, false) == n / 2
      && (forall j :: 4 * (n / 2) <= j < 4 * n ==> b[j] == 0)
  {
    var b := LineIndexBytes(n, false);
    forall i | 0 <= i < n - 1 && i % 2 == 0
      ensures b[2 * i..2 * i + 4] == U16(i) + U16(i + 1)
    {
      WrittenCount(i, n, false);
      PairAt(i, n, false);
    }
    WrittenCount(n, n, false);
  }

  /** Points: slot i holds index i. */
  lemma {:induction false} PointIndexAt(n: nat, i: nat)
    requires i < n
    ensures PointIndexBytes(n)[2 * i..2 * i + 2] == U16(i)
  {
    if i < n - 1 {
      PointIndexAt(n - 1, i);
      assert PointIndexBytes(n)[..2 * (n - 1)] == PointIndexBytes(n - 1);
    }
  }

  /** Vertex i's three floats sit at byte 12i. */
  lemma {:induction false} PointBytesAt(ps: seq<Vec3>, i: nat)
    requires i < |ps|
    ensures PointBytes(ps)[12 * i..12 * i + 12] == Vec3Bytes(ps[i])
  {
    var m := |ps| - 1;
    if i < m {
      PointBytesAt(ps[..m], i);
      assert PointBytes(ps)[..12 * m] == PointBytes(ps[..m]);
    }
  }

  // ---------------------------------------------------------------------------
  // The loops
  // ---------------------------------------------------------------------------

  /** One BlockCopy of a float's four bytes right after a known prefix. */
  method CopyFloat(vBuff: array<byte>, x: real, at: nat, ghost prefix: seq<byte>)
    requires at + FloatSize <= vBuff.Length && vBuff[..at] == prefix
    modifies vBuff
    ensures vBuff[..at + FloatSize] == prefix + F32(x)
  {
    BlockCopy(F32(x), vBuff, at);
    Extended(vBuff[..], at, prefix, F32(x));
  }

  /** Copies point i's three floats to offset vi = 12i, one BlockCopy per coordinate. */
  method WritePoint(vBuff: array<byte>, ps: seq<Vec3>, i: nat)
    requires i < |ps| && vBuff.Length == 12 * |ps|
    requires vBuff[..12 * i] == PointBytes(ps[..i])
    modifies vBuff
    ensures vBuff[..12 * (i + 1)] == PointBytes(ps[..i + 1])
  {
    var v := ps[i];
    var vi := 12 * i;
    ghost var p := PointBytes(ps[..i]);
    CopyFloat(vBuff, v.x, vi, p);
    CopyFloat(vBuff, v.y, vi + FloatSize, p + F32(v.x));
    CopyFloat(vBuff, v.z, vi + 2 * FloatSize, p + F32(v.x) + F32(v.y));
    assert ps[..i + 1][..i] == ps[..i];
  }

  /** Writes the pair (i, i + 1) at ii, one BlockCopy per index. */
  method WritePair(indices: array<byte>, i: nat, n: nat, lineLoop: bool, ii: nat)
    requires i < n && Writes(i, n, lineLoop) && indices.Length == 4 * n
    requires ii == 4 * Written(i, n, lineLoop)
    requires indices[..ii] == PairBytes(i, n, lineLoop)
    requires forall j :: ii <= j < indices.Length ==> indices[j] == 0
    modifies indices
    ensures indices[..ii + 4] == PairBytes(i + 1, n, lineLoop)
    ensures forall j :: ii + 4 <= j < indices.Length ==> indices[j] == 0
  {
    WrittenCount(i, n, lineLoop);
    BlockCopy(U16(i), indices, ii);
    Extended(indices[..], ii, PairBytes(i, n, lineLoop), U16(i));
    BlockCopy(U16(i + 1), indices, ii + UshortSize);
    Extended(indices[..], ii + UshortSize, PairBytes(i, n, lineLoop) + U16(i), U16(i + 1));
  }

  /** The vertex and index arrays AddLines builds (GltfExtensions.cs:1308-1330). */
  method EncodeLines(vertices: seq<Vec3>, lineLoop: bool) returns (vBytes: seq<byte>, iBytes: seq<byte>)
    ensures vBytes == PointBytes(vertices)
    ensures iBytes == LineIndexBytes(|vertices|, lineLoop)
  {
    var n := |vertices|;
    var vBuff := NewBytes(n * 3 * FloatSize);
    var indices := NewBytes(n * 2 * UshortSize);
    var vi := 0;
    var ii := 0;
    for i := 0 to n
      invariant vi == 12 * i && ii == 4 * Written(i, n, lineLoop)
      invariant vBuff[..vi] == PointBytes(vertices[..i])
      invariant indices[..ii] == PairBytes(i, n, lineLoop)
      invariant forall j :: ii <= j < indices.Length ==> indices[j] == 0
    {
      WritePoint(vBuff, vertices, i);
      vi := vi + 3 * FloatSize;
      if Writes(i, n, lineLoop) {
        WritePair(indices, i, n, lineLoop, ii);
        ii := ii + 2 * UshortSize;
      }
    }
    assert vertices[..n] == vertices;
    assert vBuff[..] == vBuff[..vi];
    vBytes := vBuff[..];
    iBytes := indices[..];
    LineArrayDone(iBytes, ii, n, lineLoop);
  }

  /** After the loop, the index array is the written pairs followed by the untouched zeros. */
  lemma LineArrayDone(a: seq<byte>, ii: nat, n: nat, lineLoop: bool)
    requires |a| == 4 * n && ii == 4 * Written(n, n, lineLoop)
    requires a[..ii] == PairBytes(n, n, lineLoop)
    requires forall j :: ii <= j < |a| ==> a[j] == 0
    ensures a == LineIndexBytes(n, lineLoop)
  {
    assert a == a[..ii] + a[ii..];
    assert a[ii..] == Zeros(4 * n - ii);
  }

  /** The vertex and index arrays AddPoints builds (GltfExtensions.cs:1348-1365). */
  method EncodePoints(vertices: seq<Vec3>) returns (vBytes: seq<byte>, iBytes: seq<byte>)
    ensures vBytes == PointBytes(vertices)
    ensures iBytes == PointIndexBytes(|vertices|)
  {
    var n := |vertices|;
    var vBuff := NewBytes(n * 3 * FloatSize);
    var indices := NewBytes(n * UshortSize);
    var vi := 0;
    var ii := 0;
    for i := 0 to n
      invariant vi == 12 * i && ii == 2 * i
      invariant vBuff[..vi] == PointBytes(vertices[..i])
      invariant indices[..ii] == PointIndexBytes(i)
    {
      WritePoint(vBuff, vertices, i);
      vi := vi + 3 * FloatSize;
      BlockCopy(U16(i), indices, ii);
      Extended(indices[..], ii, PointIndexBytes(i), U16(i));
      ii := ii + UshortSize;
    }
    assert vertices[..n] == vertices;
    assert vBuff[..] == vBuff[..vi];
    vBytes := vBuff[..];
    assert indices[..] == indices[..ii];
    iBytes := indices[..];
  }
}
