/**
 * AddMaterials (GltfExtensions.cs:93-235) on values: one step per input
 * material, deduplicated by name, with texture images stored once per path.
 * GltfBuilder.Builder.AddMaterials is proved to compute MaterialsFold.
 */
module Materials {
  import opened Wrappers
  import opened Bytes
  import opened Geometry
  import opened GltfSchema
  import opened GltfLayout

  /** An Elements material, reduced to what the serializer reads. */
  datatype MaterialInput = MaterialInput(
    name: string, color: Color, specularFactor: real, glossinessFactor: real,
    doubleSided: bool, unlit: bool, texture: Option<string>)

  /**
   * The file system as the serializer sees it: File.Exists, and the PNG bytes
   * of a texture after ImageSharp loads it, flips it vertically and encodes it.
   */
  datatype Files = Files(present: string -> bool, png: string -> seq<byte>)

  /** The exception AddMaterials raises: a dictionary lookup on a missing key. */
  datatype MaterialError = KeyNotFound(key: string)

  /** `material.Color.Alpha < 1.0` selects BLEND, anything else OPAQUE. */
  function AlphaOf(c: Color): (a: AlphaMode)
    ensures a == Blend <==> c.alpha < 1.0
  {
    if c.alpha < 1.0 then Blend else Opaque
  }

  /**
   * The glTF material for an input material and its texture, if any. The base
   * color texture is set whenever there is a texture; the specular-glossiness
   * extension carries it as its diffuse texture; an unlit material gets
   * KHR_materials_unlit and nothing else (see UnlitTextureAsWritten for what
   * the source does instead).
   */
  function Translate(m: MaterialInput, tex: Option<TextureInfo>): (r: Material)
    ensures r.name == m.name && r.baseColor == m.color && r.doubleSided == m.doubleSided && r.metallic == 1.0
    ensures r.baseColorTexture == tex
    ensures r.alphaMode == Blend <==> m.color.alpha < 1.0
    ensures r.extension.Unlit? <==> m.unlit
    ensures r.extension.SpecularGlossiness? ==> r.extension.diffuseTexture == tex
  {
    var ext := if m.unlit then Unlit
               else SpecularGlossiness(m.color, m.specularFactor, m.glossinessFactor, tex);
    Material(m.name, m.color, 1.0, m.doubleSided, tex, ext, AlphaOf(m.color))
  }

  /**
   * Everything AddMaterials has built so far: the name-to-index dictionary,
   * the materials, the path-to-texture dictionary, textures, images and
   * samplers, and the shared buffer and buffer views.
   */
  datatype MatState = MatState(
    dict: map<string, nat>, materials: seq<Material>,
    texDict: map<string, nat>, textures: seq<Texture>, images: seq<Image>, samplers: seq<Sampler>,
    buffer: seq<byte>, views: seq<BufferView>)

  /** The state before the first material, over the document's buffer and views. */
  function MatStart(buffer: seq<byte>, views: seq<BufferView>): MatState
  {
    MatState(map[], [], map[], [], [], [], buffer, views)
  }

  /** Whether the material's texture is used: it names a file that exists. */
  predicate HasTexture(m: MaterialInput, files: Files)
  {
    m.texture.Some? && files.present(m.texture.value)
  }

  /**
   * A new texture for `path`: its PNG bytes get a buffer view at the current
   * buffer length and are padded; one image, one sampler and one texture are
   * added, the texture naming the new image and sampler.
   */
  function AddTexture(st: MatState, path: string, files: Files): MatState
  {
    var bytes := files.png(path);
    st.(views := st.views + [BufferView(0, |st.buffer|, |bytes|)],
        buffer := Padded(st.buffer + bytes),
        images := st.images + [Image(|st.views|)],
        samplers := st.samplers + [LinearRepeat],
        textures := st.textures + [Texture(|st.images|, |st.samplers|)],
        texDict := st.texDict[path := |st.textures|])
  }

  /** The texture a new material gets, and the state after adding it when the path is new. */
  function TextureFor(st: MatState, m: MaterialInput, files: Files): (MatState, Option<TextureInfo>)
  {
    if !HasTexture(m, files) then (st, None)
    else
      var path := m.texture.value;
      if path in st.texDict then (st, Some(TextureInfo(st.texDict[path], 0)))
      else (AddTexture(st, path, files), Some(TextureInfo(|st.textures|, 0)))
  }

  /** One iteration of the material loop: a name already seen is skipped (GltfExtensions.cs:111-114). */
  function MaterialStep(st: MatState, m: MaterialInput, files: Files): MatState
  {
    if m.name in st.dict then st
    else
      var (next, tex) := TextureFor(st, m, files);
      next.(materials := next.materials + [Translate(m, tex)],
            dict := next.dict[m.name := |st.materials|])
  }

  /** The loop over all input materials, in order. */
  function MaterialsFold(st: MatState, ms: seq<MaterialInput>, files: Files): MatState
    decreases |ms|
  {
    if ms == [] then st
    else MaterialStep(MaterialsFold(st, ms[..|ms| - 1], files), ms[|ms| - 1], files)
  }

  // ---------------------------------------------------------------------------
  // One step
  // ---------------------------------------------------------------------------

  /**
   * A material whose name was seen changes nothing. A new one is appended,
   * keyed by its name at its position, built from the input; a texture path
   * already seen reuses its texture and adds no image, sampler or bytes; a new
   * path adds exactly one texture, image and sampler, its PNG at the old
   * buffer length; no existing file means no texture at all.
   */
  lemma StepEffect(st: MatState, m: MaterialInput, files: Files)
    ensures m.name in st.dict ==> MaterialStep(st, m, files) == st
    ensures m.name !in st.dict ==>
      var r := MaterialStep(st, m, files);
      var mat := r.materials[|st.materials|];
      && |r.materials| == |st.materials| + 1
      && r.materials[..|st.materials|] == st.materials
      && r.dict == st.dict[m.name := |st.materials|]
      && mat.name == m.name && mat.alphaMode == AlphaOf(m.color) && (mat.extension.Unlit? <==> m.unlit)
      && (!HasTexture(m, files) ==> mat.baseColorTexture.None? && r == st.(materials := r.materials, dict := r.dict))
      && (HasTexture(m, files) && m.texture.value in st.texDict ==>
            mat.baseColorTexture == Some(TextureInfo(st.texDict[m.texture.value], 0)) &&
            r == st.(materials := r.materials, dict := r.dict))
      && (HasTexture(m, files) && m.texture.value !in st.texDict ==>
            var png := files.png(m.texture.value);
            && mat.baseColorTexture == Some(TextureInfo(|st.textures|, 0))
            && r.textures == st.textures + [Texture(|st.images|, |st.samplers|)]
            && r.images == st.images + [Image(|st.views|)]
            && r.samplers == st.samplers + [LinearRepeat]
            && r.views == st.views + [BufferView(0, |st.buffer|, |png|)]
            && r.buffer == Padded(st.buffer + png)
            && r.texDict == st.texDict[m.texture.value := |st.textures|])
  {
  }

  // ---------------------------------------------------------------------------
  // The whole loop
  // ---------------------------------------------------------------------------

  /**
   * What the loop keeps: the dictionary is exactly the inverse of the
   * material names (so names are distinct and each maps to its position);
   * textures, images and samplers grow in lockstep, texture k using image k
   * and sampler k; every texture index in use names a texture; every image's
   * view exists.
   */
  ghost predicate MatWf(st: MatState)
  {
    NamesWf(st.dict, st.materials) && TexturesWf(st) && TextureRefsWf(st.materials, |st.textures|)
  }

  /** The dictionary is exactly the inverse of the material names. */
  ghost predicate NamesWf(dict: map<string, nat>, materials: seq<Material>)
  {
    && (forall name :: name in dict ==> dict[name] < |materials| && materials[dict[name]].name == name)
    && (forall k :: 0 <= k < |materials| ==> materials[k].name in dict && dict[materials[k].name] == k)
  }

  /** Textures, images and samplers in lockstep; the texture dictionary and the images refer to existing entries. */
  ghost predicate TexturesWf(st: MatState)
  {
    && |st.textures| == |st.images| == |st.samplers|
    && (forall k :: 0 <= k < |st.textures| ==> st.textures[k] == Texture(k, k))
    && (forall path :: path in st.texDict ==> st.texDict[path] < |st.textures|)
    && (forall k :: 0 <= k < |st.images| ==> st.images[k].bufferView < |st.views|)
  }

  /** Every texture a material uses is one of the first `n` textures. */
  ghost predicate TextureRefsWf(materials: seq<Material>, n: nat)
  {
    forall k :: 0 <= k < |materials| && materials[k].baseColorTexture.Some? ==>
      materials[k].baseColorTexture.value.index < n
  }

  lemma TextureForKeepsWf(st: MatState, m: MaterialInput, files: Files)
    requires TexturesWf(st)
    ensures var (next, tex) := TextureFor(st, m, files);
      && TexturesWf(next) && |st.textures| <= |next.textures|
      && next.materials == st.materials && next.dict == st.dict
      && (tex.Some? ==> tex.value.index < |next.textures|)
  {
  }

  lemma NamesKeepWf(dict: map<string, nat>, materials: seq<Material>, mat: Material)
    requires NamesWf(dict, materials) && mat.name !in dict
    ensures NamesWf(dict[mat.name := |materials|], materials + [mat])
  {
    var r := materials + [mat];
    forall k | 0 <= k < |r|
      ensures r[k].name in dict[mat.name := |materials|] && dict[mat.name := |materials|][r[k].name] == k
    {
      if k < |materials| {
        assert r[k] == materials[k];
      }
    }
  }

  lemma StepKeepsWf(st: MatState, m: MaterialInput, files: Files)
    requires MatWf(st)
    ensures MatWf(MaterialStep(st, m, files))
  {
    if m.name !in st.dict {
      var (next, tex) := TextureFor(st, m, files);
      TextureForKeepsWf(st, m, files);
      NamesKeepWf(st.dict, st.materials, Translate(m, tex));
      var r := MaterialStep(st, m, files);
      assert r.materials == st.materials + [Translate(m, tex)];
      assert TextureRefsWf(r.materials, |r.textures|) by {
        forall k | 0 <= k < |r.materials| && r.materials[k].baseColorTexture.Some?
          ensures r.materials[k].baseColorTexture.value.index < |r.textures|
        {
          if k < |st.materials| {
            assert r.materials[k] == st.materials[k];
          }
        }
      }
    }
  }

  /** The names in the dictionary after the loop are exactly the names of the input materials. */
  lemma {:induction false} FoldNames(st: MatState, ms: seq<MaterialInput>, files: Files, name: string)
    requires st.dict == map[]
    ensures name in MaterialsFold(st, ms, files).dict <==> exists i :: 0 <= i < |ms| && ms[i].name == name
    decreases |ms|
  {
    if ms != [] {
      var p := ms[..|ms| - 1];
      FoldNames(st, p, files, name);
      if exists i :: 0 <= i < |p| && p[i].name == name {
        var i :| 0 <= i < |p| && p[i].name == name;
        assert ms[i].name == name;
      }
      if exists i :: 0 <= i < |ms| && ms[i].name == name {
        var i :| 0 <= i < |ms| && ms[i].name == name;
        if i < |p| { assert p[i].name == name; }
      }
    }
  }

  /** The loop keeps MatWf from the start state. */
  lemma {:induction false} FoldWf(buffer: seq<byte>, views: seq<BufferView>, ms: seq<MaterialInput>, files: Files)
    ensures MatWf(MaterialsFold(MatStart(buffer, views), ms, files))
    decreases |ms|
  {
    if ms != [] {
      FoldWf(buffer, views, ms[..|ms| - 1], files);
      StepKeepsWf(MaterialsFold(MatStart(buffer, views), ms[..|ms| - 1], files), ms[|ms| - 1], files);
    }
  }

  /** The positions of the first material of each name, in input order. */
  function FirstOccurrences(ms: seq<MaterialInput>): (r: seq<nat>)
    ensures forall k :: 0 <= k < |r| ==> r[k] < |ms|
    decreases |ms|
  {
    if ms == [] then []
    else
      var p := ms[..|ms| - 1];
      FirstOccurrences(p) + (if exists i :: 0 <= i < |p| && p[i].name == ms[|ms| - 1].name then [] else [|ms| - 1])
  }

  /** The glTF material `mat` was built from input `m`. */
  ghost predicate BuiltFrom(mat: Material, m: MaterialInput)
  {
    mat.name == m.name && mat.baseColor == m.color && mat.doubleSided == m.doubleSided &&
    mat.alphaMode == AlphaOf(m.color) && (mat.extension.Unlit? <==> m.unlit)
  }

  /**
   * First occurrence wins: the k-th material is built from the first input
   * material with its name, and the materials come in the order of those
   * first occurrences.
   */
  lemma {:induction false} FoldFirstOccurrence(buffer: seq<byte>, views: seq<BufferView>, ms: seq<MaterialInput>, files: Files)
    ensures var r := MaterialsFold(MatStart(buffer, views), ms, files);
      var first := FirstOccurrences(ms);
      |r.materials| == |first| && forall k :: 0 <= k < |first| ==> BuiltFrom(r.materials[k], ms[first[k]])
    decreases |ms|
  {
    if ms != [] {
      var p := ms[..|ms| - 1];
      var m := ms[|ms| - 1];
      var st := MaterialsFold(MatStart(buffer, views), p, files);
      FoldFirstOccurrence(buffer, views, p, files);
      FoldNames(MatStart(buffer, views), p, files, m.name);
      StepEffect(st, m, files);
      var first := FirstOccurrences(ms);
      assert forall k :: 0 <= k < |FirstOccurrences(p)| ==> ms[FirstOccurrences(p)[k]] == p[FirstOccurrences(p)[k]];
      assert first[..|FirstOccurrences(p)|] == FirstOccurrences(p);
    }
  }

  /**
   * The returned dictionary sends each distinct input name to the position
   * of its material, and holds no other name.
   */
  lemma DictionaryOfNames(buffer: seq<byte>, views: seq<BufferView>, ms: seq<MaterialInput>, files: Files)
    ensures var r := MaterialsFold(MatStart(buffer, views), ms, files);
      && (forall i :: 0 <= i < |ms| ==>
            ms[i].name in r.dict && r.dict[ms[i].name] < |r.materials| && r.materials[r.dict[ms[i].name]].name == ms[i].name)
      && (forall name :: name in r.dict ==> exists i :: 0 <= i < |ms| && ms[i].name == name)
  {
    var r := MaterialsFold(MatStart(buffer, views), ms, files);
    FoldWf(buffer, views, ms, files);
    forall i | 0 <= i < |ms|
      ensures ms[i].name in r.dict
    {
      FoldNames(MatStart(buffer, views), ms, files, ms[i].name);
    }
    forall name | name in r.dict
      ensures exists i :: 0 <= i < |ms| && ms[i].name == name
    {
      FoldNames(MatStart(buffer, views), ms, files, name);
    }
  }

  // ---------------------------------------------------------------------------
  // The buffer the loop shares with the document
  // ---------------------------------------------------------------------------

  /** Every buffer view lies inside buffer 0, which holds `buffer`. */
  ghost predicate ViewsInside(views: seq<BufferView>, buffer: seq<byte>)
  {
    forall j :: 0 <= j < |views| ==> views[j].buffer == 0 && views[j].byteOffset + views[j].byteLength <= |buffer|
  }

  /**
   * The loop only appends to the buffer and the views, and every view it
   * adds covers bytes it appended: views inside the buffer stay inside.
   */
  lemma {:induction false} FoldViewsInside(st: MatState, ms: seq<MaterialInput>, files: Files)
    requires ViewsInside(st.views, st.buffer)
    ensures var r := MaterialsFold(st, ms, files);
      && ViewsInside(r.views, r.buffer)
      && |st.buffer| <= |r.buffer| && r.buffer[..|st.buffer|] == st.buffer
      && |st.views| <= |r.views| && r.views[..|st.views|] == st.views
    decreases |ms|
  {
    if ms != [] {
      FoldViewsInside(st, ms[..|ms| - 1], files);
      var mid := MaterialsFold(st, ms[..|ms| - 1], files);
      var m := ms[|ms| - 1];
      if m.name !in mid.dict && HasTexture(m, files) && m.texture.value !in mid.texDict {
        var next := AddTexture(mid, m.texture.value, files);
        assert next.buffer[..|mid.buffer|] == mid.buffer;
        assert next.buffer[..|st.buffer|] == mid.buffer[..|st.buffer|];
        assert next.views[..|st.views|] == mid.views[..|st.views|];
      }
    }
  }

  /** Without a texture file to load, the loop adds no bytes, views, textures, images or samplers. */
  lemma {:induction false} FoldWithoutTextures(st: MatState, ms: seq<MaterialInput>, files: Files)
    requires forall i :: 0 <= i < |ms| ==> !HasTexture(ms[i], files)
    ensures var r := MaterialsFold(st, ms, files);
      r.buffer == st.buffer && r.views == st.views && r.textures == st.textures
      && r.images == st.images && r.samplers == st.samplers
    decreases |ms|
  {
    if ms != [] {
      FoldWithoutTextures(st, ms[..|ms| - 1], files);
    }
  }

  // ---------------------------------------------------------------------------
  // The unlit-with-texture exception
  // ---------------------------------------------------------------------------

  /**
   * One iteration as written: for a new unlit material whose texture exists,
   * `m.Extensions["KHR_materials_pbrSpecularGlossiness"]` is looked up in a
   * dictionary that only holds "KHR_materials_unlit" (GltfExtensions.cs:125-149)
   * and throws; otherwise it is MaterialStep.
   */
  function MaterialStepAsWritten(st: MatState, m: MaterialInput, files: Files): Result<MatState, MaterialError>
  {
    if m.name !in st.dict && m.unlit && HasTexture(m, files) then Failure(KeyNotFound(PbrSpecularGlossiness))
    else Ok(MaterialStep(st, m, files))
  }

  /** The loop as written, stopping at the first exception. */
  function MaterialsFoldAsWritten(st: MatState, ms: seq<MaterialInput>, files: Files): Result<MatState, MaterialError>
    decreases |ms|
  {
    if ms == [] then Ok(st)
    else
      match MaterialsFoldAsWritten(st, ms[..|ms| - 1], files)
      case Failure(e) => Failure(e)
      case Ok(mid) => MaterialStepAsWritten(mid, ms[|ms| - 1], files)
  }

  /** A material that triggers the exception: new, unlit, with an existing texture. */
  predicate UnlitWithTexture(m: MaterialInput, files: Files)
  {
    m.unlit && HasTexture(m, files)
  }

  /**
   * Where no unlit material has an existing texture, the loop as written and
   * the corrected loop agree.
   */
  lemma {:induction false} AsWrittenAgrees(st: MatState, ms: seq<MaterialInput>, files: Files)
    requires forall i :: 0 <= i < |ms| ==> !UnlitWithTexture(ms[i], files)
    ensures MaterialsFoldAsWritten(st, ms, files) == Ok(MaterialsFold(st, ms, files))
    decreases |ms|
  {
    if ms != [] {
      AsWrittenAgrees(st, ms[..|ms| - 1], files);
    }
  }

  /**
   * The input that shows the exception: a single unlit material whose texture
   * file exists makes AddMaterials throw, where the corrected loop gives the
   * material its base color texture and keeps KHR_materials_unlit.
   */
  lemma UnlitTextureAsWritten(buffer: seq<byte>, views: seq<BufferView>, png: seq<byte>)
    ensures var m := MaterialInput("glass", Color(1.0, 1.0, 1.0, 1.0), 0.0, 0.0, false, true, Some("glass.png"));
      var files := Files(_ => true, _ => png);
      && MaterialsFoldAsWritten(MatStart(buffer, views), [m], files) == Failure(KeyNotFound(PbrSpecularGlossiness))
      && var r := MaterialsFold(MatStart(buffer, views), [m], files);
         r.materials[0].baseColorTexture == Some(TextureInfo(0, 0)) && r.materials[0].extension == Unlit
  {
    var m := MaterialInput("glass", Color(1.0, 1.0, 1.0, 1.0), 0.0, 0.0, false, true, Some("glass.png"));
    var files := Files(_ => true, _ => png);
    assert [m][..0] == [];
  }

  /**
   * The corrected loop never fails, and an unlit material with an existing
   * texture keeps KHR_materials_unlit and gets its texture as base color
   * texture.
   */
  lemma UnlitTextureCorrected(st: MatState, m: MaterialInput, files: Files)
    requires m.name !in st.dict && UnlitWithTexture(m, files)
    ensures var r := MaterialStep(st, m, files);
      var mat := r.materials[|st.materials|];
      mat.extension == Unlit && mat.baseColorTexture.Some?
  {
    StepEffect(st, m, files);
  }
}
