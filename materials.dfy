/** The material side of the document: the image library, the effect of each
    material (its surface/sampler parameters and its Phong block) and the
    material library. */
module Materials {
  import opened Scene

  /** The name the converter gives each kind of texture map. */
  function KindName(k: TextureKind): string
  {
    match k
    case Diffuse => "diffuse"
    case Normal => "normal"
    case Specular => "specular"
    case Reflection => "reflection"
    case Highlight => "highlight"
    case Glow => "glow"
    case Night => "night"
    case Detail => "detail"
    case Shadow => "shadow"
  }

  /** The order in which every material's flags are tested. */
  const KindOrder: seq<TextureKind> :=
    [Diffuse, Normal, Specular, Reflection, Highlight, Glow, Night, Detail, Shadow]

  /** The kinds of `ks` that belong to `maps`, in the order of `ks`. */
  function Present(ks: seq<TextureKind>, maps: set<TextureKind>): (r: seq<TextureKind>)
    ensures |r| <= |ks|
  {
    if |ks| == 0 then []
    else
      var rest := Present(ks[..|ks| - 1], maps);
      if ks[|ks| - 1] in maps then rest + [ks[|ks| - 1]] else rest
  }

  /** The kinds a material carries, in the fixed kind order. */
  function MapsOf(m: Material): seq<TextureKind>
  {
    Present(KindOrder, m.maps)
  }

  /** `<material>-<kind>-<suffix>`: the id scheme of images, surfaces and samplers. */
  function TextureId(materialName: string, k: TextureKind, suffix: string): string
  {
    materialName + "-" + KindName(k) + "-" + suffix
  }

  /** The image ids one material contributes to the image library. */
  function ImageIds(m: Material): (r: seq<string>)
    ensures |r| == |MapsOf(m)|
  {
    var ks := MapsOf(m);
    seq(|ks|, i requires 0 <= i < |ks| => TextureId(m.name, ks[i], "image"))
  }

  /** The image library: every material's images, material by material. */
  function LibraryImages(ms: seq<Material>): seq<string>
  {
    if |ms| == 0 then [] else LibraryImages(ms[..|ms| - 1]) + ImageIds(ms[|ms| - 1])
  }

  /** A `newparam` of an effect: a surface reading an image, or a sampler reading a surface. */
  datatype EffectParam = Surface(sid: string, image: string) | Sampler(sid: string, surface: string)

  /** The surface and sampler parameters for one kind of map. */
  function KindParams(name: string, k: TextureKind): seq<EffectParam>
  {
    [Surface(TextureId(name, k, "surface"), TextureId(name, k, "image")),
     Sampler(TextureId(name, k, "sampler"), TextureId(name, k, "surface"))]
  }

  function ParamsFor(name: string, ks: seq<TextureKind>): (r: seq<EffectParam>)
    ensures |r| == 2 * |ks|
  {
    if |ks| == 0 then [] else ParamsFor(name, ks[..|ks| - 1]) + KindParams(name, ks[|ks| - 1])
  }

  /** A child of the Phong block: a texture reference or a colour. */
  datatype PhongChild = TextureChild(element: string, texture: string) | ColorChild(element: string)

  /** `CreatePhongChildXmlElement`: a texture reading the sampler of the
      given kind when `useTexture`, the material's colour otherwise. */
  function PhongChildOf(name: string, element: string, textureType: string, useTexture: bool): PhongChild
  {
    if useTexture then TextureChild(element, name + "-" + textureType + "-sampler") else ColorChild(element)
  }

  /** `CreatePhongXmlElement`: emission (glow map), ambient (always a colour),
      diffuse (diffuse map), specular (specular map). */
  function Phong(m: Material): seq<PhongChild>
  {
    [PhongChildOf(m.name, "emission", "glow", Glow in m.maps),
     PhongChildOf(m.name, "ambient", "ambient", false),
     PhongChildOf(m.name, "diffuse", "diffuse", Diffuse in m.maps),
     PhongChildOf(m.name, "specular", "specular", Specular in m.maps)]
  }

  datatype Effect = Effect(id: string, name: string, params: seq<EffectParam>, phong: seq<PhongChild>)

  /** `CreateEffectXmlElement`. */
  function CreateEffect(m: Material): Effect
  {
    Effect(m.name + "-fx", m.name, ParamsFor(m.name, MapsOf(m)), Phong(m))
  }

  /** An entry of the material library: its id and the url of its effect. */
  datatype MaterialEntry = MaterialEntry(id: string, effectUrl: string)

  function CreateMaterial(m: Material): MaterialEntry
  {
    MaterialEntry(m.name, "#" + m.name + "-fx")
  }

  /** The effect library: one effect per material, in material order. */
  function LibraryEffects(ms: seq<Material>): (r: seq<Effect>)
    ensures |r| == |ms|
  {
    seq(|ms|, i requires 0 <= i < |ms| => CreateEffect(ms[i]))
  }

  /** The material library: one entry per material, in material order. */
  function LibraryMaterials(ms: seq<Material>): (r: seq<MaterialEntry>)
    ensures |r| == |ms|
  {
    seq(|ms|, i requires 0 <= i < |ms| => CreateMaterial(ms[i]))
  }

  /** `CreateLibraryImagesXmlElement`: the images of every material, material
      by material, each material's in the fixed kind order. */
  method CreateLibraryImages(ms: seq<Material>) returns (images: seq<string>)
    ensures images == LibraryImages(ms)
  {
    images := [];
    for i := 0 to |ms|
      invariant images == LibraryImages(ms[..i])
    {
      assert ms[..i + 1][..i] == ms[..i];
      images := images + ImageIds(ms[i]);
    }
    assert ms[..|ms|] == ms;
  }

  /** `CreateLibraryEffectsXmlElement`. */
  method CreateLibraryEffects(ms: seq<Material>) returns (effects: seq<Effect>)
    ensures effects == LibraryEffects(ms)
  {
    effects := [];
    for i := 0 to |ms|
      invariant effects == LibraryEffects(ms[..i])
    {
      effects := effects + [CreateEffect(ms[i])];
    }
    assert ms[..|ms|] == ms;
  }

  /** `CreateLibraryMaterialsXmlElement`. */
  method CreateLibraryMaterials(ms: seq<Material>) returns (entries: seq<MaterialEntry>)
    ensures entries == LibraryMaterials(ms)
  {
    entries := [];
    for i := 0 to |ms|
      invariant entries == LibraryMaterials(ms[..i])
    {
      entries := entries + [CreateMaterial(ms[i])];
    }
    assert ms[..|ms|] == ms;
  }

  // ---------------------------------------------------------------------
  // Properties.

  function KindIndex(k: TextureKind): nat
  {
    match k
    case Diffuse => 0 case Normal => 1 case Specular => 2 case Reflection => 3 case Highlight => 4
    case Glow => 5 case Night => 6 case Detail => 7 case Shadow => 8
  }

  lemma KindOrderIndex(k: TextureKind)
    ensures KindIndex(k) < |KindOrder| && KindOrder[KindIndex(k)] == k
  {
  }

  lemma KindOrderSorted()
    ensures forall i, j :: 0 <= i < j < |KindOrder| ==> KindIndex(KindOrder[i]) < KindIndex(KindOrder[j])
  {
    forall i | 0 <= i < |KindOrder| ensures KindIndex(KindOrder[i]) == i {
    }
  }

  /** Kind names are pairwise different. */
  lemma KindNameInjective(a: TextureKind, b: TextureKind)
    requires KindName(a) == KindName(b)
    ensures a == b
  {
  }

  /** The middle part of a three-part concatenation is recovered by slicing. */
  lemma MiddleSlice(p: string, q: string, r: string)
    ensures p + q + r == p + (q + r)
    ensures |p + q + r| == |p| + |q| + |r|
    ensures (p + q + r)[|p|..|p| + |q|] == q
  {
    var s := p + q + r;
    assert forall i :: 0 <= i < |q| ==> s[|p| + i] == q[i];
  }

  /** A texture id is the kind name between the material name and the suffix. */
  lemma TextureIdParts(name: string, k: TextureKind, suffix: string)
    ensures TextureId(name, k, suffix) == (name + "-") + KindName(k) + ("-" + suffix)
  {
    var kn := KindName(k);
    assert name + "-" + kn + "-" + suffix == (name + "-") + kn + ("-" + suffix);
  }

  /** Different kinds give different ids, whatever the material name and suffix. */
  lemma TextureIdInjective(name: string, a: TextureKind, b: TextureKind, suffix: string)
    requires TextureId(name, a, suffix) == TextureId(name, b, suffix)
    ensures a == b
  {
    var head, tail := name + "-", "-" + suffix;
    MiddleSlice(head, KindName(a), tail);
    MiddleSlice(head, KindName(b), tail);
    TextureIdParts(name, a, suffix);
    TextureIdParts(name, b, suffix);
    KindNameInjective(a, b);
  }

  /** `Present` keeps exactly the kinds of the list that are in the set. */
  lemma {:induction false} PresentMembers(ks: seq<TextureKind>, maps: set<TextureKind>)
    ensures forall k :: k in Present(ks, maps) <==> k in ks && k in maps
  {
    if |ks| > 0 {
      PresentMembers(ks[..|ks| - 1], maps);
      assert ks == ks[..|ks| - 1] + [ks[|ks| - 1]];
    }
  }

  /** `Present` keeps the order of the list and holds no kind twice when the
      list holds none twice. */
  lemma {:induction false} PresentOrdered(ks: seq<TextureKind>, maps: set<TextureKind>)
    requires forall i, j :: 0 <= i < j < |ks| ==> KindIndex(ks[i]) < KindIndex(ks[j])
    ensures forall i, j :: 0 <= i < j < |Present(ks, maps)| ==>
      KindIndex(Present(ks, maps)[i]) < KindIndex(Present(ks, maps)[j])
  {
    if |ks| > 0 {
      var p := ks[..|ks| - 1];
      PresentOrdered(p, maps);
      PresentMembers(p, maps);
      var rest := Present(p, maps);
      var last := ks[|ks| - 1];
      forall k | k in rest ensures KindIndex(k) < KindIndex(last) {
        var i :| 0 <= i < |p| && p[i] == k;
      }
      var r := Present(ks, maps);
      if last in maps {
        forall i, j | 0 <= i < j < |r| ensures KindIndex(r[i]) < KindIndex(r[j]) {
          if j == |rest| {
            assert r[i] == rest[i] && r[j] == last;
            assert rest[i] in rest;
          } else {
            assert r[i] == rest[i] && r[j] == rest[j];
          }
        }
      } else {
        assert r == rest;
      }
    }
  }

  /** A material's images are exactly its flagged maps: the id of kind k is
      among them if and only if the material has that map. */
  lemma ImageIdsExactlyFlagged(m: Material, k: TextureKind)
    ensures TextureId(m.name, k, "image") in ImageIds(m) <==> k in m.maps
  {
    var ks := MapsOf(m);
    PresentMembers(KindOrder, m.maps);
    KindOrderIndex(k);
    if k in m.maps {
      var i :| 0 <= i < |ks| && ks[i] == k;
      assert ImageIds(m)[i] == TextureId(m.name, k, "image");
    }
    if TextureId(m.name, k, "image") in ImageIds(m) {
      var i :| 0 <= i < |ks| && ImageIds(m)[i] == TextureId(m.name, k, "image");
      TextureIdInjective(m.name, ks[i], k, "image");
      assert ks[i] in ks;
    }
  }

  /** A material's images come in the fixed kind order, and none repeats. */
  lemma ImageIdsInKindOrder(m: Material, i: nat, j: nat)
    requires i < j < |MapsOf(m)|
    ensures KindIndex(MapsOf(m)[i]) < KindIndex(MapsOf(m)[j])
    ensures ImageIds(m)[i] != ImageIds(m)[j]
  {
    KindOrderSorted();
    PresentOrdered(KindOrder, m.maps);
    var ks := MapsOf(m);
    assert ks == Present(KindOrder, m.maps);
    assert KindIndex(ks[i]) < KindIndex(ks[j]);
    if ImageIds(m)[i] == ImageIds(m)[j] {
      TextureIdInjective(m.name, MapsOf(m)[i], MapsOf(m)[j], "image");
    }
  }

  /** Parameter p of the effect, for kind number p / 2 of the material: even
      positions are surfaces, odd positions samplers. */
  lemma {:induction false} ParamsForAt(name: string, ks: seq<TextureKind>, p: nat)
    requires p < 2 * |ks|
    ensures ParamsFor(name, ks)[p] == KindParams(name, ks[p / 2])[p % 2]
  {
    var q := ks[..|ks| - 1];
    assert ParamsFor(name, ks) == ParamsFor(name, q) + KindParams(name, ks[|ks| - 1]);
    if p < 2 * |q| {
      ParamsForAt(name, q, p);
    }
  }

  /** The parameters for a list of kinds are wired up: every surface reads
      the image of its kind, and every sampler reads the surface declared just
      before it. */
  lemma ParamsWired(name: string, ks: seq<TextureKind>, p: nat)
    requires p < |ParamsFor(name, ks)|
    ensures var ps := ParamsFor(name, ks);
      && (ps[p].Surface? <==> p % 2 == 0)
      && (ps[p].Surface? ==> ps[p].image == TextureId(name, ks[p / 2], "image"))
      && (ps[p].Sampler? ==> ps[p - 1].Surface? && ps[p - 1].sid == ps[p].surface)
  {
    ParamsForAt(name, ks, p);
    if p % 2 == 1 {
      ParamsForAt(name, ks, p - 1);
    }
  }

  /** Every surface of a material's effect reads an image that the image
      library holds for that material. */
  lemma EffectSurfacesHaveImages(m: Material, p: nat)
    requires p < |CreateEffect(m).params| && CreateEffect(m).params[p].Surface?
    ensures CreateEffect(m).params[p].image in ImageIds(m)
  {
    var ks := MapsOf(m);
    ParamsWired(m.name, ks, p);
    assert ImageIds(m)[p / 2] == TextureId(m.name, ks[p / 2], "image");
  }

  /** A Phong child reads a texture exactly when the material has the map
      behind it (glow for emission, diffuse, specular; never for ambient). */
  lemma PhongTextureChoice(m: Material)
    ensures Phong(m)[0].TextureChild? <==> Glow in m.maps
    ensures Phong(m)[1].ColorChild?
    ensures Phong(m)[2].TextureChild? <==> Diffuse in m.maps
    ensures Phong(m)[3].TextureChild? <==> Specular in m.maps
    ensures forall c :: c in Phong(m) ==> c.TextureChild? ==>
      exists k :: k in m.maps && c.texture == TextureId(m.name, k, "sampler")
  {
    var ps := Phong(m);
    assert ps[0].TextureChild? ==> ps[0].texture == TextureId(m.name, Glow, "sampler");
    assert ps[2].TextureChild? ==> ps[2].texture == TextureId(m.name, Diffuse, "sampler");
    assert ps[3].TextureChild? ==> ps[3].texture == TextureId(m.name, Specular, "sampler");
  }

  /** The sampler of every map a material has is declared among the
      parameters of its effect, so a Phong texture never dangles. */
  lemma SamplerDeclared(m: Material, k: TextureKind) returns (p: nat)
    requires k in m.maps
    ensures p < |CreateEffect(m).params|
    ensures CreateEffect(m).params[p] == Sampler(TextureId(m.name, k, "sampler"), TextureId(m.name, k, "surface"))
  {
    var j := MapsOfIndex(m, k);
    p := 2 * j + 1;
    assert p / 2 == j && p % 2 == 1;
    ParamsForAt(m.name, MapsOf(m), p);
  }

  /** Where a flagged kind sits in the material's list of maps. */
  lemma MapsOfIndex(m: Material, k: TextureKind) returns (j: nat)
    requires k in m.maps
    ensures j < |MapsOf(m)| && MapsOf(m)[j] == k
  {
    PresentMembers(KindOrder, m.maps);
    KindOrderIndex(k);
    assert k in MapsOf(m);
    j :| j < |MapsOf(m)| && MapsOf(m)[j] == k;
  }

  /** Every entry of the material library is named after its material and
      its effect url resolves in the effect library: it names the effect at
      the same position, and any other effect only when that effect's
      material has the same name. */
  lemma MaterialsResolveEffects(ms: seq<Material>, i: nat)
    requires i < |ms|
    ensures LibraryMaterials(ms)[i].id == ms[i].name
    ensures LibraryMaterials(ms)[i].effectUrl == "#" + LibraryEffects(ms)[i].id
    ensures forall j :: 0 <= j < |ms| ==>
      ("#" + LibraryEffects(ms)[j].id == LibraryMaterials(ms)[i].effectUrl <==> ms[j].name == ms[i].name)
  {
    var url := LibraryMaterials(ms)[i].effectUrl;
    assert url == "#" + (ms[i].name + "-fx");
    forall j | 0 <= j < |ms| && "#" + LibraryEffects(ms)[j].id == url
      ensures ms[j].name == ms[i].name
    {
      var x, y := ms[j].name + "-fx", ms[i].name + "-fx";
      assert x == ("#" + x)[1..] == url[1..] == y;
      assert ms[j].name == x[..|x| - 3] && ms[i].name == y[..|y| - 3];
    }
  }

  /** The image library holds nothing else: every image names a map that
      some material carries. */
  lemma {:induction false} LibraryImagesSources(ms: seq<Material>, g: nat) returns (i: nat, k: TextureKind)
    requires g < |LibraryImages(ms)|
    ensures i < |ms| && k in ms[i].maps
    ensures LibraryImages(ms)[g] == TextureId(ms[i].name, k, "image")
  {
    var last := |ms| - 1;
    var front := LibraryImages(ms[..last]);
    if g < |front| {
      i, k := LibraryImagesSources(ms[..last], g);
    } else {
      var ks := MapsOf(ms[last]);
      PresentMembers(KindOrder, ms[last].maps);
      i, k := last, ks[g - |front|];
      assert k in ks;
    }
  }

  /** The image library is the materials' images, material by material. */
  lemma {:induction false} LibraryImagesMembers(ms: seq<Material>, i: nat, k: TextureKind)
    requires i < |ms| && k in ms[i].maps
    ensures TextureId(ms[i].name, k, "image") in LibraryImages(ms)
  {
    var last := |ms| - 1;
    if i < last {
      LibraryImagesMembers(ms[..last], i, k);
    } else {
      ImageIdsExactlyFlagged(ms[i], k);
    }
  }
}
