/**
 * `ModelIOMesh.init(withUrl:device:mtlVertexDescriptor:attributeMap:)`: the first mesh of a Model
 * I/O asset, with the base-colour and specular textures of its submeshes' materials, each texture
 * URL loaded at most once through a cache. The asset's objects are an input and so is the texture
 * loader, as a function from URL to the texture it returns (or none when it throws).
 */
module ModelIOMesh {
  import opened Common
  import Attributes
  import Encoder

  type Url = string

  /** The two material properties the initialiser reads, each a URL when present. */
  datatype Material = Material(baseColor: Option<Url>, specular: Option<Url>)

  /** An entry of `submeshes`: an `MDLSubmesh` with its name and optional material, or anything else. */
  datatype SubmeshEntry = NotSubmesh | MDLSubmesh(name: string, material: Option<Material>)

  /** An object of the asset: an `MDLMesh` with its submesh entries, or any other object. */
  datatype AssetObject = MeshObject(submeshes: seq<SubmeshEntry>) | OtherObject

  /**
   * The texture state: the cache by URL, the dictionaries by submesh name, and the URLs the
   * texture loader was called with, in order.
   */
  datatype Textures = Textures(
    cache: map<Url, Encoder.TextureId>,
    baseColor: map<string, Encoder.TextureId>,
    specular: map<string, Encoder.TextureId>,
    loads: seq<Url>)

  const NoTextures := Textures(map[], map[], map[], [])

  /**
   * The texture for `url`: the cached one, or a fresh load that is then cached; a load that throws
   * leaves the cache without the URL, and the force-unwrap that follows traps.
   */
  function Cached(t: Textures, url: Url, load: Url -> Option<Encoder.TextureId>): (r: Result<Textures>)
    ensures url in t.cache ==> r == Ok(t)
    ensures url !in t.cache ==> (r.Ok? <==> load(url).Some?)
    ensures r.Err? ==> r.error == Trap
    ensures r.Ok? ==> url in r.value.cache && r.value.baseColor == t.baseColor && r.value.specular == t.specular
    ensures r.Ok? && url !in t.cache ==> r.value.cache == t.cache[url := load(url).value] && r.value.loads == t.loads + [url]
  {
    if url in t.cache then Ok(t)
    else if load(url).Some? then Ok(t.(cache := t.cache[url := load(url).value], loads := t.loads + [url]))
    else Err(Trap)
  }

  /** One submesh with a material: its base colour, then its specular texture, each when it has a URL. */
  function SubmeshTextures(t: Textures, name: string, m: Material, load: Url -> Option<Encoder.TextureId>): Result<Textures> {
    var afterBase :=
      if m.baseColor.None? then Ok(t)
      else match Cached(t, m.baseColor.value, load) {
        case Err(e) => Err(e)
        case Ok(t1) => Ok(t1.(baseColor := t1.baseColor[name := t1.cache[m.baseColor.value]]))
      };
    if afterBase.Err? || m.specular.None? then afterBase
    else match Cached(afterBase.value, m.specular.value, load) {
      case Err(e) => Err(e)
      case Ok(t2) => Ok(t2.(specular := t2.specular[name := t2.cache[m.specular.value]]))
    }
  }

  /** The loop stops at an entry that is not a submesh or has no material. */
  predicate Breaks(e: SubmeshEntry) {
    e.NotSubmesh? || e.material.None?
  }

  /** The submesh loop from entry k on: it stops at the end, at a breaking entry, or at a trap. */
  function SubmeshesTextures(t: Textures, entries: seq<SubmeshEntry>, k: nat, load: Url -> Option<Encoder.TextureId>): Result<Textures>
    decreases |entries| - k
  {
    if k >= |entries| || Breaks(entries[k]) then Ok(t)
    else match SubmeshTextures(t, entries[k].name, entries[k].material.value, load) {
      case Err(e) => Err(e)
      case Ok(t1) => SubmeshesTextures(t1, entries, k + 1, load)
    }
  }

  /** The index of the first `MDLMesh` among the asset's objects. */
  function FirstMesh(objects: seq<AssetObject>): (r: Option<nat>)
    ensures r.Some? ==> r.value < |objects| && objects[r.value].MeshObject?
                        && forall j :: 0 <= j < r.value ==> objects[j].OtherObject?
    ensures r.None? ==> forall j :: 0 <= j < |objects| ==> objects[j].OtherObject?
  {
    if |objects| == 0 then None
    else if objects[0].MeshObject? then Some(0)
    else match FirstMesh(objects[1..]) {
      case None => None
      case Some(i) => Some(i + 1)
    }
  }

  /** The loaded model: the chosen mesh, the names given to the vertex descriptor, and the textures. */
  class ModelIOMesh {
    var mesh: Option<nat>
    var names: Attributes.AttributesMap
    var texturesCache: map<Url, Encoder.TextureId>
    var baseColorTextures: map<string, Encoder.TextureId>
    var specularTextures: map<string, Encoder.TextureId>
    /** The URLs the texture loader has been called with, in order. */
    var loads: seq<Url>

    function State(): Textures
      reads this
    {
      Textures(texturesCache, baseColorTextures, specularTextures, loads)
    }

    /** The stored properties before the loop: no mesh, empty dictionaries, empty cache. */
    constructor (attrs: Attributes.AttributesMap)
      ensures mesh.None? && names == attrs && State() == NoTextures
    {
      mesh := None;
      names := attrs;
      texturesCache := map[];
      baseColorTextures := map[];
      specularTextures := map[];
      loads := [];
    }

    /** The cache lookup and, on a miss, the load: `texturesCache[url]!` afterwards. */
    method CachedTexture(url: Url, load: Url -> Option<Encoder.TextureId>) returns (r: Result<Encoder.TextureId>)
      modifies this
      ensures Cached(old(State()), url, load).Err? ==> r == Err(Trap)
      ensures Cached(old(State()), url, load).Ok? ==>
                State() == Cached(old(State()), url, load).value && r == Ok(texturesCache[url])
      ensures mesh == old(mesh) && names == old(names)
    {
      if url !in texturesCache {
        var texture := load(url);
        loads := loads + [url];
        if texture.None? {
          return Err(Trap);
        }
        texturesCache := texturesCache[url := texture.value];
      }
      r := Ok(texturesCache[url]);
    }

    /** The loop body for one submesh with a material. */
    method AddSubmeshTextures(name: string, m: Material, load: Url -> Option<Encoder.TextureId>) returns (r: Result<()>)
      modifies this
      ensures SubmeshTextures(old(State()), name, m, load).Err? ==> r == Err(Trap)
      ensures SubmeshTextures(old(State()), name, m, load).Ok? ==>
                r == Ok(()) && State() == SubmeshTextures(old(State()), name, m, load).value
      ensures mesh == old(mesh) && names == old(names)
    {
      if m.baseColor.Some? {
        var texture := CachedTexture(m.baseColor.value, load);
        if texture.Err? {
          return Err(Trap);
        }
        baseColorTextures := baseColorTextures[name := texture.value];
      }
      if m.specular.Some? {
        var texture := CachedTexture(m.specular.value, load);
        if texture.Err? {
          return Err(Trap);
        }
        specularTextures := specularTextures[name := texture.value];
      }
      r := Ok(());
    }

    /** `for subMesh in mdlObject.submeshes!`, with its two `break`s. */
    method AddAllSubmeshTextures(entries: seq<SubmeshEntry>, load: Url -> Option<Encoder.TextureId>) returns (r: Result<()>)
      modifies this
      ensures SubmeshesTextures(old(State()), entries, 0, load).Err? ==> r == Err(Trap)
      ensures SubmeshesTextures(old(State()), entries, 0, load).Ok? ==>
                r == Ok(()) && State() == SubmeshesTextures(old(State()), entries, 0, load).value
      ensures mesh == old(mesh) && names == old(names)
    {
      for k := 0 to |entries|
        invariant SubmeshesTextures(State(), entries, k, load) == SubmeshesTextures(old(State()), entries, 0, load)
        invariant mesh == old(mesh) && names == old(names)
      {
        if Breaks(entries[k]) {
          break;
        }
        var step := AddSubmeshTextures(entries[k].name, entries[k].material.value, load);
        if step.Err? {
          return step;
        }
      }
      r := Ok(());
    }
  }

  /**
   * The initialiser: objects that are not meshes are skipped; the first mesh is taken, its
   * submeshes' textures are loaded, and no later object is looked at; with no mesh at all it
   * throws. A texture that fails to load traps.
   */
  method New(objects: seq<AssetObject>, attrs: Attributes.AttributesMap, load: Url -> Option<Encoder.TextureId>)
    returns (r: Result<ModelIOMesh>)
    ensures FirstMesh(objects).None? ==> r == Err(NoMesh)
    ensures FirstMesh(objects).Some? ==>
      var loaded := SubmeshesTextures(NoTextures, objects[FirstMesh(objects).value].submeshes, 0, load);
      && (loaded.Err? ==> r == Err(Trap))
      && (loaded.Ok? ==> r.Ok? && r.value.mesh == FirstMesh(objects) && r.value.names == attrs
                         && r.value.State() == loaded.value)
  {
    var model := new ModelIOMesh(attrs);
    for i := 0 to |objects|
      invariant model.mesh.None? && model.names == attrs && model.State() == NoTextures
      invariant forall j :: 0 <= j < i ==> objects[j].OtherObject?
    {
      if objects[i].OtherObject? {
        continue;
      }
      model.mesh := Some(i);
      var loaded := model.AddAllSubmeshTextures(objects[i].submeshes, load);
      if loaded.Err? {
        return Err(Trap);
      }
      return Ok(model);
    }
    return Err(NoMesh);
  }

  // ---------------------------------------------------------------------------------------------
  // What the loop keeps

  /** Every load is of a URL now cached, no URL was loaded twice, and every cached URL was loaded. */
  ghost predicate LoadedOnce(t: Textures) {
    && (forall p, q :: 0 <= p < q < |t.loads| ==> t.loads[p] != t.loads[q])
    && (forall p :: 0 <= p < |t.loads| ==> t.loads[p] in t.cache)
    && (forall u :: u in t.cache ==> u in t.loads)
  }

  /** A cache entry, once made, is never replaced. */
  ghost predicate CacheKept(t: Textures, t': Textures) {
    forall u :: u in t.cache ==> u in t'.cache && t'.cache[u] == t.cache[u]
  }

  lemma CachedKeepsLoadedOnce(t: Textures, url: Url, load: Url -> Option<Encoder.TextureId>)
    requires LoadedOnce(t) && Cached(t, url, load).Ok?
    ensures LoadedOnce(Cached(t, url, load).value) && CacheKept(t, Cached(t, url, load).value)
  {
    var t' := Cached(t, url, load).value;
    if url !in t.cache {
      forall p, q | 0 <= p < q < |t'.loads|
        ensures t'.loads[p] != t'.loads[q]
      {
        if q == |t.loads| {
          assert t'.loads[q] == url && t.loads[p] in t.cache;
        }
      }
    }
  }

  /**
   * One submesh keeps the load-once invariant and the cache, and the names it touches hold the
   * cached texture of their URL.
   */
  lemma SubmeshTexturesFromCache(t: Textures, name: string, m: Material, load: Url -> Option<Encoder.TextureId>)
    requires LoadedOnce(t) && SubmeshTextures(t, name, m, load).Ok?
    ensures var t' := SubmeshTextures(t, name, m, load).value;
            && LoadedOnce(t') && CacheKept(t, t')
            && (m.baseColor.Some? ==> m.baseColor.value in t'.cache && t'.baseColor[name] == t'.cache[m.baseColor.value])
            && (m.specular.Some? ==> m.specular.value in t'.cache && t'.specular[name] == t'.cache[m.specular.value])
            && (m.baseColor.None? ==> t'.baseColor == t.baseColor)
            && (m.specular.None? ==> t'.specular == t.specular)
  {
    var t1 := t;
    if m.baseColor.Some? {
      CachedKeepsLoadedOnce(t, m.baseColor.value, load);
      var c := Cached(t, m.baseColor.value, load).value;
      t1 := c.(baseColor := c.baseColor[name := c.cache[m.baseColor.value]]);
    }
    if m.specular.Some? {
      CachedKeepsLoadedOnce(t1, m.specular.value, load);
    }
  }

  /** The whole submesh loop loads every URL at most once and never replaces a cache entry. */
  lemma {:induction false} SubmeshesLoadedOnce(t: Textures, entries: seq<SubmeshEntry>, k: nat, load: Url -> Option<Encoder.TextureId>)
    requires LoadedOnce(t) && SubmeshesTextures(t, entries, k, load).Ok?
    ensures LoadedOnce(SubmeshesTextures(t, entries, k, load).value)
    ensures CacheKept(t, SubmeshesTextures(t, entries, k, load).value)
    decreases |entries| - k
  {
    if k < |entries| && !Breaks(entries[k]) {
      var e := entries[k];
      SubmeshTexturesFromCache(t, e.name, e.material.value, load);
      var t1 := SubmeshTextures(t, e.name, e.material.value, load).value;
      SubmeshesLoadedOnce(t1, entries, k + 1, load);
    }
  }

  /** A model that loads: its loader calls have no repeated URL, and every cached URL was loaded once. */
  lemma NewLoadsEachUrlOnce(objects: seq<AssetObject>, load: Url -> Option<Encoder.TextureId>)
    requires FirstMesh(objects).Some?
    requires SubmeshesTextures(NoTextures, objects[FirstMesh(objects).value].submeshes, 0, load).Ok?
    ensures LoadedOnce(SubmeshesTextures(NoTextures, objects[FirstMesh(objects).value].submeshes, 0, load).value)
  {
    SubmeshesLoadedOnce(NoTextures, objects[FirstMesh(objects).value].submeshes, 0, load);
  }

  /** Nothing after the first breaking entry j is looked at. */
  lemma {:induction false} SubmeshesStopAtBreak(t: Textures, entries: seq<SubmeshEntry>, k: nat, j: nat, load: Url -> Option<Encoder.TextureId>)
    requires k <= j < |entries| && Breaks(entries[j])
    ensures SubmeshesTextures(t, entries, k, load) == SubmeshesTextures(t, entries[..j], k, load)
    decreases j - k
  {
    if k < j && !Breaks(entries[k]) {
      assert entries[..j][k] == entries[k];
      match SubmeshTextures(t, entries[k].name, entries[k].material.value, load) {
        case Err(_) =>
        case Ok(t1) => SubmeshesStopAtBreak(t1, entries, k + 1, j, load);
      }
    }
  }
}
