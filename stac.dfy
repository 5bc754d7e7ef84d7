/** The slice of the STAC object model (as the `pystac` library exposes it)
    that the transformers read and write: assets, links, providers, the
    mutable `Item` and `Collection` objects and the calls the code makes on
    them. */
module Stac {

  import opened Wrappers
  import opened Json
  import opened Strings
  import opened Urls

  const MEDIA_TYPE_COG := "image/tiff; application=geotiff; profile=cloud-optimized"
  const MEDIA_TYPE_PNG := "image/png"
  const MEDIA_TYPE_JSON := "application/json"
  const MEDIA_TYPE_HTML := "text/html"

  const REL_SELF := "self"
  const REL_ROOT := "root"
  const REL_COLLECTION := "collection"
  const REL_DERIVED_FROM := "derived_from"
  const REL_LICENSE := "license"

  /** Schema URIs that `ext.add("file")` and `ext.add("render")` register. */
  const FILE_SCHEMA := "https://stac-extensions.github.io/file/v2.1.0/schema.json"
  const RENDER_SCHEMA := "https://stac-extensions.github.io/render/v2.0.0/schema.json"

  datatype Asset = Asset(
    href: string,
    title: Option<string>,
    mediaType: Option<string>,
    roles: seq<string>,
    extraFields: map<string, Json>)

  datatype Link = Link(rel: string, target: string, mediaType: Option<string>, title: Option<string>)

  datatype Provider = Provider(name: string, description: Option<string>, url: Option<string>, roles: seq<string>)

  /** `Provider.to_dict()`: the name, then description, roles and url when set. */
  function ProviderToDict(p: Provider): (d: Json)
    ensures d.JObj? && "name" in d.fields && d.fields["name"] == JStr(p.name)
  {
    var withName := map["name" := JStr(p.name)];
    var withDescription := if p.description.Some? then withName["description" := JStr(p.description.value)] else withName;
    var withRoles := withDescription["roles" := JArr(seq(|p.roles|, k requires 0 <= k < |p.roles| => JStr(p.roles[k])))];
    var withUrl := if p.url.Some? && p.url.value != "" then withRoles["url" := JStr(p.url.value)] else withRoles;
    JObj(withUrl)
  }

  /** The catalog above an item's collection (only its title is read). */
  datatype ParentCatalog = ParentCatalog(title: Option<string>)

  /** What an item's `get_collection()` resolves to, with its own parent. */
  datatype ParentCollection = ParentCollection(title: Option<string>, parent: Option<ParentCatalog>)

  /** The whole state of an `Item` object. */
  datatype ItemValue = ItemValue(
    id: string,
    geometry: Json,
    bbox: Json,
    datetime: Option<Timestamp>,
    properties: map<string, Json>,
    assets: map<string, Asset>,
    links: seq<Link>,
    stacExtensions: seq<string>,
    collectionId: Option<string>,
    extraFields: map<string, Json>,
    parentCollection: Option<ParentCollection>)

  /** `get_self_href()`: the target of the first "self" link. */
  function SelfHref(links: seq<Link>): (h: Option<string>)
    ensures h.Some? ==> exists k :: 0 <= k < |links| && links[k].rel == REL_SELF && links[k].target == h.value
                                 && forall j :: 0 <= j < k ==> links[j].rel != REL_SELF
    ensures h.None? ==> forall k :: 0 <= k < |links| ==> links[k].rel != REL_SELF
  {
    if links == [] then None
    else if links[0].rel == REL_SELF then Some(links[0].target)
    else
      var rest := SelfHref(links[1..]);
      assert rest.Some? ==> exists k :: 0 < k < |links| && links[k].rel == REL_SELF && links[k].target == rest.value
                                        && forall j :: 0 <= j < k ==> links[j].rel != REL_SELF by {
        if rest.Some? {
          var k :| 0 <= k < |links| - 1 && links[1..][k].rel == REL_SELF && links[1..][k].target == rest.value
                   && forall j :: 0 <= j < k ==> links[1..][j].rel != REL_SELF;
          assert links[k + 1] == links[1..][k];
          forall j | 0 <= j < k + 1 ensures links[j].rel != REL_SELF {
            if j > 0 { assert links[j] == links[1..][j - 1]; }
          }
        }
      }
      rest
  }

  /** `remove_links(rel)`: the links of any other relation, in order. */
  function WithoutRel(links: seq<Link>, rel: string): (r: seq<Link>)
    ensures forall k :: 0 <= k < |r| ==> r[k].rel != rel && r[k] in links
    ensures forall k :: 0 <= k < |links| && links[k].rel != rel ==> links[k] in r
  {
    if links == [] then []
    else if links[0].rel == rel then WithoutRel(links[1..], rel)
    else [links[0]] + WithoutRel(links[1..], rel)
  }

  /** Removing a relation keeps the other links in order and with their
      multiplicity: it works link by link over a concatenation. */
  lemma {:induction false} WithoutRelConcat(a: seq<Link>, b: seq<Link>, rel: string)
    ensures WithoutRel(a + b, rel) == WithoutRel(a, rel) + WithoutRel(b, rel)
    decreases |a|
  {
    if a == [] {
      assert a + b == b;
    } else {
      var ab := a + b;
      assert ab[0] == a[0] && ab[1..] == a[1..] + b;
      WithoutRelConcat(a[1..], b, rel);
      if a[0].rel == rel {
        calc {
          WithoutRel(ab, rel);
          WithoutRel(a[1..] + b, rel);
          WithoutRel(a[1..], rel) + WithoutRel(b, rel);
        }
      } else {
        calc {
          WithoutRel(ab, rel);
          [a[0]] + WithoutRel(a[1..] + b, rel);
          [a[0]] + (WithoutRel(a[1..], rel) + WithoutRel(b, rel));
          ([a[0]] + WithoutRel(a[1..], rel)) + WithoutRel(b, rel);
        }
      }
    }
  }

  /** A single link is dropped exactly when it has the removed relation. */
  lemma WithoutRelSingle(l: Link, rel: string)
    ensures WithoutRel([l], rel) == (if l.rel == rel then [] else [l])
  {
  }

  /** pystac's `is_absolute_href`: a scheme other than "file", or a path
      starting at the root. */
  predicate IsAbsoluteHref(href: string)
  {
    var p := UrlSplit(href);
    (p.scheme != "" && p.scheme != "file") || StartsWith(p.path, "/")
  }

  /** An asset after `make_asset_hrefs_absolute`, given the item's self
      href, the library's resolution of a relative href against it and the
      test of absoluteness (`IsAbsoluteHref` in every use of the model). */
  function AbsoluteAsset(a: Asset, selfHref: string, resolve: (string, string) -> string,
                         isAbsolute: string -> bool): Asset
  {
    if isAbsolute(a.href) then a else a.(href := resolve(a.href, selfHref))
  }

  /** Every asset after `make_asset_hrefs_absolute`; without a self href
      only absolute hrefs can be there, and they are kept. */
  function AbsoluteAssets(assets: map<string, Asset>, selfHref: Option<string>,
                          resolve: (string, string) -> string, isAbsolute: string -> bool): (r: map<string, Asset>)
    ensures r.Keys == assets.Keys
  {
    map k | k in assets :: if selfHref.Some? then AbsoluteAsset(assets[k], selfHref.value, resolve, isAbsolute) else assets[k]
  }

  predicate HasRelativeHref(assets: map<string, Asset>, isAbsolute: string -> bool)
  {
    exists k :: k in assets && !isAbsolute(assets[k].href)
  }

  class Item {
    var id: string
    var geometry: Json
    var bbox: Json
    var datetime: Option<Timestamp>
    var properties: map<string, Json>
    var assets: map<string, Asset>
    var links: seq<Link>
    var stacExtensions: seq<string>
    var collectionId: Option<string>
    var extraFields: map<string, Json>
    var parentCollection: Option<ParentCollection>

    function Value(): ItemValue
      reads this
    {
      ItemValue(id, geometry, bbox, datetime, properties, assets, links, stacExtensions,
                collectionId, extraFields, parentCollection)
    }

    /** `Item(id=..., geometry=..., bbox=..., datetime=..., properties=..., extra_fields=...)`:
        no assets, links or extensions yet, and no collection. */
    constructor (id: string, geometry: Json, bbox: Json, datetime: Option<Timestamp>,
                 properties: map<string, Json>, extraFields: map<string, Json>)
      ensures Value() == ItemValue(id, geometry, bbox, datetime, properties, map[], [], [],
                                   None, extraFields, None)
    {
      this.id, this.geometry, this.bbox, this.datetime := id, geometry, bbox, datetime;
      this.properties, this.extraFields := properties, extraFields;
      assets, links, stacExtensions := map[], [], [];
      collectionId, parentCollection := None, None;
    }

    /** `clone()`: a new object with the same state. */
    method Clone() returns (c: Item)
      ensures fresh(c) && c.Value() == Value()
    {
      c := new Item(id, geometry, bbox, datetime, properties, extraFields);
      c.assets, c.links, c.stacExtensions := assets, links, stacExtensions;
      c.collectionId, c.parentCollection := collectionId, parentCollection;
    }

    /** `set_collection(None)`: drops the collection links and the collection id. */
    method SetCollectionNone()
      modifies this
      ensures Value() == old(Value()).(links := WithoutRel(old(links), REL_COLLECTION),
                                       collectionId := None, parentCollection := None)
    {
      links := WithoutRel(links, REL_COLLECTION);
      collectionId, parentCollection := None, None;
    }

    method ClearLinks()
      modifies this
      ensures Value() == old(Value()).(links := [])
    {
      links := [];
    }

    method AddLink(l: Link)
      modifies this
      ensures Value() == old(Value()).(links := old(links) + [l])
    {
      links := links + [l];
    }

    /** `add_asset(key, asset)`: sets (or replaces) the asset under `key`. */
    method AddAsset(key: string, a: Asset)
      modifies this
      ensures Value() == old(Value()).(assets := old(assets)[key := a])
    {
      assets := assets[key := a];
    }

    /** An extension writing one field into an existing asset's
        `extra_fields` (`FileExtension.ext(asset).apply(size=...)`). */
    method SetAssetField(key: string, field: string, v: Json)
      requires key in assets
      modifies this
      ensures Value() == old(Value()).(assets := old(assets)[key := old(assets)[key].(extraFields := old(assets)[key].extraFields[field := v])])
    {
      var a := assets[key];
      assets := assets[key := a.(extraFields := a.extraFields[field := v])];
    }

    method SetProperty(key: string, v: Json)
      modifies this
      ensures Value() == old(Value()).(properties := old(properties)[key := v])
    {
      properties := properties[key := v];
    }

    method AppendExtension(uri: string)
      modifies this
      ensures Value() == old(Value()).(stacExtensions := old(stacExtensions) + [uri])
    {
      stacExtensions := stacExtensions + [uri];
    }

    /** `make_asset_hrefs_absolute()`: every relative asset href is resolved
        against the self href; with a relative href and no self href the
        library raises (answered here by `ok == false`, the item untouched). */
    method MakeAssetHrefsAbsolute(resolve: (string, string) -> string) returns (ok: bool)
      modifies this
      ensures ok <==> SelfHref(old(links)).Some? || !HasRelativeHref(old(assets), IsAbsoluteHref)
      ensures ok ==> Value() == old(Value()).(assets := AbsoluteAssets(old(assets), SelfHref(old(links)), resolve, IsAbsoluteHref))
      ensures !ok ==> Value() == old(Value())
    {
      var resolved;
      ok, resolved := ResolveHrefs(assets, SelfHref(links), resolve, IsAbsoluteHref);
      if ok {
        assets := resolved;
      }
    }
  }

  /** The loop of `make_asset_hrefs_absolute` over the asset map. Without a
      self href the first relative href raises; with one, each relative
      href is resolved against it. */
  method ResolveHrefs(assets: map<string, Asset>, self: Option<string>,
                      resolve: (string, string) -> string, isAbsolute: string -> bool)
    returns (ok: bool, resolved: map<string, Asset>)
    ensures ok <==> self.Some? || !HasRelativeHref(assets, isAbsolute)
    ensures ok ==> resolved == AbsoluteAssets(assets, self, resolve, isAbsolute)
  {
    resolved := assets;
    var remaining := assets.Keys;
    while remaining != {}
      invariant remaining <= assets.Keys && resolved.Keys == assets.Keys
      invariant self.None? ==> forall k :: k in assets && k !in remaining ==> isAbsolute(assets[k].href)
      invariant forall k :: k in resolved ==>
        resolved[k] == if k in remaining || self.None? then assets[k]
                       else AbsoluteAsset(assets[k], self.value, resolve, isAbsolute)
      decreases remaining
    {
      var key :| key in remaining;
      var a := assets[key];
      if !isAbsolute(a.href) {
        if self.None? {
          return false, resolved;
        }
        resolved := resolved[key := a.(href := resolve(a.href, self.value))];
      }
      remaining := remaining - {key};
    }
    ok := true;
  }

  datatype ItemAssetDefinition = ItemAssetDefinition(title: string, description: string, mediaType: string, roles: seq<string>)

  /** One entry of the render extension: the assets to show and a title. */
  datatype Render = Render(assets: seq<string>, title: string)

  /** Spatial boxes and temporal intervals as given to `Extent(...)`. */
  datatype Extent = Extent(spatial: seq<seq<real>>, temporal: seq<seq<Option<Timestamp>>>)

  class Collection {
    var id: string
    var title: Option<string>
    var description: string
    var extent: Extent
    var license: string
    var providers: seq<Provider>
    var links: seq<Link>
    var itemAssets: map<string, ItemAssetDefinition>
    var stacExtensions: seq<string>
    var renders: map<string, Render>

    constructor (id: string, title: Option<string>, description: string, extent: Extent,
                 license: string, providers: seq<Provider>)
      ensures this.id == id && this.title == title && this.description == description
      ensures this.extent == extent && this.license == license && this.providers == providers
      ensures links == [] && itemAssets == map[] && stacExtensions == [] && renders == map[]
    {
      this.id, this.title, this.description, this.extent := id, title, description, extent;
      this.license, this.providers := license, providers;
      links, itemAssets, stacExtensions, renders := [], map[], [], map[];
    }

    method AddLink(l: Link)
      modifies this`links
      ensures links == old(links) + [l]
    {
      links := links + [l];
    }

    method SetItemAssets(defs: map<string, ItemAssetDefinition>)
      modifies this`itemAssets
      ensures itemAssets == defs
    {
      itemAssets := defs;
    }

    /** `ext.add("render")` followed by `RenderExtension.ext(...).apply(renders)`. */
    method ApplyRender(r: map<string, Render>)
      modifies this`stacExtensions, this`renders
      ensures stacExtensions == old(stacExtensions) + [RENDER_SCHEMA]
      ensures renders == r
    {
      stacExtensions := stacExtensions + [RENDER_SCHEMA];
      renders := r;
    }
  }
}
