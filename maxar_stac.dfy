/** The rewrite of Maxar's public STAC records for OpenAerialMap: an item is
    cloned and its clone renamed, re-titled, re-linked and enriched; the
    Maxar root catalog becomes the "maxar-opendata" collection. The
    library's resolution of a relative href and the OAM extension's schema
    URI are parameters. */
module MaxarStac {

  import opened Wrappers
  import opened Json
  import opened Strings
  import opened Stac
  import opened StacCommon

  const COLLECTION_ID := "maxar-opendata"
  const COLLECTION_DESCRIPTION :=
    "Maxar Open Data Catalog, formatted for Humanitarian OpenStreetMap Team's OpenAerialMap project"
  const VISUAL_DESCRIPTION := "Imagery data formatted for visualization (RGB)"
  const NO_PARENT := "Cannot get parent collection for Item="

  datatype CreateError =
    | NoParent(message: string)        // ValueError: no parent or no grandparent
    | RelativeHrefWithoutSelf          // make_asset_hrefs_absolute without a self href
    | MissingProperty(key: string)     // KeyError

  /** The derived-from link to a source document. */
  function DerivedFrom(href: string): Link
  {
    Link(REL_DERIVED_FROM, href, Some(MEDIA_TYPE_JSON), None)
  }

  /** The links a rewritten record carries: one derived-from link when the
      source has a non-empty self href, none otherwise. */
  function DerivedLinks(self: Option<string>): seq<Link>
  {
    if self.Some? && self.value != "" then [DerivedFrom(self.value)] else []
  }

  /** "<event title> - <grid code or catalog id>". */
  function ItemTitle(event: ParentCatalog, suffix: Json): string
  {
    DisplayOpt(event.title) + " - " + Display(suffix)
  }

  /** `create_item`, as a function of the source item's state. */
  function MaxarItem(v: ItemValue, resolve: (string, string) -> string, oamSchema: string): Result<ItemValue, CreateError>
  {
    if v.parentCollection.None? || v.parentCollection.value.parent.None? then
      Failure(NoParent(NO_PARENT + v.id))
    else if SelfHref(v.links).None? && HasRelativeHref(v.assets, IsAbsoluteHref) then
      Failure(RelativeHrefWithoutSelf)
    else if "grid:code" !in v.properties && "catalog_id" !in v.properties then
      Failure(MissingProperty("catalog_id"))
    else
      var title := ItemTitle(v.parentCollection.value.parent.value, TitleSuffix(v.properties));
      Success(Rewritten(v, AbsoluteAssets(v.assets, SelfHref(v.links), resolve, IsAbsoluteHref), title, oamSchema))
  }

  /** The rewritten state, given the assets with absolute hrefs and the title. */
  function Rewritten(v: ItemValue, absolute: map<string, Asset>, title: string, oamSchema: string): ItemValue
  {
    v.(id := ReplaceChar(v.id, '/', '-'),
       properties := v.properties["oam:producer_name" := JStr("Maxar")]["oam:platform_type" := JStr("satellite")]
                                 ["title" := JStr(title)],
       assets := AlternateAssets(absolute),
       links := DerivedLinks(SelfHref(v.links)),
       stacExtensions := v.stacExtensions + [ALTERNATE_ASSETS_SCHEMA] + [oamSchema],
       collectionId := None,
       parentCollection := None)
  }

  /** Removing the collection links keeps the self href. */
  lemma {:induction false} SelfHrefWithoutCollection(links: seq<Link>)
    ensures SelfHref(WithoutRel(links, REL_COLLECTION)) == SelfHref(links)
  {
    if links != [] {
      SelfHrefWithoutCollection(links[1..]);
    }
  }

  /** `create_item(item)`: the work is done on a clone; the source item,
      outside this method's frame, is left as it was. */
  method CreateItem(item: Item, resolve: (string, string) -> string, oamSchema: string)
    returns (r: Result<Item, CreateError>)
    ensures r.Success? <==> MaxarItem(item.Value(), resolve, oamSchema).Success?
    ensures r.Failure? ==> r.error == MaxarItem(item.Value(), resolve, oamSchema).error
    ensures r.Success? ==> fresh(r.value) && r.value.Value() == MaxarItem(item.Value(), resolve, oamSchema).value
  {
    ghost var v := item.Value();
    MaxarItemOutcomes(v, resolve, oamSchema);
    var oamItem := item.Clone();
    oamItem.SetCollectionNone();
    SelfHrefWithoutCollection(item.links);
    oamItem.id := ReplaceChar(item.id, '/', '-');
    ghost var renamed := v.(id := ReplaceChar(v.id, '/', '-'), links := WithoutRel(v.links, REL_COLLECTION),
                            collectionId := None, parentCollection := None);
    assert oamItem.Value() == renamed;

    if item.parentCollection.None? || item.parentCollection.value.parent.None? {
      return Failure(NoParent(NO_PARENT + item.id));
    }
    var eventCollection := item.parentCollection.value.parent.value;

    var ok := oamItem.MakeAssetHrefsAbsolute(resolve);
    if !ok {
      return Failure(RelativeHrefWithoutSelf);
    }
    ghost var absolute := oamItem.assets;
    assert absolute == AbsoluteAssets(v.assets, SelfHref(v.links), resolve, IsAbsoluteHref);
    assert oamItem.Value() == renamed.(assets := absolute);

    r := AddOamFields(oamItem, item.properties, SelfHref(item.links), eventCollection, oamSchema);
    if r.Success? {
      assert r.value.Value() == Rewritten(v, absolute, ItemTitle(eventCollection, TitleSuffix(v.properties)), oamSchema);
    }
  }

  /** The grid code when the source item has one, else its catalog id. */
  function TitleSuffix(properties: map<string, Json>): Json
    requires "grid:code" in properties || "catalog_id" in properties
  {
    if "grid:code" in properties then properties["grid:code"] else properties["catalog_id"]
  }

  /** The second half of `create_item`: the OAM properties, the title (or
      the missing-property error), the derived-from link and the
      enrichment of the assets. */
  method AddOamFields(oamItem: Item, source: map<string, Json>, itemHref: Option<string>,
                      eventCollection: ParentCatalog, oamSchema: string)
    returns (r: Result<Item, CreateError>)
    modifies oamItem
    ensures r.Success? <==> "grid:code" in source || "catalog_id" in source
    ensures r.Failure? ==> r.error == MissingProperty("catalog_id")
    ensures r.Success? ==> r.value == oamItem
    ensures r.Success? ==> oamItem.Value() == old(oamItem.Value()).(
              properties := old(oamItem.properties)["oam:producer_name" := JStr("Maxar")]["oam:platform_type" := JStr("satellite")]
                                                   ["title" := JStr(ItemTitle(eventCollection, TitleSuffix(source)))],
              assets := AlternateAssets(old(oamItem.assets)),
              links := DerivedLinks(itemHref),
              stacExtensions := old(oamItem.stacExtensions) + [ALTERNATE_ASSETS_SCHEMA] + [oamSchema])
  {
    ghost var start := oamItem.Value();
    oamItem.SetProperty("oam:producer_name", JStr("Maxar"));
    oamItem.SetProperty("oam:platform_type", JStr("satellite"));

    var titleSuffix;
    if "grid:code" in source {
      titleSuffix := source["grid:code"];
    } else if "catalog_id" in source {
      titleSuffix := source["catalog_id"];
    } else {
      return Failure(MissingProperty("catalog_id"));
    }
    oamItem.SetProperty("title", JStr(ItemTitle(eventCollection, titleSuffix)));
    ghost var titled := start.(properties := oamItem.properties);
    assert oamItem.Value() == titled;

    oamItem.ClearLinks();
    if itemHref.Some? && itemHref.value != "" {
      oamItem.AddLink(DerivedFrom(itemHref.value));
    }
    assert oamItem.Value() == titled.(links := DerivedLinks(itemHref));

    var _ := AddAlternateAssets(oamItem);
    oamItem.AppendExtension(oamSchema);
    r := Success(oamItem);
  }

  /** `MaxarItem`, one outcome per branch. */
  lemma MaxarItemOutcomes(v: ItemValue, resolve: (string, string) -> string, oamSchema: string)
    ensures var r := MaxarItem(v, resolve, oamSchema);
      var noParent := v.parentCollection.None? || v.parentCollection.value.parent.None?;
      var relative := SelfHref(v.links).None? && HasRelativeHref(v.assets, IsAbsoluteHref);
      && (noParent ==> r == Failure(NoParent(NO_PARENT + v.id)))
      && (!noParent && relative ==> r == Failure(RelativeHrefWithoutSelf))
      && (!noParent && !relative && "grid:code" !in v.properties && "catalog_id" !in v.properties ==>
            r == Failure(MissingProperty("catalog_id")))
      && (!noParent && !relative && ("grid:code" in v.properties || "catalog_id" in v.properties) ==>
            r == Success(Rewritten(v, AbsoluteAssets(v.assets, SelfHref(v.links), resolve, IsAbsoluteHref),
                                   ItemTitle(v.parentCollection.value.parent.value, TitleSuffix(v.properties)), oamSchema)))
  {
  }

  /** When `create_item` raises: no parent or grandparent first, then a
      relative asset href without a self href, then neither a grid code
      nor a catalog id. */
  lemma MaxarItemFailures(v: ItemValue, resolve: (string, string) -> string, oamSchema: string)
    ensures var r := MaxarItem(v, resolve, oamSchema);
      && (r.Failure? <==>
            || v.parentCollection.None? || v.parentCollection.value.parent.None?
            || (SelfHref(v.links).None? && HasRelativeHref(v.assets, IsAbsoluteHref))
            || ("grid:code" !in v.properties && "catalog_id" !in v.properties))
      && (v.parentCollection.None? || v.parentCollection.value.parent.None? ==>
            r == Failure(NoParent("Cannot get parent collection for Item=" + v.id)))
  {
  }

  /** What a rewritten item is. */
  lemma MaxarItemRule(v: ItemValue, resolve: (string, string) -> string, oamSchema: string)
    requires MaxarItem(v, resolve, oamSchema).Success?
    ensures var out := MaxarItem(v, resolve, oamSchema).value;
      // the id, with every "/" turned into "-"
      && |out.id| == |v.id| && '/' !in out.id
      && (forall k :: 0 <= k < |v.id| && v.id[k] != '/' ==> out.id[k] == v.id[k])
      && (forall k :: 0 <= k < |v.id| && v.id[k] == '/' ==> out.id[k] == '-')
      // no collection any more
      && out.collectionId.None? && out.parentCollection.None?
      // the fixed properties and the title; the other properties are kept
      && out.properties["oam:producer_name"] == JStr("Maxar")
      && out.properties["oam:platform_type"] == JStr("satellite")
      && out.properties["title"] ==
           JStr(ItemTitle(v.parentCollection.value.parent.value, if "grid:code" in v.properties then v.properties["grid:code"] else v.properties["catalog_id"]))
      && (forall key :: key in v.properties && key !in {"oam:producer_name", "oam:platform_type", "title"} ==>
            key in out.properties && out.properties[key] == v.properties[key])
      && out.properties.Keys == v.properties.Keys + {"oam:producer_name", "oam:platform_type", "title"}
      // the links: only the derived-from link to the source's self href
      && (SelfHref(v.links).Some? && SelfHref(v.links).value != "" ==> out.links == [DerivedFrom(SelfHref(v.links).value)])
      && (SelfHref(v.links).None? || SelfHref(v.links).value == "" ==> out.links == [])
      // the extensions: the source's, then alternate assets, then OAM
      && out.stacExtensions[..|v.stacExtensions|] == v.stacExtensions
      && out.stacExtensions[|v.stacExtensions|..] == [ALTERNATE_ASSETS_SCHEMA, oamSchema]
      // the same asset keys, each asset made absolute against the self
      // href (when there is one) and given its alternate entry; geometry,
      // bbox and datetime untouched
      && out.assets.Keys == v.assets.Keys
      && (forall k :: k in v.assets ==>
            out.assets[k] == WithAlternate(if SelfHref(v.links).Some?
                                           then AbsoluteAsset(v.assets[k], SelfHref(v.links).value, resolve, IsAbsoluteHref)
                                           else v.assets[k]))
      && out.geometry == v.geometry && out.bbox == v.bbox && out.datetime == v.datetime
  {
    ReplaceRemoves(v.id, '/', '-');
  }

  /** A grid code wins over the catalog id in the title. */
  lemma GridCodePreferred(v: ItemValue, resolve: (string, string) -> string, oamSchema: string)
    requires MaxarItem(v, resolve, oamSchema).Success?
    requires "grid:code" in v.properties && "catalog_id" in v.properties
    ensures MaxarItem(v, resolve, oamSchema).value.properties["title"] ==
              JStr(DisplayOpt(v.parentCollection.value.parent.value.title) + " - " + Display(v.properties["grid:code"]))
  {
  }

  // ---------------------------------------------------------------------
  // The collection.
  // ---------------------------------------------------------------------

  /** The parts of the Maxar root catalog that are read. */
  datatype Catalog = Catalog(description: string, extraFields: map<string, Json>, links: seq<Link>)

  const MAXAR_PROVIDER := Provider("Maxar", None, Some("https://www.maxar.com/open-data"), ["licensor", "producer"])
  const AWS_PROVIDER := Provider("Amazon Web Services (AWS)", None, Some("https://registry.opendata.aws/maxar-open-data/"), ["host"])

  function VisualAsset(): ItemAssetDefinition
  {
    ItemAssetDefinition("Visual image", VISUAL_DESCRIPTION, MEDIA_TYPE_COG, ["data"])
  }

  /** `create_collection(catalog, start, end)`; a catalog without a
      "license" field raises. */
  method CreateCollection(catalog: Catalog, start: Option<Timestamp>, end: Option<Timestamp>)
    returns (r: Result<Collection, CreateError>)
    ensures r.Failure? <==> "license" !in catalog.extraFields
    ensures r.Failure? ==> r.error == MissingProperty("license")
    ensures r.Success? ==>
      var c := r.value;
      && fresh(c)
      && c.id == COLLECTION_ID && c.title == Some(catalog.description)
      && c.description == COLLECTION_DESCRIPTION
      && c.extent == Extent([[-180.0, -90.0, 180.0, 90.0]], [[start, end]])
      && c.license == Display(catalog.extraFields["license"])
      && c.providers == [MAXAR_PROVIDER, AWS_PROVIDER]
      && c.links == DerivedLinks(SelfHref(catalog.links))
      && c.itemAssets == map["visual" := VisualAsset()]
      && c.stacExtensions == [RENDER_SCHEMA]
      && c.renders == map["visual" := Render(["visual"], VISUAL_DESCRIPTION)]
  {
    if "license" !in catalog.extraFields {
      return Failure(MissingProperty("license"));
    }
    var collection := new Collection(
      COLLECTION_ID, Some(catalog.description), COLLECTION_DESCRIPTION,
      Extent([[-180.0, -90.0, 180.0, 90.0]], [[start, end]]),
      Display(catalog.extraFields["license"]),
      [MAXAR_PROVIDER, AWS_PROVIDER]);
    var selfLink := SelfHref(catalog.links);
    if selfLink.Some? && selfLink.value != "" {
      collection.AddLink(DerivedFrom(selfLink.value));
    }
    collection.SetItemAssets(map["visual" := VisualAsset()]);
    collection.ApplyRender(map["visual" := Render(["visual"], VISUAL_DESCRIPTION)]);
    r := Success(collection);
  }

  /** The derived-from links of a rewritten record point at its source. */
  lemma DerivedLinksRule(self: Option<string>)
    ensures |DerivedLinks(self)| <= 1
    ensures |DerivedLinks(self)| == 1 <==> self.Some? && self.value != ""
    ensures forall l :: l in DerivedLinks(self) ==>
              l.rel == REL_DERIVED_FROM && l.target == self.value && l.mediaType == Some(MEDIA_TYPE_JSON)
  {
  }
}
