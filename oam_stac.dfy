/** The OpenAerialMap records as STAC: one item per metadata record, with
    three fixed assets, and the "openaerialmap" collection. The formatting
    of an instant as RFC 3339 text is a parameter. */
module OamStac {

  import opened Wrappers
  import opened Json
  import opened Stac
  import opened Metadata

  const COLLECTION_ID := "openaerialmap"
  const COLLECTION_TITLE := "OpenAerialMap (OAM) STAC Catalog"
  const COLLECTION_DESCRIPTION :=
    "OpenAerialMap (OAM) is a set of tools for searching, sharing, and using openly licensed satellite and unmanned aerial vehicle (UAV) imagery."
  const COLLECTION_LICENSE := "CC-BY-4.0"
  /** 2000-01-01T00:00:00Z, in seconds since the epoch. */
  const COLLECTION_START: Timestamp := 946684800

  const IMAGE_DESCRIPTION := "Visual imagery data acquired from satellite or unmanned aerial vehicle (UAV)"
  const THUMBNAIL_DESCRIPTION := "Thumbnail version of the image asset for browsing"

  /** The keys of the three assets every item has. */
  const ASSET_KEYS: set<string> := {"image", "thumbnail", "metadata"}

  // ---------------------------------------------------------------------
  // The item.
  // ---------------------------------------------------------------------

  /** The properties given to the constructor. */
  function BaseProperties(r: MetadataRecord, toStr: Timestamp -> string): map<string, Json>
  {
    map["title" := JStr(r.title), "provider" := JStr(r.provider), "platform" := JStr(r.platform),
        "start_datetime" := JStr(toStr(r.acquisitionStart)), "end_datetime" := JStr(toStr(r.acquisitionEnd)),
        "gsd" := r.gsd]
  }

  /** Python's truthiness of an optional string. */
  predicate Truthy(s: Option<string>)
  {
    s.Some? && s.value != ""
  }

  /** The base properties, with the license and the instruments when truthy. */
  function ItemProperties(r: MetadataRecord, toStr: Timestamp -> string): map<string, Json>
  {
    var base := BaseProperties(r, toStr);
    var withLicense := if Truthy(r.license) then base["license" := JStr(r.license.value)] else base;
    if Truthy(r.sensor) then withLicense["instruments" := JArr([JStr(r.sensor.value)])] else withLicense
  }

  /** The producer and licensor of the imagery, as a dictionary. */
  function ItemProvider(r: MetadataRecord): Provider
  {
    Provider(r.provider, Some(r.contact), None, ["producer", "licensor"])
  }

  function ImageAsset(r: MetadataRecord): Asset
  {
    Asset(r.imageUrl, Some(r.title), Some(MEDIA_TYPE_COG), ["data"], map[])
  }

  function ThumbnailAsset(r: MetadataRecord): Asset
  {
    Asset(r.thumbnailUrl, Some("thumbnail"), Some(MEDIA_TYPE_PNG), ["thumbnail"], map[])
  }

  function MetadataAsset(r: MetadataRecord): Asset
  {
    Asset(r.metadataUrl, Some("metadata"), Some(MEDIA_TYPE_JSON), ["metadata"], map[])
  }

  /** The whole state `create_item` leaves: no datetime, no links, the file
      extension, the providers extra field and the three assets, the image
      with its file size. */
  function OamItem(r: MetadataRecord, toStr: Timestamp -> string): ItemValue
  {
    var image := ImageAsset(r);
    ItemValue(
      r.id, r.geojson, r.bbox, None, ItemProperties(r, toStr),
      map["image" := image.(extraFields := image.extraFields["file:size" := JInt(r.imageFileSize)]),
          "thumbnail" := ThumbnailAsset(r),
          "metadata" := MetadataAsset(r)],
      [], [FILE_SCHEMA], None,
      map["providers" := JArr([ProviderToDict(ItemProvider(r))])],
      None)
  }

  /** `create_item(oam_item)`: reads the record, builds a new item. */
  method CreateItem(m: OamMetadata, toStr: Timestamp -> string) returns (item: Item)
    ensures fresh(item)
    ensures item.Value() == OamItem(m.Record(), toStr)
  {
    var r := m.Record();
    item := new Item(r.id, r.geojson, r.bbox, None, BaseProperties(r, toStr),
                     map["providers" := JArr([ProviderToDict(ItemProvider(r))])]);

    if Truthy(r.license) {
      item.SetProperty("license", JStr(r.license.value));
    }
    if Truthy(r.sensor) {
      item.SetProperty("instruments", JArr([JStr(r.sensor.value)]));
    }
    ghost var expected := OamItem(r, toStr);
    assert item.Value() == expected.(assets := map[], stacExtensions := []);

    item.AppendExtension(FILE_SCHEMA);
    assert item.Value() == expected.(assets := map[]);

    item.AddAsset("image", ImageAsset(r));
    item.SetAssetField("image", "file:size", JInt(r.imageFileSize));
    item.AddAsset("thumbnail", ThumbnailAsset(r));
    item.AddAsset("metadata", MetadataAsset(r));
    AssetsAsAdded(r, toStr);
  }

  /** The three `add_asset` calls and the file extension produce the assets
      of `OamItem`. */
  lemma AssetsAsAdded(r: MetadataRecord, toStr: Timestamp -> string)
    ensures var image := ImageAsset(r);
      map[]["image" := image]["image" := image.(extraFields := image.extraFields["file:size" := JInt(r.imageFileSize)])]
           ["thumbnail" := ThumbnailAsset(r)]["metadata" := MetadataAsset(r)]
      == OamItem(r, toStr).assets
  {
  }

  /** `_add_alternate_assets`: a placeholder that returns its item as it is. */
  function AddAlternateAssetsStub(v: ItemValue): ItemValue
  {
    v
  }

  /** What an OAM item is. */
  lemma OamItemRule(r: MetadataRecord, toStr: Timestamp -> string)
    ensures var v := OamItem(r, toStr);
      // identity and footprint come from the record; no single datetime
      && v.id == r.id && v.geometry == r.geojson && v.bbox == r.bbox
      && v.datetime.None?
      && v.properties["start_datetime"] == JStr(toStr(r.acquisitionStart))
      && v.properties["end_datetime"] == JStr(toStr(r.acquisitionEnd))
      // the conditional properties
      && ("license" in v.properties <==> Truthy(r.license))
      && (Truthy(r.license) ==> v.properties["license"] == JStr(r.license.value))
      && ("instruments" in v.properties <==> Truthy(r.sensor))
      && (Truthy(r.sensor) ==> v.properties["instruments"] == JArr([JStr(r.sensor.value)]))
      // exactly three assets, with their roles and media types
      && v.assets.Keys == ASSET_KEYS
      && v.assets["image"].roles == ["data"] && v.assets["image"].mediaType == Some(MEDIA_TYPE_COG)
      && v.assets["thumbnail"].roles == ["thumbnail"] && v.assets["thumbnail"].mediaType == Some(MEDIA_TYPE_PNG)
      && v.assets["metadata"].roles == ["metadata"] && v.assets["metadata"].mediaType == Some(MEDIA_TYPE_JSON)
      && v.assets["image"].href == r.imageUrl && v.assets["thumbnail"].href == r.thumbnailUrl
      && v.assets["metadata"].href == r.metadataUrl
      // the image carries its size, and nothing carries alternates
      && v.assets["image"].extraFields == map["file:size" := JInt(r.imageFileSize)]
      && (forall k :: k in v.assets ==> "alternate" !in v.assets[k].extraFields)
      && v.stacExtensions == [FILE_SCHEMA]
      // one provider: the record's provider, described by the contact
      && v.extraFields["providers"] == JArr([ProviderToDict(ItemProvider(r))])
      && ItemProvider(r).name == r.provider && ItemProvider(r).description == Some(r.contact)
      && ItemProvider(r).roles == ["producer", "licensor"]
      && AddAlternateAssetsStub(v) == v
  {
  }

  // ---------------------------------------------------------------------
  // The collection.
  // ---------------------------------------------------------------------

  const OAM_PROVIDER := Provider("OpenAerialMap", None, Some("https://openaerialmap.org/"), ["host"])
  const LICENSE_LINK := Link(REL_LICENSE, "https://creativecommons.org/licenses/by/4.0/", Some(MEDIA_TYPE_HTML), Some("CC-BY-4.0 license"))

  function ItemAssets(): map<string, ItemAssetDefinition>
  {
    map["image" := ItemAssetDefinition("Visual image", IMAGE_DESCRIPTION, MEDIA_TYPE_COG, ["data"]),
        "thumbnail" := ItemAssetDefinition("Thumbnail", THUMBNAIL_DESCRIPTION, MEDIA_TYPE_PNG, ["thumbnail"])]
  }

  function Renders(): map<string, Render>
  {
    map["visual" := Render(["image"], "Visual image")]
  }

  /** `create_collection()`. */
  method CreateCollection() returns (c: Collection)
    ensures fresh(c)
    ensures c.id == COLLECTION_ID && c.title == Some(COLLECTION_TITLE) && c.description == COLLECTION_DESCRIPTION
    ensures c.extent == Extent([[-180.0, -90.0, 180.0, 90.0]], [[Some(COLLECTION_START), None]])
    ensures c.license == COLLECTION_LICENSE && c.providers == [OAM_PROVIDER]
    ensures c.links == [LICENSE_LINK]
    ensures c.itemAssets == ItemAssets() && c.renders == Renders()
    ensures c.stacExtensions == [RENDER_SCHEMA]
  {
    c := new Collection(COLLECTION_ID, Some(COLLECTION_TITLE), COLLECTION_DESCRIPTION,
                        Extent([[-180.0, -90.0, 180.0, 90.0]], [[Some(COLLECTION_START), None]]),
                        COLLECTION_LICENSE, [OAM_PROVIDER]);
    c.AddLink(LICENSE_LINK);
    c.SetItemAssets(ItemAssets());
    c.ApplyRender(Renders());
  }

  /** The collection describes the image and thumbnail assets of its items,
      and its render shows the image. */
  lemma CollectionMatchesItems(r: MetadataRecord, toStr: Timestamp -> string)
    ensures ItemAssets().Keys == {"image", "thumbnail"}
    ensures ItemAssets().Keys < OamItem(r, toStr).assets.Keys
    ensures forall key :: key in ItemAssets() ==>
              Some(ItemAssets()[key].mediaType) == OamItem(r, toStr).assets[key].mediaType
              && ItemAssets()[key].roles == OamItem(r, toStr).assets[key].roles
    ensures forall v :: v in Renders().Values ==> forall a :: a in v.assets ==> a in ItemAssets()
  {
    assert "metadata" in OamItem(r, toStr).assets && "metadata" !in ItemAssets();
  }
}
