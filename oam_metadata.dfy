/** The OpenAerialMap metadata record (`OamMetadata`) and its in-place
    sanitiser. `MetadataRecord` is the value of one record; the class
    `OamMetadata` is the mutable dataclass whose `Sanitize` rewrites three
    of its fields and returns the receiver. */
module Metadata {

  import opened Wrappers
  import opened Json
  import opened Strings

  datatype MetadataRecord = MetadataRecord(
    id: string,
    title: string,
    contact: string,
    provider: string,
    platform: string,
    sensor: Option<string>,
    license: Option<string>,
    acquisitionStart: Timestamp,
    acquisitionEnd: Timestamp,
    geojson: Json,
    bbox: Json,
    footprintWkt: string,
    projectionWkt: string,
    gsd: Json,
    imageUrl: string,
    imageFileSize: int,
    thumbnailUrl: string,
    metadataUrl: string)

  // ---------------------------------------------------------------------
  // The three sanitising rules, as functions of the field they rewrite.
  // ---------------------------------------------------------------------

  /** SPDX identifiers use dashes, not spaces; an absent or empty license is kept. */
  function SanitizedLicense(license: Option<string>): Option<string>
  {
    match license
    case None => None
    case Some(l) => if l != "" then Some(ReplaceChar(l, ' ', '-')) else license
  }

  /** The only known platform acronym, looked up by its lower-cased form. */
  function PlatformTransform(lowered: string): Option<string>
  {
    if lowered == "uav" then Some("UAV") else None
  }

  function SanitizedPlatform(platform: string): string
  {
    match PlatformTransform(Lower(platform))
    case Some(t) => if t != "" then t else platform
    case None => platform
  }

  /** A sensor whose lower-cased name starts with "unknow" is dropped. */
  function SanitizedSensor(sensor: Option<string>): Option<string>
  {
    match sensor
    case None => None
    case Some(s) => if StartsWith(Lower(s), "unknow") then None else sensor
  }

  /** The record after `sanitize()`: license, then platform, then sensor. */
  function Sanitized(r: MetadataRecord): MetadataRecord
  {
    r.(license := SanitizedLicense(r.license))
     .(platform := SanitizedPlatform(r.platform))
     .(sensor := SanitizedSensor(r.sensor))
  }

  // ---------------------------------------------------------------------
  // The mutable record.
  // ---------------------------------------------------------------------

  class OamMetadata {
    var id: string
    var title: string
    var contact: string
    var provider: string
    var platform: string
    var sensor: Option<string>
    var license: Option<string>
    var acquisitionStart: Timestamp
    var acquisitionEnd: Timestamp
    var geojson: Json
    var bbox: Json
    var footprintWkt: string
    var projectionWkt: string
    var gsd: Json
    var imageUrl: string
    var imageFileSize: int
    var thumbnailUrl: string
    var metadataUrl: string

    /** The record this object currently holds. */
    function Record(): MetadataRecord
      reads this
    {
      MetadataRecord(id, title, contact, provider, platform, sensor, license,
                     acquisitionStart, acquisitionEnd, geojson, bbox, footprintWkt,
                     projectionWkt, gsd, imageUrl, imageFileSize, thumbnailUrl, metadataUrl)
    }

    constructor (r: MetadataRecord)
      ensures Record() == r
    {
      id, title, contact, provider, platform := r.id, r.title, r.contact, r.provider, r.platform;
      sensor, license := r.sensor, r.license;
      acquisitionStart, acquisitionEnd := r.acquisitionStart, r.acquisitionEnd;
      geojson, bbox, footprintWkt, projectionWkt, gsd := r.geojson, r.bbox, r.footprintWkt, r.projectionWkt, r.gsd;
      imageUrl, imageFileSize, thumbnailUrl, metadataUrl := r.imageUrl, r.imageFileSize, r.thumbnailUrl, r.metadataUrl;
    }

    /** `sanitize()`: rewrites this record in place and returns it. */
    method Sanitize() returns (r: OamMetadata)
      modifies this
      ensures r == this
      ensures Record() == Sanitized(old(Record()))
    {
      ghost var before := Record();
      SanitizeLicense();
      assert Record() == before.(license := SanitizedLicense(before.license));
      SanitizePlatform();
      assert Record() == before.(license := SanitizedLicense(before.license))
                               .(platform := SanitizedPlatform(before.platform));
      SanitizeSensor();
      r := this;
    }

    method SanitizeLicense()
      modifies this`license
      ensures license == SanitizedLicense(old(license))
    {
      if license.Some? && license.value != "" {
        license := Some(ReplaceChar(license.value, ' ', '-'));
      }
    }

    method SanitizePlatform()
      modifies this`platform
      ensures platform == SanitizedPlatform(old(platform))
    {
      var transformed := PlatformTransform(Lower(platform));
      if transformed.Some? && transformed.value != "" {
        platform := transformed.value;
      }
    }

    method SanitizeSensor()
      modifies this`sensor
      ensures sensor == SanitizedSensor(old(sensor))
    {
      if sensor.Some? {
        if StartsWith(Lower(sensor.value), "unknow") {
          sensor := None;
        }
      }
    }
  }

  // ---------------------------------------------------------------------
  // What sanitising promises.
  // ---------------------------------------------------------------------

  /** A present, non-empty license has every space turned into a dash and
      nothing else changed; an absent or empty license is left as it is. */
  lemma LicenseRule(license: Option<string>)
    ensures license.None? ==> SanitizedLicense(license) == None
    ensures license == Some("") ==> SanitizedLicense(license) == license
    ensures license.Some? ==>
      var out := SanitizedLicense(license);
      && out.Some?
      && |out.value| == |license.value|
      && ' ' !in out.value
      && forall k :: 0 <= k < |license.value| ==>
           out.value[k] == (if license.value[k] == ' ' then '-' else license.value[k])
  {
    if license.Some? {
      ReplaceRemoves(license.value, ' ', '-');
    }
  }

  /** The platform becomes "UAV" exactly when its lower-cased form is "uav";
      any other platform is kept character for character. */
  lemma PlatformRule(platform: string)
    ensures SanitizedPlatform(platform) == "UAV" <==> Lower(platform) == "uav"
    ensures Lower(platform) != "uav" ==> SanitizedPlatform(platform) == platform
  {
    if Lower(platform) != "uav" && platform == "UAV" {
      LowerOfUav();
    }
  }

  lemma LowerOfUav()
    ensures Lower("UAV") == "uav"
  {
    assert Lower("UAV") == [LowerChar('U')] + Lower("AV");
    assert Lower("AV") == [LowerChar('A')] + Lower("V");
    assert Lower("V") == [LowerChar('V')] + Lower("");
  }

  /** The sensor is dropped exactly when it is present and its lower-cased
      name starts with "unknow"; otherwise it is kept. */
  lemma SensorRule(sensor: Option<string>)
    ensures SanitizedSensor(sensor) == None <==>
              (sensor.None? || StartsWith(Lower(sensor.value), "unknow"))
    ensures SanitizedSensor(sensor) != None ==> SanitizedSensor(sensor) == sensor
  {
  }

  /** Only the license, platform and sensor fields can change. */
  lemma SanitizeKeepsOtherFields(r: MetadataRecord)
    ensures var s := Sanitized(r);
      s.(license := r.license, platform := r.platform, sensor := r.sensor) == r
  {
  }

  /** Sanitising a sanitised record changes nothing. */
  lemma SanitizeIdempotent(r: MetadataRecord)
    ensures Sanitized(Sanitized(r)) == Sanitized(r)
  {
    var s := Sanitized(r);
    if s.license.Some? {
      LicenseRule(r.license);
      ReplaceAbsent(s.license.value, ' ', '-');
    }
    PlatformRule(r.platform);
    if s.platform == "UAV" {
      LowerOfUav();
    }
  }

  /** The record of the sanitiser's test: "UaV", "CC-BY 4.0" and "Unknow"
      become "UAV", "CC-BY-4.0" and no sensor. */
  lemma SanitizeExample(r: MetadataRecord)
    requires r.platform == "UaV" && r.license == Some("CC-BY 4.0") && r.sensor == Some("Unknow")
    ensures Sanitized(r).platform == "UAV"
    ensures Sanitized(r).license == Some("CC-BY-4.0")
    ensures Sanitized(r).sensor == None
  {
    UavPlatform();
    UnknowSensor();
    DashedLicense();
  }

  lemma UavPlatform()
    ensures SanitizedPlatform("UaV") == "UAV"
  {
    assert Lower("UaV") == [LowerChar('U')] + Lower("aV");
    assert Lower("aV") == [LowerChar('a')] + Lower("V");
    assert Lower("V") == [LowerChar('V')] + Lower("");
  }

  lemma UnknowSensor()
    ensures SanitizedSensor(Some("Unknow")) == None
  {
    var unknow := Lower("Unknow");
    assert unknow[..6] == "unknow";
  }

  lemma DashedLicense()
    ensures SanitizedLicense(Some("CC-BY 4.0")) == Some("CC-BY-4.0")
  {
    var lic := ReplaceChar("CC-BY 4.0", ' ', '-');
    forall k | 0 <= k < 9
      ensures lic[k] == "CC-BY-4.0"[k]
    {
    }
    assert lic == "CC-BY-4.0";
  }

  /** A platform other than the acronym, such as "satellite", and a sensor
      such as "camera" pass through unchanged. */
  lemma SanitizeKeepsOrdinaryValues(r: MetadataRecord)
    requires r.platform == "satellite" && r.sensor == Some("camera")
    ensures Sanitized(r).platform == "satellite"
    ensures Sanitized(r).sensor == Some("camera")
  {
    SatellitePlatform();
    CameraSensor();
  }

  lemma SatellitePlatform()
    ensures SanitizedPlatform("satellite") == "satellite"
  {
    var p := Lower("satellite");
    assert p[0] == 's';
  }

  lemma CameraSensor()
    ensures SanitizedSensor(Some("camera")) == Some("camera")
  {
    var c := Lower("camera");
    assert c[0] == 'c';
    assert !StartsWith(c, "unknow");
  }
}
