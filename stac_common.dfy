/** The alternate-assets enrichment shared by the transformers: every asset
    served from an `amazonaws.com` host is given an S3 alternate href. */
module StacCommon {

  import opened Wrappers
  import opened Json
  import opened Strings
  import opened Urls
  import opened Stac

  const ALTERNATE_ASSETS_VERSION := "v1.2.0"
  const ALTERNATE_ASSETS_SCHEMA := "https://stac-extensions.github.io/alternate-assets/" + ALTERNATE_ASSETS_VERSION + "/schema.json"

  /** The host text that marks an asset as served from S3. */
  const AWS_HOST := "amazonaws.com"

  /** The S3 form of an href whose network location contains `amazonaws.com`:
      the bucket (the network location up to its first ".") followed by the
      path, without query or fragment. Any other href has none. */
  function S3Href(href: string): Option<string>
  {
    var p := UrlSplit(href);
    if Contains(p.netloc, AWS_HOST) then Some("s3://" + p.netloc[..IndexOf(p.netloc, '.')] + p.path) else None
  }

  /** The `alternate` object naming the S3 href. */
  function AlternateField(s3: string): Json
  {
    JObj(map["s3" := JObj(map["href" := JStr(s3), "alternate:name" := JStr("S3")])])
  }

  /** An asset after the loop body of `add_alternate_assets`: with an S3 href
      its extra fields gain "alternate:name" and "alternate", the others are
      kept; an asset without one is left as it is. */
  function WithAlternate(a: Asset): Asset
  {
    match S3Href(a.href)
    case None => a
    case Some(s3) => a.(extraFields := a.extraFields["alternate:name" := JStr("HTTPS")]["alternate" := AlternateField(s3)])
  }

  /** Every asset after `add_alternate_assets`. */
  function AlternateAssets(assets: map<string, Asset>): (r: map<string, Asset>)
    ensures r.Keys == assets.Keys
  {
    map k | k in assets :: WithAlternate(assets[k])
  }

  /** `add_alternate_assets(item)`: appends the extension schema (without
      looking for an earlier copy), patches every asset in place and returns
      the same item. */
  method AddAlternateAssets(item: Item) returns (r: Item)
    modifies item
    ensures r == item
    ensures item.Value() == old(item.Value()).(stacExtensions := old(item.stacExtensions) + [ALTERNATE_ASSETS_SCHEMA],
                                               assets := AlternateAssets(old(item.assets)))
  {
    item.AppendExtension(ALTERNATE_ASSETS_SCHEMA);
    var patched := PatchAssets(item.assets, WithAlternate);
    item.assets := patched;
    r := item;
  }

  /** The `for asset in item.assets.values()` loop, applying `patch` to each
      asset once. */
  method PatchAssets(assets: map<string, Asset>, patch: Asset -> Asset) returns (patched: map<string, Asset>)
    ensures patched == map k | k in assets :: patch(assets[k])
  {
    patched := assets;
    var remaining := assets.Keys;
    while remaining != {}
      invariant remaining <= assets.Keys && patched.Keys == assets.Keys
      invariant forall k :: k in patched ==> patched[k] == if k in remaining then assets[k] else patch(assets[k])
      decreases remaining
    {
      var key :| key in remaining;
      patched := patched[key := patch(patched[key])];
      remaining := remaining - {key};
    }
  }

  // ---------------------------------------------------------------------
  // What the enrichment promises.
  // ---------------------------------------------------------------------

  /** With a network location `<bucket>.<rest>` containing `amazonaws.com`,
      the S3 href is the bucket followed by the path. */
  lemma S3HrefOfBucket(href: string, bucket: string, rest: string)
    requires UrlSplit(href).netloc == bucket + "." + rest
    requires '.' !in bucket && Contains(bucket + "." + rest, AWS_HOST)
    ensures S3Href(href) == Some("s3://" + bucket + UrlSplit(href).path)
  {
    BucketOfNetloc(bucket, rest);
  }

  /** The bucket is the network location up to its first ".". */
  lemma BucketOfNetloc(bucket: string, rest: string)
    requires '.' !in bucket
    ensures IndexOf(bucket + "." + rest, '.') == |bucket|
    ensures (bucket + "." + rest)[..|bucket|] == bucket
  {
    var netloc := bucket + "." + rest;
    IndexOfConcat(bucket, "." + rest, '.');
    assert netloc == bucket + ("." + rest);
    assert IndexOf("." + rest, '.') == 0;
  }

  /** An href `scheme://<bucket>.<rest>/path[?query]` on an amazonaws.com
      host has the S3 href `s3://<bucket>/path`; the query is dropped. */
  lemma S3HrefOfComposed(href: string, scheme: string, bucket: string, rest: string, path: string, query: Option<string>)
    requires href == scheme + "://" + (bucket + "." + rest) + path + QueryText(query)
    requires IsScheme(scheme) && Lower(scheme) == scheme
    requires '.' !in bucket && Contains(bucket + "." + rest, AWS_HOST)
    requires '/' !in bucket + "." + rest && '?' !in bucket + "." + rest && '#' !in bucket + "." + rest
    requires path == [] || path[0] == '/'
    requires '?' !in path && '#' !in path
    requires query.Some? ==> '#' !in query.value
    ensures S3Href(href) == Some("s3://" + bucket + path)
  {
    UrlSplitComposed(scheme, bucket + "." + rest, path, query);
    S3HrefOfBucket(href, bucket, rest);
  }

  /** The example of the extension's use: `https://b.s3.amazonaws.com/k`
      becomes `s3://b/k`, with or without a query. */
  lemma S3HrefExample(query: Option<string>)
    requires query.Some? ==> '#' !in query.value
    ensures S3Href("https://b.s3.amazonaws.com/k" + QueryText(query)) == Some("s3://b/k")
  {
    HttpsScheme();
    ExampleHost();
    ExampleHref();
    S3HrefOfComposed("https://b.s3.amazonaws.com/k" + QueryText(query), "https", "b", "s3.amazonaws.com", "/k", query);
  }

  lemma ExampleHref()
    ensures "https" + "://" + ("b" + "." + "s3.amazonaws.com") + "/k" == "https://b.s3.amazonaws.com/k"
    ensures "s3://" + "b" + "/k" == "s3://b/k"
  {
  }

  lemma HttpsScheme()
    ensures IsScheme("https") && Lower("https") == "https"
  {
    assert Lower("s") == "s";
    assert Lower("ps") == "ps";
    assert Lower("tps") == "tps";
    assert Lower("ttps") == "ttps";
  }

  lemma ExampleHost()
    ensures Contains("b" + "." + "s3.amazonaws.com", AWS_HOST)
  {
    ContainsInside("b.s3.", AWS_HOST, "");
    assert "b.s3." + AWS_HOST + "" == "b" + "." + "s3.amazonaws.com";
  }

  /** A relative href (no ":" and no leading "//") has no network location,
      so its asset is left unchanged. */
  lemma RelativeHrefUnchanged(a: Asset)
    requires ':' !in a.href && !StartsWith(a.href, "//")
    ensures UrlSplit(a.href).netloc == ""
    ensures WithAlternate(a) == a
  {
    IndexOfAbsent(a.href, ':');
    ContainsNeedsLength("", AWS_HOST);
  }

  /** An asset whose network location lacks `amazonaws.com` is unchanged;
      one whose location has it keeps its href and every other extra field. */
  lemma WithAlternateRule(a: Asset)
    ensures S3Href(a.href).None? <==> !Contains(UrlSplit(a.href).netloc, AWS_HOST)
    ensures S3Href(a.href).None? ==> WithAlternate(a) == a
    ensures WithAlternate(a).href == a.href
    ensures WithAlternate(a).(extraFields := a.extraFields) == a
    ensures forall key :: key in a.extraFields && key != "alternate:name" && key != "alternate" ==>
              key in WithAlternate(a).extraFields && WithAlternate(a).extraFields[key] == a.extraFields[key]
    ensures S3Href(a.href).Some? ==>
              && WithAlternate(a).extraFields["alternate:name"] == JStr("HTTPS")
              && WithAlternate(a).extraFields["alternate"] == AlternateField(S3Href(a.href).value)
  {
  }

  /** Patching twice gives what patching once gives. */
  lemma WithAlternateIdempotent(a: Asset)
    ensures WithAlternate(WithAlternate(a)) == WithAlternate(a)
  {
  }
}
