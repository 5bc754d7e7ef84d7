/** The OpenAerialMap metadata API client (`OamMetadataClient`): the mapping
    of one raw API result onto a `MetadataRecord`, the page request, the
    count request and the page-number loop over the whole catalog. The
    HTTP session is a function from request to response. */
module Client {

  import opened Wrappers
  import opened Json
  import opened Metadata

  /** The frozen client: only its API root matters to the requests it makes.
      Python's default root, "https://api.openaerialmap.org/meta", is one
      value of `apiRoot`. */
  datatype OamClient = OamClient(apiRoot: string)

  /** A GET of the API root with the query parameters `limit` and, when
      present, `page`. */
  datatype Request = Request(url: string, limit: int, page: Option<int>)

  datatype Response = Response(status: int, body: Json)

  /** What went wrong while reading one raw result. */
  datatype ParseError =
    | NotAnObject(key: string)     // a key looked up in something that is not a dict
    | MissingKey(key: string)      // `KeyError`
    | WrongType(key: string)       // a value of another JSON type than the record needs
    | BadTimestamp(key: string)    // `fromisoformat` rejects the text

  datatype ClientError =
    | HttpStatus(status: int)      // `raise_for_status()`
    | Malformed(reason: ParseError)

  /** The statuses `raise_for_status()` raises on. */
  predicate IsErrorStatus(status: int)
  {
    400 <= status < 600
  }

  // ---------------------------------------------------------------------
  // Reading fields of a raw result.
  // ---------------------------------------------------------------------

  /** `j[key]`. */
  function Get(j: Json, key: string): (r: Result<Json, ParseError>)
    ensures r.Success? <==> j.JObj? && key in j.fields
    ensures r.Success? ==> r.value == j.fields[key]
  {
    match j
    case JObj(f) => if key in f then Success(f[key]) else Failure(MissingKey(key))
    case _ => Failure(NotAnObject(key))
  }

  function GetStr(j: Json, key: string): (r: Result<string, ParseError>)
    ensures r.Success? <==> j.JObj? && key in j.fields && j.fields[key].JStr?
    ensures r.Success? ==> j.fields[key] == JStr(r.value)
  {
    var v :- Get(j, key);
    if v.JStr? then Success(v.s) else Failure(WrongType(key))
  }

  function GetInt(j: Json, key: string): (r: Result<int, ParseError>)
    ensures r.Success? <==> j.JObj? && key in j.fields && j.fields[key].JInt?
    ensures r.Success? ==> j.fields[key] == JInt(r.value)
  {
    var v :- Get(j, key);
    if v.JInt? then Success(v.i) else Failure(WrongType(key))
  }

  /** `j.get(key)` of an optional string: absent and null both give None. */
  function GetOptStr(j: Json, key: string): (r: Result<Option<string>, ParseError>)
    ensures r.Success? <==> j.JObj? && (key !in j.fields || j.fields[key].JNull? || j.fields[key].JStr?)
    ensures r == Success(None) <==> j.JObj? && (key !in j.fields || j.fields[key].JNull?)
    ensures r.Success? && r.value.Some? ==> j.fields[key] == JStr(r.value.value)
  {
    match j
    case JObj(f) =>
      if key !in f || f[key].JNull? then Success(None)
      else if f[key].JStr? then Success(Some(f[key].s))
      else Failure(WrongType(key))
    case _ => Failure(NotAnObject(key))
  }

  /** `dt.datetime.fromisoformat(j[key])`, the parser given as `fromIso`. */
  function GetTime(j: Json, key: string, fromIso: string -> Option<Timestamp>): (r: Result<Timestamp, ParseError>)
    ensures r.Success? ==> j.JObj? && key in j.fields && j.fields[key].JStr? && fromIso(j.fields[key].s) == Some(r.value)
  {
    var text :- GetStr(j, key);
    match fromIso(text)
    case None => Failure(BadTimestamp(key))
    case Some(t) => Success(t)
  }

  /** `_parse_result`: the keyword arguments of the record are read in
      their written order and the first one that fails decides the error. */
  function ParseResult(result: Json, fromIso: string -> Option<Timestamp>): Result<MetadataRecord, ParseError>
  {
    var id :- GetStr(result, "_id");
    var title :- GetStr(result, "title");
    var contact :- GetStr(result, "contact");
    var provider :- GetStr(result, "provider");
    var platform :- GetStr(result, "platform");
    var properties :- Get(result, "properties");
    var sensor :- GetOptStr(properties, "sensor");
    var license :- GetOptStr(properties, "license");
    var start :- GetTime(result, "acquisition_start", fromIso);
    var end :- GetTime(result, "acquisition_end", fromIso);
    var geojson :- Get(result, "geojson");
    var bbox :- Get(result, "bbox");
    var footprint :- GetStr(result, "footprint");
    var projection :- GetStr(result, "projection");
    var gsd :- Get(result, "gsd");
    var uuid :- GetStr(result, "uuid");
    var fileSize :- GetInt(result, "file_size");
    var thumbnail :- GetStr(properties, "thumbnail");
    var metaUri :- GetStr(result, "meta_uri");
    Success(MetadataRecord(id, title, contact, provider, platform, sensor, license, start, end,
                           geojson, bbox, footprint, projection, gsd, uuid, fileSize, thumbnail, metaUri))
  }

  /** The parser of one raw result the client applies; everywhere in the
      model it is `ResultParser(fromIso)`. The page functions below take it
      as a parameter so that their proofs do not depend on its body. */
  type Parser = Json -> Result<MetadataRecord, ParseError>

  function ResultParser(fromIso: string -> Option<Timestamp>): Parser
  {
    result => ParseResult(result, fromIso)
  }

  /** An optional string as the API writes it: null when absent. */
  function OptStr(s: Option<string>): Json
  {
    match s
    case None => JNull
    case Some(v) => JStr(v)
  }

  /** The raw API result that describes a record, with `toIso` writing its
      timestamps: the reference layout `ParseResult` reads. */
  function RawResult(r: MetadataRecord, toIso: Timestamp -> string): Json
  {
    JObj(map[
      "_id" := JStr(r.id),
      "title" := JStr(r.title),
      "contact" := JStr(r.contact),
      "provider" := JStr(r.provider),
      "platform" := JStr(r.platform),
      "properties" := JObj(map["sensor" := OptStr(r.sensor), "license" := OptStr(r.license),
                               "thumbnail" := JStr(r.thumbnailUrl)]),
      "acquisition_start" := JStr(toIso(r.acquisitionStart)),
      "acquisition_end" := JStr(toIso(r.acquisitionEnd)),
      "geojson" := r.geojson,
      "bbox" := r.bbox,
      "footprint" := JStr(r.footprintWkt),
      "projection" := JStr(r.projectionWkt),
      "gsd" := r.gsd,
      "uuid" := JStr(r.imageUrl),
      "file_size" := JInt(r.imageFileSize),
      "meta_uri" := JStr(r.metadataUrl)])
  }

  /** Parsing the raw result of a record gives the record back, provided
      the timestamp parser reads what `toIso` wrote. */
  lemma ParseRawResult(r: MetadataRecord, toIso: Timestamp -> string, fromIso: string -> Option<Timestamp>)
    requires fromIso(toIso(r.acquisitionStart)) == Some(r.acquisitionStart)
    requires fromIso(toIso(r.acquisitionEnd)) == Some(r.acquisitionEnd)
    ensures ParseResult(RawResult(r, toIso), fromIso) == Success(r)
  {
    RawNames(r, toIso);
    RawProperties(r, toIso);
    RawTimes(r, toIso, fromIso);
    RawShapes(r, toIso);
    RawLinks(r, toIso);
  }

  lemma RawNames(r: MetadataRecord, toIso: Timestamp -> string)
    ensures var raw := RawResult(r, toIso);
      && GetStr(raw, "_id") == Success(r.id)
      && GetStr(raw, "title") == Success(r.title)
      && GetStr(raw, "contact") == Success(r.contact)
      && GetStr(raw, "provider") == Success(r.provider)
      && GetStr(raw, "platform") == Success(r.platform)
  {
  }

  lemma RawProperties(r: MetadataRecord, toIso: Timestamp -> string)
    ensures var raw := RawResult(r, toIso);
      && Get(raw, "properties").Success?
      && var props := Get(raw, "properties").value;
      && GetOptStr(props, "sensor") == Success(r.sensor)
      && GetOptStr(props, "license") == Success(r.license)
      && GetStr(props, "thumbnail") == Success(r.thumbnailUrl)
  {
  }

  lemma RawTimes(r: MetadataRecord, toIso: Timestamp -> string, fromIso: string -> Option<Timestamp>)
    requires fromIso(toIso(r.acquisitionStart)) == Some(r.acquisitionStart)
    requires fromIso(toIso(r.acquisitionEnd)) == Some(r.acquisitionEnd)
    ensures var raw := RawResult(r, toIso);
      && GetTime(raw, "acquisition_start", fromIso) == Success(r.acquisitionStart)
      && GetTime(raw, "acquisition_end", fromIso) == Success(r.acquisitionEnd)
  {
  }

  lemma RawShapes(r: MetadataRecord, toIso: Timestamp -> string)
    ensures var raw := RawResult(r, toIso);
      && Get(raw, "geojson") == Success(r.geojson)
      && Get(raw, "bbox") == Success(r.bbox)
      && GetStr(raw, "footprint") == Success(r.footprintWkt)
      && GetStr(raw, "projection") == Success(r.projectionWkt)
      && Get(raw, "gsd") == Success(r.gsd)
  {
  }

  lemma RawLinks(r: MetadataRecord, toIso: Timestamp -> string)
    ensures var raw := RawResult(r, toIso);
      && GetStr(raw, "uuid") == Success(r.imageUrl)
      && GetInt(raw, "file_size") == Success(r.imageFileSize)
      && GetStr(raw, "meta_uri") == Success(r.metadataUrl)
  {
  }

  /** A parsed record holds the raw fields under their API names: `_id`,
      `uuid`, `file_size`, `footprint`, `projection`, `meta_uri` and the
      thumbnail inside `properties`, which must be there; sensor and license
      are None exactly when `properties` lacks them or holds null. */
  lemma ParsedFields(result: Json, fromIso: string -> Option<Timestamp>)
    requires ParseResult(result, fromIso).Success?
    ensures var r := ParseResult(result, fromIso).value;
      && result.JObj? && "properties" in result.fields
      && var f := result.fields;
      && var props := f["properties"];
      && props.JObj?
      && f["_id"] == JStr(r.id) && f["title"] == JStr(r.title) && f["contact"] == JStr(r.contact)
      && f["provider"] == JStr(r.provider) && f["platform"] == JStr(r.platform)
      && f["geojson"] == r.geojson && f["bbox"] == r.bbox && f["gsd"] == r.gsd
      && f["footprint"] == JStr(r.footprintWkt) && f["projection"] == JStr(r.projectionWkt)
      && f["uuid"] == JStr(r.imageUrl) && f["file_size"] == JInt(r.imageFileSize)
      && f["meta_uri"] == JStr(r.metadataUrl)
      && "thumbnail" in props.fields && props.fields["thumbnail"] == JStr(r.thumbnailUrl)
      && fromIso(f["acquisition_start"].s) == Some(r.acquisitionStart)
      && fromIso(f["acquisition_end"].s) == Some(r.acquisitionEnd)
      && (r.sensor.None? <==> "sensor" !in props.fields || props.fields["sensor"].JNull?)
      && (r.license.None? <==> "license" !in props.fields || props.fields["license"].JNull?)
  {
  }

  /** Every raw result of a page parsed in order; the first failure wins. */
  function ParseAll(results: seq<Json>, parse: Parser): Result<seq<MetadataRecord>, ParseError>
  {
    if results == [] then Success([])
    else
      var init :- ParseAll(results[..|results| - 1], parse);
      var last :- parse(results[|results| - 1]);
      Success(init + [last])
  }

  // ---------------------------------------------------------------------
  // Requests.
  // ---------------------------------------------------------------------

  function PageRequest(client: OamClient, limit: int, page: int): Request
  {
    Request(client.apiRoot, limit, Some(page))
  }

  function CountRequest(client: OamClient): Request
  {
    Request(client.apiRoot, 1, None)
  }

  /** The page `get_items(limit, page)` answers: the status is checked before
      the results are read. */
  function ItemsPage(client: OamClient, serve: Request -> Response, parse: Parser,
                     limit: int, page: int): Result<seq<MetadataRecord>, ClientError>
  {
    var response := serve(PageRequest(client, limit, page));
    if IsErrorStatus(response.status) then Failure(HttpStatus(response.status))
    else match Get(response.body, "results")
      case Failure(e) => Failure(Malformed(e))
      case Success(JArr(results)) =>
        (match ParseAll(results, parse)
         case Failure(e) => Failure(Malformed(e))
         case Success(records) => Success(records))
      case Success(_) => Failure(Malformed(WrongType("results")))
  }

  /** `get_count()`: one request with `limit=1`, answering `meta.found`. */
  function GetCount(client: OamClient, serve: Request -> Response): Result<Json, ClientError>
  {
    var response := serve(CountRequest(client));
    if IsErrorStatus(response.status) then Failure(HttpStatus(response.status))
    else match Get(response.body, "meta")
      case Failure(e) => Failure(Malformed(e))
      case Success(meta) =>
        (match Get(meta, "found")
         case Failure(e) => Failure(Malformed(e))
         case Success(found) => Success(found))
  }

  /** `get_items(limit, page)`: the loop that appends each parsed result.
      Python's defaults, a limit of 100 and page 1, are one pair of values
      of the parameters. */
  method GetItems(client: OamClient, serve: Request -> Response, parse: Parser,
                  limit: int, page: int)
    returns (r: Result<seq<MetadataRecord>, ClientError>)
    ensures r == ItemsPage(client, serve, parse, limit, page)
  {
    var response := serve(PageRequest(client, limit, page));
    if IsErrorStatus(response.status) {
      return Failure(HttpStatus(response.status));
    }
    var field := Get(response.body, "results");
    if field.Failure? {
      return Failure(Malformed(field.error));
    }
    if !field.value.JArr? {
      return Failure(Malformed(WrongType("results")));
    }
    var raw := field.value.elems;
    var results: seq<MetadataRecord> := [];
    var i := 0;
    while i < |raw|
      invariant 0 <= i <= |raw|
      invariant ParseAll(raw[..i], parse) == Success(results)
    {
      assert raw[..i + 1][..i] == raw[..i];
      var parsed := parse(raw[i]);
      if parsed.Failure? {
        FirstFailureStops(raw, i + 1, parse);
        return Failure(Malformed(parsed.error));
      }
      results := results + [parsed.value];
      i := i + 1;
    }
    assert raw[..i] == raw;
    r := Success(results);
  }

  /** Once a prefix fails, every longer prefix fails the same way. */
  lemma {:induction false} FirstFailureStops(raw: seq<Json>, n: nat, parse: Parser)
    requires 0 < n <= |raw|
    requires ParseAll(raw[..n], parse).Failure?
    ensures ParseAll(raw, parse) == ParseAll(raw[..n], parse)
    decreases |raw| - n
  {
    if n < |raw| {
      assert raw[..n + 1][..n] == raw[..n];
      FirstFailureStops(raw, n + 1, parse);
    } else {
      assert raw[..n] == raw;
    }
  }

  // ---------------------------------------------------------------------
  // The page loop.
  // ---------------------------------------------------------------------

  /** What iterating `get_all_items` produces: the records yielded before
      it stopped, the error it raised (if any) and the pages it requested. */
  datatype Pull = Pull(records: seq<MetadataRecord>, error: Option<ClientError>, pages: seq<int>)

  /** What the loop gets for each page number. */
  type Fetch = int -> Result<seq<MetadataRecord>, ClientError>

  /** The pages `get_items(page_size, page)` answers, as one function. */
  function Fetcher(client: OamClient, serve: Request -> Response, parse: Parser, pageSize: int): (fetch: Fetch)
    ensures forall page :: fetch(page) == ItemsPage(client, serve, parse, pageSize, page)
  {
    page => ItemsPage(client, serve, parse, pageSize, page)
  }

  /** An answer that ends the loop: a failure or a page with no results. */
  predicate Ends(answer: Result<seq<MetadataRecord>, ClientError>)
  {
    answer.Failure? || answer.value == []
  }

  /** Page `last` ends the loop, which so stops there at the latest. */
  predicate Stops(fetch: Fetch, last: int)
  {
    Ends(fetch(last))
  }

  /** The loop from page `page` on: a failing page raises, an empty page
      stops it, any other page is yielded and the next one requested. */
  function PullFrom(fetch: Fetch, page: int, ghost last: int): (r: Pull)
    requires page <= last && Stops(fetch, last)
    ensures |r.pages| >= 1 && r.pages[0] == page
    decreases last - page
  {
    match fetch(page)
    case Failure(e) => Pull([], Some(e), [page])
    case Success(items) =>
      if items == [] then Pull([], None, [page])
      else
        var rest := PullFrom(fetch, page + 1, last);
        Pull(items + rest.records, rest.error, [page] + rest.pages)
  }

  /** `get_all_items(page_size)`, iterated to its end. Python's default
      page size, 500, is one value of `pageSize`. */
  method GetAllItems(client: OamClient, serve: Request -> Response, parse: Parser,
                     pageSize: int, ghost last: int)
    returns (records: seq<MetadataRecord>, error: Option<ClientError>, pages: seq<int>)
    requires 1 <= last && Stops(Fetcher(client, serve, parse, pageSize), last)
    ensures Pull(records, error, pages) == PullFrom(Fetcher(client, serve, parse, pageSize), 1, last)
  {
    records, error, pages := [], None, [];
    var page := 1;
    ghost var fetch := Fetcher(client, serve, parse, pageSize);
    ghost var whole := PullFrom(fetch, 1, last);
    while true
      invariant 1 <= page <= last
      invariant PullPending(fetch, last, whole, records, pages, page)
      decreases last - page
    {
      var items := GetItems(client, serve, parse, pageSize, page);
      if Ends(items) {
        PullStops(fetch, last, whole, records, pages, page);
        error, pages := if items.Failure? then Some(items.error) else None, pages + [page];
        return;
      }
      PullAdvances(fetch, last, whole, records, pages, page);
      records, pages := records + items.value, pages + [page];
      page := page + 1;
    }
  }

  /** The loop invariant of `GetAllItems`: what has been yielded so far,
      followed by what the loop yields from page `page` on, is the whole. */
  ghost predicate PullPending(fetch: Fetch, last: int, whole: Pull,
                              records: seq<MetadataRecord>, pages: seq<int>, page: int)
    requires page <= last && Stops(fetch, last)
  {
    var here := PullFrom(fetch, page, last);
    whole == Pull(records + here.records, here.error, pages + here.pages)
  }

  /** A failing or empty page ends the loop with the whole result. */
  lemma PullStops(fetch: Fetch, last: int, whole: Pull,
                  records: seq<MetadataRecord>, pages: seq<int>, page: int)
    requires page <= last && Stops(fetch, last)
    requires PullPending(fetch, last, whole, records, pages, page)
    requires Ends(fetch(page))
    ensures var answer := fetch(page);
      whole == Pull(records, if answer.Failure? then Some(answer.error) else None, pages + [page])
  {
    PullFromPage(fetch, page, last);
    assert records + [] == records;
  }

  /** A page with records is yielded and the loop goes on with the next. */
  lemma PullAdvances(fetch: Fetch, last: int, whole: Pull,
                     records: seq<MetadataRecord>, pages: seq<int>, page: int)
    requires page <= last && Stops(fetch, last)
    requires PullPending(fetch, last, whole, records, pages, page)
    requires !Ends(fetch(page))
    ensures page < last
    ensures PullPending(fetch, last, whole,
                        records + fetch(page).value, pages + [page], page + 1)
  {
    PullFromPage(fetch, page, last);
    var items := fetch(page).value;
    var next := PullFrom(fetch, page + 1, last);
    assert records + (items + next.records) == (records + items) + next.records;
    assert pages + ([page] + next.pages) == (pages + [page]) + next.pages;
  }

  /** One step of the page loop. */
  lemma PullFromPage(fetch: Fetch, page: int, last: int)
    requires page <= last && Stops(fetch, last)
    ensures var answer := fetch(page);
      && (answer.Failure? ==> PullFrom(fetch, page, last) == Pull([], Some(answer.error), [page]))
      && (answer == Success([]) ==> PullFrom(fetch, page, last) == Pull([], None, [page]))
      && (answer.Success? && answer.value != [] ==>
            && page < last
            && PullFrom(fetch, page, last)
               == Pull(answer.value + PullFrom(fetch, page + 1, last).records,
                       PullFrom(fetch, page + 1, last).error,
                       [page] + PullFrom(fetch, page + 1, last).pages))
  {
  }

  /** The bound only makes the loop's end visible to the proof: any page
      at which the server stops gives the same run. */
  lemma {:induction false} PullIgnoresBound(fetch: Fetch, page: int, last1: int, last2: int)
    requires page <= last1 && Stops(fetch, last1)
    requires page <= last2 && Stops(fetch, last2)
    ensures PullFrom(fetch, page, last1) == PullFrom(fetch, page, last2)
    decreases last1 - page
  {
    PullFromPage(fetch, page, last1);
    PullFromPage(fetch, page, last2);
    var answer := fetch(page);
    if answer.Success? && answer.value != [] {
      PullIgnoresBound(fetch, page + 1, last1, last2);
    }
  }

  // ---------------------------------------------------------------------
  // What the client promises.
  // ---------------------------------------------------------------------

  /** A page parses exactly when every raw result does, into one record per
      result in the same order. */
  lemma {:induction false} ParseAllElementwise(results: seq<Json>, parse: Parser)
    ensures ParseAll(results, parse).Success? <==>
              forall k :: 0 <= k < |results| ==> parse(results[k]).Success?
    ensures ParseAll(results, parse).Success? ==>
              && |ParseAll(results, parse).value| == |results|
              && forall k :: 0 <= k < |results| ==>
                   ParseAll(results, parse).value[k] == parse(results[k]).value
  {
    if results != [] {
      var init := results[..|results| - 1];
      ParseAllElementwise(init, parse);
      assert forall k :: 0 <= k < |init| ==> init[k] == results[k];
    }
  }

  /** A failing page reports the error of its first failing result. */
  lemma {:induction false} ParseAllFirstFailure(results: seq<Json>, parse: Parser, i: nat)
    requires i < |results| && parse(results[i]).Failure?
    requires forall k :: 0 <= k < i ==> parse(results[k]).Success?
    ensures ParseAll(results, parse) == Failure(parse(results[i]).error)
  {
    var prefix := results[..i + 1];
    ParseAllElementwise(prefix[..i], parse);
    assert forall k :: 0 <= k < i ==> prefix[..i][k] == results[k];
    assert prefix[..i] == prefix[..|prefix| - 1];
    FirstFailureStops(results, i + 1, parse);
  }

  /** An error status answers the page with that status, whatever the body. */
  lemma ErrorStatusBeforeParsing(client: OamClient, serve: Request -> Response, parse: Parser,
                                 limit: int, page: int)
    requires IsErrorStatus(serve(PageRequest(client, limit, page)).status)
    ensures ItemsPage(client, serve, parse, limit, page) == Failure(HttpStatus(serve(PageRequest(client, limit, page)).status))
  {
  }

  /** `get_count` asks for one result. An error status raises before the
      body is read; otherwise the count is the "found" entry of the
      response's "meta" object, whatever else either object holds, and a
      body without it is malformed. */
  lemma CountOfResponse(client: OamClient, serve: Request -> Response)
    ensures CountRequest(client).limit == 1 && CountRequest(client).page.None?
    ensures var response := serve(CountRequest(client));
      var r := GetCount(client, serve);
      && (IsErrorStatus(response.status) ==> r == Failure(HttpStatus(response.status)))
      && (!IsErrorStatus(response.status) ==>
            && (r.Success? <==>
                  && response.body.JObj? && "meta" in response.body.fields
                  && response.body.fields["meta"].JObj? && "found" in response.body.fields["meta"].fields)
            && (r.Success? ==> r.value == response.body.fields["meta"].fields["found"])
            && (r.Failure? ==> r.error.Malformed?))
  {
  }

  /** The loop requests pages 1, 2, 3, ... each once, in order. */
  lemma {:induction false} PagesAreConsecutive(fetch: Fetch, page: int, last: int)
    requires page <= last && Stops(fetch, last)
    ensures forall k :: 0 <= k < |PullFrom(fetch, page, last).pages| ==>
              PullFrom(fetch, page, last).pages[k] == page + k
    decreases last - page
  {
    var r := PullFrom(fetch, page, last);
    match fetch(page)
    case Failure(e) =>
    case Success(items) =>
      if items != [] {
        var rest := PullFrom(fetch, page + 1, last);
        assert r.pages == [page] + rest.pages;
        PagesAreConsecutive(fetch, page + 1, last);
        assert forall j :: 0 <= j < |rest.pages| ==> rest.pages[j] == page + 1 + j;
        assert forall k :: 1 <= k < |r.pages| ==> r.pages[k] == rest.pages[k - 1];
      }
  }

  /** The loop stops after the first empty page or the first failure: every
      page requested before the last one was answered with records. */
  lemma {:induction false} StopsAtFirstEmptyPage(fetch: Fetch, page: int, last: int)
    requires page <= last && Stops(fetch, last)
    ensures var r := PullFrom(fetch, page, last);
      && (forall k :: 0 <= k < |r.pages| - 1 ==>
            var answer := fetch(r.pages[k]);
            answer.Success? && answer.value != [])
      && (r.error.None? <==> fetch(r.pages[|r.pages| - 1]) == Success([]))
      && (r.error.Some? ==> fetch(r.pages[|r.pages| - 1]) == Failure(r.error.value))
    decreases last - page
  {
    PagesAreConsecutive(fetch, page, last);
    match fetch(page)
    case Failure(e) =>
    case Success(items) =>
      if items != [] {
        StopsAtFirstEmptyPage(fetch, page + 1, last);
        PagesAreConsecutive(fetch, page + 1, last);
      }
  }

  /** Parsing a slice of a page that parses gives the same slice of records. */
  lemma ParseAllSlice(raws: seq<Json>, parse: Parser, records: seq<MetadataRecord>, lo: nat, hi: nat)
    requires ParseAll(raws, parse) == Success(records)
    requires lo <= hi <= |raws|
    ensures |records| == |raws|
    ensures ParseAll(raws[lo..hi], parse) == Success(records[lo..hi])
  {
    var slice := raws[lo..hi];
    ParseAllElementwise(raws, parse);
    forall k | 0 <= k < |slice|
      ensures parse(slice[k]).Success? && parse(slice[k]).value == records[lo + k]
    {
      assert slice[k] == raws[lo + k];
    }
    ParseAllElementwise(slice, parse);
    var v := ParseAll(slice, parse).value;
    forall k | 0 <= k < |v|
      ensures v[k] == records[lo..hi][k]
    {
    }
    assert v == records[lo..hi];
  }

  // ---------------------------------------------------------------------
  // A catalog of N results served in pages of P.
  // ---------------------------------------------------------------------

  function Clip(x: int, n: nat): (r: nat)
    ensures r <= n
  {
    if x < 0 then 0 else if x > n then n else x
  }

  /** Page `page` of `raws` in pages of `size`: results (page-1)*size up to
      page*size, cut at the end of the catalog. */
  function Chunk(raws: seq<Json>, size: nat, page: int): seq<Json>
    requires size > 0
  {
    var lo := Clip((page - 1) * size, |raws|);
    var hi := Clip(page * size, |raws|);
    raws[lo..hi]
  }

  /** A server that answers every page request of this size with the
      matching chunk of the catalog. */
  ghost predicate ServesChunks(client: OamClient, serve: Request -> Response, raws: seq<Json>, size: nat)
  {
    && size > 0
    && forall page: int ::
         && !IsErrorStatus(serve(PageRequest(client, size, page)).status)
         && Get(serve(PageRequest(client, size, page)).body, "results") == Success(JArr(Chunk(raws, size, page)))
  }

  /** From page `page` (offset `lo`) on, every page up to the first one
      past the catalog is answered with the records of its chunk. */
  ghost predicate ServedFrom(fetch: Fetch, records: seq<MetadataRecord>, size: nat, page: int, lo: int)
    requires size > 0
    decreases |records| - lo
  {
    && fetch(page) == Success(records[Clip(lo, |records|)..Clip(lo + size, |records|)])
    && (lo < |records| ==> ServedFrom(fetch, records, size, page + 1, lo + size))
  }

  /** The page at offset `lo` is answered with the records of its chunk. */
  lemma ChunkPage(client: OamClient, serve: Request -> Response, parse: Parser,
                  raws: seq<Json>, size: nat, records: seq<MetadataRecord>, page: int, lo: int)
    requires ServesChunks(client, serve, raws, size)
    requires ParseAll(raws, parse) == Success(records)
    requires lo == (page - 1) * size
    ensures |records| == |raws|
    ensures lo + size == ((page + 1) - 1) * size
    ensures ItemsPage(client, serve, parse, size, page)
         == Success(records[Clip(lo, |raws|)..Clip(lo + size, |raws|)])
  {
    ChunkAt(raws, size, page, lo);
    assert (page + 1) - 1 == page;
    ParseAllSlice(raws, parse, records, Clip(lo, |raws|), Clip(lo + size, |raws|));
  }

  /** A server of chunks whose results all parse answers each page with the
      records of its chunk. */
  lemma {:induction false} ChunksServed(client: OamClient, serve: Request -> Response, parse: Parser,
                                        raws: seq<Json>, size: nat, records: seq<MetadataRecord>, page: int, lo: int)
    requires ServesChunks(client, serve, raws, size)
    requires ParseAll(raws, parse) == Success(records)
    requires lo == (page - 1) * size
    ensures |records| == |raws|
    ensures ServedFrom(Fetcher(client, serve, parse, size), records, size, page, lo)
    decreases |raws| - lo
  {
    ChunkPage(client, serve, parse, raws, size, records, page, lo);
    if lo < |raws| {
      ChunksServed(client, serve, parse, raws, size, records, page + 1, lo + size);
    }
  }

  lemma MulAtLeast(a: int, b: int)
    requires a >= 0 && b >= 1
    ensures a * b >= a
  {
  }

  /** Page N + 1 of a catalog of N results is empty, so the loop stops
      there at the latest. */
  lemma ChunksStop(client: OamClient, serve: Request -> Response, parse: Parser, raws: seq<Json>, size: nat)
    requires ServesChunks(client, serve, raws, size)
    ensures Stops(Fetcher(client, serve, parse, size), |raws| + 1)
  {
    MulAtLeast(|raws|, size);
    assert Chunk(raws, size, |raws| + 1) == [];
    assert ItemsPage(client, serve, parse, size, |raws| + 1) == Success([]);
  }

  /** `k` pages of `size` from offset `lo` are the fewest that reach `n`:
      each of them starts before `n`, and the one after them does not. */
  predicate Covers(lo: int, k: nat, size: int, n: int)
    decreases k
  {
    if k == 0 then lo >= n else lo < n && Covers(lo + size, k - 1, size, n)
  }

  /** The number of covering pages is the ceiling of the remaining length
      over the page size. */
  lemma {:induction false} CoversIsCeiling(lo: int, k: nat, size: int, n: int)
    requires size > 0 && Covers(lo, k, size, n)
    ensures k == 0 <==> lo >= n
    ensures k >= 1 ==> lo + (k - 1) * size < n <= lo + k * size
    decreases k
  {
    if k >= 2 {
      CoversIsCeiling(lo + size, k - 1, size, n);
      assert (k - 1) * size == (k - 2) * size + size;
      assert k * size == (k - 1) * size + size;
    }
  }

  /** Page `page` starts where the previous one ended. */
  lemma ChunkAt(raws: seq<Json>, size: nat, page: int, lo: int)
    requires size > 0 && lo == (page - 1) * size
    ensures page * size == lo + size
    ensures Chunk(raws, size, page) == raws[Clip(lo, |raws|)..Clip(lo + size, |raws|)]
  {
    assert page * size == (page - 1) * size + size;
  }

  /** From page `page` (offset `lo`) on, the loop yields the rest of the
      catalog, raises nothing, and requests just enough pages to cover it
      plus one. */
  ghost predicate YieldsRest(fetch: Fetch, records: seq<MetadataRecord>, size: nat, page: int, lo: nat)
    requires page <= |records| + 1 && Stops(fetch, |records| + 1) && lo <= |records|
  {
    var r := PullFrom(fetch, page, |records| + 1);
    r.records == records[lo..] && r.error.None? && Covers(lo, |r.pages| - 1, size, |records|)
  }

  lemma {:induction false} ChunkedFrom(fetch: Fetch, records: seq<MetadataRecord>, size: nat, page: int, lo: nat)
    requires size > 0 && ServedFrom(fetch, records, size, page, lo)
    requires page <= lo + 1 && Stops(fetch, |records| + 1) && lo <= |records|
    ensures YieldsRest(fetch, records, size, page, lo)
    decreases |records| - lo
  {
    if lo == |records| {
      EndOfCatalog(fetch, records, size, page, lo);
    } else if lo + size <= |records| {
      ChunkedFrom(fetch, records, size, page + 1, lo + size);
      FullPage(fetch, records, size, page, lo);
    } else {
      assert ServedFrom(fetch, records, size, page + 1, lo + size);
      assert records[Clip(lo + size, |records|)..Clip(lo + size + size, |records|)] == [];
      assert records[Clip(lo, |records|)..Clip(lo + size, |records|)] == records[lo..];
      LastPage(fetch, records, size, page, lo);
    }
  }

  /** At the end of the catalog the page is empty and the loop stops. */
  lemma EndOfCatalog(fetch: Fetch, records: seq<MetadataRecord>, size: nat, page: int, lo: nat)
    requires page <= |records| + 1 && Stops(fetch, |records| + 1) && lo == |records|
    requires fetch(page) == Success(records[Clip(lo, |records|)..Clip(lo + size, |records|)])
    ensures YieldsRest(fetch, records, size, page, lo)
  {
    assert records[Clip(lo, |records|)..Clip(lo + size, |records|)] == [];
    PullFromPage(fetch, page, |records| + 1);
  }

  /** A full page is yielded before the rest. */
  lemma FullPage(fetch: Fetch, records: seq<MetadataRecord>, size: nat, page: int, lo: nat)
    requires page <= lo + 1 && Stops(fetch, |records| + 1) && size > 0 && lo + size <= |records|
    requires fetch(page) == Success(records[lo..lo + size])
    requires YieldsRest(fetch, records, size, page + 1, lo + size)
    ensures YieldsRest(fetch, records, size, page, lo)
  {
    PullFromPage(fetch, page, |records| + 1);
    var next := PullFrom(fetch, page + 1, |records| + 1);
    assert records[lo..lo + size] + records[lo + size..] == records[lo..];
    CoversStep(lo, |next.pages| - 1, size, |records|);
  }

  /** The last, partial page is yielded and the empty page after it stops
      the loop. */
  lemma LastPage(fetch: Fetch, records: seq<MetadataRecord>, size: nat, page: int, lo: nat)
    requires page <= lo + 1 && Stops(fetch, |records| + 1) && lo < |records| < lo + size
    requires fetch(page) == Success(records[lo..])
    requires fetch(page + 1) == Success([])
    ensures YieldsRest(fetch, records, size, page, lo)
  {
    PullFromPage(fetch, page, |records| + 1);
    PullFromPage(fetch, page + 1, |records| + 1);
    assert records[lo..] + [] == records[lo..];
  }

  lemma CoversStep(lo: int, k: nat, size: int, n: int)
    requires lo < n && Covers(lo + size, k, size, n)
    ensures Covers(lo, k + 1, size, n)
  {
  }

  /** With N parseable results served in pages of P, the loop yields all N
      records in catalog order, raises nothing and requests pages 1, 2, ...
      up to ceil(N/P) + 1: the smallest number of pages covering the catalog,
      plus the empty page that stops it. */
  lemma ChunkedCatalog(client: OamClient, serve: Request -> Response, parse: Parser,
                       raws: seq<Json>, size: nat, records: seq<MetadataRecord>)
    requires ServesChunks(client, serve, raws, size)
    requires ParseAll(raws, parse) == Success(records)
    ensures Stops(Fetcher(client, serve, parse, size), |raws| + 1)
    ensures var r := PullFrom(Fetcher(client, serve, parse, size), 1, |raws| + 1);
      && r.records == records
      && r.error.None?
      && Covers(0, |r.pages| - 1, size, |raws|)
      && forall k :: 0 <= k < |r.pages| ==> r.pages[k] == 1 + k
  {
    ChunksStop(client, serve, parse, raws, size);
    ChunksServed(client, serve, parse, raws, size, records, 1, 0);
    ChunkedRun(Fetcher(client, serve, parse, size), records, size);
  }

  /** `ChunkedCatalog` for any answer to the page requests that serves the
      records in chunks. */
  lemma ChunkedRun(fetch: Fetch, records: seq<MetadataRecord>, size: nat)
    requires size > 0 && ServedFrom(fetch, records, size, 1, 0) && Stops(fetch, |records| + 1)
    ensures var r := PullFrom(fetch, 1, |records| + 1);
      && r.records == records
      && r.error.None?
      && Covers(0, |r.pages| - 1, size, |records|)
      && forall k :: 0 <= k < |r.pages| ==> r.pages[k] == 1 + k
  {
    ChunkedFrom(fetch, records, size, 1, 0);
    PagesAreConsecutive(fetch, 1, |records| + 1);
    assert records[0..] == records;
  }
}
