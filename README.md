# stactools-hotosm in Dafny

This project models the sequential core of `stactools-hotosm`. That package turns imagery metadata from OpenAerialMap (OAM) and from Maxar's open-data catalog into STAC (SpatioTemporal Asset Catalog) items and collections, and bulk-loads them into a STAC database.

The model covers these parts:

- the OAM metadata record and its in-place sanitiser (`Metadata`);
- the alternate-assets enrichment, which derives an `s3://` alternate for every asset hosted on amazonaws.com (`StacCommon`), with the URL split it relies on (`Urls`);
- the OAM metadata API client (`Client`): record parsing, a page of results, the count, and the page loop that stops at the first failing or empty page;
- the command line's cutoff check and the sync orchestrator, with its RAISE/IGNORE policy (`Cli`);
- the Maxar event filter and catalog walk (`MaxarSync`);
- the Maxar item rewrite and collection (`MaxarStac`);
- the OAM item and collection builder (`OamStac`);
- the slice of the STAC object model these read and write (`Stac`): the mutable `Item` and `Collection` objects and the calls made on them.

The following are parameters of the model:

- HTTP responses;
- the catalog reader and the recursive item walk;
- the date parsers and formatters;
- pystac's resolution of a relative href;
- the loader and the clock.

What the code echoes and what it hands to the loader are returned as values.

Instants are `int` seconds (UTC). JSON values are the `Json` datatype. `Json.Display` stands for Python's `str()` of a JSON value; it agrees with Python on strings, None, booleans and numbers, and differs on lists and dictionaries (see "## Left out").

Mutable objects are classes whose methods update their fields in place:

- `OamMetadata`;
- the STAC `Item` and `Collection`.

Each class exposes its whole state as a value (`Record()`, `Value()`). Every method states its new state in terms of the old one.

Loops are methods with loop invariants, proved against a specification function:

- `get_items`;
- `get_all_items`;
- `sync_handler`;
- `new_stac_items`;
- pystac's `make_asset_hrefs_absolute`;
- the asset loop of `add_alternate_assets`.

Lemmas state what the source promises about those specification functions.

## Model

| member | source | states |
|---|---|---|
| Metadata.OamMetadata.Sanitize | src/stactools/hotosm/oam_metadata.py:60-65 | returns the receiver itself; the new record is the old one with the license, platform and sensor rules applied in that order |
| Metadata.OamMetadata.SanitizeLicense | src/stactools/hotosm/oam_metadata.py:67-74 | only the license field changes, to the sanitised license |
| Metadata.OamMetadata.SanitizePlatform | src/stactools/hotosm/oam_metadata.py:76-82 | only the platform field changes, to the looked-up acronym when there is one |
| Metadata.OamMetadata.SanitizeSensor | src/stactools/hotosm/oam_metadata.py:84-88 | only the sensor field changes, to None for an "unknow…" sensor |
| Metadata.LicenseRule | src/stactools/hotosm/oam_metadata.py:73-74 | a present license keeps its length and has every space (and only spaces) turned into "-", leaving no space; None and "" are unchanged |
| Metadata.PlatformRule | src/stactools/hotosm/oam_metadata.py:78-82 | the platform becomes "UAV" exactly when its lower-cased form is "uav"; any other platform is unchanged |
| Metadata.SensorRule | src/stactools/hotosm/oam_metadata.py:86-88 | the sensor becomes None exactly when it is None or its lower-cased form starts with "unknow"; otherwise it is kept |
| Metadata.SanitizeKeepsOtherFields | src/stactools/hotosm/oam_metadata.py:60-88 | all fields other than license, platform and sensor are untouched |
| Metadata.SanitizeIdempotent | src/stactools/hotosm/oam_metadata.py:60-88 | sanitising twice equals sanitising once |
| Metadata.SanitizeExample | src/stactools/hotosm/oam_metadata.py:60-88 | "UaV", "CC-BY 4.0", "Unknow" become "UAV", "CC-BY-4.0", None |
| Metadata.SanitizeKeepsOrdinaryValues | src/stactools/hotosm/oam_metadata.py:76-88 | "satellite" and the sensor "camera" pass through unchanged |
| Urls.UrlSplit | src/stactools/hotosm/stac_common.py:16 | the netloc holds no "/", "?" or "#"; the path holds no "?" or "#"; the query holds no "#" |
| Urls.UrlSplitComposed | src/stactools/hotosm/stac_common.py:16 | `scheme://netloc/path?query` splits back into its scheme, netloc, path and query |
| StacCommon.AddAlternateAssets | src/stactools/hotosm/stac_common.py:11-28 | returns the same item; appends the alternate-assets schema once to the existing extensions and patches every asset, changing nothing else |
| StacCommon.PatchAssets | src/stactools/hotosm/stac_common.py:15-26 | the loop over the assets applies the patch to every asset and keeps every key |
| StacCommon.AlternateAssets | src/stactools/hotosm/stac_common.py:15-26 | no asset key is added or removed |
| StacCommon.WithAlternateRule | src/stactools/hotosm/stac_common.py:16-26 | no S3 href exactly when the netloc lacks "amazonaws.com", and then the asset is unchanged; the href and the other asset fields and extra keys are kept; otherwise "alternate:name" is "HTTPS" and "alternate" holds the s3 href named "S3" |
| StacCommon.WithAlternateIdempotent | src/stactools/hotosm/stac_common.py:15-26 | patching an asset twice equals patching it once |
| StacCommon.S3HrefOfBucket | src/stactools/hotosm/stac_common.py:17-19 | with a netloc `bucket.rest` holding "amazonaws.com", the alternate is "s3://" + bucket + path |
| StacCommon.S3HrefOfComposed | src/stactools/hotosm/stac_common.py:16-19 | for `scheme://bucket.rest/path?query` the alternate is "s3://" + bucket + path, without query or fragment |
| StacCommon.S3HrefExample | src/stactools/hotosm/stac_common.py:16-19 | `https://b.s3.amazonaws.com/k`, with any query, gives `s3://b/k` |
| StacCommon.RelativeHrefUnchanged | src/stactools/hotosm/stac_common.py:17 | an href with no ":" and no leading "//" has an empty netloc and its asset is unchanged |
| Client.Get | src/stactools/hotosm/oam_metadata_client.py:36-53 | a key lookup succeeds exactly on an object holding the key, with its value |
| Client.GetOptStr | src/stactools/hotosm/oam_metadata_client.py:41-42 | `properties.get(key)` is None exactly when the key is absent or null |
| Client.GetTime | src/stactools/hotosm/oam_metadata_client.py:43-44 | a parsed instant is the parser's answer on the stored text |
| Client.ParsedFields | src/stactools/hotosm/oam_metadata_client.py:33-54 | each record field holds its API field (`_id`, `uuid`, `file_size`, `footprint`, `projection`, `meta_uri`, `properties.thumbnail`, the rest by name); the thumbnail is required; sensor and license are None exactly when absent or null |
| Client.ParseRawResult | src/stactools/hotosm/oam_metadata_client.py:33-54 | parsing the API form of a record gives back the record (round trip), whenever the instant parser inverts the formatter |
| Client.GetItems | src/stactools/hotosm/oam_metadata_client.py:67-81 | the loop answers the page: an error status raises before parsing; otherwise the records parsed from "results", in order, or the first parse failure |
| Client.ParseAllElementwise | src/stactools/hotosm/oam_metadata_client.py:78-81 | the page parses exactly when every result parses, giving one record per result at the same index |
| Client.ParseAllFirstFailure | src/stactools/hotosm/oam_metadata_client.py:78-81 | the first result that fails to parse decides the failure; nothing is skipped |
| Client.ErrorStatusBeforeParsing | src/stactools/hotosm/oam_metadata_client.py:69-76 | an error status raises whatever the body holds |
| Client.CountOfResponse | src/stactools/hotosm/oam_metadata_client.py:56-65 | the count is requested with limit 1 and no page; an error status raises before the body is read; otherwise it succeeds exactly when the body is an object whose "meta" object holds "found", whatever other keys they hold, and is that value; any other body is malformed |
| Client.GetAllItems | src/stactools/hotosm/oam_metadata_client.py:83-91 | the `while True` loop requests pages from 1 on and yields what the page-by-page specification yields, for any server that fails or answers empty at some page |
| Client.PullIgnoresBound | src/stactools/hotosm/oam_metadata_client.py:83-91 | the run does not depend on which stopping page bounds it: it ends at the first failing or empty page |
| Client.PagesAreConsecutive | src/stactools/hotosm/oam_metadata_client.py:85-90 | the pages requested are page, page+1, page+2, …, failing servers included |
| Client.StopsAtFirstEmptyPage | src/stactools/hotosm/oam_metadata_client.py:86-91 | every page before the last had records; the loop ends without error exactly when the last page was empty, and with that page's error otherwise; later pages are never requested |
| Client.ChunkedCatalog | src/stactools/hotosm/oam_metadata_client.py:83-91 | with N records served in pages of P, all N are yielded in order, nothing is raised, and pages 1 … ceil(N/P)+1 are requested once each |
| Client.CoversIsCeiling | src/stactools/hotosm/oam_metadata_client.py:83-91 | the pages that cover the catalog number exactly ceil(N/P): none when N is 0, otherwise k with (k-1)·P < N <= k·P |
| Cli.UploadedSinceRule | src/stactools/hotosm/cli.py:33-51 | BadParameter exactly when both arguments are absent or both are given with non-zero seconds; seconds win (now − seconds), including zero seconds with a datetime; otherwise the given instant |
| Cli.SyncHandler | src/stactools/hotosm/cli.py:191-225 | the loop and the calls after it produce exactly the echoes, the loader calls and the exception of the orchestrator's specification |
| Cli.CollectTagsEverything | src/stactools/hotosm/cli.py:213-214 | every kept item dictionary has "collection" set to the collection id |
| Cli.LoadedItemsTagged | src/stactools/hotosm/cli.py:213-219 | every dictionary handed to the loader carries the collection id |
| Cli.OneLoadThenReport | src/stactools/hotosm/cli.py:200-225 | the loader is called once, in upsert mode, with all kept items, exactly when nothing was raised; then come the completion line and, only with errors, their header and one line each in order |
| Cli.CollectAllCreated | src/stactools/hotosm/cli.py:205-214 | when every entry transforms, one tagged dictionary per entry, in order, and no error |
| Cli.RaiseAllOrNothing | src/stactools/hotosm/cli.py:206-210 | under RAISE nothing is raised exactly when every entry transforms; otherwise the raised error is that of the first failing entry |
| Cli.IgnoreFailingFirstEntryRaises | src/stactools/hotosm/cli.py:211-214 | under IGNORE, as written, a failing first entry reaches the tagging with `item` unbound and raises |
| Cli.IgnoreFailureDuplicatesPrevious | src/stactools/hotosm/cli.py:211-214 | under IGNORE, as written, a failing entry after a good one re-appends the good one's dictionary and records one error |
| Cli.IgnoreAsWritten | src/stactools/hotosm/cli.py:205-214 | under IGNORE, as written, with a good first entry: nothing raised; one dictionary per entry, its own tagged one when it transforms and a copy of the previous one when it fails; the error lines `"{raw}: {e}"` of exactly the failing entries, in order |
| Cli.IntendedIgnore | src/stactools/hotosm/cli.py:208-214 | with a `continue`, IGNORE never raises, loads exactly the tagged successes in order and records exactly the error lines of the failures, in order |
| Cli.IgnoreDiscrepancy | src/stactools/hotosm/cli.py:211-214 | on [good, bad] the written branch keeps two dictionaries where the intended one keeps one |
| MaxarSync.NewStacItems | src/stactools/hotosm/maxar/sync.py:17-49 | the loop yields exactly what the event-by-event specification yields: items, catalogs read, and the exception that ends it |
| MaxarSync.IndexStatusFirst | src/stactools/hotosm/maxar/sync.py:36-38 | an error status of the index raises before any event is handled; no other failure is reported as an index status |
| MaxarSync.EventRule | src/stactools/hotosm/maxar/sync.py:41-49 | an event before the cutoff reads nothing and yields nothing; a kept event reads its catalog URL once; a failed read or a non-collection raises with no items; otherwise it yields the items the walk of the collection without root links yields, and raises exactly when the walk fails part-way, after those items |
| MaxarSync.WalkAppend | src/stactools/hotosm/maxar/sync.py:40-49 | the output over two runs of events is the first's followed by the second's (events in order, items contiguous), or the first's alone if it raised |
| MaxarSync.ReadsAreKeptEvents | src/stactools/hotosm/maxar/sync.py:40-46 | a walk without exception reads exactly the catalog URLs of the kept events, in index order |
| MaxarSync.CatalogUrl | src/stactools/hotosm/maxar/sync.py:45 | the URL is the events root, then the directory, then "/collection.json" |
| MaxarSync.CatalogUrlExample | src/stactools/hotosm/maxar/sync.py:45 | directory "foo" gives `https://maxar-opendata.s3.amazonaws.com/events/foo/collection.json` |
| MaxarStac.CreateItem | src/stactools/hotosm/maxar/stac.py:102-154 | works on a fresh clone, so the source item is not modified; fails or succeeds as the item specification does, with its error or its state |
| MaxarStac.AddOamFields | src/stactools/hotosm/maxar/stac.py:121-150 | the second half of `create_item` on the clone: the two OAM properties and the title, or KeyError for "catalog_id" when neither suffix exists; only the derived-from link; the assets enriched; the two schemas appended in order |
| MaxarStac.MaxarItemFailures | src/stactools/hotosm/maxar/stac.py:113-135 | raises exactly when the parent or grandparent is missing (ValueError naming the id), a relative href has no self href to resolve against, or neither grid code nor catalog id exists |
| MaxarStac.MaxarItemRule | src/stactools/hotosm/maxar/stac.py:104-152 | id with every "/" as "-"; collection cleared; producer "Maxar", platform type "satellite", title "<event title> - <suffix>", other properties kept; links exactly the derived-from link to a non-empty self href, or none; extensions: the original, then alternate assets, then OAM; same asset keys, each asset resolved against the self href (when there is one) and given its S3 alternate |
| MaxarStac.GridCodePreferred | src/stactools/hotosm/maxar/stac.py:130-135 | with both a grid code and a catalog id, the title uses the grid code |
| MaxarStac.SelfHrefWithoutCollection | src/stactools/hotosm/maxar/stac.py:105-120 | dropping the collection links keeps the self href the hrefs are resolved against |
| MaxarStac.CreateCollection | src/stactools/hotosm/maxar/stac.py:34-99 | id "maxar-opendata", title the catalog's description, license the catalog's "license" field (missing: KeyError), the two providers, a derived-from link only with a self href, the "visual" item asset and its render |
| MaxarStac.DerivedLinksRule | src/stactools/hotosm/maxar/stac.py:138-146 | at most one link, present exactly with a non-empty self href, derived-from, JSON, pointing at it |
| OamStac.CreateItem | src/stactools/hotosm/stac.py:97-170 | a fresh item whose state is the item specification of the record |
| OamStac.OamItemRule | src/stactools/hotosm/stac.py:97-175 | id, geometry and bbox from the record; no datetime, start and end always set; license and instruments present exactly when truthy; exactly the image (data, COG), thumbnail (thumbnail, PNG) and metadata (metadata, JSON) assets; the image carries `file:size`; no alternates; one producer/licensor provider described by the contact |
| OamStac.AssetsAsAdded | src/stactools/hotosm/stac.py:136-167 | the three `add_asset` calls and the file extension build the specified asset map |
| OamStac.CreateCollection | src/stactools/hotosm/stac.py:31-94 | id "openaerialmap", license "CC-BY-4.0", the OAM host provider, the license link, item assets image and thumbnail, and the render of the image |
| OamStac.CollectionMatchesItems | src/stactools/hotosm/stac.py:63-92 | the collection's item assets are exactly image and thumbnail, a strict subset of every item's assets, with the items' media types and roles; the render shows a declared asset |
| Stac.Item.MakeAssetHrefsAbsolute | src/stactools/hotosm/maxar/stac.py:119-120 | succeeds exactly with a self href or no relative href; then only the assets change, each relative href resolved against the self href; otherwise nothing changes |
| Stac.ResolveHrefs | src/stactools/hotosm/maxar/stac.py:119-120 | the asset loop fails exactly on a relative href without a self href, and otherwise resolves every relative href |
| Stac.Item.Clone | src/stactools/hotosm/maxar/stac.py:104 | a fresh object with the same state |
| Stac.Item.SetCollectionNone | src/stactools/hotosm/maxar/stac.py:105 | drops the collection links and the collection, nothing else |
| Stac.Item.SetAssetField | src/stactools/hotosm/stac.py:146-147 | writes one extra field of one existing asset, nothing else |
| Stac.SelfHref | src/stactools/hotosm/maxar/stac.py:139 | the self href is the target of the first "self" link; none exactly when there is no such link |
| Stac.WithoutRel | src/stactools/hotosm/maxar/sync.py:48 | keeps exactly the links of other relations |
| Stac.WithoutRelConcat | src/stactools/hotosm/maxar/sync.py:48 | link removal works link by link over a concatenation, so the kept links stay in order with their multiplicity |
| Stac.WithoutRelSingle | src/stactools/hotosm/maxar/sync.py:48 | a single link is dropped exactly when it has the removed relation |

## Left out

- HTTP and network I/O are left out. Every response, catalog read and recursive item walk is a parameter, so retries, timeouts and laziness across network calls are not modelled. The recursive walk of a Maxar collection returns the items it yielded and, when a child catalog or item read raised, the reason (`MaxarSync.Walked`).
- PgSTAC and the loader are left out. The loader is a recorded call (`LoadCall`), and database errors are not modelled.
- The click wiring is left out: option declarations, `sync_oam`, `sync_maxar` and the DSN building. In particular, `sync_oam` passes the cutoff instant to `get_all_items` as its page size (cli.py:138); this is glue code outside the model.
- Schema validation (`validate()`) is left out: it is a foreign JSON-Schema call.
- Date and time libraries are left out. `fromisoformat`, `strptime`, `datetime_to_str` and `now` are parameters or `int` seconds, and time zones are not modelled.
- Floats (`gsd`, bbox, fractional `--uploaded-since` seconds) are carried as opaque JSON values or whole seconds.
- Urls.UrlSplit: models only `urlsplit`'s scheme/netloc/path/query/fragment split. It does not model the `;params` split of `urlparse`, whitespace stripping, IPv6 brackets, or the NFKC check of a non-ASCII netloc that raises `ValueError`. As in Python, only the scheme is lower-cased; the netloc keeps its case.
- Stac.AbsoluteAsset: pystac's joining of a relative href with the self href is a parameter (`resolve`), not the `urljoin` algorithm.
- MaxarSync.CatalogUrl: `urljoin` is modelled as concatenation, which agrees with it only for a directory of plain path segments. A directory that is an absolute URL, starts with "/", holds "." or ".." segments, or holds "?" or "#" would be resolved differently by `urljoin`; those cases are not modelled.
- Client.ParseResult: reads each field at the JSON type the record declares. A value of another JSON type is a parse error (`WrongType`) here, where Python would store it unchecked.
- Client.GetItems: a "results" value that is not a JSON list makes the page `Malformed` in the model. Python differs on some of these. An empty dictionary or empty string runs the loop zero times and returns an empty page, which ends `get_all_items` normally. A non-empty dictionary or string fails at the first `result["_id"]`. A number, boolean or null fails as "not iterable".
- Client.GetAllItems: requires some page `last` at which the server fails or answers with no results (`Stops`). Failing servers and servers with non-empty pages after an empty one are covered; only a server that answers every page with records, on which the Python generator runs forever, is not modelled.
- MaxarSync.NewStacItems: an event index that is not a JSON list raises `IndexNotAList` in the model, whatever it is. Python differs on some of these. An empty dictionary or an empty string runs the loop zero times and ends normally with nothing yielded. A non-empty dictionary or string is iterated key by key or character by character, and the first `event["date"]` raises. A number, boolean or null raises "not iterable" before any event. A non-object event raises in both (`NotAnEvent` here).
- MaxarStac.CreateCollection: the license is the text of the catalog's "license" value (`Display`), while pystac would store any JSON value.
- Aliasing is not modelled. Item dictionaries, asset objects and the clone's assets are values here, so a later mutation through a shared reference is not represented. An example is the same dictionary appended twice under IGNORE.
- Exceptions raised by the loader, by `to_dict()` and by the echo are not modelled.
- The OAM extension schema URI is a parameter (`oamSchema`): its constants are imported from a module that does not define them, and constants.py is not otherwise part of this model.
- Python's Unicode `str.lower()` is modelled as ASCII lower-casing (`Strings.Lower`).
- Json.Display: renders a list as "[...]" and a dictionary as "{...}", where Python's `str()` prints their contents. The difference reaches the Maxar title suffix when the grid code or catalog id is a list or dictionary (maxar/stac.py:130-135), the `s3_directory` part of the catalog URL (maxar/sync.py:45), the collection license (maxar/stac.py:34-99) and the text of a bad event date. For strings, None, booleans and numbers the text is Python's.

## Findings

| source | as written | input that shows it | evidently intended | confidence | as-written member | corrected member |
|---|---|---|---|---|---|---|
| src/stactools/hotosm/cli.py:211-214 | under IGNORE a failed transform records its error and falls through to `item["collection"] = …; items_dict.append(item)` | entries [good, bad]: the good entry's dictionary is loaded twice; a failing first entry raises on the unbound `item` | a `continue` after recording the error: skip the failed entry | high (not executed) | Cli.IgnoreFailureDuplicatesPrevious | Cli.IntendedIgnore |
