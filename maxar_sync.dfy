/** Discovery of new Maxar items: the event index is fetched once, each
    event whose date is not before the cutoff has its collection read, its
    root links dropped and its items walked, in index order. The index
    response, the date parser, the catalog reader and the item walk are
    parameters; the reads are recorded by URL. The items are produced
    lazily, so those found before an error are still delivered. */
module MaxarSync {

  import opened Wrappers
  import opened Json
  import opened Stac
  import Client

  const MAXAR_ROOT := "https://maxar-opendata.s3.amazonaws.com/events/"
  const MAXAR_EVENT_INFO := "https://maxar-opendata.s3.amazonaws.com/event_info.json"
  const COLLECTION_FILE := "/collection.json"

  /** The event index response. */
  datatype Response = Response(status: int, body: Json)

  /** A STAC document as the catalog reader returns it. */
  datatype StacDoc = StacDoc(isCollection: bool, links: seq<Link>, fields: map<string, Json>)

  datatype SyncError =
    | IndexStatus(status: int)
    | IndexNotAList
    | NotAnEvent
    | MissingKey(key: string)
    | BadDate(text: string)
    | ReadFailed(url: string, reason: string)
    | NotACollection(url: string)
    | WalkFailed(reason: string)      // a child catalog or item read during the walk raised

  /** What `get_items(recursive=True)` delivers from a collection: the
      items yielded, in order, and the reason of the read that raised
      while walking the child catalogs and items, if one did. */
  datatype Walked<I> = Walked(items: seq<I>, failure: Option<string>)

  /** What the generator has produced: the items, the catalog URLs read,
      and the exception that ended it, if any. */
  datatype Yielded<I> = Yielded(items: seq<I>, urls: seq<string>, error: Option<SyncError>)

  /** `urljoin(MAXAR_ROOT, f"{dir}/collection.json")` for a relative directory. */
  function CatalogUrl(dir: string): (url: string)
    ensures |url| == |MAXAR_ROOT| + |dir| + |COLLECTION_FILE|
    ensures url[..|MAXAR_ROOT|] == MAXAR_ROOT
    ensures url[|url| - |COLLECTION_FILE|..] == COLLECTION_FILE
    ensures url[|MAXAR_ROOT|..|url| - |COLLECTION_FILE|] == dir
  {
    MAXAR_ROOT + dir + COLLECTION_FILE
  }

  /** An event is kept without a cutoff, or when it is not before it. */
  predicate Kept(date: Timestamp, after: Option<Timestamp>)
  {
    after.None? || date >= after.value
  }

  /** `strptime(event["date"], "%Y-%m-%d")` at midnight UTC, through the
      given parser. */
  function EventDate(e: Json, parseDate: string -> Option<Timestamp>): Result<Timestamp, SyncError>
  {
    if !e.JObj? then Failure(NotAnEvent)
    else if "date" !in e.fields then Failure(MissingKey("date"))
    else match e.fields["date"]
      case JStr(s) => if parseDate(s).Some? then Success(parseDate(s).value) else Failure(BadDate(s))
      case other => Failure(BadDate(Display(other)))
  }

  /** The catalog URL of a kept event, `s3_directory` formatted as text. */
  function EventUrl(e: Json): Result<string, SyncError>
  {
    if e.JObj? && "s3_directory" in e.fields then Success(CatalogUrl(Display(e.fields["s3_directory"])))
    else Failure(MissingKey("s3_directory"))
  }

  /** What one event contributes. */
  function EventStep<I>(e: Json, after: Option<Timestamp>, parseDate: string -> Option<Timestamp>,
                        read: string -> Result<StacDoc, string>, walk: StacDoc -> Walked<I>): Yielded<I>
  {
    match EventDate(e, parseDate)
    case Failure(err) => Yielded([], [], Some(err))
    case Success(date) =>
      if !Kept(date, after) then Yielded([], [], None)
      else match EventUrl(e)
        case Failure(err) => Yielded([], [], Some(err))
        case Success(url) =>
          match read(url)
          case Failure(reason) => Yielded([], [url], Some(ReadFailed(url, reason)))
          case Success(doc) =>
            if !doc.isCollection then Yielded([], [url], Some(NotACollection(url)))
            else
              var walked := walk(doc.(links := WithoutRel(doc.links, REL_ROOT)));
              Yielded(walked.items, [url], if walked.failure.Some? then Some(WalkFailed(walked.failure.value)) else None)
  }

  /** One output followed by another. */
  function Then<I>(a: Yielded<I>, b: Yielded<I>): Yielded<I>
  {
    Yielded(a.items + b.items, a.urls + b.urls, b.error)
  }

  /** `EventStep` with everything but the event fixed. */
  function Stepper<I>(after: Option<Timestamp>, parseDate: string -> Option<Timestamp>,
                      read: string -> Result<StacDoc, string>, walk: StacDoc -> Walked<I>): Json -> Yielded<I>
  {
    e => EventStep(e, after, parseDate, read, walk)
  }

  /** The loop over the events, each handled by `step`; an exception ends it. */
  function Walk<I>(events: seq<Json>, step: Json -> Yielded<I>): Yielded<I>
  {
    if events == [] then Yielded([], [], None)
    else
      var prev := Walk(events[..|events| - 1], step);
      if prev.error.Some? then prev
      else Then(prev, step(events[|events| - 1]))
  }

  /** The whole generator: the index status is checked before any event. */
  function NewItems<I>(index: Response, after: Option<Timestamp>, parseDate: string -> Option<Timestamp>,
                       read: string -> Result<StacDoc, string>, walk: StacDoc -> Walked<I>): Yielded<I>
  {
    if Client.IsErrorStatus(index.status) then Yielded([], [], Some(IndexStatus(index.status)))
    else if !index.body.JArr? then Yielded([], [], Some(IndexNotAList))
    else Walk(index.body.elems, Stepper(after, parseDate, read, walk))
  }

  /** `new_stac_items`, event by event. */
  method NewStacItems<I>(index: Response, after: Option<Timestamp>, parseDate: string -> Option<Timestamp>,
                         read: string -> Result<StacDoc, string>, walk: StacDoc -> Walked<I>)
    returns (out: Yielded<I>)
    ensures out == NewItems(index, after, parseDate, read, walk)
  {
    if Client.IsErrorStatus(index.status) {
      return Yielded([], [], Some(IndexStatus(index.status)));
    }
    if !index.body.JArr? {
      return Yielded([], [], Some(IndexNotAList));
    }
    ghost var stepper := Stepper(after, parseDate, read, walk);
    var events := index.body.elems;
    var items: seq<I> := [];
    var urls: seq<string> := [];
    var i := 0;
    while i < |events|
      invariant 0 <= i <= |events|
      invariant Walk(events[..i], stepper) == Yielded(items, urls, None)
    {
      assert events[..i + 1][..i] == events[..i];
      var step := EventStep(events[i], after, parseDate, read, walk);
      assert step == stepper(events[i]);
      items, urls := items + step.items, urls + step.urls;
      if step.error.Some? {
        StoppedWalkStays(events, i + 1, stepper);
        return Yielded(items, urls, step.error);
      }
      i := i + 1;
    }
    assert events[..i] == events;
    out := Yielded(items, urls, None);
  }

  /** Once an event raised, the walk over any longer prefix ends the same way. */
  lemma {:induction false} StoppedWalkStays<I>(events: seq<Json>, n: nat, step: Json -> Yielded<I>)
    requires 0 < n <= |events|
    requires Walk(events[..n], step).error.Some?
    ensures Walk(events, step) == Walk(events[..n], step)
    decreases |events| - n
  {
    if n < |events| {
      assert events[..n + 1][..n] == events[..n];
      StoppedWalkStays(events, n + 1, step);
    } else {
      assert events[..n] == events;
    }
  }

  // ---------------------------------------------------------------------
  // What the generator promises.
  // ---------------------------------------------------------------------

  /** A failing index status raises before any event is looked at. */
  lemma IndexStatusFirst<I>(index: Response, after: Option<Timestamp>, parseDate: string -> Option<Timestamp>,
                            read: string -> Result<StacDoc, string>, walk: StacDoc -> Walked<I>)
    ensures Client.IsErrorStatus(index.status) <==>
              NewItems(index, after, parseDate, read, walk).error == Some(IndexStatus(index.status))
    ensures Client.IsErrorStatus(index.status) ==>
              NewItems(index, after, parseDate, read, walk) == Yielded([], [], Some(IndexStatus(index.status)))
  {
    if !Client.IsErrorStatus(index.status) && index.body.JArr? {
      var stepper := Stepper(after, parseDate, read, walk);
      forall e | e in index.body.elems
        ensures var y := stepper(e); y.error.Some? ==> IsEventError(y.error.value)
      {
      }
      WalkErrors(index.body.elems, stepper);
    }
  }

  predicate IsEventError(e: SyncError)
  {
    !e.IndexStatus? && !e.IndexNotAList?
  }

  /** The walk raises only what its steps raise. */
  lemma {:induction false} WalkErrors<I>(events: seq<Json>, step: Json -> Yielded<I>)
    requires forall e | e in events :: var y := step(e); y.error.Some? ==> IsEventError(y.error.value)
    ensures var w := Walk(events, step); w.error.Some? ==> IsEventError(w.error.value)
  {
    if events != [] {
      assert events[|events| - 1] in events;
      WalkErrors(events[..|events| - 1], step);
    }
  }

  /** An event before the cutoff is never dereferenced; a kept one is read
      once, at its catalog URL, and its items are those the walk of the
      collection without its root links yields, up to the walk's own
      failure, which then ends the run. */
  lemma EventRule<I>(e: Json, after: Option<Timestamp>, parseDate: string -> Option<Timestamp>,
                     read: string -> Result<StacDoc, string>, walk: StacDoc -> Walked<I>)
    requires EventDate(e, parseDate).Success?
    ensures var step := EventStep(e, after, parseDate, read, walk);
      && (!Kept(EventDate(e, parseDate).value, after) ==> step == Yielded([], [], None))
      && (Kept(EventDate(e, parseDate).value, after) && EventUrl(e).Success? ==>
            && step.urls == [EventUrl(e).value]
            && (read(EventUrl(e).value).Failure? ==>
                  step == Yielded([], [EventUrl(e).value], Some(ReadFailed(EventUrl(e).value, read(EventUrl(e).value).error))))
            && (read(EventUrl(e).value).Success? && !read(EventUrl(e).value).value.isCollection ==>
                  step == Yielded([], [EventUrl(e).value], Some(NotACollection(EventUrl(e).value))))
            && (read(EventUrl(e).value).Success? && read(EventUrl(e).value).value.isCollection ==>
                  var doc := read(EventUrl(e).value).value;
                  var walked := walk(doc.(links := WithoutRel(doc.links, REL_ROOT)));
                  && step.items == walked.items
                  && (step.error.None? <==> walked.failure.None?)
                  && (walked.failure.Some? ==> step.error == Some(WalkFailed(walked.failure.value)))))
  {
  }

  /** The output over two runs of events is the first's followed by the
      second's: events are handled in order and each one's items are
      contiguous. */
  lemma {:induction false} WalkAppend<I>(a: seq<Json>, b: seq<Json>, step: Json -> Yielded<I>)
    ensures Walk(a, step).error.Some? ==> Walk(a + b, step) == Walk(a, step)
    ensures Walk(a, step).error.None? ==> Walk(a + b, step) == Then(Walk(a, step), Walk(b, step))
    decreases |b|
  {
    if b == [] {
      assert a + b == a;
    } else {
      var b' := b[..|b| - 1];
      assert (a + b)[..|a + b| - 1] == a + b';
      WalkAppend(a, b', step);
    }
  }

  /** The catalog URL of one event, if it is kept. */
  function KeptUrl(e: Json, after: Option<Timestamp>, parseDate: string -> Option<Timestamp>): seq<string>
  {
    if EventDate(e, parseDate).Success? && Kept(EventDate(e, parseDate).value, after) && EventUrl(e).Success?
    then [EventUrl(e).value] else []
  }

  /** The catalog URLs of the kept events, in index order. */
  function KeptUrls(events: seq<Json>, after: Option<Timestamp>, parseDate: string -> Option<Timestamp>): seq<string>
  {
    if events == [] then [] else KeptUrl(events[0], after, parseDate) + KeptUrls(events[1..], after, parseDate)
  }

  /** An event that raises nothing reads its catalog exactly when it is kept. */
  lemma StepReadsKept<I>(e: Json, after: Option<Timestamp>, parseDate: string -> Option<Timestamp>,
                         read: string -> Result<StacDoc, string>, walk: StacDoc -> Walked<I>)
    requires EventStep(e, after, parseDate, read, walk).error.None?
    ensures EventStep(e, after, parseDate, read, walk).urls == KeptUrl(e, after, parseDate)
  {
  }

  /** A walk that raises nothing has read exactly the catalogs of the kept
      events, each once, in index order. */
  lemma {:induction false} ReadsAreKeptEvents<I>(events: seq<Json>, after: Option<Timestamp>,
                                                 parseDate: string -> Option<Timestamp>,
                                                 read: string -> Result<StacDoc, string>, walk: StacDoc -> Walked<I>)
    requires Walk(events, Stepper(after, parseDate, read, walk)).error.None?
    ensures Walk(events, Stepper(after, parseDate, read, walk)).urls == KeptUrls(events, after, parseDate)
  {
    if events != [] {
      var stepper := Stepper(after, parseDate, read, walk);
      var first := [events[0]];
      var rest := events[1..];
      assert events == first + rest;
      WalkAppend(first, rest, stepper);
      assert first[..0] == [];
      var step := stepper(events[0]);
      assert Walk(first, stepper) == Then(Yielded([], [], None), step);
      StepReadsKept(events[0], after, parseDate, read, walk);
      ReadsAreKeptEvents(rest, after, parseDate, read, walk);
    }
  }

  /** The URL of the catalog of an event whose directory is "foo". */
  lemma CatalogUrlExample()
    ensures CatalogUrl("foo") == "https://maxar-opendata.s3.amazonaws.com/events/foo/collection.json"
  {
  }
}
