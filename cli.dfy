/** The command line's core: the check of the two mutually exclusive cutoff
    options and the sync orchestrator, which turns every raw metadata entry
    into a STAC item dictionary, tags it with the collection, bulk-loads the
    lot once and reports the errors afterwards. The clock, the metadata
    source, the item transformer and the loader are parameters; echoed lines
    and loader calls are recorded in the result. */
module Cli {

  import opened Wrappers
  import opened Json

  const BAD_PARAMETER := "Must provide one of --uploaded-since or --uploaded-after"

  // ---------------------------------------------------------------------
  // The cutoff.
  // ---------------------------------------------------------------------

  /** `parse_uploaded_since(seconds, after)`: both absent, or both given
      with a non-zero number of seconds, is a bad parameter. Otherwise the
      seconds win: `now - seconds`; else the given instant, read as UTC. */
  function ParseUploadedSince(seconds: Option<int>, after: Option<Timestamp>, now: Timestamp): Result<Timestamp, string>
  {
    if (seconds.None? && after.None?) || (seconds.Some? && seconds.value != 0 && after.Some?) then
      Failure(BAD_PARAMETER)
    else if seconds.Some? then
      Success(now - seconds.value)
    else if after.Some? then
      Success(after.value)
    else
      Failure(BAD_PARAMETER)
  }

  /** The cases of the cutoff check, the zero-seconds quirk included. */
  lemma UploadedSinceRule(seconds: Option<int>, after: Option<Timestamp>, now: Timestamp)
    ensures ParseUploadedSince(seconds, after, now).Failure? <==>
              (seconds.None? && after.None?) || (seconds.Some? && seconds.value != 0 && after.Some?)
    ensures seconds.Some? && after.None? ==> ParseUploadedSince(seconds, after, now) == Success(now - seconds.value)
    ensures seconds.None? && after.Some? ==> ParseUploadedSince(seconds, after, now) == Success(after.value)
    ensures seconds == Some(0) && after.Some? ==> ParseUploadedSince(seconds, after, now) == Success(now)
    ensures ParseUploadedSince(seconds, after, now).Failure? ==> ParseUploadedSince(seconds, after, now).error == BAD_PARAMETER
  {
  }

  // ---------------------------------------------------------------------
  // The sync orchestrator.
  // ---------------------------------------------------------------------

  /** `item.to_dict()`: an item as the dictionary handed to the loader. */
  type ItemDict = map<string, Json>

  datatype Policy = Raise | Ignore

  datatype InsertMode = Upsert

  datatype LoadCall = LoadCall(items: seq<ItemDict>, mode: InsertMode)

  /** The lines `click.echo` writes. */
  datatype Echo =
    | Found(count: nat, since: Timestamp)
    | Completed(count: nat)
    | ErrorsHeader(count: nat)
    | ErrorLine(text: string)

  /** What `sync_handler` raises. */
  datatype SyncFailure =
    | SourceFailed(error: string)    // the raw metadata source raised
    | CreatorFailed(error: string)   // the transformer raised under RAISE
    | UnboundItem                    // `item` read before any assignment under IGNORE

  datatype SyncRun = SyncRun(echoes: seq<Echo>, loads: seq<LoadCall>, raised: Option<SyncFailure>)

  /** The loop's state: the dictionaries to load, the error lines and
      whether an exception escaped. */
  datatype Collected = Collected(items: seq<ItemDict>, errors: seq<string>, raised: Option<SyncFailure>)

  function Tagged(d: ItemDict, collectionId: string): ItemDict
  {
    d["collection" := JStr(collectionId)]
  }

  /** `f"{raw}: {e}"`. */
  function ErrorText(shown: string, e: string): string
  {
    shown + ": " + e
  }

  /** One pass of the loop body as written: a failure under IGNORE records
      the error and then falls through to the tagging and appending of
      `item`, which still holds the previous entry's dictionary (or is
      unbound when there is none). */
  function Step<M>(c: Collected, raw: M, create: M -> Result<ItemDict, string>, show: M -> string,
                   collectionId: string, policy: Policy): Collected
  {
    match create(raw)
    case Success(d) => c.(items := c.items + [Tagged(d, collectionId)])
    case Failure(e) =>
      if policy == Raise then c.(raised := Some(CreatorFailed(e)))
      else
        var errors := c.errors + [ErrorText(show(raw), e)];
        if c.items == [] then c.(errors := errors, raised := Some(UnboundItem))
        else c.(errors := errors, items := c.items + [c.items[|c.items| - 1]])
  }

  /** The loop over all raw entries; it stops at the first exception. */
  function Collect<M>(raws: seq<M>, create: M -> Result<ItemDict, string>, show: M -> string,
                      collectionId: string, policy: Policy): Collected
  {
    if raws == [] then Collected([], [], None)
    else
      var prev := Collect(raws[..|raws| - 1], create, show, collectionId, policy);
      if prev.raised.Some? then prev
      else Step(prev, raws[|raws| - 1], create, show, collectionId, policy)
  }

  function ErrorEchoes(errors: seq<string>): (r: seq<Echo>)
    ensures |r| == |errors|
    ensures forall k :: 0 <= k < |errors| ==> r[k] == ErrorLine(errors[k])
  {
    if errors == [] then [] else [ErrorLine(errors[0])] + ErrorEchoes(errors[1..])
  }

  /** The whole of `sync_handler`: the source is read in full first, then
      the loop runs, then one upsert load, the completion line and, when
      there are errors, their header and one line each. */
  function SyncSpec<M>(source: Timestamp -> Result<seq<M>, string>, create: M -> Result<ItemDict, string>,
                       show: M -> string, collectionId: string, after: Timestamp, policy: Policy): SyncRun
  {
    match source(after)
    case Failure(e) => SyncRun([], [], Some(SourceFailed(e)))
    case Success(raws) =>
      var c := Collect(raws, create, show, collectionId, policy);
      var found := [Found(|raws|, after)];
      if c.raised.Some? then SyncRun(found, [], c.raised)
      else
        var report := if c.errors == [] then [] else [ErrorsHeader(|c.errors|)] + ErrorEchoes(c.errors);
        SyncRun(found + [Completed(|c.items|)] + report, [LoadCall(c.items, Upsert)], None)
  }

  /** `sync_handler`, statement by statement. */
  method SyncHandler<M>(source: Timestamp -> Result<seq<M>, string>, create: M -> Result<ItemDict, string>,
                        show: M -> string, collectionId: string, after: Timestamp, policy: Policy)
    returns (run: SyncRun)
    ensures run == SyncSpec(source, create, show, collectionId, after, policy)
  {
    var listed := source(after);
    if listed.Failure? {
      return SyncRun([], [], Some(SourceFailed(listed.error)));
    }
    var raws := listed.value;
    var echoes := [Found(|raws|, after)];
    var items: seq<ItemDict> := [];
    var errors: seq<string> := [];
    var item: Option<ItemDict> := None;
    var i := 0;
    while i < |raws|
      invariant 0 <= i <= |raws|
      invariant Collect(raws[..i], create, show, collectionId, policy) == Collected(items, errors, None)
      invariant item.None? <==> items == []
      invariant item.Some? ==> item.value == items[|items| - 1]
      invariant AllTagged(items, collectionId)
    {
      CollectOne(raws, i, items, errors, create, show, collectionId, policy);
      var created := create(raws[i]);
      if created.Failure? {
        if policy == Raise {
          FailedPrefixStays(raws, i + 1, create, show, collectionId, policy);
          return SyncRun(echoes, [], Some(CreatorFailed(created.error)));
        }
        errors := errors + [ErrorText(show(raws[i]), created.error)];
      } else {
        item := Some(created.value);
      }
      if item.None? {
        FailedPrefixStays(raws, i + 1, create, show, collectionId, policy);
        return SyncRun(echoes, [], Some(UnboundItem));
      }
      item := Some(Tagged(item.value, collectionId));
      if created.Failure? {
        TaggedTwice(items[|items| - 1], collectionId);
      }
      items := items + [item.value];
      i := i + 1;
    }
    assert raws[..i] == raws;
    var report := if errors == [] then [] else [ErrorsHeader(|errors|)] + ErrorEchoes(errors);
    run := SyncRun(echoes + [Completed(|items|)] + report, [LoadCall(items, Upsert)], None);
  }

  /** The loop over one more entry is one more `Step`. */
  lemma CollectOne<M>(raws: seq<M>, i: nat, items: seq<ItemDict>, errors: seq<string>,
                      create: M -> Result<ItemDict, string>, show: M -> string, collectionId: string, policy: Policy)
    requires i < |raws|
    requires Collect(raws[..i], create, show, collectionId, policy) == Collected(items, errors, None)
    ensures Collect(raws[..i + 1], create, show, collectionId, policy)
         == Step(Collected(items, errors, None), raws[i], create, show, collectionId, policy)
  {
    assert raws[..i + 1][..i] == raws[..i];
  }

  /** Tagging an already tagged dictionary changes nothing. */
  lemma TaggedTwice(d: ItemDict, collectionId: string)
    requires "collection" in d && d["collection"] == JStr(collectionId)
    ensures Tagged(d, collectionId) == d
  {
  }

  /** Once an exception escaped, the loop over a longer prefix ends the same way. */
  lemma {:induction false} FailedPrefixStays<M>(raws: seq<M>, n: nat, create: M -> Result<ItemDict, string>,
                                                show: M -> string, collectionId: string, policy: Policy)
    requires 0 < n <= |raws|
    requires Collect(raws[..n], create, show, collectionId, policy).raised.Some?
    ensures Collect(raws, create, show, collectionId, policy) == Collect(raws[..n], create, show, collectionId, policy)
    decreases |raws| - n
  {
    if n < |raws| {
      assert raws[..n + 1][..n] == raws[..n];
      FailedPrefixStays(raws, n + 1, create, show, collectionId, policy);
    } else {
      assert raws[..n] == raws;
    }
  }

  // ---------------------------------------------------------------------
  // What the orchestrator promises.
  // ---------------------------------------------------------------------

  predicate AllTagged(items: seq<ItemDict>, collectionId: string)
  {
    forall k :: 0 <= k < |items| ==> "collection" in items[k] && items[k]["collection"] == JStr(collectionId)
  }

  /** Every dictionary the loop keeps carries the collection id. */
  lemma {:induction false} CollectTagsEverything<M>(raws: seq<M>, create: M -> Result<ItemDict, string>,
                                                    show: M -> string, collectionId: string, policy: Policy)
    ensures AllTagged(Collect(raws, create, show, collectionId, policy).items, collectionId)
  {
    if raws != [] {
      CollectTagsEverything(raws[..|raws| - 1], create, show, collectionId, policy);
    }
  }

  /** Every dictionary handed to the loader carries the collection id. */
  lemma LoadedItemsTagged<M>(source: Timestamp -> Result<seq<M>, string>, create: M -> Result<ItemDict, string>,
                             show: M -> string, collectionId: string, after: Timestamp, policy: Policy)
    ensures forall call :: call in SyncSpec(source, create, show, collectionId, after, policy).loads ==>
              AllTagged(call.items, collectionId)
  {
    if source(after).Success? {
      CollectTagsEverything(source(after).value, create, show, collectionId, policy);
    }
  }

  /** The loader is called once, in upsert mode, exactly when nothing was
      raised; the completion line follows the load, then the error report,
      present only when there are errors. */
  lemma OneLoadThenReport<M>(source: Timestamp -> Result<seq<M>, string>, create: M -> Result<ItemDict, string>,
                             show: M -> string, collectionId: string, after: Timestamp, policy: Policy)
    ensures var run := SyncSpec(source, create, show, collectionId, after, policy);
      && (run.raised.None? <==> |run.loads| == 1)
      && (run.raised.Some? ==> run.loads == [])
      && (run.raised.None? ==>
            var raws := source(after).value;
            var c := Collect(raws, create, show, collectionId, policy);
            && run.loads[0] == LoadCall(c.items, Upsert)
            && run.echoes[..2] == [Found(|raws|, after), Completed(|c.items|)]
            && (c.errors == [] <==> |run.echoes| == 2)
            && (c.errors != [] ==>
                  && |run.echoes| == 3 + |c.errors|
                  && run.echoes[2] == ErrorsHeader(|c.errors|)
                  && forall k :: 0 <= k < |c.errors| ==> run.echoes[3 + k] == ErrorLine(c.errors[k])))
  {
  }

  predicate AllCreated<M>(raws: seq<M>, create: M -> Result<ItemDict, string>)
  {
    forall k :: 0 <= k < |raws| ==> create(raws[k]).Success?
  }

  /** When every entry transforms, either policy keeps one tagged
      dictionary per entry, in order, and records no error. */
  lemma {:induction false} CollectAllCreated<M>(raws: seq<M>, create: M -> Result<ItemDict, string>,
                                                show: M -> string, collectionId: string, policy: Policy)
    requires AllCreated(raws, create)
    ensures var c := Collect(raws, create, show, collectionId, policy);
      && c.raised.None? && c.errors == []
      && |c.items| == |raws|
      && forall k :: 0 <= k < |raws| ==> c.items[k] == Tagged(create(raws[k]).value, collectionId)
  {
    if raws != [] {
      var init := raws[..|raws| - 1];
      assert forall k :: 0 <= k < |init| ==> init[k] == raws[k];
      CollectAllCreated(init, create, show, collectionId, policy);
    }
  }

  /** Under RAISE the run is all or nothing: nothing is loaded exactly when
      some entry fails to transform, and the first failure is raised. */
  lemma {:induction false} RaiseAllOrNothing<M>(raws: seq<M>, create: M -> Result<ItemDict, string>,
                                                show: M -> string, collectionId: string)
    ensures var c := Collect(raws, create, show, collectionId, Raise);
      && (c.raised.None? <==> AllCreated(raws, create))
      && c.errors == []
      && (c.raised.Some? ==> exists k :: 0 <= k < |raws| && create(raws[k]).Failure? && c.raised == Some(CreatorFailed(create(raws[k]).error))
                                      && forall j :: 0 <= j < k ==> create(raws[j]).Success?)
  {
    if raws != [] {
      var init := raws[..|raws| - 1];
      RaiseAllOrNothing(init, create, show, collectionId);
      assert forall k :: 0 <= k < |init| ==> init[k] == raws[k];
      var prev := Collect(init, create, show, collectionId, Raise);
      if prev.raised.Some? {
        var k :| 0 <= k < |init| && create(init[k]).Failure? && prev.raised == Some(CreatorFailed(create(init[k]).error))
                 && forall j :: 0 <= j < k ==> create(init[j]).Success?;
        assert !AllCreated(raws, create) by { assert !create(raws[k]).Success?; }
      } else {
        assert AllCreated(init, create);
      }
    }
  }

  /** The IGNORE branch as written, on an entry that fails first: the
      fall-through reads an unbound `item` and nothing is loaded. */
  lemma IgnoreFailingFirstEntryRaises<M>(raws: seq<M>, create: M -> Result<ItemDict, string>,
                                         show: M -> string, collectionId: string)
    requires raws != [] && create(raws[0]).Failure?
    ensures Collect(raws, create, show, collectionId, Ignore).raised == Some(UnboundItem)
  {
    assert raws[..1][..0] == [];
    FailedPrefixStays(raws, 1, create, show, collectionId, Ignore);
  }

  /** The IGNORE branch as written, on a failing entry after a successful
      one: the previous dictionary is appended a second time. */
  lemma IgnoreFailureDuplicatesPrevious<M>(good: M, bad: M, create: M -> Result<ItemDict, string>,
                                           show: M -> string, collectionId: string)
    requires create(good).Success? && create(bad).Failure?
    ensures var d := Tagged(create(good).value, collectionId);
      Collect([good, bad], create, show, collectionId, Ignore)
        == Collected([d, d], [ErrorText(show(bad), create(bad).error)], None)
  {
    assert [good, bad][..1] == [good];
    assert [good][..0] == [];
    var d := Tagged(create(good).value, collectionId);
    assert Collect([good], create, show, collectionId, Ignore) == Collected([d], [], None);
  }

  /** Under IGNORE, as written, once the first entry has transformed nothing
      is raised: every entry contributes one dictionary, its own tagged one
      when it transforms and a second copy of the previous one when it
      fails, and the error lines are those of the failing entries, in
      order. */
  lemma {:induction false} IgnoreAsWritten<M>(raws: seq<M>, create: M -> Result<ItemDict, string>,
                                              show: M -> string, collectionId: string)
    requires raws != [] && create(raws[0]).Success?
    ensures var c := Collect(raws, create, show, collectionId, Ignore);
      && c.raised.None?
      && |c.items| == |raws|
      && (forall k :: 0 <= k < |raws| && create(raws[k]).Success? ==>
            c.items[k] == Tagged(create(raws[k]).value, collectionId))
      && (forall k :: 0 < k < |raws| && create(raws[k]).Failure? ==> c.items[k] == c.items[k - 1])
      && c.errors == FailureTexts(raws, create, show)
  {
    if |raws| > 1 {
      var init := raws[..|raws| - 1];
      assert init[0] == raws[0];
      IgnoreAsWritten(init, create, show, collectionId);
      var prev := Collect(init, create, show, collectionId, Ignore);
      var c := Collect(raws, create, show, collectionId, Ignore);
      assert c == Step(prev, raws[|raws| - 1], create, show, collectionId, Ignore);
      assert c.items[..|init|] == prev.items;
      forall k | 0 <= k < |init|
        ensures c.items[k] == prev.items[k] && raws[k] == init[k]
      {
        assert c.items[..|init|][k] == c.items[k];
      }
    } else {
      assert raws[..0] == [];
    }
  }

  /** The error lines of the entries that fail to transform, in order. */
  function FailureTexts<M>(raws: seq<M>, create: M -> Result<ItemDict, string>, show: M -> string): seq<string>
  {
    if raws == [] then []
    else
      var init := FailureTexts(raws[..|raws| - 1], create, show);
      var raw := raws[|raws| - 1];
      match create(raw)
      case Failure(e) => init + [ErrorText(show(raw), e)]
      case Success(_) => init
  }

  // ---------------------------------------------------------------------
  // The IGNORE branch as evidently intended (with `continue`).
  // ---------------------------------------------------------------------

  /** A failing entry only adds its error line; nothing else happens. */
  function CollectIntended<M>(raws: seq<M>, create: M -> Result<ItemDict, string>, show: M -> string,
                              collectionId: string): Collected
  {
    if raws == [] then Collected([], [], None)
    else
      var prev := CollectIntended(raws[..|raws| - 1], create, show, collectionId);
      var raw := raws[|raws| - 1];
      match create(raw)
      case Success(d) => prev.(items := prev.items + [Tagged(d, collectionId)])
      case Failure(e) => prev.(errors := prev.errors + [ErrorText(show(raw), e)])
  }

  /** The dictionaries of the entries that transform, tagged, in order. */
  function Successes<M>(raws: seq<M>, create: M -> Result<ItemDict, string>, collectionId: string): seq<ItemDict>
  {
    if raws == [] then []
    else
      var init := Successes(raws[..|raws| - 1], create, collectionId);
      match create(raws[|raws| - 1])
      case Success(d) => init + [Tagged(d, collectionId)]
      case Failure(_) => init
  }

  /** With the `continue`, IGNORE never raises, loads exactly the entries
      that transform and reports exactly those that do not. */
  lemma {:induction false} IntendedIgnore<M>(raws: seq<M>, create: M -> Result<ItemDict, string>,
                                             show: M -> string, collectionId: string)
    ensures var c := CollectIntended(raws, create, show, collectionId);
      && c.raised.None?
      && c.items == Successes(raws, create, collectionId)
      && c.errors == FailureTexts(raws, create, show)
      && |c.items| + |c.errors| == |raws|
  {
    if raws != [] {
      IntendedIgnore(raws[..|raws| - 1], create, show, collectionId);
    }
  }

  /** On the entries `[good, bad]` the written branch loads two copies of the
      good dictionary where the intended one loads one. */
  lemma IgnoreDiscrepancy<M>(good: M, bad: M, create: M -> Result<ItemDict, string>,
                             show: M -> string, collectionId: string)
    requires create(good).Success? && create(bad).Failure?
    ensures |Collect([good, bad], create, show, collectionId, Ignore).items| == 2
    ensures |CollectIntended([good, bad], create, show, collectionId).items| == 1
  {
    IgnoreFailureDuplicatesPrevious(good, bad, create, show, collectionId);
    assert [good, bad][..1] == [good];
    assert [good][..0] == [];
    var d := Tagged(create(good).value, collectionId);
    assert CollectIntended([good], create, show, collectionId) == Collected([d], [], None);
  }
}
