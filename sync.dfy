/** Pushing metadata to an Internet Archive item: `modify_metadata_with_retry`
    (osf_pigeon/pigeon.py:93-102), which retries while the archive reports
    the item as dark, and `sync_metadata` (osf_pigeon/pigeon.py:337-343),
    which marks withdrawn registrations as not to be indexed. */
module Sync {
  import opened Common

  /** The text internetarchive's ItemLocateError carries for a dark item
      (its default message begins with it). */
  const DarkMessage := "Item cannot be located because it is dark"

  /** The message of an ItemLocateError raised without arguments. */
  const DefaultLocateMessage := "Item cannot be located because it is dark or does not exist."

  const DefaultRetries := 2
  const DefaultSleepTime := 60

  /** How one `ia_item.modify_metadata(metadata)` call ends. */
  datatype CallOutcome =
    | Succeeded
    | LocateFailure(message: string)   // internetarchive.exceptions.ItemLocateError
    | OtherFailure(message: string)    // any other exception

  /** An archive item as `modify_metadata_with_retry` sees it: `answer(k)`
      is how its k-th `modify_metadata` call ends, and `received` holds the
      metadata of every call made so far. */
  class ArchiveItem {
    const answer: nat -> CallOutcome
    var received: seq<map<string, Json>>

    constructor (answer: nat -> CallOutcome)
      ensures this.answer == answer && received == []
    {
      this.answer := answer;
      received := [];
    }

    /** How the next call will end. */
    function Next(): CallOutcome
      reads this
    {
      answer(|received|)
    }

    /** `ia_item.modify_metadata(metadata)`. */
    method ModifyMetadata(metadata: map<string, Json>) returns (outcome: CallOutcome)
      modifies this
      ensures received == old(received) + [metadata]
      ensures outcome == old(Next())
    {
      outcome := answer(|received|);
      received := received + [metadata];
    }
  }

  /** The error that escapes, if any, and the number of calls made. */
  datatype Modify = Modify(error: Option<Error>, calls: nat)

  /** Whether a call outcome is the dark-item locate error that is retried
      while retries remain. */
  predicate IsDark(outcome: CallOutcome): (b: bool)
    ensures b ==> outcome.LocateFailure? && Raised(outcome) == Some(LocateError(outcome.message))
    ensures b ==> outcome.LocateFailure? && |outcome.message| >= |DarkMessage|
    ensures b ==> outcome.LocateFailure? && Contains(outcome.message, DarkMessage)
    ensures outcome.Succeeded? || outcome.OtherFailure? ==> !b
    ensures outcome.LocateFailure? && Contains(outcome.message, DarkMessage) ==> b
  {
    outcome.LocateFailure? && Contains(outcome.message, DarkMessage)
  }

  /** The exception a failed call raises. */
  function Raised(outcome: CallOutcome): Option<Error> {
    match outcome
    case Succeeded => None
    case LocateFailure(m) => Some(LocateError(m))
    case OtherFailure(m) => Some(BackendError(m))
  }

  /** `modify_metadata_with_retry(ia_item, metadata, retries, sleep_time)`
      on an item whose calls from the `from`-th on end as `answer` says.
      `time.sleep` raises ValueError for a negative `sleep_time`, and that
      error replaces the locate error being handled. */
  function ModifyRun(answer: nat -> CallOutcome, from: nat, retries: int, sleepTime: int): (r: Modify)
    decreases if retries > 0 then retries else 0
    // at least one call, and at most one more than the retries allowed
    ensures 1 <= r.calls <= (if retries > 0 then retries else 0) + 1
  {
    var outcome := answer(from);
    if IsDark(outcome) && retries > 0 then
      if sleepTime < 0 then Modify(Some(ValueError), 1)
      else
        var rest := ModifyRun(answer, from + 1, retries - 1, sleepTime);
        Modify(rest.error, rest.calls + 1)
    else
      Modify(Raised(outcome), 1)
  }

  /** How every run ends: all calls but the last met a dark item, the last
      call's own outcome escapes, and the run stops before its budget only
      on an outcome that is not the dark-item error. */
  lemma {:induction false} ModifyRunShape(answer: nat -> CallOutcome, from: nat, retries: int, sleepTime: nat)
    decreases if retries > 0 then retries else 0
    ensures var r := ModifyRun(answer, from, retries, sleepTime);
      && (forall k :: from <= k < from + r.calls - 1 ==> IsDark(answer(k)))
      && r.error == Raised(answer(from + r.calls - 1))
      && (r.calls < (if retries > 0 then retries else 0) + 1 ==> !IsDark(answer(from + r.calls - 1)))
  {
    if IsDark(answer(from)) && retries > 0 {
      ModifyRunShape(answer, from + 1, retries - 1, sleepTime);
    }
  }

  /** n copies of x. */
  function Repeat<T>(x: T, n: nat): (s: seq<T>)
    ensures |s| == n && forall i :: 0 <= i < n ==> s[i] == x
  {
    if n == 0 then [] else [x] + Repeat(x, n - 1)
  }

  /** `modify_metadata_with_retry`: one call, and on a dark-item locate
      error with retries left, a sleep of `sleepTime` and the same call
      again with one retry fewer; any other error escapes at once. */
  method ModifyMetadataWithRetry(item: ArchiveItem, metadata: map<string, Json>, retries: int, sleepTime: int)
    returns (error: Option<Error>, sleeps: seq<int>)
    modifies item
    decreases if retries > 0 then retries else 0
    ensures var run := ModifyRun(item.answer, old(|item.received|), retries, sleepTime);
      && error == run.error
      && item.received == old(item.received) + Repeat(metadata, run.calls)
      && sleeps == Repeat(sleepTime, run.calls - 1)
  {
    ghost var before := item.received;
    var outcome := item.ModifyMetadata(metadata);
    if IsDark(outcome) && retries > 0 && sleepTime < 0 {
      // time.sleep(sleep_time) raises before the next call
      NegativeSleepRaises(item.answer, |before|, retries, sleepTime);
      error := Some(ValueError);
      sleeps := [];
    } else if IsDark(outcome) && retries > 0 {
      ModifyRunRetries(item.answer, |before|, retries, sleepTime);
      ghost var rest := ModifyRun(item.answer, |before| + 1, retries - 1, sleepTime);
      var restSleeps;
      error, restSleeps := ModifyMetadataWithRetry(item, metadata, retries - 1, sleepTime);
      sleeps := [sleepTime] + restSleeps;
      assert item.received == before + ([metadata] + Repeat(metadata, rest.calls));
    } else {
      ModifyRunStops(item.answer, |before|, retries, sleepTime);
      error := Raised(outcome);
      sleeps := [];
    }
  }

  /** The first call of a run meets a dark item with retries left: the
      run goes on from the next call with one retry fewer. */
  lemma ModifyRunRetries(answer: nat -> CallOutcome, from: nat, retries: int, sleepTime: int)
    requires IsDark(answer(from)) && retries > 0 && sleepTime >= 0
    ensures var rest := ModifyRun(answer, from + 1, retries - 1, sleepTime);
      ModifyRun(answer, from, retries, sleepTime) == Modify(rest.error, rest.calls + 1)
  {
  }

  /** Any other first call ends the run. */
  lemma ModifyRunStops(answer: nat -> CallOutcome, from: nat, retries: int, sleepTime: int)
    requires !(IsDark(answer(from)) && retries > 0)
    ensures ModifyRun(answer, from, retries, sleepTime) == Modify(Raised(answer(from)), 1)
  {
  }

  /** A dark item with retries left and a negative sleep time: the sleep
      raises ValueError after that one call. */
  lemma NegativeSleepRaises(answer: nat -> CallOutcome, from: nat, retries: int, sleepTime: int)
    requires IsDark(answer(from)) && retries > 0 && sleepTime < 0
    ensures ModifyRun(answer, from, retries, sleepTime) == Modify(Some(ValueError), 1)
  {
  }

  /** An item that stays dark is asked `retries + 1` times, and the last
      locate error escapes. */
  lemma {:induction false} AlwaysDarkExhaustsRetries(answer: nat -> CallOutcome, from: nat, retries: nat, sleepTime: nat)
    requires forall k :: from <= k <= from + retries ==> IsDark(answer(k))
    decreases retries
    ensures ModifyRun(answer, from, retries, sleepTime).calls == retries + 1
    ensures ModifyRun(answer, from, retries, sleepTime).error == Raised(answer(from + retries))
    ensures ModifyRun(answer, from, retries, sleepTime).error.Some? && ModifyRun(answer, from, retries, sleepTime).error.value.LocateError?
  {
    if retries > 0 {
      AlwaysDarkExhaustsRetries(answer, from + 1, retries - 1, sleepTime);
    }
  }

  /** With the default of two retries, a dark item is asked three times. */
  lemma DefaultDarkThreeCalls(answer: nat -> CallOutcome)
    requires forall k :: 0 <= k <= 2 ==> IsDark(answer(k))
    ensures ModifyRun(answer, 0, DefaultRetries, DefaultSleepTime).calls == 3
    ensures ModifyRun(answer, 0, DefaultRetries, DefaultSleepTime).error.Some? && ModifyRun(answer, 0, DefaultRetries, DefaultSleepTime).error.value.LocateError?
  {
    AlwaysDarkExhaustsRetries(answer, 0, 2, DefaultSleepTime);
  }

  /** internetarchive's default ItemLocateError message is the dark-item
      error. */
  lemma DefaultLocateMessageIsDark()
    ensures IsDark(LocateFailure(DefaultLocateMessage))
  {
    assert OccursAt(DefaultLocateMessage, DarkMessage, 0);
  }

  /** An item that raises `ItemLocateError()` on every call is asked three
      times under the defaults, and that error escapes. */
  lemma DefaultLocateErrorThreeCalls(answer: nat -> CallOutcome)
    requires forall k :: 0 <= k <= 2 ==> answer(k) == LocateFailure(DefaultLocateMessage)
    ensures ModifyRun(answer, 0, DefaultRetries, DefaultSleepTime) == Modify(Some(LocateError(DefaultLocateMessage)), 3)
  {
    DefaultLocateMessageIsDark();
    AlwaysDarkExhaustsRetries(answer, 0, 2, DefaultSleepTime);
  }

  /** An outcome other than the dark-item locate error ends the run after
      that one call, with that call's error if there was one. */
  lemma NotDarkIsFinal(answer: nat -> CallOutcome, from: nat, retries: int, sleepTime: int)
    requires !IsDark(answer(from))
    ensures ModifyRun(answer, from, retries, sleepTime) == Modify(Raised(answer(from)), 1)
  {
  }

  /** Without retries left, even a dark item is asked only once. */
  lemma NoRetriesOneCall(answer: nat -> CallOutcome, from: nat, retries: int, sleepTime: int)
    requires retries <= 0
    ensures ModifyRun(answer, from, retries, sleepTime) == Modify(Raised(answer(from)), 1)
  {
  }

  /** The `n`-th call after `from` succeeds after nothing but dark-item
      errors. */
  predicate SucceedsAt(answer: nat -> CallOutcome, from: nat, n: nat) {
    answer(from + n) == Succeeded && forall k :: from <= k < from + n ==> IsDark(answer(k))
  }

  /** The run succeeds exactly when some call within the budget succeeds
      after nothing but dark-item errors. */
  lemma SucceedsIffSucceededInBudget(answer: nat -> CallOutcome, from: nat, retries: int, sleepTime: nat)
    ensures ModifyRun(answer, from, retries, sleepTime).error.None? <==>
      exists n: nat :: n <= (if retries > 0 then retries else 0) && SucceedsAt(answer, from, n)
  {
    var r := ModifyRun(answer, from, retries, sleepTime);
    ModifyRunShape(answer, from, retries, sleepTime);
    if r.error.None? {
      assert SucceedsAt(answer, from, r.calls - 1);
    }
    if exists n: nat :: n <= (if retries > 0 then retries else 0) && SucceedsAt(answer, from, n) {
      var n: nat :| n <= (if retries > 0 then retries else 0) && SucceedsAt(answer, from, n);
      assert answer(from + n) == Succeeded;
    }
  }

  /** A dict of metadata that `sync_metadata` updates in place. */
  class MetadataDict {
    var entries: map<string, Json>

    constructor (entries: map<string, Json>)
      ensures this.entries == entries
    {
      this.entries := entries;
    }

    /** `metadata[key] = value`. */
    method Set(key: string, value: Json)
      modifies this
      ensures entries == old(entries)[key := value]
    {
      entries := entries[key := value];
    }
  }

  predicate IsWithdrawn(m: map<string, Json>) {
    "moderation_state" in m && m["moderation_state"] == JStr("withdrawn")
  }

  /** The metadata `sync_metadata` sends: `noindex` set to True for a
      withdrawn registration, everything else as given. */
  function WithdrawnPatch(m: map<string, Json>): (r: map<string, Json>)
    ensures IsWithdrawn(m) ==> r.Keys == m.Keys + {"noindex"} && r["noindex"] == JBool(true)
    ensures !IsWithdrawn(m) ==> r == m
    ensures forall k :: k in m && k != "noindex" ==> k in r && r[k] == m[k]
  {
    if IsWithdrawn(m) then m["noindex" := JBool(true)] else m
  }

  /** A registration is marked not to be indexed exactly when it is
      withdrawn (or was already so marked). */
  lemma NoindexIffWithdrawn(m: map<string, Json>)
    requires "noindex" !in m
    ensures "noindex" in WithdrawnPatch(m) <==> IsWithdrawn(m)
    ensures "noindex" in WithdrawnPatch(m) ==> WithdrawnPatch(m)["noindex"] == JBool(true)
  {
  }

  /** The patch is idempotent. */
  lemma WithdrawnPatchIdempotent(m: map<string, Json>)
    ensures WithdrawnPatch(WithdrawnPatch(m)) == WithdrawnPatch(m)
  {
  }

  /** `sync_metadata(guid, metadata, ...)` on the item `get_ia_item`
      returns for the guid: the withdrawn patch is written into the
      caller's dict, which is then sent with the default retry policy. */
  method SyncMetadata(item: ArchiveItem, metadata: MetadataDict) returns (error: Option<Error>, sleeps: seq<int>)
    modifies item, metadata
    ensures metadata.entries == WithdrawnPatch(old(metadata.entries))
    ensures var run := ModifyRun(item.answer, old(|item.received|), DefaultRetries, DefaultSleepTime);
      && error == run.error
      && item.received == old(item.received) + Repeat(metadata.entries, run.calls)
      && sleeps == Repeat(DefaultSleepTime, run.calls - 1)
  {
    if "moderation_state" in metadata.entries && metadata.entries["moderation_state"] == JStr("withdrawn") {
      metadata.Set("noindex", JBool(true));
    }
    error, sleeps := ModifyMetadataWithRetry(item, metadata.entries, DefaultRetries, DefaultSleepTime);
  }
}
