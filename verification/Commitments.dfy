// lib/commitments: deferred commitments and the tick that fires them.
module Commitments {
  import opened Basics
  import ConfigYaml

  // Moments in microseconds; a commitment is written with whole seconds.
  type Moment = int

  const SECOND := 1_000_000

  function WholeSeconds(m: Moment): Moment { m - m % SECOND }

  datatype Repeat = Daily | Weekly

  function Period(r: Repeat): Moment { (if r.Daily? then 1 else 7) * 86_400 * SECOND }

  // `rawRetries` is the metadata entry when it reads as a number.
  datatype Commitment = Commitment(slug: string, due: Moment, repeat: Option<Repeat>, rawRetries: Option<int>, lastError: Option<string>) {
    function Retries(): nat { if rawRetries.Some? && rawRetries.value > 0 then rawRetries.value else 0 }

    // As dump leaves it on disk.
    function Written(): Commitment { this.(due := WholeSeconds(due)) }
  }

  datatype Dispatch = Dispatch(ok: bool, retryable: bool, message: string)

  // ---- one commitment in one tick -------------------------------------------------------------

  function AfterSuccess(c: Commitment): Option<Commitment> {
    if c.repeat.None? then None
    else Some(c.(due := c.due + Period(c.repeat.value), rawRetries := Some(0)).Written())
  }

  function Failing(c: Commitment, d: Dispatch): Commitment {
    c.(rawRetries := Some(c.Retries() + 1), lastError := Some(d.message)).Written()
  }

  function AfterFailure(c: Commitment, d: Dispatch): Option<Commitment> {
    if c.Retries() + 1 >= 3 || !d.retryable then None else Some(Failing(c, d))
  }

  predicate Due(c: Commitment, now: Moment) { c.due <= now }

  // ---- archive names -----------------------------------------------------------------------------

  function ArchiveName(base: string, counter: nat): string {
    if counter < 2 then base + ".yaml" else base + "-" + ConfigYaml.ShowNat(counter) + ".yaml"
  }

  lemma ShowNatIsInjective(a: nat, b: nat)
    requires ConfigYaml.ShowNat(a) == ConfigYaml.ShowNat(b)
    ensures a == b
  {
    ConfigYaml.ShowNatParses(a);
    ConfigYaml.ShowNatParses(b);
  }

  lemma NamesDiffer(base: string, a: nat, b: nat)
    requires 1 <= a < b
    ensures ArchiveName(base, a) != ArchiveName(base, b)
  {
    var x, y := ArchiveName(base, a), ArchiveName(base, b);
    if x == y && a >= 2 {
      assert x[|base| + 1..|x| - 5] == ConfigYaml.ShowNat(a);
      assert y[|base| + 1..|y| - 5] == ConfigYaml.ShowNat(b);
      ShowNatIsInjective(a, b);
    }
  }

  lemma {:induction false} SubsetIsSmaller(a: set<string>, b: set<string>)
    requires a <= b
    ensures |a| <= |b|
  {
    if a != {} {
      var x :| x in a;
      SubsetIsSmaller(a - {x}, b - {x});
    }
  }

  // The first name that is not taken: `base`, then `base-2`, `base-3` and so on.
  method ArchivePath(taken: set<string>, base: string) returns (name: string, ghost counter: nat)
    ensures name !in taken && counter >= 1 && name == ArchiveName(base, counter)
    ensures name == base + (if counter == 1 then "" else "-" + ConfigYaml.ShowNat(counter)) + ".yaml"
    ensures forall k :: 1 <= k < counter ==> ArchiveName(base, k) in taken
  {
    name := base + ".yaml";
    var next := 2;
    ghost var seen: set<string> := {};
    while name in taken
      invariant next >= 2 && name == ArchiveName(base, next - 1)
      invariant forall k :: 1 <= k < next - 1 ==> ArchiveName(base, k) in seen
      invariant forall s :: s in seen ==> exists k :: 1 <= k < next - 1 && s == ArchiveName(base, k)
      invariant seen <= taken && |seen| == next - 2
      decreases |taken| - |seen|
    {
      assert name !in seen by {
        if name in seen {
          var k :| 1 <= k < next - 1 && name == ArchiveName(base, k);
          NamesDiffer(base, k, next - 1);
        }
      }
      seen := seen + {name};
      SubsetIsSmaller(seen, taken);
      name := base + "-" + ConfigYaml.ShowNat(next) + ".yaml";
      next := next + 1;
    }
    counter := next - 1;
  }

  // ---- the tick over all files -----------------------------------------------------------------------

  // A pending file, by its stem, and what it loads to.
  datatype File = File(stem: string, content: Option<Commitment>)

  type Files = seq<File>

  // A file that loads is named after its slug.
  predicate WellNamed(files: Files) {
    forall i :: 0 <= i < |files| && files[i].content.Some? ==> files[i].content.value.slug == files[i].stem
  }

  type Dispatcher = string -> Dispatch

  datatype Fate = LoadError | NotDue | Fired | FailedNow

  function FateOf(f: File, now: Moment, dryRun: bool, dispatch: Dispatcher): Fate {
    if f.content.None? then LoadError
    else if !Due(f.content.value, now) then NotDue
    else if dryRun || dispatch(f.stem).ok then Fired
    else FailedNow
  }

  // The fate of a file, by what it holds: unreadable, due later, or dispatched now, where
  // a dry run counts as success.
  lemma FateIff(f: File, now: Moment, dryRun: bool, dispatch: Dispatcher)
    ensures FateOf(f, now, dryRun, dispatch) == LoadError <==> f.content.None?
    ensures FateOf(f, now, dryRun, dispatch) == NotDue <==> f.content.Some? && now < f.content.value.due
    ensures FateOf(f, now, dryRun, dispatch) == Fired <==>
              f.content.Some? && f.content.value.due <= now && (dryRun || dispatch(f.stem).ok)
  {
  }

  // What is left of a pending file.
  function Left(f: File, now: Moment, dryRun: bool, dispatch: Dispatcher): Files {
    if f.content.None? || !Due(f.content.value, now) || dryRun then [f]
    else
      var next := if dispatch(f.stem).ok then AfterSuccess(f.content.value) else AfterFailure(f.content.value, dispatch(f.stem));
      if next.Some? then [File(f.stem, next)] else []
  }

  function AllLeft(files: Files, now: Moment, dryRun: bool, dispatch: Dispatcher): Files {
    if files == [] then [] else Left(files[0], now, dryRun, dispatch) + AllLeft(files[1..], now, dryRun, dispatch)
  }

  function Stems(files: Files, fate: Fate, now: Moment, dryRun: bool, dispatch: Dispatcher): seq<string> {
    if files == [] then []
    else if FateOf(files[0], now, dryRun, dispatch) == fate then [files[0].stem] + Stems(files[1..], fate, now, dryRun, dispatch)
    else Stems(files[1..], fate, now, dryRun, dispatch)
  }

  // Every file has one fate: the four lists make up the files.
  lemma {:induction false} FatesPartition(files: Files, now: Moment, dryRun: bool, dispatch: Dispatcher)
    ensures |Stems(files, LoadError, now, dryRun, dispatch)| + |Stems(files, NotDue, now, dryRun, dispatch)|
          + |Stems(files, Fired, now, dryRun, dispatch)| + |Stems(files, FailedNow, now, dryRun, dispatch)| == |files|
  {
    if files != [] {
      FatesPartition(files[1..], now, dryRun, dispatch);
    }
  }

  lemma {:induction false} StemsAreOfFiles(files: Files, fate: Fate, now: Moment, dryRun: bool, dispatch: Dispatcher, stem: string)
    ensures stem in Stems(files, fate, now, dryRun, dispatch) <==>
              exists f :: f in files && f.stem == stem && FateOf(f, now, dryRun, dispatch) == fate
  {
    if files != [] {
      StemsAreOfFiles(files[1..], fate, now, dryRun, dispatch, stem);
      assert files == [files[0]] + files[1..];
    }
  }

  predicate DistinctStems(files: Files) {
    forall i, j :: 0 <= i < j < |files| ==> files[i].stem != files[j].stem
  }

  // A stem is in at most one of the lists.
  lemma OneFateEach(files: Files, a: Fate, b: Fate, now: Moment, dryRun: bool, dispatch: Dispatcher, stem: string)
    requires DistinctStems(files) && a != b
    ensures !(stem in Stems(files, a, now, dryRun, dispatch) && stem in Stems(files, b, now, dryRun, dispatch))
  {
    StemsAreOfFiles(files, a, now, dryRun, dispatch, stem);
    StemsAreOfFiles(files, b, now, dryRun, dispatch, stem);
  }

  // ---- what a tick puts in the archive ---------------------------------------------------------------

  // The commitment archived for a file as done, and as failed.
  function DoneOf(f: File, now: Moment, dryRun: bool, dispatch: Dispatcher): seq<Commitment> {
    if FateOf(f, now, dryRun, dispatch).Fired? && !dryRun then [f.content.value] else []
  }

  function FailedOf(f: File, now: Moment, dryRun: bool, dispatch: Dispatcher): seq<Commitment> {
    if FateOf(f, now, dryRun, dispatch).FailedNow? && AfterFailure(f.content.value, dispatch(f.stem)).None? then
      [Failing(f.content.value, dispatch(f.stem))]
    else []
  }

  function AllDone(files: Files, now: Moment, dryRun: bool, dispatch: Dispatcher): seq<Commitment> {
    if files == [] then [] else DoneOf(files[0], now, dryRun, dispatch) + AllDone(files[1..], now, dryRun, dispatch)
  }

  function AllFailed(files: Files, now: Moment, dryRun: bool, dispatch: Dispatcher): seq<Commitment> {
    if files == [] then [] else FailedOf(files[0], now, dryRun, dispatch) + AllFailed(files[1..], now, dryRun, dispatch)
  }

  // A dry run leaves every file and archives none.
  lemma {:induction false} DryRunChangesNothing(files: Files, now: Moment, dispatch: Dispatcher)
    ensures AllLeft(files, now, true, dispatch) == files
    ensures AllDone(files, now, true, dispatch) == [] && AllFailed(files, now, true, dispatch) == []
  {
    if files != [] {
      DryRunChangesNothing(files[1..], now, dispatch);
    }
  }

  datatype Archived = Archived(name: string, content: Commitment)

  type Archive = seq<Archived>

  function Names(a: Archive): set<string> { set i | 0 <= i < |a| :: a[i].name }

  function Contents(a: Archive): seq<Commitment> { seq(|a|, i requires 0 <= i < |a| => a[i].content) }

  // No archived file was ever overwritten.
  predicate NothingOverwritten(a: Archive) { forall i, j :: 0 <= i < j < |a| ==> a[i].name != a[j].name }

  lemma ArchiveOneMore(a: Archive, name: string, c: Commitment)
    requires NothingOverwritten(a) && name !in Names(a)
    ensures NothingOverwritten(a + [Archived(name, c)]) && Contents(a + [Archived(name, c)]) == Contents(a) + [c]
  {
    assert forall i :: 0 <= i < |a| ==> a[i].name in Names(a);
  }

  lemma NothingTicked(now: Moment, dryRun: bool, dispatch: Dispatcher)
    ensures AllLeft([], now, dryRun, dispatch) == []
    ensures AllDone([], now, dryRun, dispatch) == [] && AllFailed([], now, dryRun, dispatch) == []
    ensures forall fate :: Stems([], fate, now, dryRun, dispatch) == []
    ensures Summarizes(Summary(true, 0, [], [], [], [], dryRun), [], now, dryRun, dispatch)
  {
  }

  lemma TickedOneMore(files: Files, f: File, now: Moment, dryRun: bool, dispatch: Dispatcher)
    ensures AllLeft(files + [f], now, dryRun, dispatch) == AllLeft(files, now, dryRun, dispatch) + Left(f, now, dryRun, dispatch)
    ensures AllDone(files + [f], now, dryRun, dispatch) == AllDone(files, now, dryRun, dispatch) + DoneOf(f, now, dryRun, dispatch)
    ensures AllFailed(files + [f], now, dryRun, dispatch) == AllFailed(files, now, dryRun, dispatch) + FailedOf(f, now, dryRun, dispatch)
  {
    LeftOneMore(files, f, now, dryRun, dispatch);
    ArchivedOneMore(files, f, now, dryRun, dispatch);
  }

  lemma {:induction false} LeftOneMore(files: Files, f: File, now: Moment, dryRun: bool, dispatch: Dispatcher)
    ensures AllLeft(files + [f], now, dryRun, dispatch) == AllLeft(files, now, dryRun, dispatch) + Left(f, now, dryRun, dispatch)
  {
    hide Left;
    if files == [] {
      assert [] + [f] == [f] && [f][1..] == [];
    } else {
      assert (files + [f])[1..] == files[1..] + [f];
      LeftOneMore(files[1..], f, now, dryRun, dispatch);
    }
  }

  lemma {:induction false} ArchivedOneMore(files: Files, f: File, now: Moment, dryRun: bool, dispatch: Dispatcher)
    ensures AllDone(files + [f], now, dryRun, dispatch) == AllDone(files, now, dryRun, dispatch) + DoneOf(f, now, dryRun, dispatch)
    ensures AllFailed(files + [f], now, dryRun, dispatch) == AllFailed(files, now, dryRun, dispatch) + FailedOf(f, now, dryRun, dispatch)
  {
    hide DoneOf, FailedOf;
    if files == [] {
      assert [] + [f] == [f] && [f][1..] == [];
    } else {
      assert (files + [f])[1..] == files[1..] + [f];
      ArchivedOneMore(files[1..], f, now, dryRun, dispatch);
    }
  }

  lemma {:induction false} StemsOneMore(files: Files, f: File, now: Moment, dryRun: bool, dispatch: Dispatcher)
    ensures forall fate :: Stems(files + [f], fate, now, dryRun, dispatch)
              == Stems(files, fate, now, dryRun, dispatch) + if FateOf(f, now, dryRun, dispatch) == fate then [f.stem] else []
  {
    hide FateOf;
    if files == [] {
      NothingTicked(now, dryRun, dispatch);
      assert [] + [f] == [f] && [f][1..] == [];
    } else {
      assert (files + [f])[1..] == files[1..] + [f];
      StemsOneMore(files[1..], f, now, dryRun, dispatch);
    }
  }

  datatype Problem = CannotLoad(stem: string) | DispatchFailed(slug: string, message: string)

  datatype Summary = Summary(
    ok: bool, scanned: nat, fired: seq<string>, skipped: seq<string>, failed: seq<string>, errors: seq<Problem>, dryRun: bool)

  // The summary with one more file in it.
  function Counted(r: Summary, f: File, fate: Fate, message: string): Summary {
    var r := r.(scanned := r.scanned + 1);
    match fate
    case LoadError => r.(ok := false, errors := r.errors + [CannotLoad(f.stem)])
    case NotDue => r.(skipped := r.skipped + [f.stem])
    case Fired => r.(fired := r.fired + [f.stem])
    case FailedNow => r.(ok := false, failed := r.failed + [f.stem], errors := r.errors + [DispatchFailed(f.stem, message)])
  }

  // What a summary says of the files scanned: each list holds the files of one fate, in
  // order, and the tick is ok exactly when nothing went wrong.
  ghost predicate Summarizes(r: Summary, files: Files, now: Moment, dryRun: bool, dispatch: Dispatcher) {
    && r.scanned == |files| && r.dryRun == dryRun
    && r.fired == Stems(files, Fired, now, dryRun, dispatch)
    && r.skipped == Stems(files, NotDue, now, dryRun, dispatch)
    && r.failed == Stems(files, FailedNow, now, dryRun, dispatch)
    && |r.errors| == |r.failed| + |Stems(files, LoadError, now, dryRun, dispatch)|
    && (r.ok <==> r.errors == [])
  }

  lemma CountedOneMore(r: Summary, files: Files, f: File, now: Moment, dryRun: bool, dispatch: Dispatcher)
    requires Summarizes(r, files, now, dryRun, dispatch)
    ensures Summarizes(Counted(r, f, FateOf(f, now, dryRun, dispatch), dispatch(f.stem).message), files + [f], now, dryRun, dispatch)
  {
    hide Stems, FateOf;
    StemsOneMore(files, f, now, dryRun, dispatch);
  }

  lemma SummaryAddsUp(r: Summary, files: Files, now: Moment, dryRun: bool, dispatch: Dispatcher)
    requires Summarizes(r, files, now, dryRun, dispatch)
    ensures r.scanned == |r.fired| + |r.skipped| + |r.errors|
  {
    FatesPartition(files, now, dryRun, dispatch);
  }

  // The commitment with one failure more on record, as it is written.
  ghost predicate FailedOnce(c: Commitment, retries: nat, message: string, after: Commitment) {
    && after.slug == c.slug && after.repeat == c.repeat && after.due == (c.due / 1_000_000) * 1_000_000
    && after.rawRetries == Some(retries + 1) && after.lastError == Some(message)
  }

  // One file more in an archive, under the base name or a numbered one.
  ghost predicate NamedAfter(a: Archive, before: Archive, base: string) {
    |a| == |before| + 1 && a[..|before|] == before && exists counter :: counter >= 1 && a[|before|].name == ArchiveName(base, counter)
  }

  class Engine {
    var pending: Files
    var done: Archive
    var failed: Archive

    predicate Valid()
      reads this
    {
      WellNamed(pending) && NothingOverwritten(done) && NothingOverwritten(failed)
    }

    constructor (pending: Files)
      requires WellNamed(pending)
      ensures Valid() && this.pending == pending && done == [] && failed == []
    {
      this.pending, done, failed := pending, [], [];
    }

    method Replace(at: nat, left: Files)
      requires at < |pending|
      modifies `pending
      ensures pending == old(pending)[..at] + left + old(pending)[at + 1..]
    {
      pending := pending[..at] + left + pending[at + 1..];
    }

    method ArchiveSuccess(at: nat, stamp: string)
      requires NothingOverwritten(done) && at < |pending| && pending[at].content.Some?
      modifies this
      ensures
        var c := old(pending)[at].content.value;
        var next := AfterSuccess(c);
        && pending == old(pending)[..at] + (if next.Some? then [old(pending)[at].(content := next)] else []) + old(pending)[at + 1..]
        && NothingOverwritten(done) && Contents(done) == Contents(old(done)) + [c] && failed == old(failed)
        && NamedAfter(done, old(done), c.slug + ".executed-" + stamp)
      ensures
        var c := old(pending)[at].content.value;
        c.repeat.Some? ==>
          && |pending| == |old(pending)| && pending[at].stem == old(pending)[at].stem && pending[at].content.Some?
          && var next := pending[at].content.value;
             && next.due == (c.due / 1_000_000 + if c.repeat == Some(Daily) then 86_400 else 604_800) * 1_000_000
             && next.slug == c.slug && next.repeat == c.repeat && next.rawRetries == Some(0) && next.lastError == c.lastError
    {
      var c := pending[at].content.value;
      var name, counter := ArchivePath(Names(done), c.slug + ".executed-" + stamp);
      ArchiveOneMore(done, name, c);
      done := done + [Archived(name, c)];
      if c.repeat.None? {
        Replace(at, []);
      } else {
        Replace(at, [pending[at].(content := AfterSuccess(c))]);
      }
    }

    method HandleFailure(at: nat, d: Dispatch, stamp: string)
      requires NothingOverwritten(failed) && at < |pending| && pending[at].content.Some?
      modifies this
      ensures
        var c := old(pending)[at].content.value;
        var next := AfterFailure(c, d);
        && pending == old(pending)[..at] + (if next.Some? then [old(pending)[at].(content := next)] else []) + old(pending)[at + 1..]
        && NothingOverwritten(failed) && done == old(done)
        && Contents(failed) == Contents(old(failed)) + if next.None? then [Failing(c, d)] else []
      ensures
        var c := old(pending)[at].content.value;
        var retries := if c.rawRetries.Some? && c.rawRetries.value > 0 then c.rawRetries.value else 0;
        if retries < 2 && d.retryable then
          && |pending| == |old(pending)| && failed == old(failed) && pending[at].content.Some?
          && FailedOnce(c, retries, d.message, pending[at].content.value)
        else
          && pending == old(pending)[..at] + old(pending)[at + 1..]
          && NamedAfter(failed, old(failed), c.slug + ".failed-" + stamp) && FailedOnce(c, retries, d.message, failed[|old(failed)|].content)
    {
      var c := pending[at].content.value;
      var updated := Failing(c, d);
      if c.Retries() + 1 >= 3 || !d.retryable {
        var name, counter := ArchivePath(Names(failed), c.slug + ".failed-" + stamp);
        ArchiveOneMore(failed, name, updated);
        failed := failed + [Archived(name, updated)];
        Replace(at, []);
        return;
      }
      Replace(at, [pending[at].(content := Some(updated))]);
    }

    // One file of the scan: its fate, with what it changes on disk.
    method TickFile(at: nat, now: Moment, stamp: string, dryRun: bool, dispatch: Dispatcher) returns (fate: Fate)
      requires Valid() && at < |pending|
      modifies this
      ensures
        var f := old(pending)[at];
        && Valid() && fate == FateOf(f, now, dryRun, dispatch)
        && pending == old(pending)[..at] + Left(f, now, dryRun, dispatch) + old(pending)[at + 1..]
        && NothingOverwritten(done) && Contents(done) == Contents(old(done)) + DoneOf(f, now, dryRun, dispatch)
        && NothingOverwritten(failed) && Contents(failed) == Contents(old(failed)) + FailedOf(f, now, dryRun, dispatch)
    {
      var f := pending[at];
      assert pending == pending[..at] + [f] + pending[at + 1..];
      if f.content.None? {
        return LoadError;
      }
      if f.content.value.due > now {
        return NotDue;
      }
      if dryRun {
        return Fired;
      }
      var result := dispatch(f.content.value.slug);
      if result.ok {
        ArchiveSuccess(at, stamp);
        return Fired;
      }
      HandleFailure(at, result, stamp);
      fate := FailedNow;
    }

    method Tick(now: Moment, stamp: string, dryRun: bool, dispatch: Dispatcher) returns (r: Summary)
      requires Valid()
      modifies this
      ensures Valid()
      ensures pending == AllLeft(old(pending), now, dryRun, dispatch)
      ensures Contents(done) == Contents(old(done)) + AllDone(old(pending), now, dryRun, dispatch)
      ensures Contents(failed) == Contents(old(failed)) + AllFailed(old(pending), now, dryRun, dispatch)
      ensures Summarizes(r, old(pending), now, dryRun, dispatch)
      ensures r.scanned == |r.fired| + |r.skipped| + |r.errors|
    {
      hide AllLeft, AllDone, AllFailed, Stems, Left, DoneOf, FailedOf, FateOf, WellNamed, NothingOverwritten, Summarizes, Contents, Counted;
      var paths := pending;
      r := Summary(true, 0, [], [], [], [], dryRun);
      NothingTicked(now, dryRun, dispatch);
      assert paths[..0] == [] && [] + paths == paths;
      assert Contents(done) + [] == Contents(done) && Contents(failed) + [] == Contents(failed);
      for k := 0 to |paths|
        invariant Valid()
        invariant pending == AllLeft(paths[..k], now, dryRun, dispatch) + paths[k..]
        invariant Contents(done) == Contents(old(done)) + AllDone(paths[..k], now, dryRun, dispatch)
        invariant Contents(failed) == Contents(old(failed)) + AllFailed(paths[..k], now, dryRun, dispatch)
        invariant Summarizes(r, paths[..k], now, dryRun, dispatch)
      {
        var at := |pending| - (|paths| - k);
        var f := pending[at];
        ghost var left := AllLeft(paths[..k], now, dryRun, dispatch);
        assert pending[..at] == left && pending[at + 1..] == paths[k + 1..];
        assert paths[..k + 1] == paths[..k] + [f];
        TickedOneMore(paths[..k], f, now, dryRun, dispatch);
        Regroup(Contents(old(done)), AllDone(paths[..k], now, dryRun, dispatch), DoneOf(f, now, dryRun, dispatch));
        Regroup(Contents(old(failed)), AllFailed(paths[..k], now, dryRun, dispatch), FailedOf(f, now, dryRun, dispatch));
        var fate := TickFile(at, now, stamp, dryRun, dispatch);
        CountedOneMore(r, paths[..k], f, now, dryRun, dispatch);
        r := Counted(r, f, fate, dispatch(f.stem).message);
      }
      assert paths[..|paths|] == paths;
      SummaryAddsUp(r, paths, now, dryRun, dispatch);
    }
  }
}
