// Runs of the approval service: calls from any number of clients, with a decision's
// apply callback as a separate step that may come late or, after a crash, never.
module ApprovalRuns {
  import opened Basics
  import opened Approvals

  // A callback under way for a row: of the call that decided it, or of an operator.
  datatype Job = Job(id: nat, ofDecide: bool)

  datatype State = State(rows: Table, jobs: seq<Job>, ran: seq<Job>)

  datatype Action =
    | RaiseCall(q: Request)
    | DecideTx(id: nat, d: Ruling, runCallback: bool)
    | RunJob(k: nat, h: Handler)
    | LoseJob(k: nat)
    | ExpireCall(id: nat)
    | GetCall(id: nat)
    | ListCall(selected: seq<nat>)
    | ApplyNow(id: nat)

  function Without(jobs: seq<Job>, k: nat): seq<Job>
    requires k < |jobs|
  {
    jobs[..k] + jobs[k + 1..]
  }

  function Next(s: State, a: Action, now: Time): State {
    match a
    case RaiseCall(q) => s.(rows := Raised(s.rows, q, now))
    case DecideTx(id, d, runCallback) =>
      s.(rows := Decided(s.rows, id, d, now),
         jobs := if Verdict(s.rows, id, d, now) == Ok(true) && d.action.Approve? && runCallback
                 then s.jobs + [Job(id, true)] else s.jobs)
    case RunJob(k, h) =>
      if k >= |s.jobs| then s
      else State(Applied(s.rows, s.jobs[k].id, h, now), Without(s.jobs, k), if h.NoHandler? then s.ran else s.ran + [s.jobs[k]])
    case LoseJob(k) => if k >= |s.jobs| then s else s.(jobs := Without(s.jobs, k))
    case ExpireCall(id) => s.(rows := MarkExpired(s.rows, id, now))
    case GetCall(id) => s.(rows := Read(s.rows, id, now))
    case ListCall(selected) => s.(rows := ReadAll(s.rows, selected, now))
    case ApplyNow(id) =>
      var rows := Read(s.rows, id, now);
      State(rows, if id < |rows| && rows[id].status.Approved? then s.jobs + [Job(id, false)] else s.jobs, s.ran)
  }

  type Calls = seq<(Action, Time)>

  function Run(s: State, calls: Calls): State
    decreases |calls|
  {
    if calls == [] then s else Run(Next(s, calls[0].0, calls[0].1), calls[1..])
  }

  const START := State([], [], [])

  // The call of decide, when its callback runs at once, is the two steps: the same rows,
  // and one more handler run unless there is none.
  lemma DecideIsTwoSteps(s: State, id: nat, d: Ruling, runCallback: bool, h: Handler, now: Time)
    ensures
      var verdict, flipped := Verdict(s.rows, id, d, now), Decided(s.rows, id, d, now);
      var applies := verdict == Ok(true) && d.action.Approve? && runCallback;
      var t := Next(s, DecideTx(id, d, runCallback), now);
      if applies then
        && t == State(flipped, s.jobs + [Job(id, true)], s.ran)
        && Next(t, RunJob(|s.jobs|, h), now)
           == State(Applied(flipped, id, h, now), s.jobs, if h == NoHandler then s.ran else s.ran + [Job(id, true)])
      else t == s.(rows := flipped)
  {
    assert (s.jobs + [Job(id, true)])[..|s.jobs|] == s.jobs;
  }

  // ---- a decision is final --------------------------------------------------------------------

  predicate SameDecision(before: Row, after: Row) {
    && after.status == before.status && after.decidedAt == before.decidedAt && after.decidedBy == before.decidedBy
    && after.channel == before.channel && after.note == before.note
    && after.expiresAt == before.expiresAt && after.token == before.token
    && after.producer == before.producer && after.sourceRef == before.sourceRef
  }

  lemma StepKeepsDecision(s: State, a: Action, now: Time, i: nat)
    requires i < |s.rows|
    ensures i < |Next(s, a, now).rows|
    ensures Terminal(s.rows[i]) ==> SameDecision(s.rows[i], Next(s, a, now).rows[i])
    ensures Next(s, a, now).rows[i].expiresAt == s.rows[i].expiresAt
  {
  }

  lemma {:induction false} DecisionIsFinal(s: State, calls: Calls, i: nat)
    requires i < |s.rows| && Terminal(s.rows[i])
    ensures i < |Run(s, calls).rows| && SameDecision(s.rows[i], Run(s, calls).rows[i])
    decreases |calls|
  {
    if calls != [] {
      StepKeepsDecision(s, calls[0].0, calls[0].1, i);
      DecisionIsFinal(Next(s, calls[0].0, calls[0].1), calls[1..], i);
    }
  }

  // ---- a row past its expiry is never approved --------------------------------------------------

  predicate Overdue(r: Row, now: Time) { !r.status.Approved? && !r.status.Rejected? && PastExpiry(r, now) }

  lemma StepKeepsOverdue(s: State, a: Action, now: Time, since: Time, i: nat)
    requires i < |s.rows| && Overdue(s.rows[i], since) && since <= now
    ensures i < |Next(s, a, now).rows| && Overdue(Next(s, a, now).rows[i], since)
  {
  }

  lemma {:induction false} OverdueNeverDecided(s: State, calls: Calls, since: Time, i: nat)
    requires i < |s.rows| && Overdue(s.rows[i], since)
    requires forall k :: 0 <= k < |calls| ==> since <= calls[k].1
    ensures i < |Run(s, calls).rows| && Overdue(Run(s, calls).rows[i], since)
    decreases |calls|
  {
    if calls != [] {
      StepKeepsOverdue(s, calls[0].0, calls[0].1, since, i);
      OverdueNeverDecided(Next(s, calls[0].0, calls[0].1), calls[1..], since, i);
    }
  }

  // ---- what holds of every row in every run ---------------------------------------------------------

  function Count(jobs: seq<Job>, j: Job): nat {
    if jobs == [] then 0 else (if jobs[0] == j then 1 else 0) + Count(jobs[1..], j)
  }

  lemma {:induction false} CountAdd(a: seq<Job>, b: seq<Job>, j: Job)
    ensures Count(a + b, j) == Count(a, j) + Count(b, j)
  {
    if a == [] {
      assert a + b == b;
    } else {
      assert (a + b)[1..] == a[1..] + b;
      CountAdd(a[1..], b, j);
    }
  }

  lemma CountPush(jobs: seq<Job>, added: Job, j: Job)
    ensures Count(jobs + [added], j) == Count(jobs, j) + if added == j then 1 else 0
  {
    CountAdd(jobs, [added], j);
    assert Count([added][1..], j) == 0;
  }

  lemma CountWithout(jobs: seq<Job>, k: nat, j: Job)
    requires k < |jobs|
    ensures Count(jobs, j) == Count(Without(jobs, k), j) + if jobs[k] == j then 1 else 0
  {
    assert jobs == jobs[..k] + jobs[k..] && jobs[k..][1..] == jobs[k + 1..];
    CountAdd(jobs[..k], jobs[k..], j);
    CountAdd(jobs[..k], jobs[k + 1..], j);
  }

  predicate RowSound(r: Row) {
    && (Terminal(r) <==> r.decidedAt.Some?) && (Terminal(r) <==> r.decidedBy.Some?) && (Terminal(r) <==> r.channel.Some?)
    && (r.appliedAt.Some? || r.result.Some? ==> r.status.Approved?)
    && (r.status.Approved? || r.status.Rejected? ==> r.expiresAt.Some? ==> r.decidedAt.value < r.expiresAt.value)
  }

  // Callbacks belong to approved rows; those of decide, done or under way, number at most one.
  predicate JobsSound(approved: bool, ofDecide: nat, ranOfDecide: nat, ofOperator: nat, ranOfOperator: nat) {
    ofDecide + ranOfDecide <= (if approved then 1 else 0) && (ofOperator + ranOfOperator > 0 ==> approved)
  }

  predicate Sound(s: State, i: nat) {
    && (i < |s.rows| ==> RowSound(s.rows[i]))
    && JobsSound(i < |s.rows| && s.rows[i].status.Approved?,
                 Count(s.jobs, Job(i, true)), Count(s.ran, Job(i, true)),
                 Count(s.jobs, Job(i, false)), Count(s.ran, Job(i, false)))
  }

  lemma StepKeepsRowSound(s: State, a: Action, now: Time, i: nat)
    requires Sound(s, i)
    requires a.RunJob? && a.k < |s.jobs| && s.jobs[a.k].id == i ==> i < |s.rows| && s.rows[i].status.Approved?
    ensures i < |Next(s, a, now).rows| ==> RowSound(Next(s, a, now).rows[i])
  {
  }

  lemma JobIsCounted(s: State, k: nat)
    requires k < |s.jobs|
    ensures Count(s.jobs, s.jobs[k]) > 0
  {
    CountWithout(s.jobs, k, s.jobs[k]);
  }

  lemma StepKeepsJobs(s: State, a: Action, now: Time, i: nat, ofDecide: bool)
    ensures
      var s', j := Next(s, a, now), Job(i, ofDecide);
      var spawned := |s'.jobs| == |s.jobs| + 1 && s'.jobs[|s.jobs|] == j;
      Count(s'.jobs, j) + Count(s'.ran, j) <= Count(s.jobs, j) + Count(s.ran, j) + if spawned then 1 else 0
  {
    var j := Job(i, ofDecide);
    match a
    case DecideTx(id, d, runCallback) => CountPush(s.jobs, Job(id, true), j);
    case ApplyNow(id) => CountPush(s.jobs, Job(id, false), j);
    case RunJob(k, h) =>
      if k < |s.jobs| {
        CountWithout(s.jobs, k, j);
        CountPush(s.ran, s.jobs[k], j);
      }
    case LoseJob(k) =>
      if k < |s.jobs| {
        CountWithout(s.jobs, k, j);
      }
    case _ =>
  }

  lemma StepKeepsSound(s: State, a: Action, now: Time, i: nat)
    requires Sound(s, i)
    ensures Sound(Next(s, a, now), i)
  {
    hide Count, RowSound;
    if a.RunJob? && a.k < |s.jobs| && s.jobs[a.k].id == i {
      JobIsCounted(s, a.k);
    }
    StepKeepsRowSound(s, a, now, i);
    StepKeepsJobs(s, a, now, i, true);
    StepKeepsJobs(s, a, now, i, false);
  }

  lemma {:induction false} SoundOnEveryRun(s: State, calls: Calls, i: nat)
    requires Sound(s, i)
    ensures Sound(Run(s, calls), i)
    decreases |calls|
  {
    if calls != [] {
      StepKeepsSound(s, calls[0].0, calls[0].1, i);
      SoundOnEveryRun(Next(s, calls[0].0, calls[0].1), calls[1..], i);
    }
  }

  // In every run of the service: decide applies a row at most once, only approved rows
  // are applied, and a ruling comes before the row's expiry.
  lemma AppliedAtMostOnceAndOnlyIfApproved(calls: Calls, i: nat)
    ensures
      var s := Run(START, calls);
      && Count(s.ran, Job(i, true)) <= 1
      && (Count(s.ran, Job(i, true)) + Count(s.ran, Job(i, false)) > 0 ==> i < |s.rows| && s.rows[i].status.Approved?)
      && (i < |s.rows| ==> RowSound(s.rows[i]))
  {
    assert Sound(START, i);
    SoundOnEveryRun(START, calls, i);
  }

  // ---- how a row comes to be approved ------------------------------------------------------------------

  // A ruling that a row heeds: while it is pending, before its expiry, and with its own
  // token, where the channel asks for one.
  predicate Heeded(rows: Table, a: Action, now: Time, i: nat) {
    && a.DecideTx? && a.id == i && i < |rows| && rows[i].status.Pending?
    && (rows[i].expiresAt.Some? ==> now < rows[i].expiresAt.value)
    && (a.d.token.Some? ==> a.d.token.value == rows[i].token)
  }

  predicate Approves(s: State, a: Action, now: Time, i: nat) {
    Heeded(s.rows, a, now, i) && a.d.action.Approve?
  }

  predicate Rejects(s: State, a: Action, now: Time, i: nat) {
    Heeded(s.rows, a, now, i) && a.d.action.Reject?
  }

  predicate IsApproved(s: State, i: nat) { i < |s.rows| && s.rows[i].status.Approved? }

  predicate IsRejected(s: State, i: nat) { i < |s.rows| && s.rows[i].status.Rejected? }

  lemma StepApprovesIff(s: State, a: Action, now: Time, i: nat)
    ensures IsApproved(Next(s, a, now), i) <==> IsApproved(s, i) || Approves(s, a, now, i)
    ensures IsRejected(Next(s, a, now), i) <==> IsRejected(s, i) || Rejects(s, a, now, i)
  {
    if i < |s.rows| {
      StepKeepsDecision(s, a, now, i);
    }
  }

  // Some call of the run is such a ruling.
  ghost predicate SomeRuling(s: State, calls: Calls, i: nat, action: Approvals.Action)
    decreases |calls|
  {
    calls != [] &&
      ((Heeded(s.rows, calls[0].0, calls[0].1, i) && calls[0].0.d.action == action)
       || SomeRuling(Next(s, calls[0].0, calls[0].1), calls[1..], i, action))
  }

  // A row is approved, or rejected, exactly when some call ruled it so while it was
  // pending, in time, and with no token or the row's own.
  lemma {:induction false} DecidedIffRuled(s: State, calls: Calls, i: nat)
    ensures IsApproved(Run(s, calls), i) <==> IsApproved(s, i) || SomeRuling(s, calls, i, Approve)
    ensures IsRejected(Run(s, calls), i) <==> IsRejected(s, i) || SomeRuling(s, calls, i, Reject)
    decreases |calls|
  {
    if calls != [] {
      hide Next;
      StepApprovesIff(s, calls[0].0, calls[0].1, i);
      DecidedIffRuled(Next(s, calls[0].0, calls[0].1), calls[1..], i);
    }
  }

  // A ruling with another token changes nothing, for a row that waits for one.
  lemma WrongTokenChangesNothing(s: State, a: Action, now: Time, i: nat)
    requires a.DecideTx? && a.id == i && i < |s.rows| && s.rows[i].status.Pending?
    requires a.d.token.Some? && a.d.token.value != s.rows[i].token
    requires s.rows[i].expiresAt.Some? ==> now < s.rows[i].expiresAt.value
    ensures Next(s, a, now) == s && Verdict(s.rows, i, a.d, now) == Err(TokenMismatch)
  {
  }

  // ---- one row per source ----------------------------------------------------------------------------------

  predicate OneRowPerSource(rows: Table) {
    forall i, j :: 0 <= i < j < |rows| && HasRef(rows[i].sourceRef) && rows[i].sourceRef == rows[j].sourceRef ==>
      rows[i].producer != rows[j].producer
  }

  lemma StepKeepsSource(s: State, a: Action, now: Time, i: nat)
    requires i < |s.rows|
    ensures |s.rows| <= |Next(s, a, now).rows| <= |s.rows| + 1
    ensures Next(s, a, now).rows[i].sourceRef == s.rows[i].sourceRef && Next(s, a, now).rows[i].producer == s.rows[i].producer
    ensures |Next(s, a, now).rows| > |s.rows| ==> a.RaiseCall? && !Known(s.rows, a.q)
  {
  }

  lemma StepKeepsOneRow(s: State, a: Action, now: Time)
    requires OneRowPerSource(s.rows)
    ensures OneRowPerSource(Next(s, a, now).rows)
  {
    var rows := Next(s, a, now).rows;
    forall i, j | 0 <= i < j < |rows| && HasRef(rows[i].sourceRef) && rows[i].sourceRef == rows[j].sourceRef
      ensures rows[i].producer != rows[j].producer
    {
      StepKeepsSource(s, a, now, i);
      if j < |s.rows| {
        StepKeepsSource(s, a, now, j);
      } else {
        assert !SameSource(s.rows[i], a.q);
      }
    }
  }

  lemma {:induction false} OneRowOnEveryRun(s: State, calls: Calls)
    requires OneRowPerSource(s.rows)
    ensures OneRowPerSource(Run(s, calls).rows)
    decreases |calls|
  {
    if calls != [] {
      StepKeepsOneRow(s, calls[0].0, calls[0].1);
      OneRowOnEveryRun(Next(s, calls[0].0, calls[0].1), calls[1..]);
    }
  }

  lemma {:induction false} KnownForEver(s: State, calls: Calls, q: Request)
    requires Known(s.rows, q)
    ensures Known(Run(s, calls).rows, q)
    decreases |calls|
  {
    if calls != [] {
      var i :| 0 <= i < |s.rows| && SameSource(s.rows[i], q);
      StepKeepsSource(s, calls[0].0, calls[0].1, i);
      assert SameSource(Next(s, calls[0].0, calls[0].1).rows[i], q);
      KnownForEver(Next(s, calls[0].0, calls[0].1), calls[1..], q);
    }
  }

  // Raised once for a source, nothing raises it again: not a second request, whatever
  // it carries and whatever was called in between.
  lemma RaisingIsIdempotent(s: State, q: Request, now: Time, calls: Calls, again: Request, later: Time)
    requires HasRef(q.sourceRef) && |Raised(s.rows, q, now)| > |s.rows|
    requires again.producer == q.producer && again.sourceRef == q.sourceRef
    ensures
      var t := Run(s.(rows := Raised(s.rows, q, now)), calls);
      Raised(t.rows, again, later) == t.rows
  {
    var first := s.(rows := Raised(s.rows, q, now));
    assert SameSource(first.rows[|s.rows|], again);
    KnownForEver(first, calls, again);
  }
}
