// One commitment over any sequence of ticks: how often it is dispatched, when it is
// archived, and when it is due again.
module CommitmentRuns {
  import opened Basics
  import opened Commitments

  datatype Life = Live(c: Commitment) | InDone(c: Commitment) | InFailed(c: Commitment)

  // One tick at a moment, with what the dispatcher would answer.
  datatype Tick = Tick(now: Moment, answer: Dispatch)

  predicate Dispatches(l: Life, t: Tick) { l.Live? && Due(l.c, t.now) }

  function Step(l: Life, t: Tick): Life {
    if !Dispatches(l, t) then l
    else if t.answer.ok then
      (var next := AfterSuccess(l.c); if next.Some? then Live(next.value) else InDone(l.c))
    else
      (var next := AfterFailure(l.c, t.answer); if next.Some? then Live(next.value) else InFailed(Failing(l.c, t.answer)))
  }

  // The same step as the engine's.
  lemma StepIsTheEngines(f: File, t: Tick, dispatch: Dispatcher)
    requires f.content.Some? && dispatch(f.stem) == t.answer
    ensures
      var next := Step(Live(f.content.value), t);
      && Left(f, t.now, false, dispatch) == (if next.Live? then [File(f.stem, Some(next.c))] else [])
      && FailedOf(f, t.now, false, dispatch) == (if next.InFailed? then [next.c] else [])
      && DoneOf(f, t.now, false, dispatch) == (if f.content.value.due <= t.now && t.answer.ok then [f.content.value] else [])
      && (f.content.value.due <= t.now && t.answer.ok <==> FateOf(f, t.now, false, dispatch).Fired?)
  {
    var c := f.content.value;
    if Due(c, t.now) && !t.answer.ok && AfterFailure(c, t.answer).None? {
      assert FailedOf(f, t.now, false, dispatch) == [Failing(c, t.answer)];
    }
  }

  function Run(l: Life, ticks: seq<Tick>): Life {
    if ticks == [] then l else Step(Run(l, ticks[..|ticks| - 1]), ticks[|ticks| - 1])
  }

  // The answers of the dispatches made, in order.
  function Log(l: Life, ticks: seq<Tick>): seq<bool> {
    if ticks == [] then []
    else
      var before, t := ticks[..|ticks| - 1], ticks[|ticks| - 1];
      if Dispatches(Run(l, before), t) then Log(l, before) + [t.answer.ok] else Log(l, before)
  }

  // Failures since the last success, and successes.
  function Streak(log: seq<bool>): nat {
    if log == [] || log[|log| - 1] then 0 else 1 + Streak(log[..|log| - 1])
  }

  function Successes(log: seq<bool>): nat {
    if log == [] then 0 else Successes(log[..|log| - 1]) + if log[|log| - 1] then 1 else 0
  }

  lemma LogPush(log: seq<bool>, ok: bool)
    ensures Streak(log + [ok]) == if ok then 0 else 1 + Streak(log)
    ensures Successes(log + [ok]) == Successes(log) + if ok then 1 else 0
  {
    assert (log + [ok])[..|log|] == log;
  }

  // ---- bounded retries --------------------------------------------------------------------------

  // The counter on disk is the streak, counted from `carried` until a success.
  ghost predicate CountsStreak(l: Life, log: seq<bool>, carried: nat) {
    var counted := Streak(log) + if Successes(log) == 0 then carried else 0;
    match l
    case Live(c) => c.Retries() == counted && (Streak(log) > 0 ==> counted < 3)
    case InDone(_) => Successes(log) > 0 && Streak(log) == 0
    case InFailed(c) => Streak(log) > 0 && c.Retries() == counted && (Streak(log) > 1 ==> counted <= 3)
  }

  lemma StepCountsStreak(l: Life, log: seq<bool>, carried: nat, t: Tick)
    requires CountsStreak(l, log, carried)
    ensures CountsStreak(Step(l, t), if Dispatches(l, t) then log + [t.answer.ok] else log, carried)
  {
    LogPush(log, t.answer.ok);
  }

  lemma {:induction false} RunCountsStreak(c: Commitment, ticks: seq<Tick>)
    ensures CountsStreak(Run(Live(c), ticks), Log(Live(c), ticks), c.Retries())
  {
    if ticks != [] {
      var before := ticks[..|ticks| - 1];
      RunCountsStreak(c, before);
      StepCountsStreak(Run(Live(c), before), Log(Live(c), before), c.Retries(), ticks[|ticks| - 1]);
    }
  }

  // Never more than three failures in a row, and the third one archives the commitment,
  // whatever counter it came with; the archived counter is the streak, on top of that
  // counter if no dispatch succeeded.
  lemma AtMostThreeFailuresInARow(c: Commitment, ticks: seq<Tick>)
    ensures
      var life, log := Run(Live(c), ticks), Log(Live(c), ticks);
      && Streak(log) <= 3 && (Streak(log) == 3 ==> life.InFailed?)
      && (life.InFailed? ==> life.c.Retries() == Streak(log) + if Successes(log) == 0 then c.Retries() else 0)
  {
    RunCountsStreak(c, ticks);
  }

  // While failures can be retried, the last one before the archive is the third, or the
  // first when the counter was already past two.
  lemma RetryableFailureArchivesIff(c: Commitment, t: Tick)
    requires Due(c, t.now) && !t.answer.ok && t.answer.retryable
    ensures Step(Live(c), t).InFailed? <==> c.Retries() >= 2
  {
  }

  // ---- one shot, or every period -------------------------------------------------------------------

  ghost predicate OnSchedule(l: Life, log: seq<bool>, c: Commitment) {
    && (c.repeat.None? ==> Successes(log) == if l.InDone? then 1 else 0)
    && (c.repeat.Some? ==> !l.InDone?)
    && (l.Live? ==> l.c.repeat == c.repeat)
    && (l.Live? && log == [] ==> l.c.due == c.due)
    && (l.Live? && log != [] ==>
          l.c.due == (c.due / 1_000_000) * 1_000_000 + Successes(log) * match c.repeat
                                                                           case Some(Daily) => 86_400_000_000
                                                                           case Some(Weekly) => 604_800_000_000
                                                                           case None => 0)
  }

  lemma WholePlusPeriods(m: Moment, k: nat, r: Repeat)
    ensures WholeSeconds(WholeSeconds(m)) == WholeSeconds(m)
    ensures WholeSeconds(m + Period(r)) == WholeSeconds(m) + Period(r)
    ensures WholeSeconds(WholeSeconds(m) + k * Period(r)) == WholeSeconds(m) + k * Period(r)
    ensures (k + 1) * Period(r) == k * Period(r) + Period(r)
  {
    var days := if r.Daily? then 86_400 else 604_800;
    assert Period(r) == days * SECOND;
    assert k * Period(r) == (k * days) * SECOND;
    assert WholeSeconds(m) == (m / SECOND) * SECOND;
  }

  lemma TimesInMicroseconds(m: Moment)
    ensures WholeSeconds(m) == (m / 1_000_000) * 1_000_000
    ensures Period(Daily) == 86_400_000_000 && Period(Weekly) == 604_800_000_000
  {
  }

  lemma StepOnSchedule(l: Life, log: seq<bool>, c: Commitment, t: Tick)
    requires OnSchedule(l, log, c)
    ensures OnSchedule(Step(l, t), if Dispatches(l, t) then log + [t.answer.ok] else log, c)
  {
    hide WholeSeconds, Period, Commitment.Retries;
    LogPush(log, t.answer.ok);
    var r := if c.repeat.Some? then c.repeat.value else Daily;
    WholePlusPeriods(c.due, Successes(log), r);
    TimesInMicroseconds(c.due);
    if l.Live? {
      WholePlusPeriods(l.c.due, 0, r);
      NoSuccessYet(log);
    }
  }

  lemma NoSuccessYet(log: seq<bool>)
    ensures log == [] ==> Successes(log) == 0
  {
  }

  // A commitment without repetition succeeds at most once.  One with it is due after k
  // successes at its first moment, in whole seconds, plus k periods, whatever failed
  // in between.
  lemma {:induction false} EveryRunIsOnSchedule(c: Commitment, ticks: seq<Tick>)
    ensures OnSchedule(Run(Live(c), ticks), Log(Live(c), ticks), c)
  {
    if ticks != [] {
      var before := ticks[..|ticks| - 1];
      EveryRunIsOnSchedule(c, before);
      StepOnSchedule(Run(Live(c), before), Log(Live(c), before), c, ticks[|ticks| - 1]);
    }
  }

  // ---- catching up -------------------------------------------------------------------------------------

  function TicksToCatchUp(c: Commitment, now: Moment): nat
    requires c.repeat.Some?
  {
    if c.due > now then 0 else (now - WholeSeconds(c.due)) / Period(c.repeat.value) + 1
  }

  function Repeated(t: Tick, n: nat): seq<Tick> { seq(n, i => t) }

  lemma PeriodsFit(first: Moment, now: Moment, r: Repeat, k: nat)
    requires first <= now
    ensures first + k * Period(r) <= now <==> k <= (now - first) / Period(r)
  {
    var p, q := Period(r), (now - first) / Period(r);
    assert q * p <= now - first < (q + 1) * p;
    if k <= q {
      assert k * p <= q * p;
    } else {
      assert (q + 1) * p <= k * p;
    }
  }

  // Due again exactly while fewer successes than needed have moved it on.
  lemma BehindIff(c: Commitment, due: Moment, successes: nat, now: Moment)
    requires c.repeat.Some?
    requires due == if successes == 0 then c.due else WholeSeconds(c.due) + successes * Period(c.repeat.value)
    ensures due <= now <==> successes < TicksToCatchUp(c, now)
  {
    var first := WholeSeconds(c.due);
    if c.due <= now {
      PeriodsFit(first, now, c.repeat.value, successes);
    } else if successes > 0 {
      assert successes * Period(c.repeat.value) >= Period(c.repeat.value) > SECOND;
    }
  }

  lemma DueOnSchedule(l: Life, log: seq<bool>, c: Commitment)
    requires OnSchedule(l, log, c) && c.repeat.Some?
    ensures !l.InDone?
    ensures l.Live? ==> l.c.repeat == c.repeat
    ensures l.Live? ==> l.c.due == if log == [] then c.due else WholeSeconds(c.due) + Successes(log) * Period(c.repeat.value)
  {
    TimesInMicroseconds(c.due);
  }

  // Ticking at one moment with every dispatch succeeding: exactly so many ticks fire,
  // and after them the commitment is due in the future.
  lemma {:induction false} CatchesUp(c: Commitment, answer: Dispatch, now: Moment, n: nat)
    requires c.repeat.Some? && answer.ok
    ensures
      var ticks, due := Repeated(Tick(now, answer), n), TicksToCatchUp(c, now);
      var life := Run(Live(c), ticks);
      && life.Live? && life.c.repeat == c.repeat
      && Successes(Log(Live(c), ticks)) == |Log(Live(c), ticks)| == (if n < due then n else due)
      && (Due(life.c, now) <==> n < due)
  {
    hide TicksToCatchUp, Period, WholeSeconds, Commitment.Retries, AfterFailure, OnSchedule;
    var t := Tick(now, answer);
    var ticks := Repeated(t, n);
    EveryRunIsOnSchedule(c, ticks);
    DueOnSchedule(Run(Live(c), ticks), Log(Live(c), ticks), c);
    if n > 0 {
      assert ticks[..n - 1] == Repeated(t, n - 1);
      CatchesUp(c, answer, now, n - 1);
      LogPush(Log(Live(c), ticks[..n - 1]), true);
    }
    BehindIff(c, Run(Live(c), ticks).c.due, |Log(Live(c), ticks)|, now);
  }

  // Counted from the due moment itself the number is the same exactly when the part of
  // a second that writing drops does not make up for the rest of the last period.
  lemma CatchUpFromDueIff(c: Commitment, now: Moment)
    requires c.repeat.Some? && c.due <= now
    ensures
      var p := Period(c.repeat.value);
      TicksToCatchUp(c, now) == (now - c.due) / p + 1 <==> (now - c.due) % p + c.due % SECOND < p
  {
    var p, fraction := Period(c.repeat.value), c.due % SECOND;
    var q, r := (now - c.due) / p, (now - c.due) % p;
    assert now - WholeSeconds(c.due) == q * p + (r + fraction);
    if r + fraction < p {
      DivMod(now - WholeSeconds(c.due), p, q, r + fraction);
    } else {
      assert (q + 1) * p == q * p + p;
      DivMod(now - WholeSeconds(c.due), p, q + 1, r + fraction - p);
    }
  }

  // Such a pair: half a second is dropped, and a day later all but that half second is over.
  lemma HalfASecondAddsATick()
    ensures
      var c := Commitment("water", SECOND / 2, Some(Daily), None, None);
      var now := Period(Daily) + SECOND / 4;
      TicksToCatchUp(c, now) == 2 && (now - c.due) / Period(Daily) + 1 == 1
  {
  }

  lemma DivMod(a: int, p: int, q: int, r: int)
    requires p > 0 && a == q * p + r && 0 <= r < p
    ensures a / p == q
  {
    var d := a / p - q;
    assert d * p == (a / p) * p - q * p;
    assert d >= 1 ==> d * p >= p;
    assert d <= -1 ==> d * p <= -p;
  }
}
