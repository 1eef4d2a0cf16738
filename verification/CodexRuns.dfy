// Interleaved callers of the auth client, the lock between them, and an OAuth server
// that replaces refresh tokens (section 6 of RFC 6749).
module CodexRuns {
  import opened Basics
  import opened CodexAuth

  // Where a caller is.  The shared lock is held while Reading; the exclusive lock from
  // Deciding to Replied.
  datatype Phase =
    | Idle
    | Reading(force: bool)
    | Checking(force: bool, snapshot: Auth)
    | Waiting(force: bool)
    | Deciding(force: bool)
    | Posting(force: bool, prior: Auth, attempt: nat)
    | Replied(updated: Auth, rotated: bool)

  type Caller = nat

  // `consumed` holds the refresh tokens the server has replaced, `issued` every one it
  // ever gave out; `lost` records that the replacement of the file's token never
  // reached the file, and is over once another one is written.
  datatype State = State(
    file: Auth,
    now: Time,
    phases: map<Caller, Phase>,
    issued: set<Token>,
    consumed: set<Token>,
    lost: bool)

  datatype Action =
    | LockShared(p: Caller, force: bool)
    | Read(p: Caller)
    | Check(p: Caller)
    | LockExclusive(p: Caller)
    | Recheck(p: Caller)
    | Post(p: Caller, response: Response, rotated: Option<Token>)
    | Write(p: Caller)
    | Crash(p: Caller)
    | Tick(d: nat)

  function PhaseOf(s: State, p: Caller): Phase { if p in s.phases then s.phases[p] else Idle }

  predicate Shared(ph: Phase) { ph.Reading? }

  predicate Exclusive(ph: Phase) { ph.Deciding? || ph.Posting? || ph.Replied? }

  predicate NoWriter(s: State) { forall p :: p in s.phases ==> !Exclusive(s.phases[p]) }

  predicate NoHolder(s: State) { NoWriter(s) && forall p :: p in s.phases ==> !Shared(s.phases[p]) }

  // What the server may do with a request: a replacement was never given out before,
  // and a reply with tokens carries it; without one, it carries none or the old one.
  predicate ServerMay(s: State, carried: Token, response: Response, rotated: Option<Token>) {
    && (rotated.Some? ==> rotated.value != "" && rotated.value !in s.issued)
    && (Judge(response).Take? ==>
          var refresh := Judge(response).tokens.refresh;
          if rotated.Some? then refresh == rotated else refresh.None? || refresh.value == "" || refresh.value == carried)
  }

  // Whether a caller's step changes anything in this state.
  predicate Enabled(s: State, a: Action, skew: int) {
    match a
    case LockShared(p, _) => PhaseOf(s, p).Idle? && NoWriter(s)
    case Read(p) => PhaseOf(s, p).Reading?
    case Check(p) => PhaseOf(s, p).Checking?
    case LockExclusive(p) => PhaseOf(s, p).Waiting? && NoHolder(s)
    case Recheck(p) => PhaseOf(s, p).Deciding?
    case Post(p, response, rotated) =>
      PhaseOf(s, p).Posting? && ServerMay(s, PhaseOf(s, p).prior.refresh, response, rotated)
    case Write(p) => PhaseOf(s, p).Replied?
    case Crash(p) => true
    case Tick(d) => true
  }

  // The caller's phase after an answer.
  function AfterPost(prior: Auth, force: bool, attempt: nat, response: Response, rotated: bool): Phase {
    match Judge(response)
    case Take(tokens) =>
      var updated := WithTokens(prior, tokens);
      if updated.Ok? then Replied(updated.value, rotated) else Idle
    case GiveUp(_) => Idle
    case Again(_) => if attempt < BACKOFFS then Posting(force, prior, attempt + 1) else Idle
  }

  function Moved(s: State, p: Caller, ph: Phase): State { s.(phases := s.phases[p := ph]) }

  function Next(s: State, a: Action, skew: int): State {
    if !Enabled(s, a, skew) then s
    else
      match a
      case LockShared(p, force) => Moved(s, p, Reading(force))
      case Read(p) => Moved(s, p, Checking(PhaseOf(s, p).force, s.file))
      case Check(p) =>
        var ph := PhaseOf(s, p);
        Moved(s, p, if ph.force || NeedsRefresh(ph.snapshot, s.now, skew) then Waiting(ph.force) else Idle)
      case LockExclusive(p) => Moved(s, p, Deciding(PhaseOf(s, p).force))
      case Recheck(p) =>
        var force := PhaseOf(s, p).force;
        Moved(s, p, if force || NeedsRefresh(s.file, s.now, skew) then Posting(force, s.file, 0) else Idle)
      case Post(p, response, rotated) =>
        var ph := PhaseOf(s, p);
        var then' := AfterPost(ph.prior, ph.force, ph.attempt, response, rotated.Some?);
        Moved(s, p, then').(
          issued := if rotated.Some? then s.issued + {rotated.value} else s.issued,
          consumed := if rotated.Some? then s.consumed + {ph.prior.refresh} else s.consumed,
          lost := s.lost || (rotated.Some? && !then'.Replied?))
      case Write(p) =>
        Moved(s, p, Idle).(file := PhaseOf(s, p).updated, lost := s.lost && !PhaseOf(s, p).rotated)
      case Crash(p) => Moved(s, p, Idle).(lost := s.lost || (PhaseOf(s, p).Replied? && PhaseOf(s, p).rotated))
      case Tick(d) => s.(now := s.now + d)
  }

  function Run(s: State, actions: seq<Action>, skew: int): State
    decreases |actions|
  {
    if actions == [] then s else Run(Next(s, actions[0], skew), actions[1..], skew)
  }

  // ---- one caller on its own ---------------------------------------------------------------------

  // The checks: a caller goes on exactly when it forces the refresh or the token it has
  // just read is within the skew, first as of its snapshot and then as of the file.
  lemma CheckGoesOnIff(s: State, p: Caller, skew: int)
    requires PhaseOf(s, p).Checking?
    ensures
      var ph, s' := PhaseOf(s, p), Next(s, Check(p), skew);
      var due := ph.force || ph.snapshot.expiry.None? || s.now + skew >= ph.snapshot.expiry.value;
      PhaseOf(s', p) == (if due then Waiting(ph.force) else Idle) && s'.file == s.file
  {
  }

  lemma RecheckPostsIff(s: State, p: Caller, skew: int)
    requires PhaseOf(s, p).Deciding?
    ensures
      var force, s' := PhaseOf(s, p).force, Next(s, Recheck(p), skew);
      var due := force || s.file.expiry.None? || s.now + skew >= s.file.expiry.value;
      PhaseOf(s', p) == (if due then Posting(force, s.file, 0) else Idle) && s'.file == s.file
  {
  }

  // A caller that dies frees its locks, whatever it holds, and time passes for everyone.
  lemma CrashAndTick(s: State, p: Caller, d: nat, skew: int)
    ensures PhaseOf(Next(s, Crash(p), skew), p).Idle? && Next(s, Crash(p), skew).file == s.file
    ensures Next(s, Tick(d), skew) == s.(now := s.now + d)
  {
  }

  function Unsettled(p: Caller, answers: nat -> Response, n: nat): seq<Action> {
    if n == 0 then [] else Unsettled(p, answers, n - 1) + [Post(p, answers(n - 1), None)]
  }

  lemma {:induction false} RunAppends(s: State, a: seq<Action>, b: seq<Action>, skew: int)
    ensures Run(s, a + b, skew) == Run(Run(s, a, skew), b, skew)
    decreases |a|
  {
    if a == [] {
      assert a + b == b;
    } else {
      assert (a + b)[1..] == a[1..] + b;
      RunAppends(Next(s, a[0], skew), a[1..], b, skew);
    }
  }

  // Each answer that settles nothing uses up a try.
  lemma {:induction false} TriesCount(s: State, p: Caller, force: bool, answers: nat -> Response, n: nat, skew: int)
    requires PhaseOf(s, p) == Posting(force, s.file, 0) && n <= 3
    requires forall k: nat :: k < n ==> Judge(answers(k)).Again?
    ensures
      var s' := Run(s, Unsettled(p, answers, n), skew);
      PhaseOf(s', p) == Posting(force, s.file, n) && s'.file == s.file && s'.issued == s.issued && s'.now == s.now
  {
    if n > 0 {
      hide Judge, WithTokens;
      TriesCount(s, p, force, answers, n - 1, skew);
      var t := Run(s, Unsettled(p, answers, n - 1), skew);
      RunAppends(s, Unsettled(p, answers, n - 1), [Post(p, answers(n - 1), None)], skew);
      assert Run(t, [Post(p, answers(n - 1), None)], skew) == Next(t, Post(p, answers(n - 1), None), skew);
    }
  }

  // So a refresh in this machine, when nothing comes between, is the one of the client: as
  // many requests, and the file it leaves.
  lemma RefreshAlone(s: State, p: Caller, force: bool, answers: nat -> Response, posts: nat, rotated: Option<Token>, skew: int)
    requires PhaseOf(s, p) == Posting(force, s.file, 0) && posts > 0 && Settled(answers, posts)
    requires ServerMay(s, s.file.refresh, answers(posts - 1), rotated)
    ensures
      var outcome := Outcome(s.file, Judge(answers(posts - 1)));
      var s' := Run(s, Unsettled(p, answers, posts - 1) + [Post(p, answers(posts - 1), rotated)] + [Write(p)], skew);
      PhaseOf(s', p).Idle? && s'.file == if outcome.Ok? then outcome.value else s.file
  {
    hide Judge, WithTokens, ServerMay;
    var first, last := Unsettled(p, answers, posts - 1), Post(p, answers(posts - 1), rotated);
    TriesCount(s, p, force, answers, posts - 1, skew);
    var t := Run(s, first, skew);
    SameServer(s, t, answers(posts - 1), rotated);
    RunAppends(s, first + [last], [Write(p)], skew);
    RunAppends(s, first, [last], skew);
    OneStep(t, last, skew);
    OneStep(Next(t, last, skew), Write(p), skew);
  }

  lemma SameServer(s: State, t: State, response: Response, rotated: Option<Token>)
    requires s.issued == t.issued && s.file == t.file
    ensures ServerMay(s, s.file.refresh, response, rotated) <==> ServerMay(t, t.file.refresh, response, rotated)
  {
  }

  lemma OneStep(s: State, a: Action, skew: int)
    ensures Run(s, [a], skew) == Next(s, a, skew)
  {
    assert [a][1..] == [];
  }

  // ---- the invariant --------------------------------------------------------------------------

  // A writer is alone.
  ghost predicate Alone(s: State) {
    forall p, q :: p in s.phases && q in s.phases && p != q && Exclusive(s.phases[p]) ==>
      !Exclusive(s.phases[q]) && !Shared(s.phases[q])
  }

  // What a caller under the exclusive lock knows of the file.
  ghost predicate Informed(s: State, ph: Phase, skew: int) {
    match ph
    case Posting(force, prior, attempt) =>
      prior == s.file && attempt <= BACKOFFS && (force || NeedsRefresh(s.file, s.now, skew))
    case Replied(updated, rotated) =>
      updated.refresh in s.issued && (!rotated ==> updated.refresh == s.file.refresh)
      && (rotated ==> updated.refresh !in s.consumed && s.file.refresh in s.consumed)
    case _ => true
  }

  ghost predicate AllInformed(s: State, skew: int) {
    forall p :: p in s.phases ==> Informed(s, s.phases[p], skew)
  }

  ghost predicate RotationUnderWay(s: State) {
    exists p :: p in s.phases && s.phases[p].Replied? && s.phases[p].rotated
  }

  // Unless its replacement is about to be written, the file's refresh token was replaced
  // exactly when the replacement is lost.
  ghost predicate TokensOk(s: State) {
    && s.consumed <= s.issued && s.file.refresh in s.issued
    && (!RotationUnderWay(s) ==> (s.lost <==> s.file.refresh in s.consumed))
  }

  ghost predicate Inv(s: State, skew: int) { Alone(s) && AllInformed(s, skew) && TokensOk(s) }

  lemma StepKeepsAlone(s: State, a: Action, skew: int)
    requires Alone(s)
    ensures Alone(Next(s, a, skew))
  {
    hide NeedsRefresh, Judge, WithTokens, ServerMay;
  }

  // The phases of other callers stay, and so does the file unless its writer moves.
  lemma OnlyItsOwnPhase(s: State, a: Action, skew: int, p: Caller)
    requires a.Tick? || a.p != p
    ensures PhaseOf(Next(s, a, skew), p) == PhaseOf(s, p)
    ensures Alone(s) && Exclusive(PhaseOf(s, p)) ==>
              var s' := Next(s, a, skew);
              s'.file == s.file && s.now <= s'.now && s.issued == s'.issued && s.consumed == s'.consumed
  {
    hide NeedsRefresh, Judge, WithTokens, ServerMay;
  }

  lemma AnswerInforms(s: State, p: Caller, response: Response, rotated: Option<Token>, skew: int)
    requires Inv(s, skew) && Enabled(s, Post(p, response, rotated), skew)
    ensures
      var s' := Next(s, Post(p, response, rotated), skew);
      Informed(s', PhaseOf(s', p), skew)
  {
    hide NeedsRefresh;
    var ph := PhaseOf(s, p);
    assert Informed(s, ph, skew);
  }

  lemma StepKeepsInformed(s: State, a: Action, skew: int, p: Caller)
    requires Inv(s, skew)
    ensures Informed(Next(s, a, skew), PhaseOf(Next(s, a, skew), p), skew)
  {
    hide Judge, WithTokens, ServerMay, AfterPost;
    assert Informed(s, PhaseOf(s, p), skew);
    if a.Tick? || a.p != p {
      OnlyItsOwnPhase(s, a, skew, p);
    } else if a.Post? && Enabled(s, a, skew) {
      AnswerInforms(s, p, a.response, a.rotated, skew);
    }
  }

  ghost predicate Rotating(s: State, p: Caller) { PhaseOf(s, p).Replied? && PhaseOf(s, p).rotated }

  lemma UnderWayStays(s: State, a: Action, skew: int)
    requires RotationUnderWay(s) && Alone(s)
    ensures RotationUnderWay(Next(s, a, skew)) || Next(s, a, skew).lost || (a.Write? && Rotating(s, a.p))
    ensures a.Post? ==> !Enabled(s, a, skew)
  {
    hide NeedsRefresh, Judge, WithTokens, ServerMay, AfterPost;
    var p :| p in s.phases && s.phases[p].Replied? && s.phases[p].rotated;
    if a.Tick? || a.p != p {
      OnlyItsOwnPhase(s, a, skew, p);
      assert Next(s, a, skew).phases[p].rotated;
    }
  }

  lemma WrittenTokenIsGood(s: State, p: Caller, skew: int)
    requires Inv(s, skew) && PhaseOf(s, p).Replied?
    ensures TokensOk(Next(s, Write(p), skew))
  {
    assert Informed(s, s.phases[p], skew);
  }

  lemma StepKeepsTokens(s: State, a: Action, skew: int)
    requires Inv(s, skew)
    ensures TokensOk(Next(s, a, skew))
  {
    hide NeedsRefresh, Judge, WithTokens, AfterPost;
    if RotationUnderWay(s) {
      UnderWayStays(s, a, skew);
    }
    if a.Write? && PhaseOf(s, a.p).Replied? {
      WrittenTokenIsGood(s, a.p, skew);
    } else if a.Post? && Enabled(s, a, skew) && a.rotated.Some? {
      var s' := Next(s, a, skew);
      assert s'.phases[a.p].Replied? ==> s'.phases[a.p].rotated by {
        AnswerKeepsFlag(PhaseOf(s, a.p), a.response);
      }
      assert Informed(s, s.phases[a.p], skew);
    }
  }

  lemma AnswerKeepsFlag(ph: Phase, response: Response)
    requires ph.Posting?
    ensures
      var then' := AfterPost(ph.prior, ph.force, ph.attempt, response, true);
      then'.Replied? ==> then'.rotated
  {
  }

  lemma StepKeepsInv(s: State, a: Action, skew: int)
    requires Inv(s, skew)
    ensures Inv(Next(s, a, skew), skew)
  {
    hide Informed, TokensOk, Next, Alone;
    StepKeepsAlone(s, a, skew);
    StepKeepsTokens(s, a, skew);
    forall p | p in Next(s, a, skew).phases ensures Informed(Next(s, a, skew), Next(s, a, skew).phases[p], skew) {
      StepKeepsInformed(s, a, skew, p);
    }
  }

  lemma {:induction false} InvOnEveryRun(s: State, actions: seq<Action>, skew: int)
    requires Inv(s, skew)
    ensures Inv(Run(s, actions, skew), skew)
    decreases |actions|
  {
    if actions != [] {
      StepKeepsInv(s, actions[0], skew);
      InvOnEveryRun(Next(s, actions[0], skew), actions[1..], skew);
    }
  }

  // A file with a good token, and no callers.
  predicate Start(s: State) { s.phases == map[] && s.issued == {s.file.refresh} && s.consumed == {} && !s.lost }

  lemma InvAtStart(s: State, skew: int)
    requires Start(s)
    ensures Inv(s, skew)
  {
  }

  // ---- what every request meets ------------------------------------------------------------------

  ghost predicate IsPost(s: State, a: Action, skew: int) { a.Post? && Enabled(s, a, skew) }

  ghost predicate PostIsSafe(s: State, a: Action, skew: int)
    requires IsPost(s, a, skew)
  {
    var ph := PhaseOf(s, a.p);
    && ph.prior.refresh == s.file.refresh
    && (forall q :: q in s.phases && q != a.p ==> !Exclusive(s.phases[q]) && !Shared(s.phases[q]))
    && (ph.force || NeedsRefresh(s.file, s.now, skew))
    && (s.lost <==> s.file.refresh in s.consumed)
    && ph.attempt <= BACKOFFS
  }

  lemma InvMakesPostSafe(s: State, a: Action, skew: int)
    requires Inv(s, skew) && IsPost(s, a, skew)
    ensures PostIsSafe(s, a, skew)
  {
    hide NeedsRefresh, Judge, WithTokens, ServerMay;
    assert Informed(s, s.phases[a.p], skew);
  }

  ghost predicate EveryPostSafe(s: State, actions: seq<Action>, skew: int)
    decreases |actions|
  {
    actions != [] ==>
      (IsPost(s, actions[0], skew) ==> PostIsSafe(s, actions[0], skew)) && EveryPostSafe(Next(s, actions[0], skew), actions[1..], skew)
  }

  lemma {:induction false} EveryPostOnEveryRunIsSafe(s: State, actions: seq<Action>, skew: int)
    requires Inv(s, skew)
    ensures EveryPostSafe(s, actions, skew)
    decreases |actions|
  {
    if actions != [] {
      if IsPost(s, actions[0], skew) {
        InvMakesPostSafe(s, actions[0], skew);
      }
      StepKeepsInv(s, actions[0], skew);
      EveryPostOnEveryRunIsSafe(Next(s, actions[0], skew), actions[1..], skew);
    }
  }

  // From a good file, however callers interleave, wait, crash and retry: a request
  // carries the token the file holds, its sender is alone, it is needed or forced, and
  // its token was replaced before exactly while a replacement is lost.
  lemma EveryPostFromTheStartIsSafe(s: State, actions: seq<Action>, skew: int)
    requires Start(s)
    ensures EveryPostSafe(s, actions, skew) && Inv(Run(s, actions, skew), skew)
  {
    InvAtStart(s, skew);
    EveryPostOnEveryRunIsSafe(s, actions, skew);
    InvOnEveryRun(s, actions, skew);
  }

  // ---- one refresh serves everyone ------------------------------------------------------------------

  // No caller posts without force.
  ghost predicate OnlyForcedPosts(s: State, actions: seq<Action>, skew: int)
    decreases |actions|
  {
    actions != [] ==>
      && (IsPost(s, actions[0], skew) ==> PhaseOf(s, actions[0].p).force)
      && OnlyForcedPosts(Next(s, actions[0], skew), actions[1..], skew)
  }

  // Every token written along the way outlives the skew at moment `end`.
  ghost predicate WritesOutlive(s: State, actions: seq<Action>, skew: int, end: Time)
    decreases |actions|
  {
    actions != [] ==>
      && (actions[0].Write? && Enabled(s, actions[0], skew) ==> !NeedsRefresh(PhaseOf(s, actions[0].p).updated, end, skew))
      && WritesOutlive(Next(s, actions[0], skew), actions[1..], skew, end)
  }

  lemma FreshAfterStep(s: State, a: Action, skew: int, end: Time)
    requires !NeedsRefresh(s.file, end, skew)
    requires a.Write? && Enabled(s, a, skew) ==> !NeedsRefresh(PhaseOf(s, a.p).updated, end, skew)
    ensures !NeedsRefresh(Next(s, a, skew).file, end, skew)
  {
    hide Judge, WithTokens, ServerMay, AfterPost;
  }

  lemma {:induction false} FreshFileStopsPosts(s: State, actions: seq<Action>, skew: int, end: Time)
    requires Inv(s, skew) && Run(s, actions, skew).now <= end
    requires !NeedsRefresh(s.file, end, skew) && WritesOutlive(s, actions, skew, end)
    ensures OnlyForcedPosts(s, actions, skew) && !NeedsRefresh(Run(s, actions, skew).file, end, skew)
    decreases |actions|
  {
    if actions != [] {
      hide Next, Inv;
      ClockOnlyGrows(s, actions, skew);
      if IsPost(s, actions[0], skew) {
        InvMakesPostSafe(s, actions[0], skew);
      }
      FreshAfterStep(s, actions[0], skew, end);
      StepKeepsInv(s, actions[0], skew);
      FreshFileStopsPosts(Next(s, actions[0], skew), actions[1..], skew, end);
    }
  }

  ghost predicate Quiet(ph: Phase) {
    match ph
    case Reading(force) => !force
    case Checking(force, _) => !force
    case Waiting(force) => !force
    case Deciding(force) => !force
    case _ => ph.Idle?
  }

  ghost predicate AllQuiet(s: State) { forall p :: p in s.phases ==> Quiet(s.phases[p]) }

  predicate NoForce(actions: seq<Action>) { forall a :: a in actions && a.LockShared? ==> !a.force }

  predicate Posts(s: State, actions: seq<Action>, skew: int)
    decreases |actions|
  {
    actions != [] && ((actions[0].Post? && Enabled(s, actions[0], skew)) || Posts(Next(s, actions[0], skew), actions[1..], skew))
  }

  lemma {:induction false} ClockOnlyGrows(s: State, actions: seq<Action>, skew: int)
    ensures s.now <= Run(s, actions, skew).now
    decreases |actions|
  {
    if actions != [] {
      hide Enabled, AfterPost;
      ClockOnlyGrows(Next(s, actions[0], skew), actions[1..], skew);
    }
  }

  lemma QuietStep(s: State, a: Action, skew: int)
    requires AllQuiet(s) && !NeedsRefresh(s.file, s.now, skew) && (a.LockShared? ==> !a.force)
    ensures AllQuiet(Next(s, a, skew)) && Next(s, a, skew).file == s.file && !IsPost(s, a, skew)
  {
    assert PhaseOf(s, if a.Tick? then 0 else a.p).Idle? || Quiet(PhaseOf(s, if a.Tick? then 0 else a.p));
  }

  lemma {:induction false} NoPostWhileFresh(s: State, actions: seq<Action>, skew: int)
    requires AllQuiet(s) && NoForce(actions) && !NeedsRefresh(s.file, Run(s, actions, skew).now, skew)
    ensures !Posts(s, actions, skew) && Run(s, actions, skew).file == s.file
    decreases |actions|
  {
    if actions != [] {
      ClockOnlyGrows(s, actions, skew);
      QuietStep(s, actions[0], skew);
      NoPostWhileFresh(Next(s, actions[0], skew), actions[1..], skew);
    }
  }

  // Once a caller has written a token, and as long as it and every token written after
  // it outlive the skew, no caller posts unless it forces the refresh.
  lemma SingleFlight(s: State, p: Caller, actions: seq<Action>, skew: int)
    requires Inv(s, skew) && PhaseOf(s, p).Replied?
    requires
      var written := Next(s, Write(p), skew);
      var end := Run(written, actions, skew).now;
      !NeedsRefresh(written.file, end, skew) && WritesOutlive(written, actions, skew, end)
    ensures OnlyForcedPosts(Next(s, Write(p), skew), actions, skew)
  {
    var written := Next(s, Write(p), skew);
    StepKeepsInv(s, Write(p), skew);
    FreshFileStopsPosts(written, actions, skew, Run(written, actions, skew).now);
  }

  // Without forced callers nobody posts at all, and the file stays.
  lemma SingleFlightKeepsTheFile(s: State, p: Caller, actions: seq<Action>, skew: int)
    requires Inv(s, skew) && PhaseOf(s, p).Replied?
    requires forall q :: q in s.phases && q != p ==> Quiet(s.phases[q])
    requires NoForce(actions)
    requires
      var written := Next(s, Write(p), skew);
      !NeedsRefresh(written.file, Run(written, actions, skew).now, skew)
    ensures
      var written := Next(s, Write(p), skew);
      !Posts(written, actions, skew) && Run(written, actions, skew).file == PhaseOf(s, p).updated
  {
    NoPostWhileFresh(Next(s, Write(p), skew), actions, skew);
  }

  // ---- what a crash between the reply and the write costs ---------------------------------------------

  ghost predicate WritesRotated(s: State, a: Action) { a.Write? && Rotating(s, a.p) }

  // Every request carries a replaced token, up to the first write of another one.
  ghost predicate EveryPostStale(s: State, actions: seq<Action>, skew: int)
    decreases |actions|
  {
    actions != [] ==>
      && (IsPost(s, actions[0], skew) ==> PhaseOf(s, actions[0].p).prior.refresh in s.consumed)
      && (WritesRotated(s, actions[0]) || EveryPostStale(Next(s, actions[0], skew), actions[1..], skew))
  }

  lemma {:induction false} StaleUntilWritten(s: State, actions: seq<Action>, skew: int)
    requires Inv(s, skew) && s.file.refresh in s.consumed
    ensures EveryPostStale(s, actions, skew)
    decreases |actions|
  {
    if actions != [] {
      if IsPost(s, actions[0], skew) {
        InvMakesPostSafe(s, actions[0], skew);
      }
      if !WritesRotated(s, actions[0]) {
        if actions[0].Write? && PhaseOf(s, actions[0].p).Replied? {
          assert Informed(s, s.phases[actions[0].p], skew);
        }
        StepKeepsInv(s, actions[0], skew);
        StaleUntilWritten(Next(s, actions[0], skew), actions[1..], skew);
      }
    }
  }

  // The file keeps the replaced token: every later request carries it, until some
  // request is answered with another one all the same, and that is written.
  lemma CrashBeforeWriteSpoilsTheFile(s: State, p: Caller, actions: seq<Action>, skew: int)
    requires Inv(s, skew) && Rotating(s, p)
    ensures Next(s, Crash(p), skew).lost && EveryPostStale(Next(s, Crash(p), skew), actions, skew)
  {
    assert Informed(s, s.phases[p], skew);
    StepKeepsInv(s, Crash(p), skew);
    StaleUntilWritten(Next(s, Crash(p), skew), actions, skew);
  }
}
