// Forwarding the retry limit to the expiry pass is exactly what bounds claims.
module BoundedClaims {
  import opened Basics
  import opened QueueTable
  import opened GatewayProtocol
  import opened QueueSafety

  // Runs of arrivals, claims, expiry, renewals and guarded finishes only.
  ghost predicate Unattended(actions: seq<Action>) {
    forall i :: 0 <= i < |actions| ==> !actions[i].Retry? && !actions[i].ResetRunning?
  }

  lemma {:induction false} UnattendedHistory(cfg: Config, actions: seq<Action>, i: nat)
    requires ValidConfig(cfg) && Unattended(actions) && i < |Run(cfg, INIT, actions).rows|
    ensures var s := Run(cfg, INIT, actions);
            |s.history| == |s.rows| && s.history[i].retries == 0 && s.history[i].resets == 0
  {
    hide WorkersAfter, LedgerAfter, SnapshotAfter, ReadsAfter, AcceptedAfter, RowOk, SnapshotOk, ReadsOk;
    QueueOkOnEveryRun(cfg, actions);
    if actions != [] {
      var before := actions[..|actions| - 1];
      QueueOkOnEveryRun(cfg, before);
      if i < |Run(cfg, INIT, before).rows| {
        UnattendedHistory(cfg, before, i);
      }
    }
  }

  ghost predicate ClaimBound(cfg: Config, bound: nat)
    requires ValidConfig(cfg)
  {
    forall actions, i: nat | Unattended(actions) && i < |Run(cfg, INIT, actions).history| ::
      Run(cfg, INIT, actions).history[i].claims <= bound
  }

  // An event whose worker never answers, claimed n times so far.
  ghost predicate Poison(cfg: Config, s: State, n: nat) {
    && |s.rows| == 1 && |s.history| == 1
    && s.history[0].claims == n && s.rows[0].retryCount == (if n == 0 then 0 else n - 1)
    && (forall t :: t in s.issued ==> |t| <= n)
    && (if n == 0 then Ready(s.rows[0], s.clock, []) && s.rows[0].lockedBy.None?
        else s.rows[0].status.Running? && s.rows[0].lockedBy.Some? && s.rows[0].lockedBy.value in s.issued
             && LeaseOver(s.rows[0], s.clock + cfg.lease))
  }

  // The pass after the n-th claim still finds a retry.
  predicate GoesRound(cfg: Config, n: nat) { !cfg.capped || n <= cfg.maxRetries }

  function PoisonToken(n: nat): Token { seq(n + 1, _ => CLAIM_TOKEN_SEPARATOR) }

  lemma PoisonTick(cfg: Config, s: State, n: nat)
    requires ValidConfig(cfg) && GoesRound(cfg, n) && Poison(cfg, s, n)
    ensures var s1 := Next(cfg, s, Tick(cfg.lease));
            && s1.rows == s.rows && s1.history == s.history && s1.issued == s.issued
            && Ready(ExpireRow(s1.rows[0], s1.clock, ExpiryCap(cfg)), s1.clock, [])
            && ExpireRow(s1.rows[0], s1.clock, ExpiryCap(cfg)).retryCount == n
            && (s1.rows[0].lockedBy.Some? ==> s1.rows[0].lockedBy.value in s1.issued)
  {
    var s1 := Next(cfg, s, Tick(cfg.lease));
    assert s1.history[0] == s.history[0];
  }

  lemma PoisonRowClaimed(cfg: Config, s: State, token: Token)
    requires ValidConfig(cfg) && |s.rows| == 1 && token !in s.issued
    requires Ready(ExpireRow(s.rows[0], s.clock, ExpiryCap(cfg)), s.clock, [])
    ensures RowsAfter(cfg, s, ClaimRows(token, [], false))
         == [ClaimedRow(ExpireRow(s.rows[0], s.clock, ExpiryCap(cfg)), token, s.clock + cfg.lease, s.clock)]
  {
    var live := Expire(s.rows, s.clock, ExpiryCap(cfg));
    assert Ready(live[0], s.clock, []);
    AscendingSameMembers(BatchIds(live, s.clock, [], false), [0]);
  }

  lemma PoisonClaim(cfg: Config, s: State, n: nat)
    requires ValidConfig(cfg) && |s.rows| == |s.history| == 1 && s.history[0].claims == n
    requires forall t :: t in s.issued ==> |t| <= n
    requires Ready(ExpireRow(s.rows[0], s.clock, ExpiryCap(cfg)), s.clock, [])
    requires ExpireRow(s.rows[0], s.clock, ExpiryCap(cfg)).retryCount == n
    requires s.rows[0].lockedBy.Some? ==> s.rows[0].lockedBy.value in s.issued
    ensures Poison(cfg, Next(cfg, s, ClaimRows(PoisonToken(n), [], false)), n + 1)
  {
    hide WorkersAfter, LedgerAfter, SnapshotAfter, ReadsAfter, AcceptedAfter, RowsAfter;
    PoisonRowClaimed(cfg, s, PoisonToken(n));
  }

  lemma PoisonStep(cfg: Config, s: State, n: nat)
    requires ValidConfig(cfg) && GoesRound(cfg, n) && Poison(cfg, s, n)
    ensures Poison(cfg, Next(cfg, Next(cfg, s, Tick(cfg.lease)), ClaimRows(PoisonToken(n), [], false)), n + 1)
  {
    PoisonTick(cfg, s, n);
    PoisonClaim(cfg, Next(cfg, s, Tick(cfg.lease)), n);
  }

  function PoisonActions(lease: nat, n: nat): seq<Action> {
    if n == 0 then [HELLO]
    else PoisonActions(lease, n - 1) + [Tick(lease)] + [ClaimRows(PoisonToken(n - 1), [], false)]
  }

  lemma {:induction false} PoisonActionsUnattended(lease: nat, n: nat)
    ensures Unattended(PoisonActions(lease, n))
  {
    if n > 0 {
      PoisonActionsUnattended(lease, n - 1);
    }
  }

  lemma PoisonStart(cfg: Config)
    requires ValidConfig(cfg)
    ensures Poison(cfg, Run(cfg, INIT, [HELLO]), 0)
  {
    assert [HELLO][..0] == [];
    assert Run(cfg, INIT, [HELLO]) == Next(cfg, INIT, HELLO);
  }

  lemma PoisonRound(cfg: Config, before: seq<Action>, n: nat)
    requires ValidConfig(cfg) && GoesRound(cfg, n) && Poison(cfg, Run(cfg, INIT, before), n)
    ensures Poison(cfg, Run(cfg, INIT, before + [Tick(cfg.lease)] + [ClaimRows(PoisonToken(n), [], false)]), n + 1)
  {
    hide Next, Poison, Run;
    PoisonStep(cfg, Run(cfg, INIT, before), n);
    RunStep(cfg, INIT, before, Tick(cfg.lease));
    RunStep(cfg, INIT, before + [Tick(cfg.lease)], ClaimRows(PoisonToken(n), [], false));
  }

  lemma {:induction false} PoisonRun(cfg: Config, n: nat)
    requires ValidConfig(cfg) && (!cfg.capped || n <= cfg.maxRetries + 1)
    ensures Poison(cfg, Run(cfg, INIT, PoisonActions(cfg.lease, n)), n)
  {
    hide Next, Poison, Run;
    if n == 0 {
      PoisonStart(cfg);
    } else {
      PoisonRun(cfg, n - 1);
      PoisonRound(cfg, PoisonActions(cfg.lease, n - 1), n - 1);
    }
  }

  lemma PoisonIsClaimed(cfg: Config, n: nat)
    requires ValidConfig(cfg) && (!cfg.capped || n <= cfg.maxRetries + 1)
    ensures forall bound: nat :: ClaimBound(cfg, bound) ==> n <= bound
  {
    var actions := PoisonActions(cfg.lease, n);
    PoisonActionsUnattended(cfg.lease, n);
    PoisonRun(cfg, n);
    assert Run(cfg, INIT, actions).history[0].claims == n;
  }

  // Forwarded, the limit m allows m + 1 claims and no fewer; not forwarded, a poison
  // event is claimed more often than any bound.
  lemma ClaimsBoundedIffCapped(cfg: Config)
    requires ValidConfig(cfg)
    ensures cfg.capped <==> exists bound: nat :: ClaimBound(cfg, bound)
    ensures cfg.capped ==> forall bound: nat :: ClaimBound(cfg, bound) <==> cfg.maxRetries + 1 <= bound
  {
    if cfg.capped {
      forall actions, i: nat | Unattended(actions) && i < |Run(cfg, INIT, actions).history|
        ensures Run(cfg, INIT, actions).history[i].claims <= cfg.maxRetries + 1
      {
        QueueOkOnEveryRun(cfg, actions);
        UnattendedHistory(cfg, actions, i);
        ClaimsAreBounded(cfg, actions, i);
      }
      assert ClaimBound(cfg, cfg.maxRetries + 1);
      PoisonIsClaimed(cfg, cfg.maxRetries + 1);
    } else {
      forall bound: nat ensures !ClaimBound(cfg, bound) {
        PoisonIsClaimed(cfg, bound + 1);
      }
    }
  }
}
