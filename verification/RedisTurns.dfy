/**
 * What a call to the Redis runtime comes to: when its commit lands, what a
 * retry is told, what a timeout leaves, and that a turn left alone completes.
 */
module RedisTurns {
  import opened Basics
  import opened Options
  import opened Decimal
  import opened SerialSpec
  import opened RedisScripts
  import opened RedisRuntime
  import opened RedisRuntimeProof

  // ----- the deadline -----

  /** From the dedup check on a call has a clock. */
  predicate Timed(sys: System, t: nat) {
    t < |sys.calls| && (Raced(sys.calls[t].phase) || sys.calls[t].phase.Deciding? || sys.calls[t].phase.Committing?)
  }

  lemma TimedSince(app: Application, cfg: Config, sys: System, step: Step, t: nat)
    requires Enabled(app, sys, step) && Timed(Apply(app, cfg, sys, step), t)
    ensures var sys' := Apply(app, cfg, sys, step);
            if Timed(sys, t) then sys'.calls[t].startedAt == sys.calls[t].startedAt
            else step == CheckDedup(t, sys'.calls[t].startedAt)
  {
  }

  lemma TimedInRun(app: Application, cfg: Config, steps: seq<Step>, run: seq<System>, i: nat, t: nat)
    requires Execution(app, cfg, steps, run) && i < |run| && Timed(run[i], t)
    ensures i > 0
    ensures if Timed(run[i - 1], t) then run[i].calls[t].startedAt == run[i - 1].calls[t].startedAt
            else steps[i - 1] == CheckDedup(t, run[i].calls[t].startedAt)
  {
    assert i > 0;
    TimedSince(app, cfg, run[i - 1], steps[i - 1], t);
  }

  /** A call's deadline runs from its own dedup check. */
  lemma {:induction false} StartedAtItsCheck(app: Application, cfg: Config, steps: seq<Step>, run: seq<System>, i: nat, t: nat)
    returns (j: nat)
    requires Execution(app, cfg, steps, run) && i < |run| && Timed(run[i], t)
    ensures j < i && steps[j] == CheckDedup(t, run[i].calls[t].startedAt)
  {
    TimedInRun(app, cfg, steps, run, i, t);
    if Timed(run[i - 1], t) {
      j := StartedAtItsCheck(app, cfg, steps, run, i - 1, t);
    } else {
      j := i - 1;
    }
  }

  predicate Decided(sys: System, t: nat) {
    t < |sys.calls| && (sys.calls[t].phase.Deciding? || sys.calls[t].phase.Committing?)
  }

  lemma DecidedSince(app: Application, cfg: Config, sys: System, step: Step, t: nat)
    requires Enabled(app, sys, step) && Decided(Apply(app, cfg, sys, step), t)
    ensures var sys' := Apply(app, cfg, sys, step);
            && Timed(sys, t)
            && if Decided(sys, t) then sys'.calls[t].phase.turn == sys.calls[t].phase.turn
               else step.ReceiveResolves? && step.t == t && step.turn == sys'.calls[t].phase.turn
                    && step.now - sys.calls[t].startedAt <= cfg.deadlineMs
  {
  }

  lemma DecidedInRun(app: Application, cfg: Config, steps: seq<Step>, run: seq<System>, i: nat, t: nat)
    requires Execution(app, cfg, steps, run) && i < |run| && Decided(run[i], t)
    ensures i > 0 && Timed(run[i - 1], t)
    ensures if Decided(run[i - 1], t) then run[i].calls[t].phase.turn == run[i - 1].calls[t].phase.turn
            else && steps[i - 1].ReceiveResolves? && steps[i - 1].t == t && steps[i - 1].turn == run[i].calls[t].phase.turn
                 && steps[i - 1].now - run[i - 1].calls[t].startedAt <= cfg.deadlineMs
  {
    assert i > 0;
    DecidedSince(app, cfg, run[i - 1], steps[i - 1], t);
  }

  /** A turn past its `receive` got there within its deadline. */
  lemma {:induction false} DecidedInTime(app: Application, cfg: Config, steps: seq<Step>, run: seq<System>, i: nat, t: nat)
    returns (k: nat)
    requires Execution(app, cfg, steps, run) && i < |run| && Decided(run[i], t)
    ensures k < i && steps[k].ReceiveResolves? && steps[k].t == t && steps[k].turn == run[i].calls[t].phase.turn
    ensures Timed(run[k], t) && steps[k].now - run[k].calls[t].startedAt <= cfg.deadlineMs
  {
    DecidedInRun(app, cfg, steps, run, i, t);
    if Decided(run[i - 1], t) {
      k := DecidedInTime(app, cfg, steps, run, i - 1, t);
    } else {
      k := i - 1;
    }
  }

  lemma CommitsInAStep(app: Application, cfg: Config, steps: seq<Step>, run: seq<System>, i: nat, a: Action)
    requires Execution(app, cfg, steps, run) && i < |run| && a in run[i].history && a.Committed?
    ensures i > 0
    ensures a !in run[i - 1].history ==> steps[i - 1].CommitRuns? && steps[i - 1].t == a.caller
                                         && Decided(run[i - 1], a.caller) && run[i - 1].calls[a.caller].phase.turn == a.turn
  {
    if a !in run[i - 1].history { CommitsOneAction(app, cfg, run[i - 1], steps[i - 1], a); }
  }

  lemma CommitsOneAction(app: Application, cfg: Config, sys: System, step: Step, a: Action)
    requires Enabled(app, sys, step) && a.Committed? && a in Apply(app, cfg, sys, step).history && a !in sys.history
    ensures step.CommitRuns? && step.t == a.caller && Decided(sys, a.caller) && sys.calls[a.caller].phase.turn == a.turn
  {
  }

  /** The step at which an action first appears. */
  lemma {:induction false} Appears(run: seq<System>, i: nat, a: Action) returns (m: nat)
    requires i < |run| && a in run[i].history && a !in run[0].history
    ensures m < i && a !in run[m].history && a in run[m + 1].history
  {
    if a in run[i - 1].history {
      m := Appears(run, i - 1, a);
    } else {
      m := i - 1;
    }
  }

  /** Every commit of a run is of a turn whose `receive` resolved within its deadline, counted from its dedup check. */
  lemma CommitsFollowTheClock(app: Application, cfg: Config, steps: seq<Step>, run: seq<System>, i: nat, a: Action)
    returns (j: nat, k: nat, m: nat)
    requires Execution(app, cfg, steps, run) && i < |run| && a in run[i].history && a.Committed?
    ensures j < k < m < i && steps[j].CheckDedup? && steps[j].t == a.caller
    ensures steps[k].ReceiveResolves? && steps[k].t == a.caller && steps[k].turn == a.turn
    ensures steps[k].now - steps[j].now <= cfg.deadlineMs
    ensures steps[m].CommitRuns? && steps[m].t == a.caller
  {
    m := Appears(run, i, a);
    CommitsInAStep(app, cfg, steps, run, m + 1, a);
    k := DecidedInTime(app, cfg, steps, run, m, a.caller);
    j := StartedAtItsCheck(app, cfg, steps, run, k, a.caller);
  }

  /** A `receive` that resolves goes on to commit exactly when the clock shows its deadline as not passed; otherwise a timeout is recorded. */
  lemma DecidesIff(app: Application, cfg: Config, sys: System, t: nat, turn: Turn, now: int)
    requires Enabled(app, sys, ReceiveResolves(t, turn, now))
    ensures var c := sys.calls[t];
            Apply(app, cfg, sys, ReceiveResolves(t, turn, now))
            == sys.(calls := sys.calls[t := c.(phase := if now - c.startedAt <= cfg.deadlineMs
            then Deciding(c.phase.input, turn) else Marking)])
  {
  }

  // ----- what a call comes to -----

  /**
   * In every reachable state a commit that runs lands exactly when the lease
   * still holds the turn's own token, and then it says so; otherwise it says
   * that the lease is lost and nothing changes.
   */
  lemma CommitLandsIff(app: Application, cfg: Config, sys: System, t: nat, ttlText: string, capText: string)
    requires Inv(app, cfg, sys) && Enabled(app, sys, CommitRuns(t, ttlText, capText))
    requires |Journal(sys.history)| + |sys.calls[t].phase.turn.events| <= MAX_SAFE_INTEGER
    ensures var c, sys' := sys.calls[t], Apply(app, cfg, sys, CommitRuns(t, ttlText, capText));
            if HoldsString(sys.db, LeaseKey, cfg.token(t))
            then && sys'.history == sys.history + [Committed(t, c.requestId, c.command, c.phase.input, c.phase.turn)]
                 && sys'.calls == sys.calls[t := c.(answer := Some(Answer(1)))]
            else sys' == sys.(calls := sys.calls[t := c.(answer := Some(Answer(0)))])
  {
    var events := sys.calls[t].phase.turn.events;
    var args := Args(app, cfg, sys.calls[t], ttlText, capText);
    CommitIsAllOrNothing(sys.db, cfg.lua, cfg.token(t), args, events);
    CommitAnswersIff(sys.db, cfg.lua, cfg.token(t), args, |events|, events);
    if events != [] { SafeCounterReads(sys.db, |Journal(sys.history)|, |events|); }
  }

  /** A caller whose commit was answered gets the result exactly when the script said that it landed. */
  lemma ReplyFollowsTheScript(app: Application, cfg: Config, sys: System, t: nat)
    requires Enabled(app, sys, CommitAnswered(t))
    ensures var c := sys.calls[t];
            Apply(app, cfg, sys, CommitAnswered(t))
            == sys.(calls := sys.calls[t := c.(outcome := if c.answer.value == Answer(1) then Returned(c.phase.turn.result) else Failed)])
  {
  }

  /**
   * A retry of a committed request that was not forgotten since is answered
   * with what that commit returned, or refused for a different command; a
   * request with no field goes on, its deadline starting then.
   */
  lemma RetriesAreAnswered(app: Application, cfg: Config, sys: System, t: nat, now: int)
    requires Inv(app, cfg, sys) && Lossless(cfg.codec) && Enabled(app, sys, CheckDedup(t, now))
    ensures var c, h, sys' := sys.calls[t], sys.history, Apply(app, cfg, sys, CheckDedup(t, now));
            && sys'.db == sys.db && sys'.history == h && sys'.calls == sys.calls[t := sys'.calls[t]]
            && (forall i | 0 <= i < |h| && h[i].Committed? && h[i].requestId == c.requestId ::
                  (forall k | i < k < |h| :: !h[k].Forgot?) ==>
                    sys'.calls[t] == c.(phase := Ended, outcome := if app.fingerprint(h[i].command) == app.fingerprint(c.command)
                  then Returned(h[i].turn.result) else Failed))
            && (c.requestId !in Fields(sys.db) ==> sys'.calls[t] == c.(phase := Reading, startedAt := now))
  {
    var c, h := sys.calls[t], sys.history;
    forall i | 0 <= i < |h| && h[i].Committed? && h[i].requestId == c.requestId && forall k | i < k < |h| :: !h[k].Forgot?
      ensures c.requestId in Fields(sys.db)
      ensures cfg.codec.decode(Fields(sys.db)[c.requestId]) == (app.fingerprint(h[i].command), h[i].turn.result)
    {
      RemembersItsCommit(app, h, i, |h|);
      assert h[..|h|] == h;
    }
  }

  /** In every reachable state a timeout marker that runs is journaled, whoever holds the lease by then. */
  lemma TimeoutsAreRecorded(app: Application, cfg: Config, sys: System, t: nat, capText: string)
    requires Inv(app, cfg, sys) && Exact(cfg.lua) && Enabled(app, sys, MarkerRuns(t, capText))
    requires |Journal(sys.history)| < MAX_SAFE_INTEGER
    ensures var c, sys' := sys.calls[t], Apply(app, cfg, sys, MarkerRuns(t, capText));
            var n := |Journal(sys.history)|;
            && sys'.history == sys.history + [TimedOut(t, c.requestId, true)]
            && sys'.calls == sys.calls[t := c.(answer := Some(Answer(1)), outcome := Expired)]
            && sys'.db.ttl == sys.db.ttl
            && sys'.db.keys == sys.db.keys[SeqKey := Str(ShowInt(n + 1))][LogKey := Stream(Retain(CapOf(capText),
                               Log(sys.db) + [StreamEntry(ShowInt(n), c.requestId, "", cfg.codec.timeoutEvent)]))]
  {
    MarkerByKey(sys.db, cfg.lua, sys.calls[t].requestId, "", cfg.codec.timeoutEvent, capText);
  }

  /** A deadline that fires is on its way to its marker, and nothing is written yet. */
  lemma TimerExpires(app: Application, cfg: Config, sys: System, t: nat, capText: string)
    requires Inv(app, cfg, sys) && Enabled(app, sys, TimerFires(t))
    ensures var late := Apply(app, cfg, sys, TimerFires(t));
            && late == sys.(calls := sys.calls[t := sys.calls[t].(phase := Marking)])
            && Enabled(app, late, MarkerRuns(t, capText))
  {
    assert CallOk(app, cfg, sys, t);
  }

  /** A turn's renewal gives its lease the whole length again while its token is current, and otherwise does nothing. */
  lemma RenewalIs(app: Application, cfg: Config, sys: System, t: nat)
    requires Enabled(app, sys, RenewRuns(t))
    ensures var sys' := Apply(app, cfg, sys, RenewRuns(t));
            && sys'.calls == sys.calls && sys'.history == sys.history
            && if HoldsString(sys.db, LeaseKey, cfg.token(t))
               then && sys'.db.keys == sys.db.keys && SameButFor(sys.db, sys'.db, LeaseKey)
                    && LeaseKey in sys'.db.ttl && sys'.db.ttl[LeaseKey] == cfg.leaseMs
               else sys'.db == sys.db
  {
    RenewIs(sys.db, cfg.token(t), cfg.leaseMs);
  }

  /** An acquire that runs is granted exactly when the lease is free, for its whole length, even when its reply is lost or late. */
  lemma AcquireRunsIs(app: Application, cfg: Config, sys: System, step: Step)
    requires Enabled(app, sys, step) && (step.AcquireRuns? || step.LateAcquireRuns?)
    ensures var t, sys' := step.t, Apply(app, cfg, sys, step);
            && sys'.history == sys.history
            && (sys'.calls[t].acquired <==> LeaseKey !in sys.db.keys)
            && (LeaseKey in sys.db.keys ==> sys'.db == sys.db)
            && (LeaseKey !in sys.db.keys ==>
                  && HoldsString(sys'.db, LeaseKey, cfg.token(t)) && SameButFor(sys.db, sys'.db, LeaseKey)
                  && LeaseKey in sys'.db.ttl && sys'.db.ttl[LeaseKey] == cfg.leaseMs)
  {
    AcquireIs(sys.db, cfg.token(step.t), cfg.leaseMs);
  }

  /** A turn that fails outside its scripts writes nothing; a timeout of its own making goes to the marker, any other failure to the caller. */
  lemma FailuresWriteNothing(app: Application, cfg: Config, sys: System, step: Step)
    requires Enabled(app, sys, step)
    requires step.WorkFails? || step.AcquireFails? || step.LeaseFlaggedLost? || step.CallerGivesUp?
    ensures var c, sys' := sys.calls[step.t], Apply(app, cfg, sys, step);
            && sys'.db == sys.db && sys'.history == sys.history && sys'.calls == sys.calls[step.t := sys'.calls[step.t]]
            && (step.WorkFails? && step.ownTimeout && Raced(c.phase) ==> sys'.calls[step.t] == c.(phase := Marking))
            && (step.WorkFails? && !(step.ownTimeout && Raced(c.phase)) ==> sys'.calls[step.t].outcome == Failed)
            && (step.AcquireFails? || step.LeaseFlaggedLost? ==> sys'.calls[step.t].outcome == Failed)
            && (step.CallerGivesUp? ==>
                  sys'.calls[step.t] == c.(outcome := if c.phase.Marking? then Expired else Failed))
  {
  }

  // ----- a turn on its own -----

  lemma More(app: Application, cfg: Config, steps: seq<Step>, run: seq<System>, step: Step, next: System)
    returns (steps': seq<Step>, run': seq<System>)
    requires Follows(app, cfg, steps, run)
    requires Enabled(app, run[|steps|], step) && next == Apply(app, cfg, run[|steps|], step)
    ensures Follows(app, cfg, steps', run') && run'[|steps'|] == next && run'[0] == run[0]
  {
    steps', run' := steps + [step], run + [next];
  }

  /** The store with one more call that holds the lease. */
  function With(cfg: Config, sys: System, c: Call): System {
    System(Acquired(sys.db, cfg.token(|sys.calls|), cfg.leaseMs), sys.calls + [c], sys.history)
  }

  lemma LastCall(cfg: Config, sys: System, c: Call, c': Call)
    ensures Put(With(cfg, sys, c), |sys.calls|, c') == With(cfg, sys, c')
  {
  }

  /** A call that finds the lease free, up to its state read. */
  lemma CallAcquires(app: Application, cfg: Config, sys: System, requestId: string, command: Payload, s: int)
    returns (steps: seq<Step>, run: seq<System>)
    requires LeaseKey !in sys.db.keys && requestId !in Fields(sys.db)
    ensures Follows(app, cfg, steps, run) && run[0] == sys
    ensures run[|steps|] == With(cfg, sys, Call(requestId, command, Reading, true, false, None, s, Pending))
  {
    var t := |sys.calls|;
    var waiting := Call(requestId, command, Acquiring, false, false, None, 0, Pending);
    var holding := Call(requestId, command, Holding, true, false, None, 0, Pending);
    var reading := holding.(phase := Reading, startedAt := s);
    steps, run := More(app, cfg, [], [sys], Arrive(requestId, command), sys.(calls := sys.calls + [waiting]));
    assert (sys.calls + [waiting])[t := holding] == sys.calls + [holding];
    steps, run := More(app, cfg, steps, run, AcquireRuns(t, true), With(cfg, sys, holding));
    LastCall(cfg, sys, holding, reading);
    steps, run := More(app, cfg, steps, run, CheckDedup(t, s), With(cfg, sys, reading));
  }

  /** From the state read to the commit script being sent. */
  lemma CallComputes(app: Application, cfg: Config, sys: System, steps: seq<Step>, run: seq<System>, c: Call,
                     input: Payload, turn: Turn, n: int) returns (steps': seq<Step>, run': seq<System>)
    requires Follows(app, cfg, steps, run) && run[|steps|] == With(cfg, sys, c) && c.phase.Reading?
    requires if StateKey in sys.db.keys then sys.db.keys[StateKey] == Str(input) else app.initial(input)
    requires app.receive(c.command, input, turn) && n - c.startedAt <= cfg.deadlineMs
    ensures Follows(app, cfg, steps', run') && run'[0] == run[0]
    ensures run'[|steps'|] == With(cfg, sys, c.(phase := Committing(input, turn)))
  {
    var t := |sys.calls|;
    var computing := c.(phase := Computing(input));
    if StateKey in sys.db.keys {
      LastCall(cfg, sys, c, computing);
      steps', run' := More(app, cfg, steps, run, ReadState(t), With(cfg, sys, computing));
    } else {
      LastCall(cfg, sys, c, c.(phase := Initializing));
      steps', run' := More(app, cfg, steps, run, ReadState(t), With(cfg, sys, c.(phase := Initializing)));
      LastCall(cfg, sys, c.(phase := Initializing), computing);
      steps', run' := More(app, cfg, steps', run', InitialStateResolves(t, input), With(cfg, sys, computing));
    }
    LastCall(cfg, sys, computing, c.(phase := Deciding(input, turn)));
    steps', run' := More(app, cfg, steps', run', ReceiveResolves(t, turn, n), With(cfg, sys, c.(phase := Deciding(input, turn))));
    LastCall(cfg, sys, c.(phase := Deciding(input, turn)), c.(phase := Committing(input, turn)));
    steps', run' := More(app, cfg, steps', run', SendCommit(t), With(cfg, sys, c.(phase := Committing(input, turn))));
  }

  /** The commit script passes its checks on a store that is what a history says. */
  lemma CommitIsReady(app: Application, cfg: Config, sys: System, events: seq<Payload>)
    requires Inv(app, cfg, sys) && LeaseKey !in sys.db.keys && |Journal(sys.history)| + |events| <= MAX_SAFE_INTEGER
    ensures Ready(Acquired(sys.db, cfg.token(|sys.calls|), cfg.leaseMs), cfg.token(|sys.calls|), |events|)
  {
    var db := Acquired(sys.db, cfg.token(|sys.calls|), cfg.leaseMs);
    AcquireIs(sys.db, cfg.token(|sys.calls|), cfg.leaseMs);
    assert Counter(db) == Counter(sys.db);
    if events != [] { SafeCounterReads(db, |Journal(sys.history)|, |events|); }
  }

  /** The commit lands, is answered, and the lease is released. */
  lemma CallCommits(app: Application, cfg: Config, sys: System, steps: seq<Step>, run: seq<System>, c: Call,
                    ttlText: string, capText: string) returns (steps': seq<Step>, run': seq<System>)
    requires Follows(app, cfg, steps, run) && run[|steps|] == With(cfg, sys, c)
    requires c.phase.Committing? && c.answer.None? && c.outcome.Pending?
    requires Ready(run[|steps|].db, cfg.token(|sys.calls|), |c.phase.turn.events|)
    ensures Follows(app, cfg, steps', run') && run'[0] == run[0]
    ensures var end := run'[|steps'|];
            && end.history == sys.history + [Committed(|sys.calls|, c.requestId, c.command, c.phase.input, c.phase.turn)]
            && end.calls == sys.calls + [c.(answer := Some(Answer(1)), outcome := Returned(c.phase.turn.result))]
            && LeaseKey !in end.db.keys
  {
    var t, events, here := |sys.calls|, c.phase.turn.events, run[|steps|];
    CommitIsAllOrNothing(here.db, cfg.lua, cfg.token(t), Args(app, cfg, c, ttlText, capText), events);
    CommitKeepsLease(here.db, cfg.lua, cfg.token(t), Args(app, cfg, c, ttlText, capText), events, cfg.token(t));
    var landed := RunCommit(app, cfg, here, t, ttlText, capText);
    var answered := c.(answer := Some(Answer(1)));
    assert here.calls[t := answered] == sys.calls + [answered];
    steps', run' := More(app, cfg, steps, run, CommitRuns(t, ttlText, capText), landed);
    var returned := answered.(outcome := Returned(c.phase.turn.result));
    assert landed.calls[t := returned] == sys.calls + [returned];
    steps', run' := More(app, cfg, steps', run', CommitAnswered(t), landed.(calls := sys.calls + [returned]));
    var end := landed.(calls := sys.calls + [returned], db := Released(landed.db, cfg.token(t)));
    ReleaseIs(landed.db, cfg.token(t), "", 0);
    steps', run' := More(app, cfg, steps', run', ReleaseRuns(t), end);
  }

  /**
   * A new request that finds the lease free and whose `receive` resolves in
   * time commits exactly once, applied to the stored state; its caller gets the
   * result and the lease is free again.
   */
  lemma TurnCompletes(app: Application, cfg: Config, sys: System, requestId: string, command: Payload, input: Payload,
                      turn: Turn, s: int, n: int, ttlText: string, capText: string)
    returns (steps: seq<Step>, run: seq<System>)
    requires Inv(app, cfg, sys) && LeaseKey !in sys.db.keys && requestId !in Fields(sys.db)
    requires if StateKey in sys.db.keys then sys.db.keys[StateKey] == Str(input) else app.initial(input)
    requires app.receive(command, input, turn) && n - s <= cfg.deadlineMs
    requires |Journal(sys.history)| + |turn.events| <= MAX_SAFE_INTEGER
    ensures Follows(app, cfg, steps, run) && run[0] == sys
    ensures var end := run[|steps|];
            && end.history == sys.history + [Committed(|sys.calls|, requestId, command, input, turn)]
            && |end.calls| == |sys.calls| + 1 && end.calls[..|sys.calls|] == sys.calls
            && end.calls[|sys.calls|].requestId == requestId && end.calls[|sys.calls|].outcome == Returned(turn.result)
            && LeaseKey !in end.db.keys
  {
    var c := Call(requestId, command, Reading, true, false, None, s, Pending);
    CommitIsReady(app, cfg, sys, turn.events);
    steps, run := CallAcquires(app, cfg, sys, requestId, command, s);
    steps, run := CallComputes(app, cfg, sys, steps, run, c, input, turn, n);
    steps, run := CallCommits(app, cfg, sys, steps, run, c.(phase := Committing(input, turn)), ttlText, capText);
  }
}
