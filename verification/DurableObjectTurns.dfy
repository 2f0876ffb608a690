/**
 * What a call to the Durable Object comes to: when it commits, what a retry is
 * told, what a timeout leaves, and that a turn left alone completes.
 */
module DurableObjectTurns {
  import opened Basics
  import opened Options
  import opened SerialSpec
  import opened DurableStorage
  import opened DurableObject
  import opened DurableObjectProof

  // ----- the deadline -----

  predicate Begun(sys: System, t: nat) {
    t < |sys.calls| && !sys.calls[t].phase.Waiting?
  }

  /** A call begins by its `Start` step, which sets its clock, and neither happens again. */
  lemma StartsOnce(app: Application, cfg: Config, sys: System, step: Step, t: nat)
    requires Enabled(app, cfg, sys, step)
    ensures var sys' := Apply(app, cfg, sys, step);
            && (Begun(sys, t) ==> Begun(sys', t) && sys'.calls[t].startedAt == sys.calls[t].startedAt)
            && (step.Start? && step.t == t ==> !Begun(sys, t) && Begun(sys', t))
            && (Begun(sys', t) && !Begun(sys, t) ==> step == Start(t, sys'.calls[t].startedAt))
  {
  }

  /** The same along a run. */
  lemma StartsOnceInRun(app: Application, cfg: Config, steps: seq<Step>, run: seq<System>, i: nat, t: nat)
    requires Execution(app, cfg, steps, run) && 0 < i < |run|
    ensures var step := steps[i - 1];
            && (Begun(run[i - 1], t) ==> Begun(run[i], t) && run[i].calls[t].startedAt == run[i - 1].calls[t].startedAt)
            && (step.Start? && step.t == t ==> !Begun(run[i - 1], t) && Begun(run[i], t))
            && (Begun(run[i], t) && !Begun(run[i - 1], t) ==> step == Start(t, run[i].calls[t].startedAt))
  {
    StartsOnce(app, cfg, run[i - 1], steps[i - 1], t);
  }

  lemma NoneBegun(app: Application, cfg: Config, steps: seq<Step>, run: seq<System>, t: nat)
    requires Execution(app, cfg, steps, run)
    ensures !Begun(run[0], t)
  {
  }

  /** The deadline of a call that started runs from its own `Start` step. */
  lemma {:induction false} StartedAtItsStart(app: Application, cfg: Config, steps: seq<Step>, run: seq<System>, i: nat, t: nat)
    returns (j: nat)
    requires Execution(app, cfg, steps, run) && i < |run| && Begun(run[i], t)
    ensures j < i && steps[j] == Start(t, run[i].calls[t].startedAt)
  {
    NoneBegun(app, cfg, steps, run, t);
    StartsOnceInRun(app, cfg, steps, run, i, t);
    if Begun(run[i - 1], t) {
      j := StartedAtItsStart(app, cfg, steps, run, i - 1, t);
    } else {
      j := i - 1;
    }
  }

  /** After its `Start` step a call keeps that clock. */
  lemma {:induction false} StartedSince(app: Application, cfg: Config, steps: seq<Step>, run: seq<System>, j: nat, i: nat)
    requires Execution(app, cfg, steps, run) && j < i < |run| && steps[j].Start?
    ensures Begun(run[i], steps[j].t) && run[i].calls[steps[j].t].startedAt == steps[j].now
  {
    StartsOnceInRun(app, cfg, steps, run, i, steps[j].t);
    if j < i - 1 { StartedSince(app, cfg, steps, run, j, i - 1); }
  }

  /**
   * A turn that reaches the commit boundary goes on to commit exactly when the
   * clock still shows its deadline as not passed, counted from its start;
   * otherwise it is a timeout and nothing is written.
   */
  lemma EnterCommitIff(app: Application, cfg: Config, steps: seq<Step>, run: seq<System>, i: nat, j: nat)
    requires Execution(app, cfg, steps, run) && i < |steps| && cfg.dedupLimit >= 1
    requires CounterIsSafe(run[i])
    requires steps[i].EnterCommit? && j < i && steps[j].Start? && steps[j].t == steps[i].t
    ensures var t, c := steps[i].t, run[i].calls[steps[i].t];
            && run[i + 1].store == run[i].store && run[i + 1].history == run[i].history
            && (steps[i].now - steps[j].now <= cfg.deadlineMs ==>
                  && run[i + 1].calls == run[i].calls[t := c.(phase := Committing(c.phase.input, c.phase.turn))]
                  && run[i + 1].owner == Work(t))
            && (steps[i].now - steps[j].now > cfg.deadlineMs ==>
                  && run[i + 1].calls == run[i].calls[t := c.(phase := Ended, outcome := Expired)]
                  && run[i + 1].owner == run[i].owner)
  {
    assert Enabled(app, cfg, run[i], steps[i]) && run[i + 1] == Apply(app, cfg, run[i], steps[i]);
    RunsAreSerial(app, cfg, steps, run, i);
    assert CallOk(app, run[i], steps[i].t);
    StartedSince(app, cfg, steps, run, j, i);
  }

  predicate Entered(p: Phase) {
    p.Committing? || p.RecordRead? || p.OrderRead?
  }

  /** A turn inside the commit section entered it within its deadline. */
  lemma {:induction false} EnteredInTime(app: Application, cfg: Config, steps: seq<Step>, run: seq<System>, i: nat, t: nat)
    returns (k: nat)
    requires Execution(app, cfg, steps, run) && i < |run| && t < |run[i].calls| && Entered(run[i].calls[t].phase)
    ensures k < i && steps[k].EnterCommit? && steps[k].t == t && Begun(run[k], t)
    ensures steps[k].now - run[k].calls[t].startedAt <= cfg.deadlineMs
  {
    assert Enabled(app, cfg, run[i - 1], steps[i - 1]) && run[i] == Apply(app, cfg, run[i - 1], steps[i - 1]);
    if t < |run[i - 1].calls| && Entered(run[i - 1].calls[t].phase) {
      k := EnteredInTime(app, cfg, steps, run, i - 1, t);
    } else {
      k := i - 1;
    }
  }

  /** Every commit of a run was written by a turn that started, and then entered the commit section within its deadline. */
  lemma {:induction false} CommitsFollowTheClock(app: Application, cfg: Config, steps: seq<Step>, run: seq<System>, i: nat, a: Action)
    returns (j: nat, k: nat, m: nat)
    requires Execution(app, cfg, steps, run) && i < |run| && a in run[i].history && a.Committed?
    ensures j < k < m < i && steps[j].Start? && steps[j].t == a.caller
    ensures steps[k].EnterCommit? && steps[k].t == a.caller && steps[k].now - steps[j].now <= cfg.deadlineMs
    ensures steps[m].CommitPuts? && steps[m].t == a.caller && steps[m].applied
  {
    assert Enabled(app, cfg, run[i - 1], steps[i - 1]) && run[i] == Apply(app, cfg, run[i - 1], steps[i - 1]);
    if a in run[i - 1].history {
      j, k, m := CommitsFollowTheClock(app, cfg, steps, run, i - 1, a);
    } else {
      m := i - 1;
      k := EnteredInTime(app, cfg, steps, run, m, a.caller);
      j := StartedAtItsStart(app, cfg, steps, run, k, a.caller);
    }
  }

  // ----- what a call comes to -----

  /** A `receive` that resolves while its turn is awaited goes on to the commit boundary exactly when it has at most 100 events. */
  lemma DecidesIff(app: Application, cfg: Config, sys: System, t: nat, turn: Turn)
    requires Enabled(app, cfg, sys, ReceiveResolves(t, turn)) && sys.calls[t].outcome.Pending?
    ensures var c := sys.calls[t];
            Apply(app, cfg, sys, ReceiveResolves(t, turn))
            == sys.(calls := sys.calls[t := if |turn.events| <= 100 then c.(phase := Deciding(c.phase.input, turn))
            else c.(phase := Ended, outcome := Failed)])
  {
  }

  /** A turn that fails before its commit leaves no trace but its caller's error. */
  lemma FailuresLeaveNoTrace(app: Application, cfg: Config, sys: System, t: nat, ownTimeout: bool)
    requires Enabled(app, cfg, sys, WorkFails(t, ownTimeout))
    ensures var c, sys' := sys.calls[t], Apply(app, cfg, sys, WorkFails(t, ownTimeout));
            && sys'.store == sys.store && sys'.history == sys.history
            && sys'.calls == sys.calls[t := c.(phase := Ended, outcome := sys'.calls[t].outcome)]
            && sys'.calls[t].outcome == (if !c.outcome.Pending? then c.outcome
                                         else if ownTimeout && sys'.owner == sys.owner && Outside(c.phase) then Expired else Failed)
  {
  }

  /**
   * A retry of one of the last `dedupLimit` committed requests is answered with
   * what that commit returned, or refused for a different command; a request
   * without an entry goes on to `receive` with the state it loaded.
   */
  lemma RetriesAreAnswered(app: Application, cfg: Config, sys: System, t: nat)
    requires Inv(app, cfg, sys) && Enabled(app, cfg, sys, CheckDedup(t)) && sys.calls[t].outcome.Pending?
    ensures var c, sys' := sys.calls[t], Apply(app, cfg, sys, CheckDedup(t));
            && sys'.store == sys.store && sys'.history == sys.history
            && (forall k: nat | IsRecent(cfg.dedupLimit, sys.history, k) ::
                  && Commits(sys.history)[k].Committed?
                  && (Commits(sys.history)[k].requestId == c.requestId ==>
                        sys'.calls[t].outcome == if app.fingerprint(Commits(sys.history)[k].command) == app.fingerprint(c.command)
                                                 then Returned(Commits(sys.history)[k].turn.result) else Failed))
            && (DedupKey(c.requestId) !in sys.store ==> sys'.calls[t] == c.(phase := Computing(c.phase.state)))
  {
    var c, h := sys.calls[t], sys.history;
    forall k: nat | IsRecent(cfg.dedupLimit, h, k)
      ensures Commits(h)[k].Committed?
      ensures Commits(h)[k].requestId == c.requestId ==>
                GetDedup(sys.store, c.requestId) == Some(DedupValue(app.fingerprint(Commits(h)[k].command), Commits(h)[k].turn.result))
    {
      RecentIsLatest(app, cfg.dedupLimit, h, k);
      RecentIsRemembered(app, cfg.dedupLimit, h, k);
    }
  }

  lemma More(app: Application, cfg: Config, steps: seq<Step>, run: seq<System>, step: Step, next: System)
    returns (steps': seq<Step>, run': seq<System>)
    requires Follows(app, cfg, steps, run)
    requires Enabled(app, cfg, run[|steps|], step) && next == Apply(app, cfg, run[|steps|], step)
    ensures Follows(app, cfg, steps', run') && run'[|steps'|] == next && run'[0] == run[0]
  {
    steps', run' := steps + [step], run + [next];
  }

  /** A deadline that fires is answered as a timeout, whose marker can be written as soon as the storage section is free. */
  lemma TimerExpires(app: Application, cfg: Config, sys: System, t: nat)
    requires Enabled(app, cfg, sys, TimerFires(t))
    ensures var late := Apply(app, cfg, sys, TimerFires(t));
            && late.store == sys.store && late.history == sys.history && late.calls[t].outcome == Expired
            && late.calls == sys.calls[t := late.calls[t]] && late.calls[t].phase == sys.calls[t].phase
            && (sys.calls[t].frame.Racing? && sys.owner == Nobody ==> Enabled(app, cfg, late, EnterMarker(t)))
  {
  }

  /** A turn whose deadline fired is recorded and leaves the seat; the marker is one journal entry of its own. */
  lemma TimeoutsAreRecorded(app: Application, cfg: Config, sys: System, t: nat)
    returns (steps: seq<Step>, run: seq<System>)
    requires Enabled(app, cfg, sys, EnterMarker(t))
    ensures Follows(app, cfg, steps, run) && run[0] == sys
    ensures var end, c, record := run[|steps|], sys.calls[t], GetRecord(sys.store);
            && end.calls == sys.calls[t := c.(frame := Left)] && end.owner == Nobody
            && end.history == sys.history + [TimedOut(t, c.requestId, record.Some?)]
            && (record.None? ==> end.store == sys.store)
            && (record.Some? && record.value.seqNo <= MAX_SAFE_INTEGER ==>
                  var n := record.value.seqNo;
                  end.store == sys.store[RecordKey := RecordValue(Record(record.value.state, n + 1))][
                  EventKey(n) := EventValue(JournalEntry(n, c.requestId, "", TurnTimeout))])
  {
    var c := sys.calls[t];
    var read := sys.(calls := sys.calls[t := c.(frame := MarkRead)], owner := MarkerOf(t));
    steps, run := More(app, cfg, [], [sys], EnterMarker(t), read);
    var next := Apply(app, cfg, read, MarkerReads(t, false));
    steps, run := More(app, cfg, steps, run, MarkerReads(t, false), next);
    if GetRecord(sys.store).Some? {
      next := Apply(app, cfg, next, MarkerPuts(t, true));
      steps, run := More(app, cfg, steps, run, MarkerPuts(t, true), next);
    }
    assert next.calls == sys.calls[t := c.(frame := Marked)];
    steps, run := More(app, cfg, steps, run, Leave(t), next.(calls := sys.calls[t := c.(frame := Left)]));
  }

  // ----- a turn on its own -----

  function Loading(sys: System, requestId: string, command: Payload, phase: Phase, s: int): System {
    sys.(calls := sys.calls + [Call(requestId, command, phase, Racing, false, s, Pending)])
  }

  /** The first turn of an identity stores its initial state. */
  lemma CallInstalls(app: Application, cfg: Config, sys: System, steps: seq<Step>, run: seq<System>,
                     requestId: string, command: Payload, init: Payload, s: int) returns (steps': seq<Step>, run': seq<System>)
    requires Follows(app, cfg, steps, run) && run[|steps|] == Loading(sys, requestId, command, Initializing, s)
    requires GetRecord(sys.store).None? && sys.owner == Nobody && app.initial(init)
    ensures Follows(app, cfg, steps', run') && run'[0] == run[0]
    ensures run'[|steps'|] == Loading(sys, requestId, command, Loaded(init), s).(
                              store := sys.store[RecordKey := RecordValue(Record(init, 0))])
  {
    var t := |sys.calls|;
    var here := Loading(sys, requestId, command, Installing(init), s);
    steps', run' := More(app, cfg, steps, run, InitialStateResolves(t, init), here);
    here := Loading(sys, requestId, command, InstallRead(init), s).(owner := Work(t));
    steps', run' := More(app, cfg, steps', run', EnterInstall(t), here);
    here := Loading(sys, requestId, command, InstallWrite(init), s).(owner := Work(t));
    steps', run' := More(app, cfg, steps', run', InstallReads(t), here);
    here := Loading(sys, requestId, command, Loaded(init), s).(store := sys.store[RecordKey := RecordValue(Record(init, 0))]);
    steps', run' := More(app, cfg, steps', run', InstallPuts(t, true, true), here);
  }

  /** A call that arrives while the seat is free, up to its dedup check. */
  lemma CallLoads(app: Application, cfg: Config, sys: System, requestId: string, command: Payload, init: Payload, s: int)
    returns (steps: seq<Step>, run: seq<System>)
    requires sys.owner == Nobody && forall j | 0 <= j < |sys.calls| :: sys.calls[j].frame.Left?
    requires GetRecord(sys.store).None? ==> app.initial(init)
    ensures Follows(app, cfg, steps, run) && run[0] == sys
    ensures var record := GetRecord(sys.store);
            run[|steps|] == if record.Some? then Loading(sys, requestId, command, Loaded(record.value.state), s)
                            else Loading(sys, requestId, command, Loaded(init), s).(
                                 store := sys.store[RecordKey := RecordValue(Record(init, 0))])
  {
    var t := |sys.calls|;
    steps, run := More(app, cfg, [], [sys], Arrive(requestId, command), Loading(sys, requestId, command, Waiting, 0));
    steps, run := More(app, cfg, steps, run, Start(t, s), Loading(sys, requestId, command, Phase.Loading, s));
    var record := GetRecord(sys.store);
    if record.Some? {
      steps, run := More(app, cfg, steps, run, ReadRecord(t), Loading(sys, requestId, command, Loaded(record.value.state), s));
    } else {
      steps, run := More(app, cfg, steps, run, ReadRecord(t), Loading(sys, requestId, command, Initializing, s));
      steps, run := CallInstalls(app, cfg, sys, steps, run, requestId, command, init, s);
    }
  }

  lemma LastCall(sys: System, requestId: string, command: Payload, p: Phase, q: Phase, s: int)
    ensures Put(Loading(sys, requestId, command, p, s), |sys.calls|, Call(requestId, command, q, Racing, false, s, Pending))
            == Loading(sys, requestId, command, q, s)
  {
  }

  /** From the dedup check to the commit boundary. */
  lemma CallDecides(app: Application, cfg: Config, sys: System, steps: seq<Step>, run: seq<System>,
                    requestId: string, command: Payload, input: Payload, turn: Turn, s: int)
    returns (steps': seq<Step>, run': seq<System>)
    requires Follows(app, cfg, steps, run) && run[|steps|] == Loading(sys, requestId, command, Loaded(input), s)
    requires DedupKey(requestId) !in sys.store && app.receive(command, input, turn) && |turn.events| <= 100
    ensures Follows(app, cfg, steps', run') && run'[0] == run[0]
    ensures run'[|steps'|] == Loading(sys, requestId, command, Deciding(input, turn), s)
  {
    var t := |sys.calls|;
    LastCall(sys, requestId, command, Loaded(input), Computing(input), s);
    steps', run' := More(app, cfg, steps, run, CheckDedup(t), Loading(sys, requestId, command, Computing(input), s));
    LastCall(sys, requestId, command, Computing(input), Deciding(input, turn), s);
    steps', run' := More(app, cfg, steps', run', ReceiveResolves(t, turn),
                         Loading(sys, requestId, command, Deciding(input, turn), s));
  }

  /** Into the commit section, and its two reads. */
  lemma CallReads(app: Application, cfg: Config, sys: System, steps: seq<Step>, run: seq<System>,
                  requestId: string, command: Payload, r: Record, turn: Turn, s: int, n: int)
    returns (steps': seq<Step>, run': seq<System>)
    requires Follows(app, cfg, steps, run) && run[|steps|] == Loading(sys, requestId, command, Deciding(r.state, turn), s)
    requires sys.owner == Nobody && GetRecord(sys.store) == Some(r) && n - s <= cfg.deadlineMs
    ensures Follows(app, cfg, steps', run') && run'[0] == run[0]
    ensures run'[|steps'|]
            == Loading(sys, requestId, command, OrderRead(r.state, turn, r, GetOrder(sys.store)), s).(owner := Work(|sys.calls|))
  {
    var t, order, input := |sys.calls|, GetOrder(sys.store), r.state;
    var inside := sys.(owner := Work(t));
    LastCall(sys, requestId, command, Deciding(input, turn), Committing(input, turn), s);
    steps', run' := More(app, cfg, steps, run, EnterCommit(t, n),
                         Loading(inside, requestId, command, Committing(input, turn), s));
    LastCall(inside, requestId, command, Committing(input, turn), RecordRead(input, turn, r), s);
    steps', run' := More(app, cfg, steps', run', CommitReadsRecord(t),
                         Loading(inside, requestId, command, RecordRead(input, turn, r), s));
    LastCall(inside, requestId, command, RecordRead(input, turn, r), OrderRead(input, turn, r, order), s);
    steps', run' := More(app, cfg, steps', run', CommitReadsOrder(t),
                         Loading(inside, requestId, command, OrderRead(input, turn, r, order), s));
  }

  /** The object right after a turn's `put`, its eviction still to come. */
  function Written(app: Application, cfg: Config, sys: System, requestId: string, command: Payload, r: Record, turn: Turn,
                   s: int): System {
    var order := GetOrder(sys.store);
    Loading(sys, requestId, command, Evicting(turn.result, Overflow(cfg, order + [requestId])), s).(
    owner := Work(|sys.calls|),
    store := sys.store + CommitBatch(cfg, r, order, requestId, app.fingerprint(command), turn),
    history := sys.history + [Committed(|sys.calls|, requestId, command, r.state, turn)])
  }

  /** The one `put`. */
  lemma CallPuts(app: Application, cfg: Config, sys: System, steps: seq<Step>, run: seq<System>,
                 requestId: string, command: Payload, r: Record, turn: Turn, s: int)
    returns (steps': seq<Step>, run': seq<System>)
    requires Follows(app, cfg, steps, run)
    requires run[|steps|]
             == Loading(sys, requestId, command, OrderRead(r.state, turn, r, GetOrder(sys.store)), s).(owner := Work(|sys.calls|))
    ensures Follows(app, cfg, steps', run') && run'[0] == run[0]
    ensures run'[|steps'|] == Written(app, cfg, sys, requestId, command, r, turn, s)
  {
    var t, order := |sys.calls|, GetOrder(sys.store);
    var evicting := Evicting(turn.result, Overflow(cfg, order + [requestId]));
    LastCall(sys, requestId, command, OrderRead(r.state, turn, r, order), evicting, s);
    steps', run' := More(app, cfg, steps, run, CommitPuts(t, true, true), Written(app, cfg, sys, requestId, command, r, turn, s));
  }

  /** The eviction, and off the seat. */
  lemma CallLeaves(app: Application, cfg: Config, sys: System, steps: seq<Step>, run: seq<System>,
                   requestId: string, command: Payload, r: Record, turn: Turn, s: int)
    returns (steps': seq<Step>, run': seq<System>)
    requires Follows(app, cfg, steps, run) && run[|steps|] == Written(app, cfg, sys, requestId, command, r, turn, s)
    ensures Follows(app, cfg, steps', run') && run'[0] == run[0]
    ensures var end, evicted := run'[|steps'|], Overflow(cfg, GetOrder(sys.store) + [requestId]);
            && end.history == run[|steps|].history && end.owner == Nobody
            && end.calls == sys.calls + [Call(requestId, command, Ended, Left, false, s, Returned(turn.result))]
            && end.store == run[|steps|].store - (set x | x in evicted :: DedupKey(x))
  {
    var t, evicted := |sys.calls|, Overflow(cfg, GetOrder(sys.store) + [requestId]);
    var written, removed := run[|steps|], set x | x in evicted;
    var ended := Call(requestId, command, Ended, Racing, false, s, Returned(turn.result));
    assert (set id | id in removed :: DedupKey(id)) == (set x | x in evicted :: DedupKey(x));
    assert written.calls[t := ended] == sys.calls + [ended];
    var done := written.(calls := sys.calls + [ended], owner := Nobody,
    store := written.store - (set x | x in evicted :: DedupKey(x)));
    steps', run' := More(app, cfg, steps, run, Evict(t, removed), done);
    var left := ended.(frame := Left);
    assert done.calls[t := left] == sys.calls + [left];
    steps', run' := More(app, cfg, steps', run', Leave(t), done.(calls := sys.calls + [left]));
  }

  /** An entry that stays after the eviction is listed, or was a leftover before the turn. */
  lemma EvictionLeaves(cfg: Config, kv: Store, r: Record, requestId: string, fingerprint: string, turn: Turn, id: string)
    requires cfg.dedupLimit >= 1
    ensures var evicted := Overflow(cfg, GetOrder(kv) + [requestId]);
            var kv' := kv + CommitBatch(cfg, r, GetOrder(kv), requestId, fingerprint, turn)
            - (set x | x in evicted :: DedupKey(x));
            && GetOrder(kv') == Window(cfg.dedupLimit, GetOrder(kv) + [requestId])
            && (DedupKey(id) in kv' ==> id in GetOrder(kv') || (DedupKey(id) in kv && id !in GetOrder(kv)))
  {
    BatchLookups(cfg, kv, r, GetOrder(kv), requestId, fingerprint, turn);
    var all := GetOrder(kv) + [requestId];
    var ids := Window(cfg.dedupLimit, all);
    assert all == Overflow(cfg, all) + ids;
    if id == requestId {
      assert ids[|ids| - 1] == requestId;
    } else if id in GetOrder(kv) {
      assert id in all;
    }
  }

  /**
   * A new request that arrives while the seat is free, whose `receive` resolves
   * and whose storage calls succeed in time, commits exactly once, applied to
   * the stored state, and its caller gets the result. The eviction leaves no
   * entry that the index does not list, but leftovers of earlier failed ones.
   */
  lemma TurnCompletes(app: Application, cfg: Config, sys: System, requestId: string, command: Payload, init: Payload,
                      turn: Turn, s: int, n: int) returns (steps: seq<Step>, run: seq<System>)
    requires cfg.dedupLimit >= 1 && DedupKey(requestId) !in sys.store
    requires sys.owner == Nobody && forall j | 0 <= j < |sys.calls| :: sys.calls[j].frame.Left?
    requires GetRecord(sys.store).None? ==> app.initial(init)
    requires app.receive(command, if GetRecord(sys.store).Some? then GetRecord(sys.store).value.state else init, turn)
    requires n - s <= cfg.deadlineMs && |turn.events| <= 100
    ensures Follows(app, cfg, steps, run) && run[0] == sys
    ensures var input := if GetRecord(sys.store).Some? then GetRecord(sys.store).value.state else init;
            && run[|steps|].history == sys.history + [Committed(|sys.calls|, requestId, command, input, turn)]
            && run[|steps|].calls == sys.calls + [Call(requestId, command, Ended, Left, false, s, Returned(turn.result))]
            && run[|steps|].owner == Nobody
    ensures forall id | DedupKey(id) in run[|steps|].store ::
              id in GetOrder(run[|steps|].store) || (DedupKey(id) in sys.store && id !in GetOrder(sys.store))
  {
    var t := |sys.calls|;
    var r := if GetRecord(sys.store).Some? then GetRecord(sys.store).value else Record(init, 0);
    var start := if GetRecord(sys.store).Some? then sys else sys.(store := sys.store[RecordKey := RecordValue(r)]);
    steps, run := CallLoads(app, cfg, sys, requestId, command, init, s);
    steps, run := CallDecides(app, cfg, start, steps, run, requestId, command, r.state, turn, s);
    steps, run := CallReads(app, cfg, start, steps, run, requestId, command, r, turn, s, n);
    steps, run := CallPuts(app, cfg, start, steps, run, requestId, command, r, turn, s);
    steps, run := CallLeaves(app, cfg, start, steps, run, requestId, command, r, turn, s);
    forall id | DedupKey(id) in run[|steps|].store
      ensures id in GetOrder(run[|steps|].store) || (DedupKey(id) in sys.store && id !in GetOrder(sys.store))
    {
      EvictionLeaves(cfg, start.store, r, requestId, app.fingerprint(command), turn, id);
    }
  }
}
