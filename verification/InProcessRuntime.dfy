/**
 * The two in-process runtimes, `InMemoryActorRuntime` and
 * `EventSourcedActorRuntime`, for one identity.
 *
 * A call is a queued turn. Once its predecessors released the seat its action
 * runs: load, dedup check, `receive`, commit. A deadline races the action; when
 * it fires the seat is freed and the abandoned action keeps running. Every
 * synchronous span between two awaits is one step, so the steps below may
 * interleave in any order.
 */
module InProcessRuntime {
  import opened Options
  import opened SerialSpec

  /** `cloneable` says which payloads `structuredClone` accepts. */
  datatype Config = Config(dedupLimit: nat, deadlineMs: int, journaling: bool, cloneable: Payload -> bool)

  /** One identity's record. `results` is a JavaScript `Map` in insertion order. */
  datatype Stored = Stored(state: Payload, seqNo: nat, events: seq<JournalEntry>, results: seq<Remembered>)

  datatype Phase = Waiting | Initializing | Loaded | Computing(input: Payload) | Ended

  /** What the caller of `invoke` sees. */
  datatype Outcome = Pending | Returned(result: Payload) | Expired | Failed

  datatype Call = Call(requestId: string, command: Payload, phase: Phase, expired: bool, startedAt: int,
                       outcome: Outcome, released: bool)

  datatype System = System(stored: Option<Stored>, calls: seq<Call>, history: seq<Action>)

  /**
   * `ReceiveRejects(t, true)` is a handler that rejects with a timeout naming
   * this very turn, `InitialStateRejects(t, true)` an `initialState` that does;
   * `now` is whatever the clock shows.
   */
  datatype Step =
    | Arrive(requestId: string, command: Payload)
    | Start(t: nat, now: int)
    | InitialStateResolves(t: nat, state: Payload)
    | InitialStateRejects(t: nat, ownTimeout: bool)
    | Check(t: nat)
    | ReceiveResolves(t: nat, turn: Turn, now: int)
    | ReceiveRejects(t: nat, ownTimeout: bool)
    | TimerFires(t: nat)
    | Release(t: nat)

  const EMPTY := System(None, [], [])

  // ----- the committed record -----

  function Lookup(results: seq<Remembered>, requestId: string): Option<Remembered> {
    if results == [] then None
    else if results[0].requestId == requestId then Some(results[0])
    else Lookup(results[1..], requestId)
  }

  /** `Map.set`: in place for a known key, at the end for a new one. */
  function MapSet(results: seq<Remembered>, r: Remembered): seq<Remembered> {
    if results == [] then [r]
    else if results[0].requestId == r.requestId then [r] + results[1..]
    else [results[0]] + MapSet(results[1..], r)
  }

  /** The record after one whole commit. */
  function CommitTo(cfg: Config, s: Stored, r: Remembered, turn: Turn): Stored {
    var s' := s.(state := turn.after, results := Window(cfg.dedupLimit, MapSet(s.results, r)));
    if cfg.journaling then
      s'.(events := s.events + Stamp(s.seqNo, r.requestId, turn.seatKeyId, turn.events), seqNo := s.seqNo + |turn.events|)
    else s'
  }

  /** How many of a turn's events come before the first one `structuredClone` refuses. */
  function Cloned(cfg: Config, events: seq<Payload>): (n: nat)
    ensures n <= |events| && (forall i | 0 <= i < n :: cfg.cloneable(events[i])) && (n < |events| ==> !cfg.cloneable(events[n]))
  {
    if events == [] then 0
    else
      var n := Cloned(cfg, events[..|events| - 1]);
      if n < |events| - 1 || !cfg.cloneable(events[|events| - 1]) then n else |events|
  }

  /** Every event a journaling runtime would store can be cloned. */
  predicate EventsClone(cfg: Config, turn: Turn) {
    cfg.journaling ==> Cloned(cfg, turn.events) == |turn.events|
  }

  /** The record when the clone of an event fails: state, dedup and the events before it are in, its position is used up. */
  function CutShort(cfg: Config, s: Stored, r: Remembered, turn: Turn): Stored {
    var n := Cloned(cfg, turn.events);
    Stored(turn.after, s.seqNo + n + 1, s.events + Stamp(s.seqNo, r.requestId, turn.seatKeyId, turn.events)[..n],
           Window(cfg.dedupLimit, MapSet(s.results, r)))
  }

  /** What the commit's writes leave, and whether they all went through: each value is cloned just before it is stored. */
  function Write(cfg: Config, s: Stored, r: Remembered, turn: Turn): (Stored, bool) {
    if !cfg.cloneable(turn.after) then (s, false)
    else if !cfg.cloneable(turn.result) then (s.(state := turn.after), false)
    else if !EventsClone(cfg, turn) then (CutShort(cfg, s, r, turn), false)
    else (CommitTo(cfg, s, r, turn), true)
  }

  function MarkTimeout(cfg: Config, s: Stored, requestId: string): Stored {
    if cfg.journaling then s.(events := s.events + [Marker(s.seqNo, requestId)], seqNo := s.seqNo + 1) else s
  }

  // ----- steps -----

  ghost predicate Enabled(app: Application, sys: System, step: Step) {
    match step
    case Arrive(_, _) => true
    case Start(t, _) => t < |sys.calls| && sys.calls[t].phase.Waiting? && forall j | 0 <= j < t :: sys.calls[j].released
    case InitialStateResolves(t, state) => t < |sys.calls| && sys.calls[t].phase.Initializing? && app.initial(state)
    case InitialStateRejects(t, _) => t < |sys.calls| && sys.calls[t].phase.Initializing?
    case Check(t) => t < |sys.calls| && sys.calls[t].phase.Loaded? && sys.stored.Some?
    case ReceiveResolves(t, turn, _) =>
      && t < |sys.calls| && sys.calls[t].phase.Computing? && sys.stored.Some?
      && app.receive(sys.calls[t].command, sys.calls[t].phase.input, turn)
    case ReceiveRejects(t, _) => t < |sys.calls| && sys.calls[t].phase.Computing?
    case TimerFires(t) => t < |sys.calls| && !sys.calls[t].phase.Waiting? && sys.calls[t].outcome.Pending?
    case Release(t) => t < |sys.calls| && !sys.calls[t].outcome.Pending? && !sys.calls[t].released
  }

  /** The action is over; the race takes its outcome unless the deadline already settled it. */
  function Settle(c: Call, outcome: Outcome): Call {
    c.(phase := Ended, outcome := if c.outcome.Pending? then outcome else c.outcome)
  }

  function Put(sys: System, t: nat, c: Call): System
    requires t < |sys.calls|
  {
    sys.(calls := sys.calls[t := c])
  }

  function Apply(app: Application, cfg: Config, sys: System, step: Step): System
    requires Enabled(app, sys, step)
  {
    match step
    case Arrive(requestId, command) =>
      sys.(calls := sys.calls + [Call(requestId, command, Waiting, false, 0, Pending, false)])
    case Start(t, now) =>
      Put(sys, t, sys.calls[t].(phase := if sys.stored.Some? then Loaded else Initializing, startedAt := now))
    case InitialStateResolves(t, state) =>
      var sys' := Put(sys, t, sys.calls[t].(phase := Loaded));
      if sys.stored.Some? then sys' else sys'.(stored := Some(Stored(state, 0, [], [])))
    case InitialStateRejects(t, ownTimeout) => Put(sys, t, Settle(sys.calls[t], if ownTimeout then Expired else Failed))
    case Check(t) => Put(sys, t, CheckCall(app, sys.stored.value, sys.calls[t]))
    case ReceiveResolves(t, turn, now) => Finish(app, cfg, sys, t, turn, now)
    case ReceiveRejects(t, ownTimeout) => Put(sys, t, Settle(sys.calls[t], if ownTimeout then Expired else Failed))
    case TimerFires(t) => Put(sys, t, sys.calls[t].(expired := true, outcome := Expired))
    case Release(t) => ReleaseCall(cfg, sys, t)
  }

  function CheckCall(app: Application, s: Stored, c: Call): Call {
    match Lookup(s.results, c.requestId)
    case Some(r) => Settle(c, if r.fingerprint == app.fingerprint(c.command) then Returned(r.result) else Failed)
    case None => c.(phase := Computing(s.state))
  }

  /** From the end of `receive` to the end of the action: guard, clock, then the writes in the code's order. */
  function Finish(app: Application, cfg: Config, sys: System, t: nat, turn: Turn, now: int): System
    requires t < |sys.calls| && sys.calls[t].phase.Computing? && sys.stored.Some?
  {
    var c := sys.calls[t];
    if Refused(cfg, sys, t, now) then Put(sys, t, Settle(c, Expired))
    else
      var (stored, whole) := Write(cfg, sys.stored.value, Remembered(c.requestId, app.fingerprint(c.command), turn.result), turn);
      Put(sys, t, Settle(c, if whole then Returned(turn.result) else Failed)).(
      stored := Some(stored),
      history := if whole then sys.history + [Committed(t, c.requestId, c.command, c.phase.input, turn)] else sys.history)
  }

  /** The `catch` and `finally` of `serialize`: record an own timeout, then free the seat. */
  function ReleaseCall(cfg: Config, sys: System, t: nat): System
    requires t < |sys.calls|
  {
    var c := sys.calls[t];
    var sys' := Put(sys, t, c.(released := true));
    if !c.outcome.Expired? then sys'
    else
      var marked := cfg.journaling && sys.stored.Some?;
      sys'.(stored := if marked then Some(MarkTimeout(cfg, sys.stored.value, c.requestId)) else sys.stored,
      history := sys.history + [TimedOut(t, c.requestId, marked)])
  }

  // ----- runs -----

  /** Every step was possible when its turn came, and led to the next state. */
  ghost predicate Follows(app: Application, cfg: Config, steps: seq<Step>, run: seq<System>) {
    && |run| == |steps| + 1
    && forall i | 0 <= i < |steps| :: Enabled(app, run[i], steps[i]) && run[i + 1] == Apply(app, cfg, run[i], steps[i])
  }

  ghost predicate Execution(app: Application, cfg: Config, steps: seq<Step>, run: seq<System>) {
    Follows(app, cfg, steps, run) && run[0] == EMPTY
  }

  /** The deadline check at the end of `receive` turns the result away. */
  predicate Refused(cfg: Config, sys: System, t: nat, now: int)
    requires t < |sys.calls|
  {
    sys.calls[t].expired || now - sys.calls[t].startedAt > cfg.deadlineMs
  }

  /**
   * A finished turn that is let through, whose new state can be cloned and
   * something after it cannot: the result, when the state is a new one, or an
   * event.
   */
  predicate Halfway(cfg: Config, sys: System, step: Step) {
    && step.ReceiveResolves? && step.t < |sys.calls| && sys.stored.Some?
    && !Refused(cfg, sys, step.t, step.now) && cfg.cloneable(step.turn.after)
    && (if cfg.cloneable(step.turn.result) then !EventsClone(cfg, step.turn) else step.turn.after != sys.stored.value.state)
  }

  // ----- the invariant -----

  /** The stored record is what the history says it is. */
  ghost predicate Faithful(app: Application, cfg: Config, sys: System) {
    match sys.stored
    case None => Records(app, sys.history) == [] && StateAfter(sys.history).None? && Journal(sys.history) == []
    case Some(s) =>
      && (StateAfter(sys.history).Some? ==> s.state == StateAfter(sys.history).value)
      && (StateAfter(sys.history).None? ==> app.initial(s.state))
      && s.results == Window(cfg.dedupLimit, Records(app, sys.history))
      && (cfg.journaling ==> s.events == Journal(sys.history) && s.seqNo == |s.events|)
  }

  /** Some commit of this request answered `result` for the same command fingerprint. */
  ghost predicate Answered(app: Application, h: seq<Action>, c: Call, result: Payload) {
    Remembered(c.requestId, app.fingerprint(c.command), result) in Records(app, h)
  }

  ghost predicate CallOk(app: Application, sys: System, t: nat)
    requires t < |sys.calls|
  {
    var c := sys.calls[t];
    && (c.phase.Waiting? ==> c.outcome.Pending? && !c.expired)
    && (!c.phase.Waiting? ==> forall j | 0 <= j < t :: sys.calls[j].released)
    && (c.released ==> !c.outcome.Pending?)
    && (c.phase.Ended? ==> !c.outcome.Pending?)
    && (c.expired ==> c.outcome.Expired?)
    && (!c.expired && !c.phase.Ended? ==> c.outcome.Pending?)
    && (c.phase.Loaded? || c.phase.Computing? ==> sys.stored.Some?)
    && (c.phase.Computing? && !c.expired ==>
          c.phase.input == sys.stored.value.state && Absent(c.requestId, sys.stored.value.results))
    && (c.outcome.Returned? ==> Answered(app, sys.history, c, c.outcome.result))
  }

  /** A committed call returned, a timed-out call expired and has left the seat. */
  ghost predicate ActionOk(sys: System, a: Action) {
    match a
    case Committed(caller, requestId, command, _, _) =>
      && caller < |sys.calls| && sys.calls[caller].outcome.Returned?
      && sys.calls[caller].requestId == requestId && sys.calls[caller].command == command
    case TimedOut(caller, requestId, _) =>
      && caller < |sys.calls| && sys.calls[caller].released && sys.calls[caller].outcome.Expired?
      && sys.calls[caller].requestId == requestId
    case Forgot => false
  }

  ghost predicate CallsOk(app: Application, sys: System) {
    && (forall t | 0 <= t < |sys.calls| :: CallOk(app, sys, t))
    && (forall a | a in sys.history :: ActionOk(sys, a))
  }

  ghost predicate Inv(app: Application, cfg: Config, sys: System) {
    && CallsOk(app, sys)
    && Faithful(app, cfg, sys)
    && Serial(app, sys.history)
    && Deduplicated(app, cfg.dedupLimit, sys.history)
  }

  // ----- small facts about the result map -----

  lemma LookupFinds(results: seq<Remembered>, requestId: string)
    ensures Lookup(results, requestId).Some? ==>
              Lookup(results, requestId).value in results && Lookup(results, requestId).value.requestId == requestId
    ensures Lookup(results, requestId).None? ==> Absent(requestId, results)
  {
    if results != [] {
      LookupFinds(results[1..], requestId);
      assert results == [results[0]] + results[1..];
    }
  }

  lemma {:induction false} MapSetNew(results: seq<Remembered>, r: Remembered)
    requires Absent(r.requestId, results)
    ensures MapSet(results, r) == results + [r]
  {
    if results != [] {
      MapSetNew(results[1..], r);
      assert results + [r] == [results[0]] + (results[1..] + [r]);
    }
  }

  lemma WindowInside<T>(limit: nat, records: seq<T>, r: T)
    requires r in Window(limit, records)
    ensures r in records
  {
  }

  // ----- every step keeps the invariant -----

  /** At most one call is past its start and not released: of two, the later needs the earlier released. */
  lemma SeatIsExclusive(app: Application, sys: System, t: nat, u: nat)
    requires CallsOk(app, sys)
    requires t < |sys.calls| && u < |sys.calls|
    requires !sys.calls[t].phase.Waiting? && !sys.calls[t].released
    requires !sys.calls[u].phase.Waiting? && !sys.calls[u].released
    ensures t == u
  {
    assert CallOk(app, sys, t) && CallOk(app, sys, u);
  }

  /** A call that has not left the seat is not in the history. */
  lemma UnreleasedIsNew(app: Application, sys: System, t: nat)
    requires CallsOk(app, sys) && t < |sys.calls|
    requires sys.calls[t].outcome.Pending? || (sys.calls[t].outcome.Expired? && !sys.calls[t].released)
    ensures t !in Settled(sys.history)
  {
    forall a | a in sys.history ensures !a.Forgot? && a.caller != t {
      assert ActionOk(sys, a);
    }
  }

  lemma ArriveCalls(app: Application, cfg: Config, sys: System, step: Step)
    requires CallsOk(app, sys) && step.Arrive?
    ensures CallsOk(app, Apply(app, cfg, sys, step))
  {
    var sys' := Apply(app, cfg, sys, step);
    forall t | 0 <= t < |sys'.calls| ensures CallOk(app, sys', t) {
      if t < |sys.calls| { assert CallOk(app, sys, t); }
    }
    forall a | a in sys.history ensures ActionOk(sys', a) { assert ActionOk(sys, a); }
  }

  /** A step that only moves one call forward, or installs the initial record. */
  lemma QuietCalls(app: Application, cfg: Config, sys: System, step: Step)
    requires CallsOk(app, sys) && Enabled(app, sys, step) && !step.Arrive?
    requires Apply(app, cfg, sys, step).history == sys.history
    requires step.InitialStateResolves? || Apply(app, cfg, sys, step).stored == sys.stored
    requires sys.stored.Some? ==> forall r | r in sys.stored.value.results :: r in Records(app, sys.history)
    ensures CallsOk(app, Apply(app, cfg, sys, step))
  {
    var sys' := Apply(app, cfg, sys, step);
    assert CallOk(app, sys, step.t);
    forall u | 0 <= u < |sys'.calls| ensures CallOk(app, sys', u) {
      assert CallOk(app, sys, u);
      if step.Check? { LookupFinds(sys.stored.value.results, sys.calls[step.t].requestId); }
    }
    forall a | a in sys'.history ensures ActionOk(sys', a) { assert ActionOk(sys, a); }
  }

  lemma CommitCalls(app: Application, cfg: Config, sys: System, step: Step)
    requires CallsOk(app, sys) && Enabled(app, sys, step) && step.ReceiveResolves?
    requires Apply(app, cfg, sys, step).history != sys.history
    ensures CallsOk(app, Apply(app, cfg, sys, step))
  {
    var sys' := Apply(app, cfg, sys, step);
    var t := step.t;
    var c := sys.calls[t];
    var a := Committed(t, c.requestId, c.command, c.phase.input, step.turn);
    assert CallOk(app, sys, t);
    RecordsGrow(app, sys.history, a);
    forall u | 0 <= u < |sys'.calls| ensures CallOk(app, sys', u) {
      assert CallOk(app, sys, u);
      if u != t { assert sys'.calls[u] == sys.calls[u]; }
    }
    forall b | b in sys'.history ensures ActionOk(sys', b) {
      if b in sys.history { assert ActionOk(sys, b); }
    }
  }

  lemma TimeoutCalls(app: Application, cfg: Config, sys: System, step: Step)
    requires CallsOk(app, sys) && Enabled(app, sys, step)
    requires step.Release? && sys.calls[step.t].outcome.Expired?
    ensures CallsOk(app, Apply(app, cfg, sys, step))
  {
    var sys' := Apply(app, cfg, sys, step);
    RecordsGrow(app, sys.history, TimedOut(step.t, sys.calls[step.t].requestId, cfg.journaling && sys.stored.Some?));
    forall u | 0 <= u < |sys'.calls| ensures CallOk(app, sys', u) {
      assert CallOk(app, sys, u);
    }
    forall b | b in sys'.history ensures ActionOk(sys', b) {
      if b in sys.history { assert ActionOk(sys, b); }
    }
  }

  /** One whole commit writes the record that the extended history describes. */
  lemma CommitRecord(app: Application, cfg: Config, stored: Stored, h: seq<Action>, a: Action)
    requires a.Committed? && cfg.dedupLimit >= 1
    requires stored.results == Window(cfg.dedupLimit, Records(app, h)) && Absent(a.requestId, stored.results)
    requires cfg.journaling ==> stored.events == Journal(h) && stored.seqNo == |stored.events|
    ensures var s := CommitTo(cfg, stored, Remember(app, a), a.turn);
            && StateAfter(h + [a]) == Some(s.state)
            && s.results == Window(cfg.dedupLimit, Records(app, h + [a]))
            && (cfg.journaling ==> s.events == Journal(h + [a]) && s.seqNo == |s.events|)
  {
    Extend(app, h, a);
    MapSetNew(stored.results, Remember(app, a));
    WindowGrows(cfg.dedupLimit, Records(app, h), Remember(app, a));
  }

  lemma CommitIsLegal(app: Application, cfg: Config, sys: System, t: nat, turn: Turn)
    requires Inv(app, cfg, sys) && t < |sys.calls| && sys.calls[t].phase.Computing? && !sys.calls[t].expired && sys.stored.Some?
    requires app.receive(sys.calls[t].command, sys.calls[t].phase.input, turn)
    ensures var c := sys.calls[t];
            var h' := sys.history + [Committed(t, c.requestId, c.command, c.phase.input, turn)];
            Serial(app, h') && Deduplicated(app, cfg.dedupLimit, h') && Absent(c.requestId, sys.stored.value.results)
  {
    var c := sys.calls[t];
    var a := Committed(t, c.requestId, c.command, c.phase.input, turn);
    assert CallOk(app, sys, t);
    UnreleasedIsNew(app, sys, t);
    ExtendSerial(app, sys.history, a);
    ExtendDeduplicated(app, cfg.dedupLimit, sys.history, a);
  }

  /** The commit's writes and the new history agree, and the commit was legal. */
  lemma CommitBook(app: Application, cfg: Config, sys: System, step: Step)
    requires Inv(app, cfg, sys) && cfg.dedupLimit >= 1
    requires Enabled(app, sys, step) && step.ReceiveResolves?
    requires Apply(app, cfg, sys, step).history != sys.history
    ensures var sys' := Apply(app, cfg, sys, step);
            Faithful(app, cfg, sys') && Serial(app, sys'.history) && Deduplicated(app, cfg.dedupLimit, sys'.history)
  {
    var c := sys.calls[step.t];
    CommitIsLegal(app, cfg, sys, step.t, step.turn);
    CommitRecord(app, cfg, sys.stored.value, sys.history, Committed(step.t, c.requestId, c.command, c.phase.input, step.turn));
  }

  /** Recording a timeout extends the journal alone. */
  lemma TimeoutRecord(app: Application, cfg: Config, sys: System, a: Action)
    requires Faithful(app, cfg, sys) && a.TimedOut? && (a.journaled <==> cfg.journaling && sys.stored.Some?)
    ensures Faithful(app, cfg, System(if a.journaled then Some(MarkTimeout(cfg, sys.stored.value, a.requestId)) else sys.stored,
                                      sys.calls, sys.history + [a]))
  {
    Extend(app, sys.history, a);
    if !a.journaled { assert Journal(sys.history) + [] == Journal(sys.history); }
  }

  lemma TimeoutBook(app: Application, cfg: Config, sys: System, step: Step)
    requires Inv(app, cfg, sys)
    requires Enabled(app, sys, step) && step.Release? && sys.calls[step.t].outcome.Expired?
    ensures var sys' := Apply(app, cfg, sys, step);
            Faithful(app, cfg, sys') && Serial(app, sys'.history) && Deduplicated(app, cfg.dedupLimit, sys'.history)
  {
    var a := TimedOut(step.t, sys.calls[step.t].requestId, cfg.journaling && sys.stored.Some?);
    TimeoutRecord(app, cfg, sys, a);
    UnreleasedIsNew(app, sys, step.t);
    ExtendSerial(app, sys.history, a);
    ExtendDeduplicated(app, cfg.dedupLimit, sys.history, a);
  }

  lemma StepKeeps(app: Application, cfg: Config, sys: System, step: Step)
    requires Inv(app, cfg, sys) && Enabled(app, sys, step) && cfg.dedupLimit >= 1 && !Halfway(cfg, sys, step)
    ensures Inv(app, cfg, Apply(app, cfg, sys, step))
  {
    var sys' := Apply(app, cfg, sys, step);
    if step.Arrive? {
      ArriveCalls(app, cfg, sys, step);
    } else if step.Release? && sys.calls[step.t].outcome.Expired? {
      TimeoutCalls(app, cfg, sys, step);
      TimeoutBook(app, cfg, sys, step);
    } else if step.ReceiveResolves? && sys'.history != sys.history {
      CommitCalls(app, cfg, sys, step);
      CommitBook(app, cfg, sys, step);
    } else {
      if sys.stored.Some? {
        forall r | r in sys.stored.value.results ensures r in Records(app, sys.history) {
          WindowInside(cfg.dedupLimit, Records(app, sys.history), r);
        }
      }
      QuietCalls(app, cfg, sys, step);
    }
  }

  /** An event that cannot be cloned leaves a position with no entry, whatever was stored. */
  lemma CutShortIsUnfaithful(app: Application, cfg: Config, sys: System, step: Step)
    requires Inv(app, cfg, sys) && Enabled(app, sys, step) && Halfway(cfg, sys, step) && cfg.cloneable(step.turn.result)
    ensures !Faithful(app, cfg, Apply(app, cfg, sys, step))
  {
    var c := sys.calls[step.t];
    var after := CutShort(cfg, sys.stored.value, Remembered(c.requestId, app.fingerprint(c.command), step.turn.result), step.turn);
    assert Apply(app, cfg, sys, step).stored == Some(after);
    assert after.seqNo != |after.events|;
  }

  /** A result that cannot be cloned moves the state alone: harmless only when that could have been the first state. */
  lemma StateAloneIff(app: Application, cfg: Config, sys: System, step: Step)
    requires Inv(app, cfg, sys) && Enabled(app, sys, step) && Halfway(cfg, sys, step) && !cfg.cloneable(step.turn.result)
    ensures Inv(app, cfg, Apply(app, cfg, sys, step)) <==> StateAfter(sys.history).None? && app.initial(step.turn.after)
  {
    var sys' := Apply(app, cfg, sys, step);
    assert CallOk(app, sys, step.t);
    if StateAfter(sys.history).None? {
      forall u | 0 <= u < |sys'.calls| ensures CallOk(app, sys', u) { assert CallOk(app, sys, u); }
      forall a | a in sys'.history ensures ActionOk(sys', a) { assert ActionOk(sys, a); }
    }
  }

  /**
   * A step keeps the invariant exactly when it does not stop halfway; the one
   * exception is a state written alone before any commit that could have been
   * the initial one.
   */
  lemma StepKeepsIff(app: Application, cfg: Config, sys: System, step: Step)
    requires Inv(app, cfg, sys) && Enabled(app, sys, step) && cfg.dedupLimit >= 1
    ensures Inv(app, cfg, Apply(app, cfg, sys, step)) <==>
            || !Halfway(cfg, sys, step)
            || (!cfg.cloneable(step.turn.result) && StateAfter(sys.history).None? && app.initial(step.turn.after))
  {
    if !Halfway(cfg, sys, step) {
      StepKeeps(app, cfg, sys, step);
    } else if cfg.cloneable(step.turn.result) {
      CutShortIsUnfaithful(app, cfg, sys, step);
    } else {
      StateAloneIff(app, cfg, sys, step);
    }
  }

  /**
   * Every reachable state of every run in which no turn stops halfway: the
   * stored record is the one the history describes, and the history obeys the
   * contract.
   */
  lemma {:induction false} RunsAreSerial(app: Application, cfg: Config, steps: seq<Step>, run: seq<System>, i: nat)
    requires Execution(app, cfg, steps, run) && i < |run|
    requires cfg.dedupLimit >= 1 && forall k | 0 <= k < i :: !Halfway(cfg, run[k], steps[k])
    ensures Inv(app, cfg, run[i])
  {
    if i > 0 {
      RunsAreSerial(app, cfg, steps, run, i - 1);
      StepKeeps(app, cfg, run[i - 1], steps[i - 1]);
    }
  }

  /** What happened stays happened: later histories extend earlier ones. */
  lemma {:induction false} HistoryOnlyGrows(app: Application, cfg: Config, steps: seq<Step>, run: seq<System>, i: nat, j: nat)
    requires Execution(app, cfg, steps, run) && i <= j < |run|
    ensures run[i].history <= run[j].history
    ensures run[i].stored.Some? ==> run[j].stored.Some?
  {
    if i < j {
      HistoryOnlyGrows(app, cfg, steps, run, i, j - 1);
      assert run[j] == Apply(app, cfg, run[j - 1], steps[j - 1]);
    }
  }

  /**
   * Once a call expired, nothing its abandoned action does later reaches the
   * record or the history. Its late `initialState` can only create a record
   * that nobody created before; it never resets one.
   */
  lemma ExpiredCallsAreHarmless(app: Application, cfg: Config, sys: System, step: Step)
    requires Inv(app, cfg, sys) && Enabled(app, sys, step)
    requires !step.Arrive? && !step.Release? && sys.calls[step.t].outcome.Expired?
    ensures Apply(app, cfg, sys, step).history == sys.history
    ensures sys.stored.Some? ==> Apply(app, cfg, sys, step).stored == sys.stored
  {
    assert CallOk(app, sys, step.t);
  }

  /** A reply is backed by a commit of the same request and the same command fingerprint. */
  lemma RepliesAreBacked(app: Application, cfg: Config, sys: System, t: nat)
    requires Inv(app, cfg, sys) && t < |sys.calls| && sys.calls[t].outcome.Returned?
    ensures exists k :: 0 <= k < |Commits(sys.history)| && Commits(sys.history)[k].Committed?
                        && Commits(sys.history)[k].requestId == sys.calls[t].requestId
                        && app.fingerprint(Commits(sys.history)[k].command) == app.fingerprint(sys.calls[t].command)
                        && Commits(sys.history)[k].turn.result == sys.calls[t].outcome.result
  {
    assert CallOk(app, sys, t);
    RecordsFollowCommits(app, sys.history);
    var c := sys.calls[t];
    var k :| 0 <= k < |Records(app, sys.history)|
             && Records(app, sys.history)[k] == Remembered(c.requestId, app.fingerprint(c.command), c.outcome.result);
    assert Records(app, sys.history)[k] == Remember(app, Commits(sys.history)[k]);
  }

  /** A commit fell inside its own deadline, measured from the moment its seat was free. */
  lemma CommitsAreInTime(app: Application, cfg: Config, sys: System, step: Step)
    requires Inv(app, cfg, sys) && Enabled(app, sys, step)
    requires |Commits(Apply(app, cfg, sys, step).history)| > |Commits(sys.history)|
    ensures step.ReceiveResolves? && step.now - sys.calls[step.t].startedAt <= cfg.deadlineMs
    ensures sys.calls[step.t].outcome.Pending? && !sys.calls[step.t].released
    ensures forall j | 0 <= j < step.t :: sys.calls[j].released
  {
    if step.Release? && sys.calls[step.t].outcome.Expired? {
      Extend(app, sys.history, TimedOut(step.t, sys.calls[step.t].requestId, cfg.journaling && sys.stored.Some?));
    }
    if step.ReceiveResolves? { assert CallOk(app, sys, step.t); }
  }

  // ----- what a call comes to -----

  /** Every event of the turn that a journaling runtime stores can be cloned, one by one. */
  lemma EventsCloneIff(cfg: Config, turn: Turn)
    ensures EventsClone(cfg, turn) <==> (cfg.journaling ==> forall e | e in turn.events :: cfg.cloneable(e))
  {
    var n := Cloned(cfg, turn.events);
    if n == |turn.events| {
      forall e | e in turn.events ensures cfg.cloneable(e) {
        var i :| 0 <= i < |turn.events| && turn.events[i] == e;
      }
    } else {
      assert turn.events[n] in turn.events;
    }
  }

  /**
   * A `receive` that resolves commits, and its caller gets the result, exactly
   * when the deadline has passed neither by the timer nor by the clock and
   * everything the commit stores can be cloned. Otherwise nothing is committed.
   */
  lemma CommitsIff(app: Application, cfg: Config, sys: System, t: nat, turn: Turn, now: int)
    requires Enabled(app, sys, ReceiveResolves(t, turn, now))
    ensures var c, sys' := sys.calls[t], Apply(app, cfg, sys, ReceiveResolves(t, turn, now));
            var inTime := !c.expired && now - c.startedAt <= cfg.deadlineMs;
            var clones := cfg.cloneable(turn.after) && cfg.cloneable(turn.result)
            && (cfg.journaling ==> forall e | e in turn.events :: cfg.cloneable(e));
            && sys'.history == sys.history + (if inTime && clones
                                              then [Committed(t, c.requestId, c.command, c.phase.input, turn)] else [])
            && sys'.calls == sys.calls[t := c.(phase := Ended, outcome := sys'.calls[t].outcome)]
            && sys'.calls[t].outcome == (if !c.outcome.Pending? then c.outcome
                                         else if !inTime then Expired else if clones then Returned(turn.result) else Failed)
  {
    EventsCloneIff(cfg, turn);
  }

  /** A turn or an `initialState` that rejects leaves no trace but its caller's error. */
  lemma RejectionsLeaveNoTrace(app: Application, cfg: Config, sys: System, step: Step)
    requires Enabled(app, sys, step) && (step.ReceiveRejects? || step.InitialStateRejects?)
    ensures var c, sys' := sys.calls[step.t], Apply(app, cfg, sys, step);
            && sys'.stored == sys.stored && sys'.history == sys.history
            && sys'.calls == sys.calls[step.t := c.(phase := Ended, outcome := sys'.calls[step.t].outcome)]
            && sys'.calls[step.t].outcome == (if !c.outcome.Pending? then c.outcome else if step.ownTimeout then Expired else Failed)
  {
  }

  lemma {:induction false} LookupSome(results: seq<Remembered>, r: Remembered)
    requires r in results
    ensures Lookup(results, r.requestId).Some?
  {
    if results[0].requestId != r.requestId { LookupSome(results[1..], r); }
  }

  /**
   * A retry of one of the last `dedupLimit` committed requests is answered with
   * what that commit returned, or refused for a different command; any other
   * request goes on to `receive` with the committed state.
   */
  lemma RetriesAreAnswered(app: Application, cfg: Config, sys: System, t: nat)
    requires Inv(app, cfg, sys) && Enabled(app, sys, Check(t)) && sys.calls[t].outcome.Pending?
    ensures var c, sys' := sys.calls[t], Apply(app, cfg, sys, Check(t));
            && sys'.stored == sys.stored && sys'.history == sys.history
            && (forall k: nat | IsRecent(cfg.dedupLimit, sys.history, k) ::
                  && Commits(sys.history)[k].Committed?
                  && (Commits(sys.history)[k].requestId == c.requestId ==>
                        sys'.calls[t].outcome == if app.fingerprint(Commits(sys.history)[k].command) == app.fingerprint(c.command)
                                                 then Returned(Commits(sys.history)[k].turn.result) else Failed))
            && (NotRecent(cfg.dedupLimit, sys.history, c.requestId) ==>
                  sys'.calls[t] == c.(phase := Computing(sys.stored.value.state)))
  {
    var c, h, results := sys.calls[t], sys.history, sys.stored.value.results;
    LookupFinds(results, c.requestId);
    forall k: nat | IsRecent(cfg.dedupLimit, h, k)
      ensures Commits(h)[k].Committed?
      ensures Commits(h)[k].requestId == c.requestId ==> Lookup(results, c.requestId) == Some(Remember(app, Commits(h)[k]))
    {
      RecentIsRemembered(app, cfg.dedupLimit, h, k);
      if Commits(h)[k].requestId == c.requestId {
        LookupSome(results, Remember(app, Commits(h)[k]));
        SameRequestSameRecord(app, cfg.dedupLimit, h, Lookup(results, c.requestId).value, Remember(app, Commits(h)[k]));
      }
    }
    if NotRecent(cfg.dedupLimit, h, c.requestId) { NotRecentIsAbsent(app, cfg.dedupLimit, h, c.requestId); }
  }

  /** A deadline that fires is answered as a timeout and recorded once the seat is freed, in the journal if there is one to write to. */
  lemma TimeoutsAreRecorded(app: Application, cfg: Config, sys: System, t: nat)
    requires Enabled(app, sys, TimerFires(t)) && !sys.calls[t].released
    ensures var late := Apply(app, cfg, sys, TimerFires(t));
            && Enabled(app, late, Release(t))
            && late.stored == sys.stored && late.history == sys.history
            && var sys' := Apply(app, cfg, late, Release(t));
               var journaled := cfg.journaling && sys.stored.Some?;
               && sys'.calls[t].outcome == Expired && sys'.calls[t].released
               && sys'.history == sys.history + [TimedOut(t, sys.calls[t].requestId, journaled)]
               && (!journaled ==> sys'.stored == sys.stored)
               && (journaled ==>
                     var s := sys.stored.value;
                     sys'.stored == Some(Stored(s.state, s.seqNo + 1,
                                                s.events + [JournalEntry(s.seqNo, sys.calls[t].requestId, "", TurnTimeout)],
                                                s.results)))
  {
  }

  predicate Begun(sys: System, t: nat) {
    t < |sys.calls| && !sys.calls[t].phase.Waiting?
  }

  /** A call begins by its `Start` step, which sets its clock for good. */
  lemma StartsOnce(app: Application, cfg: Config, steps: seq<Step>, run: seq<System>, i: nat, t: nat)
    requires Execution(app, cfg, steps, run) && i < |run| && Begun(run[i], t)
    ensures i > 0
    ensures if Begun(run[i - 1], t) then run[i].calls[t].startedAt == run[i - 1].calls[t].startedAt
            else steps[i - 1] == Start(t, run[i].calls[t].startedAt)
  {
    assert Enabled(app, run[i - 1], steps[i - 1]) && run[i] == Apply(app, cfg, run[i - 1], steps[i - 1]);
  }

  /** The deadline of a call that started runs from its own `Start` step. */
  lemma {:induction false} StartedAtItsStart(app: Application, cfg: Config, steps: seq<Step>, run: seq<System>, i: nat, t: nat)
    returns (j: nat)
    requires Execution(app, cfg, steps, run) && i < |run| && Begun(run[i], t)
    ensures j < i && steps[j] == Start(t, run[i].calls[t].startedAt)
  {
    StartsOnce(app, cfg, steps, run, i, t);
    if Begun(run[i - 1], t) {
      j := StartedAtItsStart(app, cfg, steps, run, i - 1, t);
    } else {
      j := i - 1;
    }
  }

  /** Every commit of a run was made when its `receive` resolved, within the deadline of its own start. */
  lemma {:induction false} CommitsFollowTheClock(app: Application, cfg: Config, steps: seq<Step>, run: seq<System>, i: nat, a: Action)
    returns (j: nat, k: nat)
    requires Execution(app, cfg, steps, run) && i < |run| && a in run[i].history && a.Committed?
    ensures j < k < i && steps[j].Start? && steps[j].t == a.caller
    ensures steps[k].ReceiveResolves? && steps[k].t == a.caller && steps[k].turn == a.turn
    ensures steps[k].now - steps[j].now <= cfg.deadlineMs
  {
    assert Enabled(app, run[i - 1], steps[i - 1]) && run[i] == Apply(app, cfg, run[i - 1], steps[i - 1]);
    if a in run[i - 1].history {
      j, k := CommitsFollowTheClock(app, cfg, steps, run, i - 1, a);
    } else {
      k := i - 1;
      j := StartedAtItsStart(app, cfg, steps, run, k, a.caller);
    }
  }

  // ----- a turn on its own -----

  lemma More(app: Application, cfg: Config, steps: seq<Step>, run: seq<System>, step: Step, next: System)
    returns (steps': seq<Step>, run': seq<System>)
    requires Follows(app, cfg, steps, run)
    requires Enabled(app, run[|steps|], step) && next == Apply(app, cfg, run[|steps|], step)
    ensures Follows(app, cfg, steps', run') && run'[|steps'|] == next && run'[0] == run[0]
  {
    steps', run' := steps + [step], run + [next];
  }

  /** A call that arrives while the seat is free, up to its dedup check. */
  lemma CallLoads(app: Application, cfg: Config, sys: System, requestId: string, command: Payload, init: Payload, s: int)
    returns (steps: seq<Step>, run: seq<System>)
    requires forall j | 0 <= j < |sys.calls| :: sys.calls[j].released
    requires sys.stored.None? ==> app.initial(init)
    ensures Follows(app, cfg, steps, run) && run[0] == sys
    ensures var stored := if sys.stored.Some? then sys.stored else Some(Stored(init, 0, [], []));
            run[|steps|] == System(stored, sys.calls + [Call(requestId, command, Loaded, false, s, Pending, false)], sys.history)
  {
    var t := |sys.calls|;
    var waiting := Call(requestId, command, Waiting, false, 0, Pending, false);
    var phase := if sys.stored.Some? then Loaded else Initializing;
    var started := Call(requestId, command, phase, false, s, Pending, false);
    steps, run := More(app, cfg, [], [sys], Arrive(requestId, command), sys.(calls := sys.calls + [waiting]));
    steps, run := More(app, cfg, steps, run, Start(t, s), sys.(calls := sys.calls + [started]));
    if sys.stored.None? {
      var loaded := started.(phase := Loaded);
      steps, run := More(app, cfg, steps, run, InitialStateResolves(t, init),
                         System(Some(Stored(init, 0, [], [])), sys.calls + [loaded], sys.history));
    }
  }

  /**
   * A new request that arrives while the seat is free and whose `receive`
   * resolves in time commits exactly once, applied to the committed state, and
   * its caller gets the result.
   */
  lemma TurnCompletes(app: Application, cfg: Config, sys: System, requestId: string, command: Payload, init: Payload,
                      turn: Turn, s: int, n: int) returns (steps: seq<Step>, run: seq<System>)
    requires Inv(app, cfg, sys) && NotRecent(cfg.dedupLimit, sys.history, requestId)
    requires forall j | 0 <= j < |sys.calls| :: sys.calls[j].released
    requires sys.stored.None? ==> app.initial(init)
    requires app.receive(command, if sys.stored.Some? then sys.stored.value.state else init, turn)
    requires n - s <= cfg.deadlineMs && cfg.cloneable(turn.after) && cfg.cloneable(turn.result)
    requires cfg.journaling ==> forall e | e in turn.events :: cfg.cloneable(e)
    ensures Follows(app, cfg, steps, run) && run[0] == sys
    ensures var input := if sys.stored.Some? then sys.stored.value.state else init;
            && run[|steps|].history == sys.history + [Committed(|sys.calls|, requestId, command, input, turn)]
            && run[|steps|].calls == sys.calls + [Call(requestId, command, Ended, false, s, Returned(turn.result), true)]
  {
    var t := |sys.calls|;
    var input := if sys.stored.Some? then sys.stored.value.state else init;
    steps, run := CallLoads(app, cfg, sys, requestId, command, init, s);
    var loaded := run[|steps|];
    NotRecentIsAbsent(app, cfg.dedupLimit, sys.history, requestId);
    LookupFinds(loaded.stored.value.results, requestId);
    var computing := loaded.calls[t].(phase := Computing(input));
    steps, run := More(app, cfg, steps, run, Check(t), loaded.(calls := sys.calls + [computing]));
    var done := Apply(app, cfg, run[|steps|], ReceiveResolves(t, turn, n));
    CommitsIff(app, cfg, run[|steps|], t, turn, n);
    assert done.calls == sys.calls + [Call(requestId, command, Ended, false, s, Returned(turn.result), false)];
    steps, run := More(app, cfg, steps, run, ReceiveResolves(t, turn, n), done);
    steps, run := More(app, cfg, steps, run, Release(t), Apply(app, cfg, done, Release(t)));
  }

  // ----- when a commit is not whole -----

  /** A finished turn moves the record without committing exactly when it stops halfway. */
  lemma CommitIsWholeIff(app: Application, cfg: Config, sys: System, step: Step)
    requires Enabled(app, sys, step) && step.ReceiveResolves?
    ensures var sys' := Apply(app, cfg, sys, step);
            (sys'.stored != sys.stored ==> sys'.history != sys.history) <==> !Halfway(cfg, sys, step)
  {
    if Halfway(cfg, sys, step) && cfg.cloneable(step.turn.result) {
      var c := sys.calls[step.t];
      assert CutShort(cfg, sys.stored.value, Remembered(c.requestId, app.fingerprint(c.command), step.turn.result), step.turn).seqNo
          > sys.stored.value.seqNo;
    }
  }

  const CALLBACK_CONFIG := Config(1, 1000, true, p => p != "callback")

  /** An application whose only turn ends as given. */
  function OneTurnApp(turn: Turn): Application {
    Application(s => s == "0", (c, s, t) => t == turn, c => c)
  }

  const RESULT_TURN := Turn("1", "callback", "", [])

  /** A turn that answers with something `structuredClone` refuses leaves its new state behind with no commit to show for it. */
  lemma PartialCommit() returns (steps: seq<Step>, run: seq<System>)
    ensures Execution(OneTurnApp(RESULT_TURN), CALLBACK_CONFIG, steps, run)
    ensures run[|steps|].stored.Some? && run[|steps|].stored.value.state == "1"
    ensures run[|steps|].history == [] && |run[|steps|].calls| == 1 && run[|steps|].calls[0].outcome == Failed
    ensures !Faithful(OneTurnApp(RESULT_TURN), CALLBACK_CONFIG, run[|steps|])
  {
    var app, cfg := OneTurnApp(RESULT_TURN), CALLBACK_CONFIG;
    steps := [Arrive("r", "go"), Start(0, 0), InitialStateResolves(0, "0"), Check(0), ReceiveResolves(0, RESULT_TURN, 0)];
    var s1 := Apply(app, cfg, EMPTY, steps[0]);
    var s2 := Apply(app, cfg, s1, steps[1]);
    var s3 := Apply(app, cfg, s2, steps[2]);
    var s4 := Apply(app, cfg, s3, steps[3]);
    var s5 := Apply(app, cfg, s4, steps[4]);
    run := [EMPTY, s1, s2, s3, s4, s5];
  }

  const EVENT_TURN := Turn("1", "done", "", ["first", "callback"])

  /** What the failed turn leaves: its state, its result, its first event, and a position that no event has. */
  const CUT_SHORT := Stored("1", 2, [JournalEntry(0, "r", "", Domain("first"))], [Remembered("r", "go", "done")])

  lemma CutShortIs()
    ensures CutShort(CALLBACK_CONFIG, Stored("0", 0, [], []), Remembered("r", "go", "done"), EVENT_TURN) == CUT_SHORT
    ensures !EventsClone(CALLBACK_CONFIG, EVENT_TURN)
  {
    var events := EVENT_TURN.events;
    assert events[..1] == ["first"] && events[..1][..0] == [];
    assert Cloned(CALLBACK_CONFIG, events[..1]) == 1 && Cloned(CALLBACK_CONFIG, events) == 1;
    assert Stamp(0, "r", "", events)[..1] == [JournalEntry(0, "r", "", Domain("first"))];
  }

  /** The first call of the run below, up to its failure. */
  lemma EventTurnStops() returns (steps: seq<Step>, run: seq<System>)
    ensures Execution(OneTurnApp(EVENT_TURN), CALLBACK_CONFIG, steps, run)
    ensures run[|steps|] == System(Some(CUT_SHORT), [Call("r", "go", Ended, false, 0, Failed, false)], [])
  {
    var app, cfg := OneTurnApp(EVENT_TURN), CALLBACK_CONFIG;
    var loaded := Some(Stored("0", 0, [], []));
    CutShortIs();
    steps, run := More(app, cfg, [], [EMPTY], Arrive("r", "go"), System(None, [Call("r", "go", Waiting, false, 0, Pending, false)], []));
    steps, run := More(app, cfg, steps, run, Start(0, 0), System(None, [Call("r", "go", Initializing, false, 0, Pending, false)], []));
    steps, run := More(app, cfg, steps, run, InitialStateResolves(0, "0"),
                       System(loaded, [Call("r", "go", Loaded, false, 0, Pending, false)], []));
    steps, run := More(app, cfg, steps, run, Check(0), System(loaded, [Call("r", "go", Computing("0"), false, 0, Pending, false)], []));
    steps, run := More(app, cfg, steps, run, ReceiveResolves(0, EVENT_TURN, 0),
                       System(Some(CUT_SHORT), [Call("r", "go", Ended, false, 0, Failed, false)], []));
  }

  /**
   * A turn whose second event cannot be cloned fails, yet its state, its
   * result and its first event stay, a position is used up, and a retry of the
   * request is answered as a success.
   */
  lemma PartialJournal() returns (steps: seq<Step>, run: seq<System>)
    ensures Execution(OneTurnApp(EVENT_TURN), CALLBACK_CONFIG, steps, run)
    ensures var end := run[|steps|];
            && end.history == [] && end.stored == Some(CUT_SHORT) && |end.calls| == 2
            && end.calls[0].outcome == Failed && end.calls[1].outcome == Returned("done")
            && end.calls[1].requestId == end.calls[0].requestId && end.calls[1].command == end.calls[0].command
  {
    var app, cfg := OneTurnApp(EVENT_TURN), CALLBACK_CONFIG;
    steps, run := EventTurnStops();
    var first := Call("r", "go", Ended, false, 0, Failed, true);
    var retry := Call("r", "go", Waiting, false, 0, Pending, false);
    steps, run := More(app, cfg, steps, run, Release(0), System(Some(CUT_SHORT), [first], []));
    steps, run := More(app, cfg, steps, run, Arrive("r", "go"), System(Some(CUT_SHORT), [first, retry], []));
    steps, run := More(app, cfg, steps, run, Start(1, 0), System(Some(CUT_SHORT), [first, retry.(phase := Loaded)], []));
    steps, run := More(app, cfg, steps, run, Check(1),
                       System(Some(CUT_SHORT), [first, retry.(phase := Ended, outcome := Returned("done"))], []));
  }

  // ----- the record as the runtime updates it -----

  class StoredActor {
    var state: Payload
    var seqNo: nat
    var events: seq<JournalEntry>
    var results: seq<Remembered>

    ghost function View(): Stored
      reads this
    {
      Stored(state, seqNo, events, results)
    }

    constructor (initial: Payload)
      ensures View() == Stored(initial, 0, [], [])
    {
      state, seqNo, events, results := initial, 0, [], [];
    }

    /** The commit point. `None` is a thrown clone error. */
    method Commit(cfg: Config, requestId: string, fingerprint: string, turn: Turn) returns (reply: Option<Payload>)
      modifies this
      ensures !cfg.cloneable(turn.after) ==> reply.None? && View() == old(View())
      ensures cfg.cloneable(turn.after) && !cfg.cloneable(turn.result) ==>
                reply.None? && View() == old(View()).(state := turn.after)
      ensures cfg.cloneable(turn.after) && cfg.cloneable(turn.result) && !EventsClone(cfg, turn) ==>
                && reply.None?
                && View() == CutShort(cfg, old(View()), Remembered(requestId, fingerprint, turn.result), turn)
      ensures cfg.cloneable(turn.after) && cfg.cloneable(turn.result) && EventsClone(cfg, turn) ==>
                && reply == Some(turn.result)
                && View() == CommitTo(cfg, old(View()), Remembered(requestId, fingerprint, turn.result), turn)
      ensures (View(), reply.Some?) == Write(cfg, old(View()), Remembered(requestId, fingerprint, turn.result), turn)
    {
      if !cfg.cloneable(turn.after) { return None; }
      state := turn.after;
      if !cfg.cloneable(turn.result) { return None; }
      results := MapSet(results, Remembered(requestId, fingerprint, turn.result));
      ghost var all := results;
      while |results| > cfg.dedupLimit
        invariant Window(cfg.dedupLimit, results) == Window(cfg.dedupLimit, all)
        invariant state == turn.after && seqNo == old(seqNo) && events == old(events)
      {
        results := results[1..];
      }
      if cfg.journaling {
        var stored := AppendEvents(cfg, requestId, turn);
        if !stored { return None; }
      }
      return Some(turn.result);
    }

    /** The numbering loop: the position is taken before the event is cloned. */
    method AppendEvents(cfg: Config, requestId: string, turn: Turn) returns (whole: bool)
      modifies this
      ensures state == old(state) && results == old(results)
      ensures var n, stamped := Cloned(cfg, turn.events), Stamp(old(seqNo), requestId, turn.seatKeyId, turn.events);
              && (whole <==> n == |turn.events|)
              && events == old(events) + stamped[..n]
              && seqNo == old(seqNo) + (if whole then n else n + 1)
    {
      var k := 0;
      ghost var stamped := Stamp(seqNo, requestId, turn.seatKeyId, turn.events);
      while k < |turn.events|
        invariant 0 <= k <= Cloned(cfg, turn.events)
        invariant seqNo == old(seqNo) + k && events == old(events) + stamped[..k]
        invariant state == old(state) && results == old(results)
      {
        var at := seqNo;
        seqNo := seqNo + 1;
        if !cfg.cloneable(turn.events[k]) { return false; }
        events := events + [JournalEntry(at, requestId, turn.seatKeyId, Domain(turn.events[k]))];
        k := k + 1;
      }
      return true;
    }

    /** The failed-turn record, its own write. */
    method RecordTimedOutTurn(cfg: Config, requestId: string)
      modifies this
      ensures View() == MarkTimeout(cfg, old(View()), requestId)
      ensures state == old(state) && results == old(results)
    {
      if cfg.journaling {
        events := events + [Marker(seqNo, requestId)];
        seqNo := seqNo + 1;
      }
    }
  }
}
