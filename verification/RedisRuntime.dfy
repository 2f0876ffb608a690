/**
 * The Redis runtime for one identity: any number of processes, each turn with
 * its own lease token. Scripts are atomic; everything between them interleaves.
 * A lease may expire at any moment, a reply may be lost, and a script may still
 * run after its caller gave up.
 */
module RedisRuntime {
  import opened Basics
  import opened Options
  import opened Decimal
  import opened SerialSpec
  import opened RedisScripts

  /** How results are turned into text and back, and the text of a timeout record. */
  datatype Codec = Codec(encode: (string, Payload) -> string, decode: string -> (string, Payload), timeoutEvent: string)

  ghost predicate Lossless(codec: Codec) {
    forall fingerprint, result :: codec.decode(codec.encode(fingerprint, result)) == (fingerprint, result)
  }

  datatype Config = Config(codec: Codec, lua: int -> int, leaseMs: int, deadlineMs: int, token: nat -> string)

  /** Every turn draws a token no other turn draws. */
  ghost predicate OneUse(cfg: Config) {
    forall t, u | cfg.token(t) == cfg.token(u) :: t == u
  }

  /** What is taken from the platform: lossless texts, exact small numbers, distinct tokens. */
  ghost predicate Sound(cfg: Config) {
    Lossless(cfg.codec) && Exact(cfg.lua) && OneUse(cfg)
  }

  datatype Phase =
    | Acquiring
    | Holding
    | Reading
    | Initializing
    | Computing(input: Payload)
    | Deciding(input: Payload, turn: Turn)
    | Committing(input: Payload, turn: Turn)
    | Marking
    | Ended

  datatype Outcome = Pending | Returned(result: Payload) | Expired | Failed

  /**
   * `acquired`: the acquire script once set this turn's token. `inFlight`: an
   * acquire whose reply nobody awaits any more. `answer`: the reply of the
   * turn's own last script, once that script ran. `startedAt`: when the
   * deadline began, after the dedup check.
   */
  datatype Call = Call(requestId: string, command: Payload, phase: Phase, acquired: bool, inFlight: bool,
                       answer: Option<Reply<int>>, startedAt: int, outcome: Outcome)

  datatype System = System(db: Db, calls: seq<Call>, history: seq<Action>)

  datatype Step =
    | Arrive(requestId: string, command: Payload)
    | AcquireRuns(t: nat, replied: bool)
    | AcquireFails(t: nat, inFlight: bool)
    | LateAcquireRuns(t: nat)
    | CheckDedup(t: nat, now: int)
    | ReadState(t: nat)
    | InitialStateResolves(t: nat, state: Payload)
    | WorkFails(t: nat, ownTimeout: bool)
    | TimerFires(t: nat)
    | ReceiveResolves(t: nat, turn: Turn, now: int)
    | LeaseFlaggedLost(t: nat)
    | SendCommit(t: nat)
    | CommitRuns(t: nat, ttlText: string, capText: string)
    | CommitAnswered(t: nat)
    | MarkerRuns(t: nat, capText: string)
    | MarkerDropped(t: nat)
    | CallerGivesUp(t: nat)
    | RenewRuns(t: nat)
    | ReleaseRuns(t: nat)
    | LeaseExpires
    | DedupExpires

  const EMPTY := System(Db(map[], map[]), [], [])

  function Args(app: Application, cfg: Config, c: Call, ttlText: string, capText: string): CommitArgs
    requires c.phase.Committing?
  {
    var turn := c.phase.turn;
    CommitArgs(turn.after, c.requestId, cfg.codec.encode(app.fingerprint(c.command), turn.result), ttlText, turn.seatKeyId, capText)
  }

  /** Steps that belong to one turn. */
  predicate OfTurn(step: Step) {
    !step.Arrive? && !step.LeaseExpires? && !step.DedupExpires?
  }

  predicate Raced(p: Phase) {
    p.Reading? || p.Initializing? || p.Computing?
  }

  ghost predicate Enabled(app: Application, sys: System, step: Step) {
    !OfTurn(step) || (
      && step.t < |sys.calls|
      && var c := sys.calls[step.t];
         match step
         case AcquireRuns(_, _) => c.phase.Acquiring? && !c.acquired
         case AcquireFails(_, _) => c.phase.Acquiring? && !c.acquired
         case LateAcquireRuns(_) => c.inFlight && !c.acquired
         case CheckDedup(_, _) => c.phase.Holding?
         case ReadState(_) => c.phase.Reading?
         case InitialStateResolves(_, state) => c.phase.Initializing? && app.initial(state)
         case WorkFails(_, _) => c.phase.Holding? || Raced(c.phase) || c.phase.Deciding?
         case TimerFires(_) => Raced(c.phase)
         case ReceiveResolves(_, turn, _) => c.phase.Computing? && app.receive(c.command, c.phase.input, turn)
         case LeaseFlaggedLost(_) => c.phase.Deciding?
         case SendCommit(_) => c.phase.Deciding?
         case CommitRuns(_, _, _) => c.phase.Committing? && c.answer.None?
         case CommitAnswered(_) => c.phase.Committing? && c.answer.Some? && c.outcome.Pending?
         case MarkerRuns(_, _) => c.phase.Marking? && c.answer.None?
         case MarkerDropped(_) => c.phase.Marking? && c.answer.None?
         case CallerGivesUp(_) => (c.phase.Committing? || c.phase.Marking?) && c.outcome.Pending?
         case RenewRuns(_) => true
         case ReleaseRuns(_) => !c.outcome.Pending?
         case _ => false)
  }

  function Put(sys: System, t: nat, c: Call): System
    requires t < |sys.calls|
  {
    sys.(calls := sys.calls[t := c])
  }

  function End(c: Call, outcome: Outcome): Call {
    c.(phase := Ended, outcome := outcome)
  }

  function Apply(app: Application, cfg: Config, sys: System, step: Step): System
    requires Enabled(app, sys, step)
  {
    if step.Arrive? then
      sys.(calls := sys.calls + [Call(step.requestId, step.command, Acquiring, false, false, None, 0, Pending)])
    else if step.LeaseExpires? then sys.(db := Db(sys.db.keys - {LeaseKey}, sys.db.ttl - {LeaseKey}))
    else if step.DedupExpires? then
      System(Db(sys.db.keys - {DedupKey}, sys.db.ttl - {DedupKey}), sys.calls, sys.history + [Forgot])
    else
      var t, c := step.t, sys.calls[step.t];
      match step
      case AcquireRuns(_, replied) =>
        var free := LeaseKey !in sys.db.keys;
        var c' := c.(acquired := free);
        Put(sys, t, if !replied then End(c', Failed) else if free then c'.(phase := Holding) else c').(
        db := Acquired(sys.db, cfg.token(t), cfg.leaseMs))
      case AcquireFails(_, inFlight) => Put(sys, t, End(c, Failed).(inFlight := inFlight))
      case LateAcquireRuns(_) =>
        Put(sys, t, c.(acquired := LeaseKey !in sys.db.keys, inFlight := false)).(db := Acquired(sys.db, cfg.token(t), cfg.leaseMs))
      case CheckDedup(_, now) => Put(sys, t, CheckCall(app, cfg, sys.db, c, now))
      case ReadState(_) =>
        Put(sys, t, if StateKey in sys.db.keys && sys.db.keys[StateKey].Str? then c.(phase := Computing(sys.db.keys[StateKey].text))
                    else c.(phase := Initializing))
      case InitialStateResolves(_, state) => Put(sys, t, c.(phase := Computing(state)))
      case WorkFails(_, ownTimeout) =>
        Put(sys, t, if ownTimeout && Raced(c.phase) then c.(phase := Marking) else End(c, Failed))
      case TimerFires(_) => Put(sys, t, c.(phase := Marking))
      case ReceiveResolves(_, turn, now) =>
        Put(sys, t, if now - c.startedAt > cfg.deadlineMs then c.(phase := Marking) else c.(phase := Deciding(c.phase.input, turn)))
      case LeaseFlaggedLost(_) => Put(sys, t, End(c, Failed))
      case SendCommit(_) => Put(sys, t, c.(phase := Committing(c.phase.input, c.phase.turn)))
      case CommitRuns(_, ttlText, capText) => RunCommit(app, cfg, sys, t, ttlText, capText)
      case CommitAnswered(_) =>
        Put(sys, t, c.(outcome := if c.answer == Some(Answer(1)) then Returned(c.phase.turn.result) else Failed))
      case MarkerRuns(_, capText) => RunMarker(cfg, sys, t, capText)
      case MarkerDropped(_) =>
        Put(sys, t, c.(answer := Some(Raised), outcome := Expired)).(history := sys.history + [TimedOut(t, c.requestId, false)])
      case CallerGivesUp(_) => Put(sys, t, c.(outcome := if c.phase.Marking? then Expired else Failed))
      case RenewRuns(_) => sys.(db := Renewed(sys.db, cfg.token(t), cfg.leaseMs))
      case ReleaseRuns(_) => sys.(db := Released(sys.db, cfg.token(t)))
  }

  /** `HGET` in the dedup hash, then the fingerprint comparison. */
  function CheckCall(app: Application, cfg: Config, db: Db, c: Call, now: int): Call {
    if c.requestId in Fields(db) then
      var (fingerprint, result) := cfg.codec.decode(Fields(db)[c.requestId]);
      End(c, if fingerprint == app.fingerprint(c.command) then Returned(result) else Failed)
    else c.(phase := Reading, startedAt := now)
  }

  function RunCommit(app: Application, cfg: Config, sys: System, t: nat, ttlText: string, capText: string): System
    requires t < |sys.calls| && sys.calls[t].phase.Committing?
  {
    var c := sys.calls[t];
    var events := c.phase.turn.events;
    var (reply, db) := CommitScript(sys.db, cfg.lua, cfg.token(t), Args(app, cfg, c, ttlText, capText), |events|, events);
    Put(sys, t, c.(answer := Some(reply))).(
    db := db,
    history := if reply == Answer(1) then sys.history + [Committed(t, c.requestId, c.command, c.phase.input, c.phase.turn)]
               else sys.history)
  }

  /** APPEND_TURN_FAILURE is not gated on the lease. */
  function RunMarker(cfg: Config, sys: System, t: nat, capText: string): System
    requires t < |sys.calls|
  {
    var c := sys.calls[t];
    var (reply, db) := FailureScript(sys.db, cfg.lua, c.requestId, "", cfg.codec.timeoutEvent, capText);
    Put(sys, t, c.(answer := Some(reply), outcome := Expired)).(
    db := db, history := sys.history + [TimedOut(t, c.requestId, reply == Answer(1))])
  }

  /** Every step was possible when its turn came, and led to the next state. */
  ghost predicate Follows(app: Application, cfg: Config, steps: seq<Step>, run: seq<System>) {
    && |run| == |steps| + 1
    && forall i | 0 <= i < |steps| :: Enabled(app, run[i], steps[i]) && run[i + 1] == Apply(app, cfg, run[i], steps[i])
  }

  ghost predicate Execution(app: Application, cfg: Config, steps: seq<Step>, run: seq<System>) {
    Follows(app, cfg, steps, run) && run[0] == EMPTY
  }

  /** The counter stays where Lua numbers are exact. */
  ghost predicate CounterIsSafe(sys: System) {
    |Journal(sys.history)| <= MAX_SAFE_INTEGER
  }

  // ----- the invariant -----

  function EventText(cfg: Config, fact: Fact): string {
    match fact
    case Domain(event) => event
    case TurnTimeout => cfg.codec.timeoutEvent
  }

  /** A journal entry as its stream entry. */
  function Print(cfg: Config, e: JournalEntry): StreamEntry {
    StreamEntry(ShowInt(e.seqNo), e.requestId, e.seatKeyId, EventText(cfg, e.fact))
  }

  function PrintAll(cfg: Config, journal: seq<JournalEntry>): (entries: seq<StreamEntry>)
    ensures |entries| == |journal|
  {
    if journal == [] then []
    else PrintAll(cfg, journal[..|journal| - 1]) + [Print(cfg, journal[|journal| - 1])]
  }

  /** The stream is what retention left of the whole journal: its end. */
  ghost predicate Suffix<T>(part: seq<T>, whole: seq<T>) {
    |part| <= |whole| && forall k | 0 <= k < |part| :: part[k] == whole[|whole| - |part| + k]
  }

  ghost predicate WellTyped(db: Db) {
    LeaseReadable(db) && !WrongState(db) && !WrongDedup(db) && !WrongLog(db)
  }

  ghost predicate DedupIs(app: Application, cfg: Config, db: Db, h: seq<Action>) {
    && Fields(db).Keys == SinceForgot(app, h).Keys
    && forall id | id in Fields(db) ::
         Fields(db)[id] == cfg.codec.encode(SinceForgot(app, h)[id].fingerprint, SinceForgot(app, h)[id].result)
  }

  ghost predicate StateIs(db: Db, h: seq<Action>) {
    && (StateKey in db.keys <==> StateAfter(h).Some?)
    && (StateKey in db.keys ==> db.keys[StateKey] == Str(StateAfter(h).value))
  }

  ghost predicate JournalIs(cfg: Config, db: Db, h: seq<Action>) {
    && Counter(db) == Some(|Journal(h)|)
    && Suffix(Log(db), PrintAll(cfg, Journal(h)))
  }

  ghost predicate Faithful(app: Application, cfg: Config, db: Db, h: seq<Action>) {
    WellTyped(db) && StateIs(db, h) && DedupIs(app, cfg, db, h) && JournalIs(cfg, db, h)
  }

  predicate PastDedup(p: Phase) {
    Raced(p) || p.Deciding? || p.Committing?
  }

  /**
   * While a turn's token is current, what the turn read is still true. Once the
   * token is gone this says nothing, and it never comes back.
   */
  ghost predicate HolderKnows(app: Application, h: seq<Action>, c: Call) {
    && (PastDedup(c.phase) ==> c.requestId !in SinceForgot(app, h))
    && (c.phase.Initializing? ==> StateAfter(h).None?)
    && (c.phase.Computing? || c.phase.Deciding? || c.phase.Committing? ==>
          && (StateAfter(h).Some? ==> c.phase.input == StateAfter(h).value)
          && (StateAfter(h).None? ==> app.initial(c.phase.input)))
  }

  ghost predicate Answered(app: Application, h: seq<Action>, c: Call, result: Payload) {
    Remembered(c.requestId, app.fingerprint(c.command), result) in Records(app, h)
  }

  ghost predicate CallOk(app: Application, cfg: Config, sys: System, t: nat)
    requires t < |sys.calls|
  {
    var c := sys.calls[t];
    && (LeaseHeld(sys.db, cfg.token(t)) ==> c.acquired)
    && (c.phase.Acquiring? || c.inFlight ==> !c.acquired)
    && (c.phase.Acquiring? ==> c.outcome.Pending? && !c.inFlight)
    && (c.inFlight ==> c.phase.Ended?)
    && (LeaseHeld(sys.db, cfg.token(t)) && c.answer.None? ==> HolderKnows(app, sys.history, c))
    && (c.phase.Deciding? || c.phase.Committing? ==> app.receive(c.command, c.phase.input, c.phase.turn))
    && (c.answer.Some? ==> c.phase.Committing? || c.phase.Marking?)
    && (c.phase.Committing? && c.answer == Some(Answer(1)) ==> Answered(app, sys.history, c, c.phase.turn.result))
    && (c.outcome.Returned? ==> Answered(app, sys.history, c, c.outcome.result))
  }

  ghost predicate ActionOk(sys: System, a: Action) {
    match a
    case Committed(caller, requestId, command, _, turn) =>
      && caller < |sys.calls|
      && (var c := sys.calls[caller];
          c.requestId == requestId && c.command == command
          && c.phase.Committing? && c.phase.turn == turn && c.answer == Some(Answer(1)))
    case TimedOut(caller, requestId, _) =>
      && caller < |sys.calls|
      && (var c := sys.calls[caller]; c.requestId == requestId && c.phase.Marking? && c.answer.Some? && c.outcome.Expired?)
    case Forgot => true
  }

  ghost predicate CallsOk(app: Application, cfg: Config, sys: System) {
    && (forall t | 0 <= t < |sys.calls| :: CallOk(app, cfg, sys, t))
    && (forall t: nat | LeaseHeld(sys.db, cfg.token(t)) :: t < |sys.calls|)
    && (forall a | a in sys.history :: ActionOk(sys, a))
  }

  ghost predicate Inv(app: Application, cfg: Config, sys: System) {
    && CallsOk(app, cfg, sys)
    && Faithful(app, cfg, sys.db, sys.history)
    && Serial(app, sys.history)
    && FreshSinceForgot(app, sys.history)
  }
}
