/** Every run of the Durable Object actor obeys the contract of `SerialSpec`. */
module DurableObjectProof {
  import opened Basics
  import opened Options
  import opened SerialSpec
  import opened DurableStorage
  import opened DurableObject

  // ----- the invariant -----

  ghost predicate Typed(kv: Store) {
    && (RecordKey in kv ==> kv[RecordKey].RecordValue?)
    && (OrderKey in kv ==> kv[OrderKey].OrderValue?)
    && forall id | DedupKey(id) in kv :: kv[DedupKey(id)].DedupValue?
  }

  ghost predicate JournalOk(kv: Store, journal: seq<JournalEntry>) {
    && (forall i: nat :: EventKey(i) in kv <==> i < |journal|)
    && (forall i: nat | i < |journal| :: kv[EventKey(i)] == EventValue(journal[i]))
  }

  /** The order index is the dedup window, every id in it has its entry, and every entry replays its own result. */
  ghost predicate DedupOk(kv: Store, limit: nat, records: seq<Remembered>) {
    && GetOrder(kv) == RequestIds(Window(limit, records))
    && (forall r | r in Window(limit, records) :: DedupKey(r.requestId) in kv)
    && (forall id | DedupKey(id) in kv ::
          Latest(id, records).Some?
          && kv[DedupKey(id)] == DedupValue(Latest(id, records).value.fingerprint, Latest(id, records).value.result))
  }

  ghost predicate StateOk(app: Application, kv: Store, h: seq<Action>) {
    match GetRecord(kv)
    case None => kv == map[] && Records(app, h) == [] && Journal(h) == [] && StateAfter(h).None?
    case Some(r) =>
      && (StateAfter(h).Some? ==> r.state == StateAfter(h).value)
      && (StateAfter(h).None? ==> app.initial(r.state))
      && r.seqNo == |Journal(h)|
  }

  /** Storage is what the history says it is. */
  ghost predicate Faithful(app: Application, cfg: Config, kv: Store, h: seq<Action>) {
    && Typed(kv) && StateOk(app, kv, h) && JournalOk(kv, Journal(h))
    && DedupOk(kv, cfg.dedupLimit, Records(app, h))
  }

  /** Phases after the race was won. */
  predicate Winning(p: Phase) {
    p.Deciding? || p.Committing? || p.RecordRead? || p.OrderRead?
  }

  predicate PastLoad(p: Phase) {
    p.Loaded? || p.Computing? || Winning(p) || p.Evicting?
  }

  predicate Marking(f: Frame) {
    f.MarkRead? || f.MarkWrite?
  }

  ghost predicate Answered(app: Application, h: seq<Action>, c: Call, result: Payload) {
    Remembered(c.requestId, app.fingerprint(c.command), result) in Records(app, h)
  }

  /** A turn still in the race, or past it, read what is still stored. */
  ghost predicate ReaderOk(app: Application, kv: Store, c: Call) {
    && (c.phase.Loaded? ==> GetRecord(kv).Some? && c.phase.state == GetRecord(kv).value.state)
    && (c.phase.Computing? || Winning(c.phase) ==>
          GetRecord(kv).Some? && c.phase.input == GetRecord(kv).value.state && DedupKey(c.requestId) !in kv)
    && (Winning(c.phase) ==> app.receive(c.command, c.phase.input, c.phase.turn))
  }

  /** What a holder of the section knows from its own reads. */
  ghost predicate HolderOk(kv: Store, c: Call) {
    && (c.phase.InstallWrite? ==> GetRecord(kv).None?)
    && (c.phase.RecordRead? || c.phase.OrderRead? ==> GetRecord(kv) == Some(c.phase.record))
    && (c.phase.OrderRead? ==> GetOrder(kv) == c.phase.order)
    && (c.phase.Evicting? ==> forall id | id in c.phase.evicted :: id !in GetOrder(kv))
    && (c.frame.MarkWrite? ==> GetRecord(kv) == Some(c.frame.record))
  }

  ghost predicate StatusOk(sys: System, t: nat)
    requires t < |sys.calls|
  {
    var c := sys.calls[t];
    && (c.phase.Waiting? ==> c.outcome.Pending? && c.frame.Racing? && !c.expired)
    && (!c.phase.Waiting? ==> forall j | 0 <= j < t :: sys.calls[j].frame.Left?)
    && (c.frame.Left? ==> !c.outcome.Pending?)
    && (Winning(c.phase) || c.phase.Evicting? ==> c.outcome.Pending? && !c.expired)
    && (c.phase.Ended? ==> !c.outcome.Pending?)
    && (c.expired ==> c.outcome.Expired?)
    && (Marking(c.frame) || c.frame.Marked? ==> c.outcome.Expired?)
    && (InSection(c.phase) <==> sys.owner == Work(t))
    && (Marking(c.frame) <==> sys.owner == MarkerOf(t))
    && (PastLoad(c.phase) ==> GetRecord(sys.store).Some?)
  }

  ghost predicate CallOk(app: Application, sys: System, t: nat)
    requires t < |sys.calls|
  {
    var c := sys.calls[t];
    && StatusOk(sys, t)
    && HolderOk(sys.store, c)
    && (c.phase.Installing? || c.phase.InstallRead? || c.phase.InstallWrite? ==> app.initial(c.phase.init))
    && (c.outcome.Pending? ==> ReaderOk(app, sys.store, c))
    && (c.phase.Evicting? ==> Answered(app, sys.history, c, c.phase.result))
    && (c.outcome.Returned? ==> Answered(app, sys.history, c, c.outcome.result))
  }

  ghost predicate ActionOk(sys: System, a: Action) {
    match a
    case Committed(caller, requestId, command, _, _) =>
      && caller < |sys.calls|
      && (var c := sys.calls[caller];
          && c.requestId == requestId && c.command == command
          && (c.phase.Evicting? || (c.phase.Ended? && (c.outcome.Returned? || c.outcome.Failed?))))
    case TimedOut(caller, requestId, _) =>
      && caller < |sys.calls|
      && (var c := sys.calls[caller];
          c.requestId == requestId && c.outcome.Expired? && (c.frame.Marked? || c.frame.Left?))
    case Forgot => false
  }

  ghost predicate CallsOk(app: Application, sys: System) {
    && (sys.owner.Nobody? || sys.owner.t < |sys.calls|)
    && (forall t | 0 <= t < |sys.calls| :: CallOk(app, sys, t))
    && (forall a | a in sys.history :: ActionOk(sys, a))
  }

  ghost predicate Inv(app: Application, cfg: Config, sys: System) {
    && CallsOk(app, sys)
    && Faithful(app, cfg, sys.store, sys.history)
    && Serial(app, sys.history)
    && Deduplicated(app, cfg.dedupLimit, sys.history)
  }

  // ----- the seat -----

  /** Two calls that started and have not left are the same call. */
  lemma SeatIsExclusive(app: Application, sys: System, t: nat, u: nat)
    requires CallsOk(app, sys) && t < |sys.calls| && u < |sys.calls|
    requires !sys.calls[t].phase.Waiting? && !sys.calls[t].frame.Left?
    requires !sys.calls[u].phase.Waiting? && !sys.calls[u].frame.Left?
    ensures t == u
  {
    assert CallOk(app, sys, t) && CallOk(app, sys, u);
  }

  /** A call still on its way to its action is not in the history. */
  lemma UnsettledIsNew(app: Application, sys: System, t: nat)
    requires CallsOk(app, sys) && t < |sys.calls|
    requires sys.calls[t].phase.OrderRead? || Marking(sys.calls[t].frame)
    ensures t !in Settled(sys.history)
  {
    assert CallOk(app, sys, t);
    forall a | a in sys.history ensures !a.Forgot? && a.caller != t {
      assert ActionOk(sys, a);
    }
  }

  // ----- frames: what a step leaves alone -----

  /** The section only ever passes between nobody and the step's own call. */
  predicate OwnerMove(owner: Owner, owner': Owner, t: nat) {
    || owner == owner'
    || ((owner.Nobody? || owner == Work(t) || owner == MarkerOf(t))
        && (owner'.Nobody? || owner' == Work(t) || owner' == MarkerOf(t)))
  }

  ghost predicate OnlyCall(sys: System, sys': System, t: nat) {
    && t < |sys.calls| && |sys'.calls| == |sys.calls|
    && (forall u | 0 <= u < |sys.calls| && u != t :: sys'.calls[u] == sys.calls[u])
    && (sys.calls[t].frame.Left? ==> sys'.calls[t].frame.Left?)
    && OwnerMove(sys.owner, sys'.owner, t)
  }

  /** Calls other than the one that moved keep what they know when storage does not change. */
  lemma OthersKeep(app: Application, sys: System, sys': System, t: nat)
    requires CallsOk(app, sys) && OnlyCall(sys, sys', t)
    requires sys'.store == sys.store && sys'.history == sys.history
    ensures forall u | 0 <= u < |sys'.calls| && u != t :: CallOk(app, sys', u)
  {
    forall u | 0 <= u < |sys'.calls| && u != t ensures CallOk(app, sys', u) {
      assert CallOk(app, sys, u);
    }
  }

  lemma ActionsKeep(sys: System, sys': System, t: nat)
    requires OnlyCall(sys, sys', t) && forall a | a in sys.history :: ActionOk(sys, a)
    requires sys'.history == sys.history
    requires forall a | a in sys.history && a.Committed? && a.caller == t :: ActionOk(sys', a)
    requires forall a | a in sys.history && a.TimedOut? && a.caller == t :: ActionOk(sys', a)
    ensures forall a | a in sys'.history :: ActionOk(sys', a)
  {
    forall a | a in sys'.history ensures ActionOk(sys', a) {
      assert ActionOk(sys, a);
    }
  }

  predicate StartStep(step: Step) {
    step.Start? || step.InitialStateResolves? || step.EnterInstall?
  }

  predicate InstallStep(step: Step) {
    step.ReadRecord? || step.InstallReads? || (step.InstallPuts? && !step.applied)
  }

  predicate LoadStep(step: Step) {
    StartStep(step) || InstallStep(step)
  }

  predicate RaceStep(step: Step) {
    step.ReceiveResolves? || step.TimerFires? || step.WorkFails?
  }

  predicate CommitReads(step: Step) {
    step.CommitReadsRecord? || step.CommitReadsOrder? || (step.CommitPuts? && !step.applied)
  }

  predicate Leaving(step: Step) {
    step.EnterCommit? || step.EnterMarker? || step.Leave?
  }

  predicate Closing(step: Step) {
    CommitReads(step) || Leaving(step)
  }

  lemma DedupEntryIsBacked(requestId: string, records: seq<Remembered>)
    ensures Latest(requestId, records).Some? ==>
              Latest(requestId, records).value in records && Latest(requestId, records).value.requestId == requestId
  {
  }

  /** A step that moves one call, and neither storage nor history, leaves all calls in order when that one is. */
  lemma Moved(app: Application, sys: System, sys': System, t: nat)
    requires CallsOk(app, sys) && OnlyCall(sys, sys', t) && CallOk(app, sys', t)
    requires sys'.store == sys.store && sys'.history == sys.history
    requires sys'.owner.Nobody? || sys'.owner.t < |sys'.calls|
    requires forall a | a in sys.history && !a.Forgot? && a.caller == t :: ActionOk(sys', a)
    ensures CallsOk(app, sys')
  {
    OthersKeep(app, sys, sys', t);
    ActionsKeep(sys, sys', t);
  }

  lemma StartCalls(app: Application, cfg: Config, sys: System, step: Step)
    requires CallsOk(app, sys) && Enabled(app, cfg, sys, step) && StartStep(step)
    ensures CallsOk(app, Apply(app, cfg, sys, step))
  {
    var sys' := Apply(app, cfg, sys, step);
    assert CallOk(app, sys, step.t);
    if step.Start? && step.t > 0 { assert CallOk(app, sys, step.t - 1); }
    assert StatusOk(sys', step.t);
    forall a | a in sys.history && !a.Forgot? && a.caller == step.t ensures ActionOk(sys', a) { assert ActionOk(sys, a); }
    Moved(app, sys, sys', step.t);
  }

  lemma InstallCalls(app: Application, cfg: Config, sys: System, step: Step)
    requires CallsOk(app, sys) && Enabled(app, cfg, sys, step) && InstallStep(step)
    ensures CallsOk(app, Apply(app, cfg, sys, step))
  {
    var sys' := Apply(app, cfg, sys, step);
    assert CallOk(app, sys, step.t);
    assert StatusOk(sys', step.t);
    forall a | a in sys.history && !a.Forgot? && a.caller == step.t ensures ActionOk(sys', a) { assert ActionOk(sys, a); }
    Moved(app, sys, sys', step.t);
  }

  lemma LoadCalls(app: Application, cfg: Config, sys: System, step: Step)
    requires CallsOk(app, sys) && Enabled(app, cfg, sys, step) && LoadStep(step)
    ensures CallsOk(app, Apply(app, cfg, sys, step))
  {
    if StartStep(step) { StartCalls(app, cfg, sys, step); } else { InstallCalls(app, cfg, sys, step); }
  }

  lemma RaceCalls(app: Application, cfg: Config, sys: System, step: Step)
    requires CallsOk(app, sys) && Enabled(app, cfg, sys, step) && RaceStep(step)
    ensures CallsOk(app, Apply(app, cfg, sys, step))
  {
    var sys' := Apply(app, cfg, sys, step);
    assert CallOk(app, sys, step.t);
    assert StatusOk(sys', step.t);
    forall a | a in sys.history && !a.Forgot? && a.caller == step.t ensures ActionOk(sys', a) { assert ActionOk(sys, a); }
    Moved(app, sys, sys', step.t);
  }

  lemma CheckCalls(app: Application, cfg: Config, sys: System, step: Step)
    requires CallsOk(app, sys) && Enabled(app, cfg, sys, step) && step.CheckDedup?
    requires Typed(sys.store) && DedupOk(sys.store, cfg.dedupLimit, Records(app, sys.history))
    ensures CallsOk(app, Apply(app, cfg, sys, step))
  {
    var sys' := Apply(app, cfg, sys, step);
    assert CallOk(app, sys, step.t);
    DedupEntryIsBacked(sys.calls[step.t].requestId, Records(app, sys.history));
    assert StatusOk(sys', step.t);
    forall a | a in sys.history && !a.Forgot? && a.caller == step.t ensures ActionOk(sys', a) { assert ActionOk(sys, a); }
    Moved(app, sys, sys', step.t);
  }

  lemma WinningIsNew(app: Application, sys: System, t: nat)
    requires CallsOk(app, sys) && t < |sys.calls| && Winning(sys.calls[t].phase)
    ensures forall a | a in sys.history && !a.Forgot? :: a.caller != t
  {
    assert CallOk(app, sys, t);
    forall a | a in sys.history && !a.Forgot? ensures a.caller != t { assert ActionOk(sys, a); }
  }

  lemma CommitReadCalls(app: Application, cfg: Config, sys: System, step: Step)
    requires CallsOk(app, sys) && Enabled(app, cfg, sys, step) && CommitReads(step)
    ensures CallsOk(app, Apply(app, cfg, sys, step))
  {
    var sys' := Apply(app, cfg, sys, step);
    assert CallOk(app, sys, step.t);
    assert StatusOk(sys', step.t);
    WinningIsNew(app, sys, step.t);
    Moved(app, sys, sys', step.t);
  }

  lemma LeavingCalls(app: Application, cfg: Config, sys: System, step: Step)
    requires CallsOk(app, sys) && Enabled(app, cfg, sys, step) && Leaving(step)
    ensures CallsOk(app, Apply(app, cfg, sys, step))
  {
    var sys' := Apply(app, cfg, sys, step);
    assert CallOk(app, sys, step.t);
    assert StatusOk(sys', step.t);
    forall a | a in sys.history && !a.Forgot? && a.caller == step.t ensures ActionOk(sys', a) { assert ActionOk(sys, a); }
    Moved(app, sys, sys', step.t);
  }

  lemma ClosingCalls(app: Application, cfg: Config, sys: System, step: Step)
    requires CallsOk(app, sys) && Enabled(app, cfg, sys, step) && Closing(step)
    ensures CallsOk(app, Apply(app, cfg, sys, step))
  {
    if CommitReads(step) { CommitReadCalls(app, cfg, sys, step); } else { LeavingCalls(app, cfg, sys, step); }
  }

  // ----- steps that write -----

  lemma InstallKeeps(app: Application, cfg: Config, sys: System, step: Step)
    requires Inv(app, cfg, sys) && Enabled(app, cfg, sys, step) && step.InstallPuts? && step.applied
    ensures CallsOk(app, Apply(app, cfg, sys, step))
    ensures Faithful(app, cfg, Apply(app, cfg, sys, step).store, sys.history)
  {
    var sys' := Apply(app, cfg, sys, step);
    assert CallOk(app, sys, step.t);
    assert app.initial(sys.calls[step.t].phase.init);
    forall u | 0 <= u < |sys'.calls| ensures CallOk(app, sys', u) { assert CallOk(app, sys, u); }
    forall a | a in sys'.history ensures ActionOk(sys', a) { assert ActionOk(sys, a); }
  }

  /** What the commit's batch does to storage, key by key. */
  lemma BatchLookups(cfg: Config, kv: Store, record: Record, order: seq<string>, requestId: string, fingerprint: string, turn: Turn)
    ensures var kv' := kv + CommitBatch(cfg, record, order, requestId, fingerprint, turn);
            && GetRecord(kv') == Some(Record(turn.after, BumpBy(record.seqNo, |turn.events|)))
            && GetOrder(kv') == Window(cfg.dedupLimit, order + [requestId])
            && DedupKey(requestId) in kv' && kv'[DedupKey(requestId)] == DedupValue(fingerprint, turn.result)
            && (Typed(kv) ==> Typed(kv'))
            && (forall id | id != requestId :: DedupKey(id) in kv' <==> DedupKey(id) in kv)
            && (forall id | id != requestId && DedupKey(id) in kv :: kv'[DedupKey(id)] == kv[DedupKey(id)])
  {
  }

  lemma CommitJournal(cfg: Config, kv: Store, journal: seq<JournalEntry>, record: Record, order: seq<string>, requestId: string,
                      fingerprint: string, turn: Turn)
    requires JournalOk(kv, journal) && record.seqNo == |journal| && |journal| + |turn.events| <= MAX_SAFE_INTEGER + 1
    ensures JournalOk(kv + CommitBatch(cfg, record, order, requestId, fingerprint, turn),
                      journal + Stamp(|journal|, requestId, turn.seatKeyId, turn.events))
  {
    var kv' := kv + CommitBatch(cfg, record, order, requestId, fingerprint, turn);
    var journal' := journal + Stamp(|journal|, requestId, turn.seatKeyId, turn.events);
    BatchIsExact(cfg, record, order, requestId, fingerprint, turn);
    forall i: nat
      ensures EventKey(i) in kv' <==> i < |journal'|
      ensures i < |journal'| ==> kv'[EventKey(i)] == EventValue(journal'[i])
    {
      assert HoldsAt(CommitBatch(cfg, record, order, requestId, fingerprint, turn), record.seqNo,
                     Stamp(record.seqNo, requestId, turn.seatKeyId, turn.events), i);
    }
  }

  lemma LatestExtends(records: seq<Remembered>, r: Remembered, id: string)
    ensures Latest(id, records + [r]) == if id == r.requestId then Some(r) else Latest(id, records)
  {
    assert (records + [r])[..|records|] == records;
  }

  lemma WindowIds(limit: nat, records: seq<Remembered>, r: Remembered)
    requires limit >= 1
    ensures RequestIds(Window(limit, records + [r])) == Window(limit, RequestIds(Window(limit, records)) + [r.requestId])
  {
  }

  lemma CommitDedup(cfg: Config, kv: Store, records: seq<Remembered>, record: Record, r: Remembered, turn: Turn)
    requires cfg.dedupLimit >= 1 && Typed(kv) && DedupOk(kv, cfg.dedupLimit, records) && r.result == turn.result
    ensures DedupOk(kv + CommitBatch(cfg, record, GetOrder(kv), r.requestId, r.fingerprint, turn), cfg.dedupLimit, records + [r])
  {
    var limit := cfg.dedupLimit;
    var kv' := kv + CommitBatch(cfg, record, GetOrder(kv), r.requestId, r.fingerprint, turn);
    BatchLookups(cfg, kv, record, GetOrder(kv), r.requestId, r.fingerprint, turn);
    WindowIds(limit, records, r);
    forall x | x in Window(limit, records + [r]) ensures DedupKey(x.requestId) in kv' {
      assert x == r || x in Window(limit, records);
    }
    forall id | DedupKey(id) in kv'
      ensures Latest(id, records + [r]).Some?
      ensures kv'[DedupKey(id)] == DedupValue(Latest(id, records + [r]).value.fingerprint, Latest(id, records + [r]).value.result)
    {
      LatestExtends(records, r, id);
    }
  }

  /** A request without an entry is outside the window, and so is every id the commit evicts. */
  lemma EvictedAreGone(app: Application, cfg: Config, kv: Store, h: seq<Action>, requestId: string)
    requires cfg.dedupLimit >= 1
    requires DedupOk(kv, cfg.dedupLimit, Records(app, h)) && Deduplicated(app, cfg.dedupLimit, h)
    requires DedupKey(requestId) !in kv
    ensures Absent(requestId, Window(cfg.dedupLimit, Records(app, h)))
    ensures forall id | id in Overflow(cfg, GetOrder(kv) + [requestId]) ::
              id !in Window(cfg.dedupLimit, GetOrder(kv) + [requestId])
  {
    var w := Window(cfg.dedupLimit, Records(app, h));
    var all := GetOrder(kv) + [requestId];
    forall i: nat, j: nat | i < j < |all| ensures all[i] != all[j] {
      if j < |w| {
        WindowIsDistinct(app, cfg.dedupLimit, h, i, j);
      } else {
        assert w[i] in w;
      }
    }
  }

  lemma CommitStorage(app: Application, cfg: Config, kv: Store, h: seq<Action>, r: Record, a: Action)
    requires cfg.dedupLimit >= 1 && Faithful(app, cfg, kv, h) && GetRecord(kv) == Some(r)
    requires a.Committed? && |Journal(h)| + |a.turn.events| <= MAX_SAFE_INTEGER + 1
    ensures Faithful(app, cfg,
                     kv + CommitBatch(cfg, r, GetOrder(kv), a.requestId, app.fingerprint(a.command), a.turn), h + [a])
  {
    Extend(app, h, a);
    BumpByIs(r.seqNo, |a.turn.events|);
    BatchLookups(cfg, kv, r, GetOrder(kv), a.requestId, app.fingerprint(a.command), a.turn);
    CommitJournal(cfg, kv, Journal(h), r, GetOrder(kv), a.requestId, app.fingerprint(a.command), a.turn);
    CommitDedup(cfg, kv, Records(app, h), r, Remember(app, a), a.turn);
  }

  lemma CommitIsLegal(app: Application, cfg: Config, sys: System, t: nat)
    requires Inv(app, cfg, sys) && cfg.dedupLimit >= 1
    requires t < |sys.calls| && sys.calls[t].phase.OrderRead?
    ensures var c := sys.calls[t];
            var h' := sys.history + [Committed(t, c.requestId, c.command, c.phase.input, c.phase.turn)];
            Serial(app, h') && Deduplicated(app, cfg.dedupLimit, h')
  {
    var c := sys.calls[t];
    var a := Committed(t, c.requestId, c.command, c.phase.input, c.phase.turn);
    assert CallOk(app, sys, t);
    UnsettledIsNew(app, sys, t);
    EvictedAreGone(app, cfg, sys.store, sys.history, c.requestId);
    ExtendSerial(app, sys.history, a);
    ExtendDeduplicated(app, cfg.dedupLimit, sys.history, a);
  }

  lemma CommitBook(app: Application, cfg: Config, sys: System, step: Step)
    requires Inv(app, cfg, sys) && cfg.dedupLimit >= 1
    requires Enabled(app, cfg, sys, step) && step.CommitPuts? && step.applied
    requires CounterIsSafe(Apply(app, cfg, sys, step))
    ensures var sys' := Apply(app, cfg, sys, step);
            Faithful(app, cfg, sys'.store, sys'.history) && Serial(app, sys'.history)
                && Deduplicated(app, cfg.dedupLimit, sys'.history)
  {
    var c := sys.calls[step.t];
    var a := Committed(step.t, c.requestId, c.command, c.phase.input, c.phase.turn);
    CommitIsLegal(app, cfg, sys, step.t);
    assert CallOk(app, sys, step.t);
    Extend(app, sys.history, a);
    CommitStorage(app, cfg, sys.store, sys.history, c.phase.record, a);
  }

  /** While one turn commits, no other is past its start and on its way, so a new record disturbs nobody. */
  lemma CommitOthers(app: Application, cfg: Config, sys: System, step: Step, u: nat)
    requires CallsOk(app, sys) && Enabled(app, cfg, sys, step) && step.CommitPuts? && step.applied
    requires u < |sys.calls| && u != step.t
    ensures CallOk(app, Apply(app, cfg, sys, step), u)
  {
    var sys' := Apply(app, cfg, sys, step);
    var c := sys.calls[step.t];
    assert CallOk(app, sys, step.t) && CallOk(app, sys, u);
    assert sys'.calls[u] == sys.calls[u];
    BatchLookups(cfg, sys.store, c.phase.record, c.phase.order, c.requestId, app.fingerprint(c.command), c.phase.turn);
    RecordsGrow(app, sys.history, Committed(step.t, c.requestId, c.command, c.phase.input, c.phase.turn));
  }

  /** The committing turn goes on to evict ids that its new index no longer lists. */
  lemma CommitOwn(app: Application, cfg: Config, sys: System, step: Step)
    requires CallsOk(app, sys) && Enabled(app, cfg, sys, step) && step.CommitPuts? && step.applied
    requires var c := sys.calls[step.t];
             forall id | id in Overflow(cfg, c.phase.order + [c.requestId]) :: id !in Window(cfg.dedupLimit,
                 c.phase.order + [c.requestId])
    ensures CallOk(app, Apply(app, cfg, sys, step), step.t)
  {
    var c := sys.calls[step.t];
    assert CallOk(app, sys, step.t);
    BatchLookups(cfg, sys.store, c.phase.record, c.phase.order, c.requestId, app.fingerprint(c.command), c.phase.turn);
    RecordsGrow(app, sys.history, Committed(step.t, c.requestId, c.command, c.phase.input, c.phase.turn));
  }

  lemma CommitCalls(app: Application, cfg: Config, sys: System, step: Step)
    requires CallsOk(app, sys) && cfg.dedupLimit >= 1
    requires DedupOk(sys.store, cfg.dedupLimit, Records(app, sys.history)) && Deduplicated(app, cfg.dedupLimit, sys.history)
    requires Enabled(app, cfg, sys, step) && step.CommitPuts? && step.applied
    ensures CallsOk(app, Apply(app, cfg, sys, step))
  {
    var sys' := Apply(app, cfg, sys, step);
    var c := sys.calls[step.t];
    assert CallOk(app, sys, step.t);
    EvictedAreGone(app, cfg, sys.store, sys.history, c.requestId);
    CommitOwn(app, cfg, sys, step);
    forall u | 0 <= u < |sys'.calls| ensures CallOk(app, sys', u) {
      if u != step.t { CommitOthers(app, cfg, sys, step, u); }
    }
    forall b | b in sys'.history ensures ActionOk(sys', b) {
      if b in sys.history { assert ActionOk(sys, b); }
    }
  }

  /** Dropping entries that the index no longer lists keeps storage what the history says. */
  lemma EvictStorage(app: Application, cfg: Config, kv: Store, h: seq<Action>, removed: set<string>)
    requires Faithful(app, cfg, kv, h) && GetRecord(kv).Some? && forall id | id in removed :: id !in GetOrder(kv)
    ensures Faithful(app, cfg, kv - (set id | id in removed :: DedupKey(id)), h)
  {
    var kv' := kv - (set id | id in removed :: DedupKey(id));
    var w := Window(cfg.dedupLimit, Records(app, h));
    assert GetRecord(kv') == GetRecord(kv) && GetOrder(kv') == GetOrder(kv);
    forall r | r in w ensures DedupKey(r.requestId) in kv' {
      var k :| 0 <= k < |w| && w[k] == r;
      assert GetOrder(kv)[k] == r.requestId;
    }
    assert DedupOk(kv', cfg.dedupLimit, Records(app, h));
    assert JournalOk(kv', Journal(h));
  }

  lemma EvictCalls(app: Application, cfg: Config, sys: System, step: Step)
    requires CallsOk(app, sys) && Enabled(app, cfg, sys, step) && step.Evict?
    ensures CallsOk(app, Apply(app, cfg, sys, step))
  {
    var sys' := Apply(app, cfg, sys, step);
    assert CallOk(app, sys, step.t);
    assert GetRecord(sys'.store) == GetRecord(sys.store) && GetOrder(sys'.store) == GetOrder(sys.store);
    forall u | 0 <= u < |sys'.calls| ensures CallOk(app, sys', u) { assert CallOk(app, sys, u); }
    forall a | a in sys'.history ensures ActionOk(sys', a) { assert ActionOk(sys, a); }
  }

  lemma EvictKeeps(app: Application, cfg: Config, sys: System, step: Step)
    requires Inv(app, cfg, sys) && Enabled(app, cfg, sys, step) && step.Evict?
    ensures CallsOk(app, Apply(app, cfg, sys, step))
    ensures Faithful(app, cfg, Apply(app, cfg, sys, step).store, sys.history)
  {
    EvictCalls(app, cfg, sys, step);
    assert CallOk(app, sys, step.t);
    EvictStorage(app, cfg, sys.store, sys.history, step.removed);
  }

  predicate Marks(sys: System, step: Step) {
    && !step.Arrive?
    && (step.MarkerPuts? || (step.MarkerReads? && (step.fails || GetRecord(sys.store).None?)))
  }

  function WithMarker(kv: Store, r: Record, requestId: string): Store {
    kv[RecordKey := RecordValue(r.(seqNo := Bump(r.seqNo)))][EventKey(r.seqNo) := EventValue(Marker(r.seqNo, requestId))]
  }

  lemma MarkJournal(kv: Store, journal: seq<JournalEntry>, r: Record, requestId: string)
    requires JournalOk(kv, journal) && r.seqNo == |journal|
    ensures JournalOk(WithMarker(kv, r, requestId), journal + [Marker(r.seqNo, requestId)])
  {
  }

  lemma MarkDedup(kv: Store, limit: nat, records: seq<Remembered>, r: Record, requestId: string)
    requires DedupOk(kv, limit, records)
    ensures DedupOk(WithMarker(kv, r, requestId), limit, records)
  {
    assert GetOrder(WithMarker(kv, r, requestId)) == GetOrder(kv);
  }

  lemma MarkStorage(app: Application, cfg: Config, kv: Store, h: seq<Action>, requestId: string, r: Record, a: Action)
    requires Faithful(app, cfg, kv, h) && GetRecord(kv) == Some(r)
    requires a.TimedOut? && a.requestId == requestId && a.journaled && |Journal(h)| <= MAX_SAFE_INTEGER
    ensures Faithful(app, cfg, WithMarker(kv, r, requestId), h + [a])
  {
    Extend(app, h, a);
    MarkJournal(kv, Journal(h), r, requestId);
    MarkDedup(kv, cfg.dedupLimit, Records(app, h), r, requestId);
    assert Entries(|Journal(h)|, a) == [Marker(r.seqNo, requestId)];
  }

  lemma QuietMark(app: Application, cfg: Config, kv: Store, h: seq<Action>, a: Action)
    requires Faithful(app, cfg, kv, h) && a.TimedOut? && !a.journaled
    ensures Faithful(app, cfg, kv, h + [a])
  {
    Extend(app, h, a);
    assert Journal(h + [a]) == Journal(h);
  }

  lemma MarkBook(app: Application, cfg: Config, sys: System, step: Step)
    requires Inv(app, cfg, sys)
    requires Marks(sys, step) && Enabled(app, cfg, sys, step)
    requires CounterIsSafe(Apply(app, cfg, sys, step))
    ensures var sys' := Apply(app, cfg, sys, step);
            Faithful(app, cfg, sys'.store, sys'.history) && Serial(app, sys'.history)
                && Deduplicated(app, cfg.dedupLimit, sys'.history)
  {
    var h := sys.history;
    var a := TimedOut(step.t, sys.calls[step.t].requestId, step.MarkerPuts? && step.applied);
    assert Faithful(app, cfg, Apply(app, cfg, sys, step).store, h + [a]) by {
      assert CallOk(app, sys, step.t);
      Extend(app, h, a);
      assert Apply(app, cfg, sys, step).history == h + [a];
      if a.journaled {
        MarkStorage(app, cfg, sys.store, h, sys.calls[step.t].requestId, sys.calls[step.t].frame.record, a);
      } else {
        QuietMark(app, cfg, sys.store, h, a);
      }
    }
    UnsettledIsNew(app, sys, step.t);
    ExtendSerial(app, h, a);
    ExtendDeduplicated(app, cfg.dedupLimit, h, a);
  }

  lemma MarkCalls(app: Application, cfg: Config, sys: System, step: Step)
    requires CallsOk(app, sys)
    requires Marks(sys, step) && Enabled(app, cfg, sys, step)
    ensures CallsOk(app, Apply(app, cfg, sys, step))
  {
    var sys' := Apply(app, cfg, sys, step);
    assert CallOk(app, sys, step.t);
    RecordsGrow(app, sys.history, TimedOut(step.t, sys.calls[step.t].requestId, step.MarkerPuts? && step.applied));
    forall u | 0 <= u < |sys'.calls| ensures CallOk(app, sys', u) { assert CallOk(app, sys, u); }
    forall b | b in sys'.history ensures ActionOk(sys', b) {
      if b in sys.history { assert ActionOk(sys, b); }
    }
  }

  /** A marker read that finds the record only moves its own call. */
  lemma MarkReadCalls(app: Application, cfg: Config, sys: System, step: Step)
    requires CallsOk(app, sys)
    requires step.MarkerReads? && Enabled(app, cfg, sys, step) && !Marks(sys, step)
    ensures CallsOk(app, Apply(app, cfg, sys, step))
  {
    var sys' := Apply(app, cfg, sys, step);
    assert CallOk(app, sys, step.t);
    OthersKeep(app, sys, sys', step.t);
    UnsettledIsNew(app, sys, step.t);
    assert forall a | a in sys.history && !a.Forgot? :: a.caller in Settled(sys.history);
    ActionsKeep(sys, sys', step.t);
  }

  lemma ArriveCalls(app: Application, cfg: Config, sys: System, step: Step)
    requires CallsOk(app, sys) && step.Arrive?
    ensures CallsOk(app, Apply(app, cfg, sys, step))
  {
    var sys' := Apply(app, cfg, sys, step);
    forall u | 0 <= u < |sys'.calls| ensures CallOk(app, sys', u) {
      if u < |sys.calls| { assert CallOk(app, sys, u); }
    }
    forall a | a in sys'.history ensures ActionOk(sys', a) { assert ActionOk(sys, a); }
  }

  // ----- runs -----

  lemma StepKeeps(app: Application, cfg: Config, sys: System, step: Step)
    requires Inv(app, cfg, sys) && Enabled(app, cfg, sys, step) && cfg.dedupLimit >= 1
    requires CounterIsSafe(Apply(app, cfg, sys, step))
    ensures Inv(app, cfg, Apply(app, cfg, sys, step))
  {
    match step
    case Arrive(_, _) => ArriveCalls(app, cfg, sys, step);
    case InstallPuts(_, applied, _) =>
      if applied { InstallKeeps(app, cfg, sys, step); } else { LoadCalls(app, cfg, sys, step); }
    case CheckDedup(_) => CheckCalls(app, cfg, sys, step);
    case CommitPuts(_, applied, _) =>
      if applied { CommitCalls(app, cfg, sys, step); CommitBook(app, cfg, sys, step); } else { ClosingCalls(app, cfg, sys, step); }
    case Evict(_, _) => EvictKeeps(app, cfg, sys, step);
    case MarkerReads(_, _) =>
      if Marks(sys, step) { MarkCalls(app, cfg, sys, step); MarkBook(app, cfg, sys,
          step); } else { MarkReadCalls(app, cfg, sys, step); }
    case MarkerPuts(_, _) =>
      MarkCalls(app, cfg, sys, step);
      MarkBook(app, cfg, sys, step);
    case _ =>
      if LoadStep(step) { LoadCalls(app, cfg, sys, step); }
      else if RaceStep(step) { RaceCalls(app, cfg, sys, step); }
      else { ClosingCalls(app, cfg, sys, step); }
  }

  lemma NextKeeps(app: Application, cfg: Config, steps: seq<Step>, run: seq<System>, i: nat)
    requires Execution(app, cfg, steps, run) && 0 < i < |run| && cfg.dedupLimit >= 1
    requires CounterIsSafe(run[i]) && Inv(app, cfg, run[i - 1])
    ensures Inv(app, cfg, run[i])
  {
    StepKeeps(app, cfg, run[i - 1], steps[i - 1]);
  }

  lemma SafeBefore(app: Application, cfg: Config, steps: seq<Step>, run: seq<System>, i: nat)
    requires Execution(app, cfg, steps, run) && 0 < i < |run| && CounterIsSafe(run[i])
    ensures CounterIsSafe(run[i - 1])
  {
    HistoryOnlyGrows(app, cfg, steps, run, i - 1, i);
    JournalGrows(run[i - 1].history, run[i].history);
  }

  /**
   * Every reachable state of every run: storage is what the history says, and
   * the history obeys the contract.
   */
  lemma {:induction false} RunsAreSerial(app: Application, cfg: Config, steps: seq<Step>, run: seq<System>, i: nat)
    requires Execution(app, cfg, steps, run) && i < |run| && cfg.dedupLimit >= 1
    requires CounterIsSafe(run[i])
    ensures Inv(app, cfg, run[i])
  {
    if i > 0 {
      SafeBefore(app, cfg, steps, run, i);
      RunsAreSerial(app, cfg, steps, run, i - 1);
      NextKeeps(app, cfg, steps, run, i);
    }
  }

  lemma {:induction false} HistoryOnlyGrows(app: Application, cfg: Config, steps: seq<Step>, run: seq<System>, i: nat, j: nat)
    requires Execution(app, cfg, steps, run) && i <= j < |run|
    ensures run[i].history <= run[j].history
  {
    if i < j {
      HistoryOnlyGrows(app, cfg, steps, run, i, j - 1);
      assert run[j] == Apply(app, cfg, run[j - 1], steps[j - 1]);
    }
  }

  /**
   * What an uncloneable result leaves on the in-process host: the record moved,
   * the index lists the request, but no history explains the missing entry, and
   * a retry goes on to `receive`.
   */
  lemma UncloneableResultIsUnfaithful(app: Application, cfg: Config, kv: Store, r: Record, requestId: string,
                                      fingerprint: string, turn: Turn, c: Call)
    requires DedupKey(requestId) !in kv && cfg.dedupLimit >= 1
    requires c.phase.Loaded? && c.requestId == requestId
    ensures var kv' := kv + (CommitBatch(cfg, r, GetOrder(kv), requestId, fingerprint, turn) - {DedupKey(requestId)});
            && GetRecord(kv') == Some(Record(turn.after, BumpBy(r.seqNo, |turn.events|)))
            && requestId in GetOrder(kv')
            && (forall h :: !Faithful(app, cfg, kv', h))
            && CheckCall(app, kv', c).phase.Computing?
  {
    var order := GetOrder(kv) + [requestId];
    var kv' := kv + (CommitBatch(cfg, r, GetOrder(kv), requestId, fingerprint, turn) - {DedupKey(requestId)});
    var ids := Window(cfg.dedupLimit, order);
    assert GetOrder(kv') == ids && ids[|ids| - 1] == requestId;
    forall h ensures !Faithful(app, cfg, kv', h) {
      var w := Window(cfg.dedupLimit, Records(app, h));
      if ids == RequestIds(w) { assert w[|ids| - 1] in w; }
    }
  }

  /** A turn about to commit always finds the record, so the "vanished" error cannot happen. */
  lemma RecordNeverVanishes(app: Application, cfg: Config, steps: seq<Step>, run: seq<System>, i: nat, t: nat)
    requires Execution(app, cfg, steps, run) && i < |run| && cfg.dedupLimit >= 1
    requires CounterIsSafe(run[i])
    requires Enabled(app, cfg, run[i], CommitReadsRecord(t))
    ensures GetRecord(run[i].store).Some?
  {
    RunsAreSerial(app, cfg, steps, run, i);
    assert CallOk(app, run[i], t);
  }

  /** The state a commit overwrites is the one its `receive` was given. */
  lemma CommitOverwritesWhatItRead(app: Application, cfg: Config, steps: seq<Step>, run: seq<System>, i: nat, t: nat)
    requires Execution(app, cfg, steps, run) && i < |run| && cfg.dedupLimit >= 1
    requires CounterIsSafe(run[i])
    requires Enabled(app, cfg, run[i], CommitPuts(t, true, true))
    ensures GetRecord(run[i].store).Some? && GetRecord(run[i].store).value.state == run[i].calls[t].phase.input
    ensures DedupKey(run[i].calls[t].requestId) !in run[i].store
  {
    RunsAreSerial(app, cfg, steps, run, i);
    assert CallOk(app, run[i], t);
  }

  /** Once its deadline fired, a turn's own code can write one thing only: a first record. */
  lemma ExpiredTurnsWriteNoMore(app: Application, cfg: Config, sys: System, step: Step)
    requires Inv(app, cfg, sys) && Enabled(app, cfg, sys, step)
    requires !step.Arrive? && sys.calls[step.t].outcome.Expired?
    requires !step.MarkerReads? && !step.MarkerPuts?
    ensures Apply(app, cfg, sys, step).history == sys.history
    ensures Apply(app, cfg, sys, step).store == sys.store
            || (sys.store == map[]
                && exists init :: Apply(app, cfg, sys, step).store == map[RecordKey := RecordValue(Record(init, 0))])
  {
    assert CallOk(app, sys, step.t);
    if step.InstallPuts? && step.applied {
      assert Apply(app, cfg, sys, step).store == map[RecordKey := RecordValue(Record(sys.calls[step.t].phase.init, 0))];
    }
  }

  /** A reply is backed by a commit of the same request and the same command fingerprint. */
  lemma RepliesAreBacked(app: Application, cfg: Config, sys: System, t: nat)
    requires Inv(app, cfg, sys) && t < |sys.calls| && sys.calls[t].outcome.Returned?
    ensures exists k :: 0 <= k < |Commits(sys.history)| && Commits(sys.history)[k].Committed?
                        && Commits(sys.history)[k].requestId == sys.calls[t].requestId
                        && app.fingerprint(Commits(sys.history)[k].command) == app.fingerprint(sys.calls[t].command)
                        && Commits(sys.history)[k].turn.result == sys.calls[t].outcome.result
  {
    assert CallOk(app, sys, t);
    RecordsFollowCommits(app, sys.history);
    var c := sys.calls[t];
    var k :| 0 <= k < |Records(app, sys.history)|
             && Records(app, sys.history)[k] == Remembered(c.requestId, app.fingerprint(c.command), c.outcome.result);
    assert Records(app, sys.history)[k] == Remember(app, Commits(sys.history)[k]);
  }

  /** Journal keys in storage are exactly the positions 0 to seq - 1. */
  lemma JournalKeysAreExact(app: Application, cfg: Config, steps: seq<Step>, run: seq<System>, i: nat, n: nat)
    requires Execution(app, cfg, steps, run) && i < |run| && cfg.dedupLimit >= 1
    requires CounterIsSafe(run[i])
    ensures var kv := run[i].store;
            EventKey(n) in kv <==> GetRecord(kv).Some? && n < GetRecord(kv).value.seqNo
    ensures EventKey(n) in run[i].store ==>
              run[i].store[EventKey(n)].EventValue? && run[i].store[EventKey(n)].entry.seqNo == n
  {
    RunsAreSerial(app, cfg, steps, run, i);
    JournalIsNumbered(run[i].history);
  }

  /**
   * `readEvents` returns the journal, in commit order: text order of the event
   * keys in storage is position order.
   */
  lemma ReadEventsIsTheJournal(app: Application, cfg: Config, steps: seq<Step>, run: seq<System>, i: nat, ks: seq<string>)
    requires Execution(app, cfg, steps, run) && i < |run| && cfg.dedupLimit >= 1
    requires CounterIsSafe(run[i])
    requires TextOrdered(ks)
    requires forall k :: k in ks <==> exists n: nat :: EventKey(n) in run[i].store && k == Render(EventKey(n))
    ensures |ks| == |Journal(run[i].history)|
    ensures forall n: nat | n < |ks| ::
              ks[n] == Render(EventKey(n)) && EventKey(n) in run[i].store
              && run[i].store[EventKey(n)] == EventValue(Journal(run[i].history)[n])
  {
    RunsAreSerial(app, cfg, steps, run, i);
    var journal := Journal(run[i].history);
    var all := JournalKeys(|journal|);
    forall k ensures k in ks <==> k in all {
      if k in all {
        var n :| 0 <= n < |all| && all[n] == k;
        assert EventKey(n) in run[i].store;
      }
      if k in ks {
        var n: nat :| EventKey(n) in run[i].store && k == Render(EventKey(n));
        assert all[n] == k;
      }
    }
    SafeCountersFit();
    JournalListsInOrderIff(ks, |journal|);
  }

  /**
   * The order index lists exactly the last `dedupLimit` committed requests, in
   * commit order and all different; each has its entry; and every entry there
   * is, listed or left behind by a failed eviction, replays its own last commit.
   */
  lemma DedupIndexIsTheWindow(app: Application, cfg: Config, steps: seq<Step>, run: seq<System>, i: nat)
    requires Execution(app, cfg, steps, run) && i < |run| && cfg.dedupLimit >= 1
    requires CounterIsSafe(run[i])
    ensures var kv, records := run[i].store, Records(app, run[i].history);
            && GetOrder(kv) == RequestIds(Window(cfg.dedupLimit, records))
            && (forall j, k | 0 <= j < k < |GetOrder(kv)| :: GetOrder(kv)[j] != GetOrder(kv)[k])
            && (forall id | id in GetOrder(kv) :: DedupKey(id) in kv)
            && (forall id | DedupKey(id) in kv ::
                  Latest(id, records).Some?
                  && kv[DedupKey(id)] == DedupValue(Latest(id, records).value.fingerprint, Latest(id, records).value.result))
  {
    RunsAreSerial(app, cfg, steps, run, i);
    var kv, h := run[i].store, run[i].history;
    var w := Window(cfg.dedupLimit, Records(app, h));
    forall j, k | 0 <= j < k < |GetOrder(kv)| ensures GetOrder(kv)[j] != GetOrder(kv)[k] {
      WindowIsDistinct(app, cfg.dedupLimit, h, j, k);
    }
    forall id | id in GetOrder(kv) ensures DedupKey(id) in kv {
      var k :| 0 <= k < |GetOrder(kv)| && GetOrder(kv)[k] == id;
      assert w[k] in w;
    }
  }
}
