/**
 * The Durable Object actor: one object, one identity. Load and `receive` race
 * the deadline; the commit runs after the race, in a storage section that every
 * read-modify-write of the object goes through.
 *
 * Every storage call is its own step, so calls of different turns interleave
 * anywhere. A write may fail, or be applied and still be reported as failed.
 */
module DurableObject {
  import opened Basics
  import opened Options
  import opened SerialSpec
  import opened DurableStorage

  const MAX_EVENTS_PER_TURN := 100

  datatype Config = Config(dedupLimit: nat, deadlineMs: int)

  datatype Record = Record(state: Payload, seqNo: nat)

  datatype Value =
    | RecordValue(record: Record)
    | OrderValue(ids: seq<string>)
    | DedupValue(fingerprint: string, result: Payload)
    | EventValue(entry: JournalEntry)

  type Store = map<Key, Value>

  /** Where a turn's own code is. Phases from `Deciding` on lie after the race. */
  datatype Phase =
    | Waiting
    | Loading
    | Initializing
    | Installing(init: Payload)
    | InstallRead(init: Payload)
    | InstallWrite(init: Payload)
    | Loaded(state: Payload)
    | Computing(input: Payload)
    | Deciding(input: Payload, turn: Turn)
    | Committing(input: Payload, turn: Turn)
    | RecordRead(input: Payload, turn: Turn, record: Record)
    | OrderRead(input: Payload, turn: Turn, record: Record, order: seq<string>)
    | Evicting(result: Payload, evicted: seq<string>)
    | Ended

  /** Where the call that owns the turn is: racing, recording a timeout, or off the seat. */
  datatype Frame = Racing | MarkRead | MarkWrite(record: Record) | Marked | Left

  datatype Outcome = Pending | Returned(result: Payload) | Expired | Failed

  datatype Call = Call(requestId: string, command: Payload, phase: Phase, frame: Frame, expired: bool,
                       startedAt: int, outcome: Outcome)

  /** Who is inside the storage section. */
  datatype Owner = Nobody | Work(t: nat) | MarkerOf(t: nat)

  datatype System = System(store: Store, owner: Owner, calls: seq<Call>, history: seq<Action>)

  datatype Step =
    | Arrive(requestId: string, command: Payload)
    | Start(t: nat, now: int)
    | ReadRecord(t: nat)
    | InitialStateResolves(t: nat, state: Payload)
    | EnterInstall(t: nat)
    | InstallReads(t: nat)
    | InstallPuts(t: nat, applied: bool, acknowledged: bool)
    | CheckDedup(t: nat)
    | ReceiveResolves(t: nat, turn: Turn)
    | WorkFails(t: nat, ownTimeout: bool)
    | TimerFires(t: nat)
    | EnterCommit(t: nat, now: int)
    | CommitReadsRecord(t: nat)
    | CommitReadsOrder(t: nat)
    | CommitPuts(t: nat, applied: bool, acknowledged: bool)
    | Evict(t: nat, removed: set<string>)
    | EnterMarker(t: nat)
    | MarkerReads(t: nat, fails: bool)
    | MarkerPuts(t: nat, applied: bool)
    | Leave(t: nat)

  const EMPTY := System(map[], Nobody, [], [])

  // ----- storage reads -----

  function GetRecord(kv: Store): Option<Record> {
    if RecordKey in kv && kv[RecordKey].RecordValue? then Some(kv[RecordKey].record) else None
  }

  function GetOrder(kv: Store): seq<string> {
    if OrderKey in kv && kv[OrderKey].OrderValue? then kv[OrderKey].ids else []
  }

  function GetDedup(kv: Store, requestId: string): Option<Value> {
    if DedupKey(requestId) in kv && kv[DedupKey(requestId)].DedupValue? then Some(kv[DedupKey(requestId)]) else None
  }

  // ----- the counter -----

  /** JavaScript's `n + 1` for a counter that starts at 0: at 2^53 it rounds back to 2^53. */
  function Bump(n: nat): nat {
    if n <= MAX_SAFE_INTEGER then n + 1 else n
  }

  /** The counter after `k` increments. */
  function BumpBy(n: nat, k: nat): nat {
    if k == 0 then n else Bump(BumpBy(n, k - 1))
  }

  lemma {:induction false} BumpByIs(n: nat, k: nat)
    requires n <= MAX_SAFE_INTEGER + 1
    ensures BumpBy(n, k) == Min(n + k, MAX_SAFE_INTEGER + 1)
  {
    if k > 0 { BumpByIs(n, k - 1); }
  }

  /** The positions of a journal are kept apart by its counter up to 2^53 entries. */
  ghost predicate CounterIsSafe(sys: System) {
    |Journal(sys.history)| <= MAX_SAFE_INTEGER + 1
  }

  // ----- the commit's batch -----

  function EventAt(at: nat, requestId: string, seatKeyId: string, event: Payload): Value {
    EventValue(JournalEntry(at, requestId, seatKeyId, Domain(event)))
  }

  function EventEntries(start: nat, requestId: string, seatKeyId: string, events: seq<Payload>): (m: Store)
    ensures forall k | k in m :: k.EventKey?
  {
    if events == [] then map[]
    else
      var n := |events| - 1;
      var at := BumpBy(start, n);
      EventEntries(start, requestId, seatKeyId, events[..n])[EventKey(at) := EventAt(at, requestId, seatKeyId, events[n])]
  }

  /** Everything one commit writes, as the single multi-key `put`. */
  function CommitBatch(cfg: Config, record: Record, order: seq<string>, requestId: string, fingerprint: string, turn: Turn): Store {
    EventEntries(record.seqNo, requestId, turn.seatKeyId, turn.events)[
    RecordKey := RecordValue(Record(turn.after, BumpBy(record.seqNo, |turn.events|)))][
    OrderKey := OrderValue(Window(cfg.dedupLimit, order + [requestId]))][
    DedupKey(requestId) := DedupValue(fingerprint, turn.result)]
  }

  /** Under position `i` is entry `i - start`, if there is one, and nothing otherwise. */
  ghost predicate HoldsAt(batch: Store, start: nat, entries: seq<JournalEntry>, i: nat) {
    && (EventKey(i) in batch <==> start <= i < start + |entries|)
    && (start <= i < start + |entries| ==> batch[EventKey(i)] == EventValue(entries[i - start]))
  }

  /** Exactly these entries, each under its own position. */
  ghost predicate Holds(batch: Store, start: nat, entries: seq<JournalEntry>) {
    forall i: nat :: HoldsAt(batch, start, entries, i)
  }

  lemma {:induction false} EventsAreExact(start: nat, requestId: string, seatKeyId: string, events: seq<Payload>, i: nat)
    requires start + |events| <= MAX_SAFE_INTEGER + 1
    ensures HoldsAt(EventEntries(start, requestId, seatKeyId, events), start, Stamp(start, requestId, seatKeyId, events), i)
  {
    if events != [] {
      EventsAreExact(start, requestId, seatKeyId, events[..|events| - 1], i);
      BumpByIs(start, |events| - 1);
    }
  }

  lemma {:induction false} PositionsAreWritten(start: nat, requestId: string, seatKeyId: string, events: seq<Payload>, k: nat)
    requires k < |events|
    ensures EventKey(BumpBy(start, k)) in EventEntries(start, requestId, seatKeyId, events)
  {
    if k < |events| - 1 { PositionsAreWritten(start, requestId, seatKeyId, events[..|events| - 1], k); }
  }

  /** What a commit should write: its events on from the record's counter, and the counter behind them. */
  ghost predicate Exactly(batch: Store, record: Record, requestId: string, turn: Turn) {
    && Holds(batch, record.seqNo, Stamp(record.seqNo, requestId, turn.seatKeyId, turn.events))
    && GetRecord(batch) == Some(Record(turn.after, record.seqNo + |turn.events|))
  }

  lemma BatchIsExact(cfg: Config, record: Record, order: seq<string>, requestId: string, fingerprint: string, turn: Turn)
    requires record.seqNo + |turn.events| <= MAX_SAFE_INTEGER + 1
    ensures Exactly(CommitBatch(cfg, record, order, requestId, fingerprint, turn), record, requestId, turn)
  {
    var batch := CommitBatch(cfg, record, order, requestId, fingerprint, turn);
    var stamped := Stamp(record.seqNo, requestId, turn.seatKeyId, turn.events);
    BumpByIs(record.seqNo, |turn.events|);
    forall i: nat ensures HoldsAt(batch, record.seqNo, stamped, i) {
      EventsAreExact(record.seqNo, requestId, turn.seatKeyId, turn.events, i);
    }
  }

  /**
   * A commit writes its events and the counter right exactly while the counter
   * stays within 2^53; past that, the next event is written over one of this
   * commit's own.
   */
  lemma BatchIsExactIff(cfg: Config, record: Record, order: seq<string>, requestId: string, fingerprint: string, turn: Turn)
    requires record.seqNo <= MAX_SAFE_INTEGER + 1
    ensures var batch := CommitBatch(cfg, record, order, requestId, fingerprint, turn);
            var fits := record.seqNo + |turn.events| <= MAX_SAFE_INTEGER + 1;
            && (Exactly(batch, record, requestId, turn) <==> fits)
            && (EventKey(GetRecord(batch).value.seqNo) in batch <==> !fits)
  {
    var batch := CommitBatch(cfg, record, order, requestId, fingerprint, turn);
    var n := record.seqNo + |turn.events|;
    BumpByIs(record.seqNo, |turn.events|);
    if n <= MAX_SAFE_INTEGER + 1 {
      BatchIsExact(cfg, record, order, requestId, fingerprint, turn);
      assert HoldsAt(batch, record.seqNo, Stamp(record.seqNo, requestId, turn.seatKeyId, turn.events), n);
    } else {
      BumpByIs(record.seqNo, |turn.events| - 1);
      PositionsAreWritten(record.seqNo, requestId, turn.seatKeyId, turn.events, |turn.events| - 1);
    }
  }

  function Overflow(cfg: Config, order: seq<string>): seq<string> {
    if |order| <= cfg.dedupLimit then [] else order[..|order| - cfg.dedupLimit]
  }

  /** The eviction loop of `#commit`: push, then shift while too long. */
  method PushAndEvict(cfg: Config, order: seq<string>, requestId: string) returns (ids: seq<string>, evicted: seq<string>)
    ensures ids == Window(cfg.dedupLimit, order + [requestId])
    ensures evicted == Overflow(cfg, order + [requestId])
    ensures evicted + ids == order + [requestId]
  {
    ids, evicted := order + [requestId], [];
    while |ids| > cfg.dedupLimit
      invariant evicted + ids == order + [requestId]
      invariant |evicted| > 0 ==> |ids| >= cfg.dedupLimit
    {
      evicted := evicted + [ids[0]];
      ids := ids[1..];
    }
    assert ids == (order + [requestId])[|evicted|..] && evicted == (order + [requestId])[..|evicted|];
  }

  /** The numbering loop of `#commit`, and the batch it fills. */
  method BuildBatch(cfg: Config, record: Record, order: seq<string>, requestId: string, fingerprint: string, turn: Turn)
    returns (batch: Store, evicted: seq<string>)
    ensures batch == CommitBatch(cfg, record, order, requestId, fingerprint, turn)
    ensures evicted == Overflow(cfg, order + [requestId])
  {
    var ids;
    ids, evicted := PushAndEvict(cfg, order, requestId);
    batch := map[];
    var seqNo := record.seqNo;
    var k := 0;
    while k < |turn.events|
      invariant 0 <= k <= |turn.events| && seqNo == BumpBy(record.seqNo, k)
      invariant batch == EventEntries(record.seqNo, requestId, turn.seatKeyId, turn.events[..k])
    {
      assert turn.events[..k + 1][..k] == turn.events[..k];
      batch := batch[EventKey(seqNo) := EventValue(JournalEntry(seqNo, requestId, turn.seatKeyId, Domain(turn.events[k])))];
      seqNo := Bump(seqNo);
      k := k + 1;
    }
    assert turn.events[..k] == turn.events;
    batch := batch[RecordKey := RecordValue(Record(turn.after, seqNo))][OrderKey := OrderValue(ids)][
    DedupKey(requestId) := DedupValue(fingerprint, turn.result)];
  }

  // ----- the batch on the in-process host -----

  function EventsInOrder(start: nat, requestId: string, seatKeyId: string, events: seq<Payload>): (batch: seq<(Key, Value)>)
    ensures forall i | 0 <= i < |batch| :: batch[i].0.EventKey?
  {
    if events == [] then []
    else
      var n := |events| - 1;
      var at := BumpBy(start, n);
      EventsInOrder(start, requestId, seatKeyId, events[..n]) + [(EventKey(at), EventAt(at, requestId, seatKeyId, events[n]))]
  }

  /** What `put` sets before the dedup entry. */
  function FirstInOrder(cfg: Config, record: Record, order: seq<string>, requestId: string, turn: Turn): seq<(Key, Value)> {
    EventsInOrder(record.seqNo, requestId, turn.seatKeyId, turn.events)
    + [(RecordKey, RecordValue(Record(turn.after, BumpBy(record.seqNo, |turn.events|))))]
    + [(OrderKey, OrderValue(Window(cfg.dedupLimit, order + [requestId])))]
  }

  /** The batch in the order it was filled, which is the order `put` sets it in. */
  function InOrder(cfg: Config, record: Record, order: seq<string>, requestId: string, fingerprint: string, turn: Turn)
    : seq<(Key, Value)>
  {
    FirstInOrder(cfg, record, order, requestId, turn) + [(DedupKey(requestId), DedupValue(fingerprint, turn.result))]
  }

  function Printed(batch: seq<(Key, Value)>): (texts: seq<(string, Value)>)
    ensures |texts| == |batch| && forall i | 0 <= i < |texts| :: texts[i] == (Render(batch[i].0), batch[i].1)
  {
    seq(|batch|, i requires 0 <= i < |batch| => (Render(batch[i].0), batch[i].1))
  }

  /** The storage class's map has this store under its printed keys. */
  ghost predicate Shows(entries: map<string, Value>, kv: Store) {
    && (forall k :: Render(k) in entries <==> k in kv)
    && (forall k | k in kv :: Render(k) in entries && entries[Render(k)] == kv[k])
  }

  /** What `put` leaves of a batch. */
  function AfterPut(entries: map<string, Value>, batch: seq<(Key, Value)>, cloneable: Value -> bool): map<string, Value> {
    PutAll(entries, Printed(batch)[..Accepted(Printed(batch), cloneable)])
  }

  lemma {:induction false} PutShows(entries: map<string, Value>, kv: Store, batch: seq<(Key, Value)>)
    requires Shows(entries, kv)
    ensures Shows(PutAll(entries, Printed(batch)), PutAll(kv, batch))
  {
    if batch != [] {
      var front, last := batch[..|batch| - 1], batch[|batch| - 1];
      PutShows(entries, kv, front);
      assert Printed(batch)[..|batch| - 1] == Printed(front);
      var shown, stored := PutAll(entries, Printed(front)), PutAll(kv, front);
      forall k ensures Render(k) in shown[Render(last.0) := last.1] <==> k in stored[last.0 := last.1] {
        if Render(k) == Render(last.0) { RenderIsInjective(k, last.0); }
      }
      forall k | k in stored[last.0 := last.1]
        ensures Render(k) in shown[Render(last.0) := last.1]
        ensures shown[Render(last.0) := last.1][Render(k)] == stored[last.0 := last.1][k]
      {
        if Render(k) == Render(last.0) { RenderIsInjective(k, last.0); }
      }
    }
  }

  lemma {:induction false} EventsArePut(kv: Store, start: nat, requestId: string, seatKeyId: string, events: seq<Payload>)
    ensures PutAll(kv, EventsInOrder(start, requestId, seatKeyId, events)) == kv + EventEntries(start, requestId, seatKeyId, events)
  {
    if events != [] {
      var n := |events| - 1;
      EventsArePut(kv, start, requestId, seatKeyId, events[..n]);
      assert EventsInOrder(start, requestId, seatKeyId, events)[..|EventsInOrder(start, requestId, seatKeyId, events)| - 1]
             == EventsInOrder(start, requestId, seatKeyId, events[..n]);
    }
  }

  lemma PutOneMore<K, V>(m: map<K, V>, batch: seq<(K, V)>, k: K, v: V)
    ensures PutAll(m, batch + [(k, v)]) == PutAll(m, batch)[k := v]
  {
    assert (batch + [(k, v)])[..|batch|] == batch;
  }

  lemma SetBeforeOrAfter<K, V>(m: map<K, V>, n: map<K, V>, a: K, x: V, b: K, y: V, c: K, z: V)
    requires a != c && b != c && c !in n
    ensures (m + n)[a := x][b := y] == m + (n[a := x][b := y][c := z] - {c})
  {
  }

  lemma FirstIsPut(cfg: Config, kv: Store, record: Record, order: seq<string>, requestId: string, fingerprint: string, turn: Turn)
    ensures PutAll(kv, FirstInOrder(cfg, record, order, requestId, turn))
            == kv + (CommitBatch(cfg, record, order, requestId, fingerprint, turn) - {DedupKey(requestId)})
  {
    var events := EventsInOrder(record.seqNo, requestId, turn.seatKeyId, turn.events);
    var r := RecordValue(Record(turn.after, BumpBy(record.seqNo, |turn.events|)));
    var o := OrderValue(Window(cfg.dedupLimit, order + [requestId]));
    EventsArePut(kv, record.seqNo, requestId, turn.seatKeyId, turn.events);
    PutOneMore(kv, events, RecordKey, r);
    PutOneMore(kv, events + [(RecordKey, r)], OrderKey, o);
    SetBeforeOrAfter(kv, EventEntries(record.seqNo, requestId, turn.seatKeyId, turn.events), RecordKey, r, OrderKey, o,
                     DedupKey(requestId), DedupValue(fingerprint, turn.result));
  }

  lemma InOrderIsPut(cfg: Config, kv: Store, record: Record, order: seq<string>, requestId: string, fingerprint: string, turn: Turn)
    ensures PutAll(kv, InOrder(cfg, record, order, requestId, fingerprint, turn))
            == kv + CommitBatch(cfg, record, order, requestId, fingerprint, turn)
  {
    FirstIsPut(cfg, kv, record, order, requestId, fingerprint, turn);
    PutOneMore(kv, FirstInOrder(cfg, record, order, requestId, turn), DedupKey(requestId), DedupValue(fingerprint, turn.result));
  }

  /** When every value can be cloned, the in-process `put` writes the commit's whole batch. */
  lemma CloneablePutIsWhole(cfg: Config, entries: map<string, Value>, kv: Store, record: Record, order: seq<string>,
                            requestId: string, fingerprint: string, turn: Turn, cloneable: Value -> bool)
    requires Shows(entries, kv)
    requires forall e | e in InOrder(cfg, record, order, requestId, fingerprint, turn) :: cloneable(e.1)
    ensures Shows(AfterPut(entries, InOrder(cfg, record, order, requestId, fingerprint, turn), cloneable),
                  kv + CommitBatch(cfg, record, order, requestId, fingerprint, turn))
  {
    var batch := InOrder(cfg, record, order, requestId, fingerprint, turn);
    forall i | 0 <= i < |batch| ensures cloneable(Printed(batch)[i].1) { assert batch[i] in batch; }
    AcceptedIs(Printed(batch), cloneable, |batch|);
    assert Printed(batch)[..|batch|] == Printed(batch);
    PutShows(entries, kv, batch);
    InOrderIsPut(cfg, kv, record, order, requestId, fingerprint, turn);
  }

  /** A result that cannot be cloned stops the `put` with everything written but the dedup entry. */
  lemma UncloneableResultStopsPut(cfg: Config, entries: map<string, Value>, kv: Store, record: Record, order: seq<string>,
                                  requestId: string, fingerprint: string, turn: Turn, cloneable: Value -> bool)
    requires Shows(entries, kv)
    requires forall e | e in FirstInOrder(cfg, record, order, requestId, turn) :: cloneable(e.1)
    requires !cloneable(DedupValue(fingerprint, turn.result))
    ensures Shows(AfterPut(entries, InOrder(cfg, record, order, requestId, fingerprint, turn), cloneable),
                  kv + (CommitBatch(cfg, record, order, requestId, fingerprint, turn) - {DedupKey(requestId)}))
  {
    var batch := InOrder(cfg, record, order, requestId, fingerprint, turn);
    var first := FirstInOrder(cfg, record, order, requestId, turn);
    forall i | 0 <= i < |first| ensures cloneable(Printed(batch)[i].1) { assert batch[i] == first[i] && first[i] in first; }
    AcceptedIs(Printed(batch), cloneable, |first|);
    assert Printed(batch)[..|first|] == Printed(first);
    PutShows(entries, kv, first);
    FirstIsPut(cfg, kv, record, order, requestId, fingerprint, turn);
  }

  lemma {:induction false} PutKeys<K, V>(m: map<K, V>, batch: seq<(K, V)>, k: K)
    ensures k in PutAll(m, batch) <==> k in m || exists i :: 0 <= i < |batch| && batch[i].0 == k
  {
    if batch != [] { PutKeys(m, batch[..|batch| - 1], k); }
  }

  /**
   * The in-process `put` of a commit is all or nothing, whatever it meets,
   * exactly when all its values can be cloned or the first cannot.
   */
  lemma CommitPutIsWholeIff(cfg: Config, record: Record, order: seq<string>, requestId: string, fingerprint: string, turn: Turn,
                            cloneable: Value -> bool)
    ensures var batch := InOrder(cfg, record, order, requestId, fingerprint, turn);
            (forall entries ::
               AfterPut(entries, batch, cloneable) == entries
               || AfterPut(entries, batch, cloneable) == PutAll(entries, Printed(batch)))
            <==> (forall e | e in batch :: cloneable(e.1)) || !cloneable(batch[0].1)
  {
    var batch := InOrder(cfg, record, order, requestId, fingerprint, turn);
    var n := Accepted(Printed(batch), cloneable);
    if n == |batch| {
      assert Printed(batch)[..n] == Printed(batch);
      forall e | e in batch ensures cloneable(e.1) {
        var i :| 0 <= i < |batch| && batch[i] == e;
        assert Printed(batch)[i].1 == e.1;
      }
    } else if n == 0 {
      assert Printed(batch)[..n] == [];
    } else {
      PartIsNeither(batch, cloneable, requestId);
      assert batch[n] in batch;
    }
  }

  lemma PartIsNeither(batch: seq<(Key, Value)>, cloneable: Value -> bool, requestId: string)
    requires 0 < Accepted(Printed(batch), cloneable) < |batch|
    requires batch[|batch| - 1].0 == DedupKey(requestId)
    requires forall i | 0 <= i < |batch| - 1 :: !batch[i].0.DedupKey?
    ensures AfterPut(map[], batch, cloneable) != map[]
    ensures AfterPut(map[], batch, cloneable) != PutAll(map[], Printed(batch))
  {
    var n, texts, k := Accepted(Printed(batch), cloneable), Printed(batch), Render(DedupKey(requestId));
    PutKeys(map[], texts[..n], texts[0].0);
    assert texts[..n][0].0 == texts[0].0;
    PutKeys(map[], texts[..n], k);
    PutKeys(map[], texts, k);
    assert texts[|batch| - 1].0 == k;
    forall i | 0 <= i < n ensures texts[..n][i].0 != k {
      if texts[i].0 == k { RenderIsInjective(batch[i].0, DedupKey(requestId)); }
    }
  }

  // ----- steps -----

  /** Phases the deadline still races. */
  predicate Raced(p: Phase) {
    p.Loading? || p.Initializing? || p.Installing? || p.InstallRead? || p.InstallWrite? || p.Loaded? || p.Computing?
  }

  /** Phases that may fail without having entered the section. */
  predicate Outside(p: Phase) {
    p.Loading? || p.Initializing? || p.Loaded? || p.Computing?
  }

  predicate InSection(p: Phase) {
    p.InstallRead? || p.InstallWrite? || p.Committing? || p.RecordRead? || p.OrderRead? || p.Evicting?
  }

  ghost predicate Enabled(app: Application, cfg: Config, sys: System, step: Step) {
    step.Arrive? || (
      && step.t < |sys.calls|
      && var c := sys.calls[step.t];
         match step
         case Start(t, _) => c.phase.Waiting? && (t == 0 || sys.calls[t - 1].frame.Left?)
         case ReadRecord(_) => c.phase.Loading?
         case InitialStateResolves(_, state) => c.phase.Initializing? && app.initial(state)
         case EnterInstall(_) => c.phase.Installing? && sys.owner.Nobody?
         case InstallReads(_) => c.phase.InstallRead?
         case InstallPuts(_, applied, acknowledged) => c.phase.InstallWrite? && (acknowledged ==> applied)
         case CheckDedup(_) => c.phase.Loaded?
         case ReceiveResolves(_, turn) => c.phase.Computing? && app.receive(c.command, c.phase.input, turn)
         case WorkFails(_, _) => Outside(c.phase) || c.phase.InstallRead? || c.phase.Committing? || c.phase.RecordRead?
         case TimerFires(_) => Raced(c.phase) && c.outcome.Pending?
         case EnterCommit(_, _) => c.phase.Deciding? && sys.owner.Nobody?
         case CommitReadsRecord(_) => c.phase.Committing?
         case CommitReadsOrder(_) => c.phase.RecordRead?
         case CommitPuts(_, applied, acknowledged) => c.phase.OrderRead? && (acknowledged ==> applied)
         case Evict(_, removed) => c.phase.Evicting? && forall id | id in removed :: id in c.phase.evicted
         case EnterMarker(_) => c.outcome.Expired? && c.frame.Racing? && sys.owner.Nobody?
         case MarkerReads(_, _) => c.frame.MarkRead?
         case MarkerPuts(_, _) => c.frame.MarkWrite?
         case Leave(_) => !c.outcome.Pending? && (if c.outcome.Expired? then c.frame.Marked? else c.frame.Racing?)
         case _ => false)
  }

  function Settle(c: Call, outcome: Outcome): Call {
    c.(phase := Ended, outcome := if c.outcome.Pending? then outcome else c.outcome)
  }

  function Put(sys: System, t: nat, c: Call): System
    requires t < |sys.calls|
  {
    sys.(calls := sys.calls[t := c])
  }

  function Apply(app: Application, cfg: Config, sys: System, step: Step): System
    requires Enabled(app, cfg, sys, step)
  {
    if step.Arrive? then
      sys.(calls := sys.calls + [Call(step.requestId, step.command, Waiting, Racing, false, 0, Pending)])
    else
      var t, c := step.t, sys.calls[step.t];
      match step
      case Start(_, now) => Put(sys, t, c.(phase := Loading, startedAt := now))
      case ReadRecord(_) =>
        Put(sys, t, c.(phase := match GetRecord(sys.store) case Some(r) => Loaded(r.state) case None => Initializing))
      case InitialStateResolves(_, state) => Put(sys, t, c.(phase := Installing(state)))
      case EnterInstall(_) => Put(sys, t, c.(phase := InstallRead(c.phase.init))).(owner := Work(t))
      case InstallReads(_) =>
        (match GetRecord(sys.store)
         case Some(r) => Put(sys, t, c.(phase := Loaded(r.state))).(owner := Nobody)
         case None => Put(sys, t, c.(phase := InstallWrite(c.phase.init))))
      case InstallPuts(_, applied, acknowledged) => AfterInstall(sys, t, applied, acknowledged)
      case CheckDedup(_) => Put(sys, t, CheckCall(app, sys.store, c))
      case ReceiveResolves(_, turn) =>
        Put(sys, t,
            if |turn.events| > MAX_EVENTS_PER_TURN then Settle(c, Failed)
            else if c.outcome.Pending? then c.(phase := Deciding(c.phase.input, turn))
            else c.(phase := Ended))
      case WorkFails(_, ownTimeout) =>
        Put(sys, t, Settle(c, if ownTimeout && Outside(c.phase) then Expired else Failed)).(
        owner := if Outside(c.phase) then sys.owner else Nobody)
      case TimerFires(_) => Put(sys, t, c.(expired := true, outcome := Expired))
      case EnterCommit(_, now) =>
        if c.expired || now - c.startedAt > cfg.deadlineMs then Put(sys, t, Settle(c, Expired))
        else Put(sys, t, c.(phase := Committing(c.phase.input, c.phase.turn))).(owner := Work(t))
      case CommitReadsRecord(_) =>
        (match GetRecord(sys.store)
         case Some(r) => Put(sys, t, c.(phase := RecordRead(c.phase.input, c.phase.turn, r)))
         case None => Put(sys, t, Settle(c, Failed)).(owner := Nobody))
      case CommitReadsOrder(_) =>
        Put(sys, t, c.(phase := OrderRead(c.phase.input, c.phase.turn, c.phase.record, GetOrder(sys.store))))
      case CommitPuts(_, applied, acknowledged) => AfterCommit(app, cfg, sys, t, applied, acknowledged)
      case Evict(_, removed) =>
        Put(sys, t, Settle(c, Returned(c.phase.result))).(
        owner := Nobody, store := sys.store - (set id | id in removed :: DedupKey(id)))
      case EnterMarker(_) => Put(sys, t, c.(frame := MarkRead)).(owner := MarkerOf(t))
      case MarkerReads(_, fails) =>
        if fails || GetRecord(sys.store).None? then
          Put(sys, t, c.(frame := Marked)).(owner := Nobody, history := sys.history + [TimedOut(t, c.requestId, false)])
        else Put(sys, t, c.(frame := MarkWrite(GetRecord(sys.store).value)))
      case MarkerPuts(_, applied) => AfterMarker(sys, t, applied)
      case Leave(_) => Put(sys, t, c.(frame := Left))
  }

  function CheckCall(app: Application, kv: Store, c: Call): Call
    requires c.phase.Loaded?
  {
    match GetDedup(kv, c.requestId)
    case Some(v) =>
      Settle(c, if v.fingerprint == app.fingerprint(c.command) then Returned(v.result) else Failed)
    case None => c.(phase := Computing(c.phase.state))
  }

  function AfterInstall(sys: System, t: nat, applied: bool, acknowledged: bool): System
    requires t < |sys.calls| && sys.calls[t].phase.InstallWrite?
  {
    var c := sys.calls[t];
    var sys' := Put(sys, t, if acknowledged then c.(phase := Loaded(c.phase.init)) else Settle(c, Failed)).(owner := Nobody);
    if applied then sys'.(store := sys.store[RecordKey := RecordValue(Record(c.phase.init, 0))]) else sys'
  }

  function AfterCommit(app: Application, cfg: Config, sys: System, t: nat, applied: bool, acknowledged: bool): System
    requires t < |sys.calls| && sys.calls[t].phase.OrderRead?
  {
    var c := sys.calls[t];
    var p := c.phase;
    var sys' := if acknowledged
                then Put(sys, t, c.(phase := Evicting(p.turn.result, Overflow(cfg, p.order + [c.requestId]))))
                else Put(sys, t, Settle(c, Failed)).(owner := Nobody);
    if applied then
      sys'.(store := sys.store + CommitBatch(cfg, p.record, p.order, c.requestId, app.fingerprint(c.command), p.turn),
      history := sys.history + [Committed(t, c.requestId, c.command, p.input, p.turn)])
    else sys'
  }

  function AfterMarker(sys: System, t: nat, applied: bool): System
    requires t < |sys.calls| && sys.calls[t].frame.MarkWrite?
  {
    var c := sys.calls[t];
    var r := c.frame.record;
    Put(sys, t, c.(frame := Marked)).(
    owner := Nobody,
    history := sys.history + [TimedOut(t, c.requestId, applied)],
    store := if applied
             then sys.store[RecordKey := RecordValue(r.(seqNo := Bump(r.seqNo)))][
             EventKey(r.seqNo) := EventValue(Marker(r.seqNo, c.requestId))]
             else sys.store)
  }

  /** Every step was possible when its turn came, and led to the next state. */
  ghost predicate Follows(app: Application, cfg: Config, steps: seq<Step>, run: seq<System>) {
    && |run| == |steps| + 1
    && forall i | 0 <= i < |steps| :: Enabled(app, cfg, run[i], steps[i]) && run[i + 1] == Apply(app, cfg, run[i], steps[i])
  }

  ghost predicate Execution(app: Application, cfg: Config, steps: seq<Step>, run: seq<System>) {
    Follows(app, cfg, steps, run) && run[0] == EMPTY
  }
}
