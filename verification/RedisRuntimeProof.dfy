/** Every run of the Redis runtime obeys the contract of `SerialSpec`. */
module RedisRuntimeProof {
  import opened Basics
  import opened Options
  import opened Decimal
  import opened SerialSpec
  import opened RedisScripts
  import opened RedisRuntime

  // ----- lease tokens -----

  /** A lease has one holder. */
  lemma OneHolder(cfg: Config, db: Db, t: nat, u: nat)
    requires OneUse(cfg) && LeaseHeld(db, cfg.token(t)) && u != t
    ensures !LeaseHeld(db, cfg.token(u))
  {
  }

  /** A step leaves a token current only if it was current, or if the step is that turn's own first acquire. */
  lemma HeldBefore(app: Application, cfg: Config, sys: System, step: Step, u: nat)
    requires OneUse(cfg) && Enabled(app, sys, step) && LeaseHeld(Apply(app, cfg, sys, step).db, cfg.token(u))
    ensures LeaseHeld(sys.db, cfg.token(u))
            || ((step.AcquireRuns? || step.LateAcquireRuns?) && step.t == u && LeaseKey !in sys.db.keys)
  {
  }

  // ----- calls -----

  /** Steps that touch neither Redis nor the history. */
  predicate Local(step: Step) {
    || step.AcquireFails? || step.CheckDedup? || step.ReadState? || step.InitialStateResolves? || step.WorkFails?
    || step.TimerFires? || step.ReceiveResolves? || step.LeaseFlaggedLost? || step.SendCommit? || step.CommitAnswered?
    || step.CallerGivesUp?
  }

  predicate LeaseStep(step: Step) {
    step.AcquireRuns? || step.LateAcquireRuns? || step.RenewRuns? || step.ReleaseRuns? || step.LeaseExpires?
  }

  /** A reply found in the dedup hash was committed. */
  lemma DedupIsBacked(app: Application, cfg: Config, db: Db, h: seq<Action>, id: string)
    requires DedupIs(app, cfg, db, h) && Lossless(cfg.codec) && id in Fields(db)
    ensures var (fingerprint, result) := cfg.codec.decode(Fields(db)[id]);
            Remembered(id, fingerprint, result) in Records(app, h)
  {
    RememberedWasCommitted(app, h, id);
  }

  /** What a move of one call may not disturb: a call whose script has answered keeps what the history says of it. */
  predicate KeepsAnswer(c: Call, c': Call) {
    && c'.requestId == c.requestId && c'.command == c.command
    && (c.answer.Some? ==> c'.phase == c.phase && c'.answer == c.answer && (c.outcome.Expired? ==> c'.outcome.Expired?))
  }

  /** Moving one call alone leaves the others and the history in order. */
  lemma Moved(app: Application, cfg: Config, sys: System, t: nat, c': Call)
    requires CallsOk(app, cfg, sys) && t < |sys.calls| && KeepsAnswer(sys.calls[t], c')
    requires CallOk(app, cfg, Put(sys, t, c'), t)
    ensures CallsOk(app, cfg, Put(sys, t, c'))
  {
    var sys' := Put(sys, t, c');
    forall u | 0 <= u < |sys'.calls| ensures CallOk(app, cfg, sys', u) {
      if u != t { assert CallOk(app, cfg, sys, u); }
    }
    forall a | a in sys'.history ensures ActionOk(sys', a) { assert ActionOk(sys, a); }
  }

  lemma CheckedCall(app: Application, cfg: Config, sys: System, t: nat, now: int)
    requires CallsOk(app, cfg, sys) && Lossless(cfg.codec) && DedupIs(app, cfg, sys.db, sys.history)
    requires t < |sys.calls| && sys.calls[t].phase.Holding?
    ensures var c' := CheckCall(app, cfg, sys.db, sys.calls[t], now);
            KeepsAnswer(sys.calls[t], c') && CallOk(app, cfg, Put(sys, t, c'), t)
  {
    assert CallOk(app, cfg, sys, t);
    if sys.calls[t].requestId in Fields(sys.db) {
      DedupIsBacked(app, cfg, sys.db, sys.history, sys.calls[t].requestId);
    }
  }

  lemma ReadCall(app: Application, cfg: Config, sys: System, step: Step)
    requires CallsOk(app, cfg, sys) && Enabled(app, sys, step) && (step.ReadState? || step.InitialStateResolves?)
    requires WellTyped(sys.db) && StateIs(sys.db, sys.history)
    ensures CallsOk(app, cfg, Apply(app, cfg, sys, step))
  {
    assert CallOk(app, cfg, sys, step.t);
    var c' := Apply(app, cfg, sys, step).calls[step.t];
    assert CallOk(app, cfg, Put(sys, step.t, c'), step.t);
    Moved(app, cfg, sys, step.t, c');
  }

  lemma PlainCall(app: Application, cfg: Config, sys: System, step: Step)
    requires CallsOk(app, cfg, sys) && Enabled(app, sys, step) && Local(step)
    requires !step.CheckDedup? && !step.ReadState? && !step.InitialStateResolves?
    ensures CallsOk(app, cfg, Apply(app, cfg, sys, step))
  {
    assert CallOk(app, cfg, sys, step.t);
    var c' := Apply(app, cfg, sys, step).calls[step.t];
    assert CallOk(app, cfg, Put(sys, step.t, c'), step.t);
    Moved(app, cfg, sys, step.t, c');
  }

  lemma LocalCalls(app: Application, cfg: Config, sys: System, step: Step)
    requires CallsOk(app, cfg, sys) && Enabled(app, sys, step) && Local(step)
    requires Lossless(cfg.codec) && WellTyped(sys.db) && StateIs(sys.db, sys.history) && DedupIs(app, cfg, sys.db, sys.history)
    ensures CallsOk(app, cfg, Apply(app, cfg, sys, step))
  {
    if step.CheckDedup? {
      CheckedCall(app, cfg, sys, step.t, step.now);
      Moved(app, cfg, sys, step.t, CheckCall(app, cfg, sys.db, sys.calls[step.t], step.now));
    } else if step.ReadState? || step.InitialStateResolves? {
      ReadCall(app, cfg, sys, step);
    } else {
      PlainCall(app, cfg, sys, step);
    }
  }

  lemma LeaseCalls(app: Application, cfg: Config, sys: System, step: Step)
    requires OneUse(cfg) && CallsOk(app, cfg, sys) && Enabled(app, sys, step) && LeaseStep(step)
    ensures CallsOk(app, cfg, Apply(app, cfg, sys, step))
  {
    var sys' := Apply(app, cfg, sys, step);
    forall u | 0 <= u < |sys'.calls| ensures CallOk(app, cfg, sys', u) {
      assert CallOk(app, cfg, sys, u);
      if LeaseHeld(sys'.db, cfg.token(u)) { HeldBefore(app, cfg, sys, step, u); }
    }
    forall u: nat | LeaseHeld(sys'.db, cfg.token(u)) ensures u < |sys'.calls| {
      HeldBefore(app, cfg, sys, step, u);
    }
    forall a | a in sys'.history ensures ActionOk(sys', a) { assert ActionOk(sys, a); }
  }

  lemma ArriveCalls(app: Application, cfg: Config, sys: System, step: Step)
    requires CallsOk(app, cfg, sys) && step.Arrive?
    ensures CallsOk(app, cfg, Apply(app, cfg, sys, step))
  {
    var sys' := Apply(app, cfg, sys, step);
    forall u | 0 <= u < |sys'.calls| ensures CallOk(app, cfg, sys', u) {
      if u < |sys.calls| { assert CallOk(app, cfg, sys, u); }
    }
    forall a | a in sys'.history ensures ActionOk(sys', a) { assert ActionOk(sys, a); }
  }

  lemma ForgetCalls(app: Application, cfg: Config, sys: System, step: Step)
    requires CallsOk(app, cfg, sys) && step.DedupExpires?
    ensures CallsOk(app, cfg, Apply(app, cfg, sys, step))
  {
    var sys' := Apply(app, cfg, sys, step);
    Extend(app, sys.history, Forgot);
    forall u | 0 <= u < |sys'.calls| ensures CallOk(app, cfg, sys', u) { assert CallOk(app, cfg, sys, u); }
    forall a | a in sys'.history ensures ActionOk(sys', a) {
      if a in sys.history { assert ActionOk(sys, a); }
    }
  }

  /** The commit script never touches the lease. */
  lemma CommitKeepsLease(db: Db, lua: int -> int, token: string, args: CommitArgs, events: seq<string>, u: string)
    ensures LeaseHeld(CommitScript(db, lua, token, args, |events|, events).1, u) <==> LeaseHeld(db, u)
  {
  }

  lemma MarkerKeepsLease(db: Db, lua: int -> int, requestId: string, event: string, capText: string, u: string)
    ensures LeaseHeld(FailureScript(db, lua, requestId, "", event, capText).1, u) <==> LeaseHeld(db, u)
  {
  }

  lemma CommitCalls(app: Application, cfg: Config, sys: System, step: Step)
    requires OneUse(cfg) && CallsOk(app, cfg, sys) && Enabled(app, sys, step) && step.CommitRuns?
    ensures CallsOk(app, cfg, Apply(app, cfg, sys, step))
  {
    var sys' := Apply(app, cfg, sys, step);
    var t := step.t;
    var c := sys.calls[t];
    var args := Args(app, cfg, c, step.ttlText, step.capText);
    assert CallOk(app, cfg, sys, t);
    var a := Committed(t, c.requestId, c.command, c.phase.input, c.phase.turn);
    RecordsGrow(app, sys.history, a);
    forall u: nat ensures LeaseHeld(sys'.db, cfg.token(u)) <==> LeaseHeld(sys.db, cfg.token(u)) {
      CommitKeepsLease(sys.db, cfg.lua, cfg.token(t), args, c.phase.turn.events, cfg.token(u));
    }
    forall u | 0 <= u < |sys'.calls| ensures CallOk(app, cfg, sys', u) {
      assert CallOk(app, cfg, sys, u);
      if u != t && sys'.history != sys.history { OneHolder(cfg, sys.db, t, u); }
    }
    forall b | b in sys'.history ensures ActionOk(sys', b) {
      if b in sys.history { assert ActionOk(sys, b); }
    }
  }

  /** A timed-out turn changes nothing any other turn knows. */
  lemma TimeoutKnown(app: Application, h: seq<Action>, a: Action, c: Call)
    requires a.TimedOut?
    ensures HolderKnows(app, h + [a], c) <==> HolderKnows(app, h, c)
    ensures Records(app, h + [a]) == Records(app, h)
  {
    Extend(app, h, a);
  }

  /** Recording a timeout ends its own call, and leaves leases and the other calls alone. */
  lemma TimeoutCalls(app: Application, cfg: Config, sys: System, sys': System, t: nat, a: Action)
    requires CallsOk(app, cfg, sys) && t < |sys.calls| && sys.calls[t].phase.Marking? && sys.calls[t].answer.None?
    requires a.TimedOut? && a.caller == t && a.requestId == sys.calls[t].requestId && sys'.history == sys.history + [a]
    requires |sys'.calls| == |sys.calls| && sys'.calls == sys.calls[t := sys'.calls[t]]
    requires exists reply :: sys'.calls[t] == sys.calls[t].(answer := Some(reply), outcome := Expired)
    requires forall u: nat :: LeaseHeld(sys'.db, cfg.token(u)) <==> LeaseHeld(sys.db, cfg.token(u))
    ensures CallsOk(app, cfg, sys')
  {
    forall u | 0 <= u < |sys'.calls| ensures CallOk(app, cfg, sys', u) {
      assert CallOk(app, cfg, sys, u);
      TimeoutKnown(app, sys.history, a, sys.calls[u]);
    }
    forall b | b in sys'.history ensures ActionOk(sys', b) {
      if b in sys.history { assert ActionOk(sys, b); }
    }
  }

  lemma MarkerCalls(app: Application, cfg: Config, sys: System, step: Step)
    requires CallsOk(app, cfg, sys) && Enabled(app, sys, step) && (step.MarkerRuns? || step.MarkerDropped?)
    ensures CallsOk(app, cfg, Apply(app, cfg, sys, step))
  {
    var sys' := Apply(app, cfg, sys, step);
    var t := step.t;
    var c := sys.calls[t];
    if step.MarkerRuns? {
      var (reply, db) := FailureScript(sys.db, cfg.lua, c.requestId, "", cfg.codec.timeoutEvent, step.capText);
      forall u: nat ensures LeaseHeld(sys'.db, cfg.token(u)) <==> LeaseHeld(sys.db, cfg.token(u)) {
        MarkerKeepsLease(sys.db, cfg.lua, c.requestId, cfg.codec.timeoutEvent, step.capText, cfg.token(u));
      }
      assert sys'.calls[t] == c.(answer := Some(reply), outcome := Expired);
      TimeoutCalls(app, cfg, sys, sys', t, TimedOut(t, c.requestId, reply == Answer(1)));
    } else {
      assert sys'.calls[t] == c.(answer := Some(Raised), outcome := Expired);
      TimeoutCalls(app, cfg, sys, sys', t, TimedOut(t, c.requestId, false));
    }
  }

  // ----- the journal stream -----

  lemma PrintMore(cfg: Config, a: seq<JournalEntry>, e: JournalEntry)
    ensures PrintAll(cfg, a + [e]) == PrintAll(cfg, a) + [Print(cfg, e)]
  {
    assert (a + [e])[..|a|] == a;
  }

  lemma {:induction false} PrintAppend(cfg: Config, a: seq<JournalEntry>, b: seq<JournalEntry>)
    ensures PrintAll(cfg, a + b) == PrintAll(cfg, a) + PrintAll(cfg, b)
  {
    if b == [] {
      assert a + b == a;
      assert PrintAll(cfg, a) + [] == PrintAll(cfg, a);
    } else {
      var front, e := b[..|b| - 1], b[|b| - 1];
      assert b == front + [e];
      PrintAppend(cfg, a, front);
      PrintMore(cfg, a + front, e);
      PrintMore(cfg, front, e);
      AppendAssociates(a, front, [e]);
      AppendAssociates(PrintAll(cfg, a), PrintAll(cfg, front), [Print(cfg, e)]);
    }
  }

  /** Where Lua numbers are exact, the script prints the positions the journal has. */
  lemma {:induction false} NumberedIsPrinted(cfg: Config, base: nat, requestId: string, seatKeyId: string, events: seq<Payload>)
    requires Exact(cfg.lua) && base + |events| <= MAX_SAFE_INTEGER
    ensures Numbered(cfg.lua, base, requestId, seatKeyId, events) == PrintAll(cfg, Stamp(base, requestId, seatKeyId, events))
  {
    if events != [] {
      var n := |events| - 1;
      NumberedIsPrinted(cfg, base, requestId, seatKeyId, events[..n]);
      assert Stamp(base, requestId, seatKeyId, events)[..n] == Stamp(base, requestId, seatKeyId, events[..n]);
    }
  }

  lemma SuffixGrows<T>(part: seq<T>, whole: seq<T>, more: seq<T>)
    requires Suffix(part, whole)
    ensures Suffix(part + more, whole + more)
  {
  }

  lemma SuffixShrinks<T>(cap: nat, part: seq<T>, whole: seq<T>)
    requires Suffix(part, whole)
    ensures Suffix(Window(cap, part), whole)
  {
  }

  lemma SafeCounterReads(db: Db, n: nat, count: nat)
    requires Counter(db) == Some(n) && n + count <= MAX_SAFE_INTEGER && count > 0
    ensures Counter(WithCounter(db, count)) == Some(n + count) && Incrementable(db, count)
  {
    IntegerReads(n + count);
  }

  /** Appending to a faithful stream, with or without trimming, leaves a faithful stream. */
  lemma AppendIsFaithful(cfg: Config, log: seq<StreamEntry>, journal: seq<JournalEntry>, added: seq<JournalEntry>, cap: Option<nat>)
    requires Suffix(log, PrintAll(cfg, journal))
    ensures Suffix(Retain(cap, log + PrintAll(cfg, added)), PrintAll(cfg, journal + added))
  {
    PrintAppend(cfg, journal, added);
    SuffixGrows(log, PrintAll(cfg, journal), PrintAll(cfg, added));
    if cap.Some? {
      SuffixShrinks(cap.value, log + PrintAll(cfg, added), PrintAll(cfg, journal + added));
    }
  }

  // ----- storage after each script -----

  lemma EntriesUnderLog(db: Db, cap: Option<nat>, entries: seq<StreamEntry>)
    requires WellTyped(db)
    ensures var after := WithEntries(db, cap, entries);
            WellTyped(after) && Counter(after) == Counter(db)
                && Log(after) == if entries == [] then Log(db) else Retain(cap, Log(db) + entries)
  {
  }

  lemma TurnBesideLog(db: Db, state: string, requestId: string, result: string, ttlText: string)
    requires WellTyped(db)
    ensures var after := WithTurn(db, state, requestId, result, ttlText);
            WellTyped(after) && Counter(after) == Counter(db) && Log(after) == Log(db)
  {
  }

  /** What a commit's writes leave under the counter and the log key. */
  lemma WrittenJournal(db: Db, lua: int -> int, args: CommitArgs, events: seq<Payload>)
    requires WellTyped(db) && Counter(db).Some?
    ensures var after := Written(db, lua, args, |events|, events);
            && WellTyped(after)
            && Counter(after) == Counter(WithCounter(db, |events|))
            && Log(after) == if events == [] then Log(db)
                             else Retain(CapOf(args.capText), Log(db) + Numbered(lua, Base(db, lua, |events|),
                                 args.requestId, args.seatKeyId, events))
  {
    var one := WithCounter(db, |events|);
    CounterBesideLog(db, |events|);
    TurnBesideLog(one, args.state, args.requestId, args.result, args.ttlText);
    EntriesUnderLog(WithTurn(one, args.state, args.requestId, args.result, args.ttlText), CapOf(args.capText),
                    Numbered(lua, Base(db, lua, |events|), args.requestId, args.seatKeyId, events));
  }

  /** The script's numbering, appended to a faithful stream, leaves a faithful stream. */
  lemma NumberedIsFaithful(cfg: Config, log: seq<StreamEntry>, journal: seq<JournalEntry>, requestId: string, seatKeyId: string,
                           events: seq<Payload>, cap: Option<nat>)
    requires Exact(cfg.lua) && Suffix(log, PrintAll(cfg, journal)) && |journal| + |events| <= MAX_SAFE_INTEGER
    ensures Suffix(Retain(cap, log + Numbered(cfg.lua, |journal|, requestId, seatKeyId, events)),
                   PrintAll(cfg, journal + Stamp(|journal|, requestId, seatKeyId, events)))
  {
    NumberedIsPrinted(cfg, |journal|, requestId, seatKeyId, events);
    AppendIsFaithful(cfg, log, journal, Stamp(|journal|, requestId, seatKeyId, events), cap);
  }

  lemma SafeBase(db: Db, lua: int -> int, n: nat, count: nat)
    requires Exact(lua) && Counter(db) == Some(n) && n + count <= MAX_SAFE_INTEGER && count > 0
    ensures Base(db, lua, count) == n
  {
  }

  lemma CommitCounter(cfg: Config, db: Db, n: nat, args: CommitArgs, events: seq<Payload>)
    requires WellTyped(db) && Counter(db) == Some(n) && n + |events| <= MAX_SAFE_INTEGER
    ensures WellTyped(Written(db, cfg.lua, args, |events|, events))
    ensures Counter(Written(db, cfg.lua, args, |events|, events)) == Some(n + |events|)
  {
    WrittenJournal(db, cfg.lua, args, events);
    if events != [] { SafeCounterReads(db, n, |events|); }
  }

  lemma CommitJournal(cfg: Config, db: Db, h: seq<Action>, args: CommitArgs, events: seq<Payload>)
    requires Exact(cfg.lua) && WellTyped(db) && JournalIs(cfg, db, h) && |Journal(h)| + |events| <= MAX_SAFE_INTEGER
    ensures Suffix(Log(Written(db, cfg.lua, args, |events|, events)),
                   PrintAll(cfg, Journal(h) + Stamp(|Journal(h)|, args.requestId, args.seatKeyId, events)))
  {
    var n := |Journal(h)|;
    WrittenJournal(db, cfg.lua, args, events);
    if events == [] {
      assert Journal(h) + Stamp(n, args.requestId, args.seatKeyId, events) == Journal(h);
    } else {
      SafeBase(db, cfg.lua, n, |events|);
      NumberedIsFaithful(cfg, Log(db), Journal(h), args.requestId, args.seatKeyId, events, CapOf(args.capText));
    }
  }

  /** A commit's state and dedup record are what the history extended by it says. */
  lemma CommitRecords(app: Application, cfg: Config, db: Db, db': Db, h: seq<Action>, a: Action)
    requires a.Committed? && DedupIs(app, cfg, db, h)
    requires StateKey in db'.keys && db'.keys[StateKey] == Str(a.turn.after)
    requires Fields(db') == Fields(db)[a.requestId := cfg.codec.encode(app.fingerprint(a.command), a.turn.result)]
    ensures StateIs(db', h + [a]) && DedupIs(app, cfg, db', h + [a])
  {
    Extend(app, h, a);
  }

  lemma WrittenFields(db: Db, lua: int -> int, args: CommitArgs, events: seq<string>)
    requires |events| > 0 ==> Counter(db).Some?
    ensures var after := Written(db, lua, args, |events|, events);
            && StateKey in after.keys && after.keys[StateKey] == Str(args.state)
            && Fields(after) == Fields(db)[args.requestId := args.result]
  {
    WrittenByKey(db, lua, args, |events|, events);
  }

  /** What a commit's writes leave under the state and dedup keys. */
  lemma CommitState(app: Application, cfg: Config, db: Db, h: seq<Action>, args: CommitArgs, a: Action)
    requires a.Committed? && DedupIs(app, cfg, db, h) && (a.turn.events != [] ==> Counter(db).Some?)
    requires args.state == a.turn.after && args.requestId == a.requestId
    requires args.result == cfg.codec.encode(app.fingerprint(a.command), a.turn.result)
    ensures var after := Written(db, cfg.lua, args, |a.turn.events|, a.turn.events);
            StateIs(after, h + [a]) && DedupIs(app, cfg, after, h + [a])
  {
    WrittenFields(db, cfg.lua, args, a.turn.events);
    CommitRecords(app, cfg, db, Written(db, cfg.lua, args, |a.turn.events|, a.turn.events), h, a);
  }

  /** The parts of a faithful store. */
  lemma Assembled(app: Application, cfg: Config, db: Db, h: seq<Action>, journal: seq<JournalEntry>)
    requires WellTyped(db) && StateIs(db, h) && DedupIs(app, cfg, db, h)
    requires journal == Journal(h) && Counter(db) == Some(|journal|) && Suffix(Log(db), PrintAll(cfg, journal))
    ensures Faithful(app, cfg, db, h)
  {
  }

  lemma CommitAssembled(app: Application, cfg: Config, db: Db, h: seq<Action>, args: CommitArgs, a: Action, journal: seq<JournalEntry>)
    requires a.Committed? && args.requestId == a.requestId && args.seatKeyId == a.turn.seatKeyId
    requires WellTyped(db) && StateIs(db, h + [a]) && DedupIs(app, cfg, db, h + [a])
    requires journal == Journal(h) + Stamp(|Journal(h)|, args.requestId, args.seatKeyId, a.turn.events)
    requires Counter(db) == Some(|journal|) && Suffix(Log(db), PrintAll(cfg, journal))
    ensures Faithful(app, cfg, db, h + [a])
  {
    CommitEntries(app, h, a, args);
    Assembled(app, cfg, db, h + [a], journal);
  }

  lemma CommitStorage(app: Application, cfg: Config, db: Db, h: seq<Action>, args: CommitArgs, a: Action)
    requires Faithful(app, cfg, db, h) && Exact(cfg.lua) && a.Committed? && |Journal(h)| + |a.turn.events| <= MAX_SAFE_INTEGER
    requires args.state == a.turn.after && args.requestId == a.requestId && args.seatKeyId == a.turn.seatKeyId
    requires args.result == cfg.codec.encode(app.fingerprint(a.command), a.turn.result)
    ensures Faithful(app, cfg, Written(db, cfg.lua, args, |a.turn.events|, a.turn.events), h + [a])
  {
    CommitCounter(cfg, db, |Journal(h)|, args, a.turn.events);
    CommitJournal(cfg, db, h, args, a.turn.events);
    CommitState(app, cfg, db, h, args, a);
    CommitAssembled(app, cfg, Written(db, cfg.lua, args, |a.turn.events|, a.turn.events), h, args, a,
                    Journal(h) + Stamp(|Journal(h)|, args.requestId, args.seatKeyId, a.turn.events));
  }

  lemma CommitEntries(app: Application, h: seq<Action>, a: Action, args: CommitArgs)
    requires a.Committed? && args.requestId == a.requestId && args.seatKeyId == a.turn.seatKeyId
    ensures var added := Stamp(|Journal(h)|, args.requestId, args.seatKeyId, a.turn.events);
            Journal(h + [a]) == Journal(h) + added && |Journal(h) + added| == |Journal(h)| + |a.turn.events|
  {
    Extend(app, h, a);
  }

  lemma CommitBook(app: Application, cfg: Config, sys: System, step: Step)
    requires Inv(app, cfg, sys) && Exact(cfg.lua)
    requires Enabled(app, sys, step) && step.CommitRuns?
    requires CounterIsSafe(Apply(app, cfg, sys, step))
    ensures var sys' := Apply(app, cfg, sys, step);
            Faithful(app, cfg, sys'.db, sys'.history)
  {
    var c := sys.calls[step.t];
    var h := sys.history;
    var events := c.phase.turn.events;
    var args := Args(app, cfg, c, step.ttlText, step.capText);
    var a := Committed(step.t, c.requestId, c.command, c.phase.input, c.phase.turn);
    CommitIsAllOrNothing(sys.db, cfg.lua, cfg.token(step.t), args, events);
    Extend(app, h, a);
    if CommitScript(sys.db, cfg.lua, cfg.token(step.t), args, |events|, events).0 == Answer(1) {
      CommitStorage(app, cfg, sys.db, h, args, a);
    }
  }

  lemma CommitIsLegal(app: Application, cfg: Config, sys: System, step: Step)
    requires Inv(app, cfg, sys)
    requires Enabled(app, sys, step) && step.CommitRuns?
    ensures var sys' := Apply(app, cfg, sys, step);
            Serial(app, sys'.history) && FreshSinceForgot(app, sys'.history)
  {
    var t := step.t;
    var c := sys.calls[t];
    if Apply(app, cfg, sys, step).history != sys.history {
      var a := Committed(t, c.requestId, c.command, c.phase.input, c.phase.turn);
      assert LeaseHeld(sys.db, cfg.token(t));
      assert CallOk(app, cfg, sys, t);
      UnsettledIsNew(app, cfg, sys, t);
      ExtendSerial(app, sys.history, a);
      ExtendFresh(app, sys.history, a);
    }
  }

  lemma UnsettledIsNew(app: Application, cfg: Config, sys: System, t: nat)
    requires CallsOk(app, cfg, sys) && t < |sys.calls| && sys.calls[t].answer.None?
    ensures t !in Settled(sys.history)
  {
    forall a | a in sys.history && !a.Forgot? ensures a.caller != t {
      assert ActionOk(sys, a);
    }
  }

  /** A timeout nobody journaled leaves storage as the history says. */
  lemma SilentActions(app: Application, cfg: Config, db: Db, h: seq<Action>, a: Action)
    requires Faithful(app, cfg, db, h) && a.TimedOut? && !a.journaled
    ensures Faithful(app, cfg, db, h + [a])
  {
    Extend(app, h, a);
    assert Journal(h + [a]) == Journal(h);
  }

  lemma MarkerIsPrinted(cfg: Config, n: nat, requestId: string)
    requires Exact(cfg.lua) && n <= MAX_SAFE_INTEGER
    ensures Numbered(cfg.lua, n, requestId, "", [cfg.codec.timeoutEvent]) == PrintAll(cfg, [Marker(n, requestId)])
  {
    assert [cfg.codec.timeoutEvent][..0] == [];
    assert [Marker(n, requestId)][..0] == [];
  }

  function MarkedDb(cfg: Config, db: Db, requestId: string, cap: Option<nat>): Db
    requires Counter(db).Some?
  {
    WithEntries(WithCounter(db, 1), cap, Numbered(cfg.lua, Base(db, cfg.lua, 1), requestId, "", [cfg.codec.timeoutEvent]))
  }

  lemma MarkerLog(cfg: Config, db: Db, requestId: string, cap: Option<nat>)
    requires WellTyped(db) && Counter(db).Some?
    ensures var after := MarkedDb(cfg, db, requestId, cap);
            && WellTyped(after) && Counter(after) == Counter(WithCounter(db, 1))
            && Log(after) == Retain(cap, Log(db) + Numbered(cfg.lua, Base(db, cfg.lua, 1), requestId, "", [cfg.codec.timeoutEvent]))
  {
    CounterBesideLog(db, 1);
    EntriesUnderLog(WithCounter(db, 1), cap, Numbered(cfg.lua, Base(db, cfg.lua, 1), requestId, "", [cfg.codec.timeoutEvent]));
  }

  lemma MarkerSuffix(cfg: Config, log: seq<StreamEntry>, journal: seq<JournalEntry>, requestId: string, cap: Option<nat>)
    requires Exact(cfg.lua) && Suffix(log, PrintAll(cfg, journal)) && |journal| <= MAX_SAFE_INTEGER
    ensures Suffix(Retain(cap, log + Numbered(cfg.lua, |journal|, requestId, "", [cfg.codec.timeoutEvent])),
                   PrintAll(cfg, journal + [Marker(|journal|, requestId)]))
  {
    MarkerIsPrinted(cfg, |journal|, requestId);
    AppendIsFaithful(cfg, log, journal, [Marker(|journal|, requestId)], cap);
  }

  lemma MarkerCounter(cfg: Config, db: Db, n: nat, requestId: string, cap: Option<nat>)
    requires Exact(cfg.lua) && WellTyped(db) && Counter(db) == Some(n) && n + 1 <= MAX_SAFE_INTEGER
    ensures Counter(MarkedDb(cfg, db, requestId, cap)) == Some(n + 1)
  {
    MarkerLog(cfg, db, requestId, cap);
    SafeCounterReads(db, n, 1);
  }

  lemma MarkerJournal(cfg: Config, db: Db, h: seq<Action>, requestId: string, cap: Option<nat>)
    requires Exact(cfg.lua) && WellTyped(db) && JournalIs(cfg, db, h) && |Journal(h)| + 1 <= MAX_SAFE_INTEGER
    ensures Suffix(Log(MarkedDb(cfg, db, requestId, cap)), PrintAll(cfg, Journal(h) + [Marker(|Journal(h)|, requestId)]))
  {
    SafeBase(db, cfg.lua, |Journal(h)|, 1);
    MarkerLog(cfg, db, requestId, cap);
    MarkerSuffix(cfg, Log(db), Journal(h), requestId, cap);
  }

  lemma CounterBesideLog(db: Db, count: nat)
    requires WellTyped(db) && Counter(db).Some?
    ensures WellTyped(WithCounter(db, count)) && Log(WithCounter(db, count)) == Log(db)
  {
  }

  /** A marker writes neither state nor dedup. */
  lemma MarkerKeys(cfg: Config, db: Db, requestId: string, cap: Option<nat>)
    requires Counter(db).Some?
    ensures var after := MarkedDb(cfg, db, requestId, cap);
            && Fields(after) == Fields(db)
            && (StateKey in after.keys <==> StateKey in db.keys)
            && (StateKey in db.keys ==> after.keys[StateKey] == db.keys[StateKey])
  {
  }

  lemma MarkerAssembled(app: Application, cfg: Config, db: Db, h: seq<Action>, a: Action, db': Db)
    requires StateIs(db, h) && DedupIs(app, cfg, db, h) && a.TimedOut? && a.journaled
    requires Fields(db') == Fields(db) && (StateKey in db'.keys <==> StateKey in db.keys)
    requires StateKey in db.keys ==> db'.keys[StateKey] == db.keys[StateKey]
    requires WellTyped(db') && Counter(db') == Some(|Journal(h)| + 1)
    requires Suffix(Log(db'), PrintAll(cfg, Journal(h) + [Marker(|Journal(h)|, a.requestId)]))
    ensures Faithful(app, cfg, db', h + [a])
  {
    Extend(app, h, a);
    Assembled(app, cfg, db', h + [a], Journal(h) + [Marker(|Journal(h)|, a.requestId)]);
  }

  lemma MarkedStorage(app: Application, cfg: Config, db: Db, h: seq<Action>, cap: Option<nat>, a: Action)
    requires Exact(cfg.lua) && Faithful(app, cfg, db, h)
    requires a.TimedOut? && a.journaled && |Journal(h)| + 1 <= MAX_SAFE_INTEGER
    ensures Faithful(app, cfg, MarkedDb(cfg, db, a.requestId, cap), h + [a])
  {
    MarkerLog(cfg, db, a.requestId, cap);
    MarkerCounter(cfg, db, |Journal(h)|, a.requestId, cap);
    MarkerJournal(cfg, db, h, a.requestId, cap);
    MarkerKeys(cfg, db, a.requestId, cap);
    MarkerAssembled(app, cfg, db, h, a, MarkedDb(cfg, db, a.requestId, cap));
  }

  lemma MarkerStorage(app: Application, cfg: Config, db: Db, h: seq<Action>, capText: string, a: Action)
    requires Exact(cfg.lua) && Faithful(app, cfg, db, h)
    requires a.TimedOut? && |Journal(h)| + (if a.journaled then 1 else 0) <= MAX_SAFE_INTEGER
    requires a.journaled <==> FailureScript(db, cfg.lua, a.requestId, "", cfg.codec.timeoutEvent, capText).0 == Answer(1)
    ensures Faithful(app, cfg, FailureScript(db, cfg.lua, a.requestId, "", cfg.codec.timeoutEvent, capText).1, h + [a])
  {
    if a.journaled {
      MarkedStorage(app, cfg, db, h, CapOf(capText), a);
    } else {
      SilentActions(app, cfg, db, h, a);
    }
  }

  lemma MarkerBook(app: Application, cfg: Config, sys: System, step: Step)
    requires Inv(app, cfg, sys) && Exact(cfg.lua)
    requires Enabled(app, sys, step) && (step.MarkerRuns? || step.MarkerDropped?)
    requires CounterIsSafe(Apply(app, cfg, sys, step))
    ensures var sys' := Apply(app, cfg, sys, step);
            Faithful(app, cfg, sys'.db, sys'.history) && Serial(app, sys'.history) && FreshSinceForgot(app, sys'.history)
  {
    var c := sys.calls[step.t];
    var h := sys.history;
    var a := Apply(app, cfg, sys, step).history[|h|];
    assert Apply(app, cfg, sys, step).history == h + [a];
    Extend(app, h, a);
    if step.MarkerRuns? {
      MarkerStorage(app, cfg, sys.db, h, step.capText, a);
    } else {
      SilentActions(app, cfg, sys.db, h, a);
    }
    UnsettledIsNew(app, cfg, sys, step.t);
    ExtendSerial(app, h, a);
    ExtendFresh(app, h, a);
  }

  function WithoutDedup(db: Db): Db {
    Db(db.keys - {DedupKey}, db.ttl - {DedupKey})
  }

  lemma WithoutDedupReads(db: Db)
    requires WellTyped(db)
    ensures var db' := WithoutDedup(db);
            && WellTyped(db') && Counter(db') == Counter(db) && Log(db') == Log(db) && Fields(db') == map[]
            && (StateKey in db'.keys <==> StateKey in db.keys)
            && (StateKey in db.keys ==> db'.keys[StateKey] == db.keys[StateKey])
  {
  }

  lemma ForgetStorage(app: Application, cfg: Config, db: Db, h: seq<Action>)
    requires Faithful(app, cfg, db, h)
    ensures Faithful(app, cfg, WithoutDedup(db), h + [Forgot])
  {
    Extend(app, h, Forgot);
    WithoutDedupReads(db);
    assert Journal(h + [Forgot]) == Journal(h);
  }

  lemma ForgetKeeps(app: Application, cfg: Config, sys: System, step: Step)
    requires Inv(app, cfg, sys) && step.DedupExpires?
    ensures Inv(app, cfg, Apply(app, cfg, sys, step))
  {
    ForgetCalls(app, cfg, sys, step);
    ForgetStorage(app, cfg, sys.db, sys.history);
    ExtendSerial(app, sys.history, Forgot);
    ExtendFresh(app, sys.history, Forgot);
  }

  ghost predicate SameButLease(db: Db, db': Db) {
    && LeaseReadable(db')
    && forall k | k != LeaseKey :: (k in db.keys <==> k in db'.keys) && (k in db.keys ==> db.keys[k] == db'.keys[k])
  }

  lemma LeaseStepsKeepKeys(app: Application, cfg: Config, sys: System, step: Step)
    requires LeaseReadable(sys.db) && Enabled(app, sys, step) && LeaseStep(step)
    ensures SameButLease(sys.db, Apply(app, cfg, sys, step).db)
  {
  }

  lemma LeaseIsNotState(app: Application, cfg: Config, db: Db, db': Db, h: seq<Action>)
    requires Faithful(app, cfg, db, h) && SameButLease(db, db')
    ensures Faithful(app, cfg, db', h)
  {
    assert Fields(db') == Fields(db) && Counter(db') == Counter(db) && Log(db') == Log(db);
  }

  // ----- runs -----

  lemma LocalKeeps(app: Application, cfg: Config, sys: System, step: Step)
    requires Inv(app, cfg, sys) && Enabled(app, sys, step) && Local(step) && Lossless(cfg.codec)
    ensures Inv(app, cfg, Apply(app, cfg, sys, step))
  {
    LocalCalls(app, cfg, sys, step);
  }

  lemma LeaseKeeps(app: Application, cfg: Config, sys: System, step: Step)
    requires Inv(app, cfg, sys) && Enabled(app, sys, step) && LeaseStep(step) && OneUse(cfg)
    ensures Inv(app, cfg, Apply(app, cfg, sys, step))
  {
    LeaseCalls(app, cfg, sys, step);
    LeaseStepsKeepKeys(app, cfg, sys, step);
    LeaseIsNotState(app, cfg, sys.db, Apply(app, cfg, sys, step).db, sys.history);
  }

  lemma StepKeeps(app: Application, cfg: Config, sys: System, step: Step)
    requires Inv(app, cfg, sys) && Enabled(app, sys, step) && Sound(cfg)
    requires CounterIsSafe(Apply(app, cfg, sys, step))
    ensures Inv(app, cfg, Apply(app, cfg, sys, step))
  {
    if step.Arrive? {
      ArriveCalls(app, cfg, sys, step);
    } else if Local(step) {
      LocalKeeps(app, cfg, sys, step);
    } else if LeaseStep(step) {
      LeaseKeeps(app, cfg, sys, step);
    } else if step.CommitRuns? {
      CommitCalls(app, cfg, sys, step);
      CommitBook(app, cfg, sys, step);
      CommitIsLegal(app, cfg, sys, step);
    } else if step.DedupExpires? {
      ForgetKeeps(app, cfg, sys, step);
    } else {
      MarkerCalls(app, cfg, sys, step);
      MarkerBook(app, cfg, sys, step);
    }
  }

  lemma NextKeeps(app: Application, cfg: Config, steps: seq<Step>, run: seq<System>, i: nat)
    requires Execution(app, cfg, steps, run) && 0 < i < |run| && Sound(cfg)
    requires CounterIsSafe(run[i]) && Inv(app, cfg, run[i - 1])
    ensures Inv(app, cfg, run[i])
  {
    StepKeeps(app, cfg, run[i - 1], steps[i - 1]);
  }

  lemma SafeBefore(app: Application, cfg: Config, steps: seq<Step>, run: seq<System>, i: nat)
    requires Execution(app, cfg, steps, run) && 0 < i < |run| && CounterIsSafe(run[i])
    ensures CounterIsSafe(run[i - 1])
  {
    HistoryOnlyGrows(app, cfg, steps, run, i - 1, i);
    JournalGrows(run[i - 1].history, run[i].history);
  }

  /**
   * Every reachable state of every run, whatever expires, stalls or gets lost:
   * Redis holds what the history says, and the history obeys the contract.
   */
  lemma {:induction false} RunsAreSerial(app: Application, cfg: Config, steps: seq<Step>, run: seq<System>, i: nat)
    requires Execution(app, cfg, steps, run) && i < |run| && Sound(cfg)
    requires CounterIsSafe(run[i])
    ensures Inv(app, cfg, run[i])
  {
    if i > 0 {
      SafeBefore(app, cfg, steps, run, i);
      RunsAreSerial(app, cfg, steps, run, i - 1);
      NextKeeps(app, cfg, steps, run, i);
    }
  }

  lemma {:induction false} HistoryOnlyGrows(app: Application, cfg: Config, steps: seq<Step>, run: seq<System>, i: nat, j: nat)
    requires Execution(app, cfg, steps, run) && i <= j < |run|
    ensures run[i].history <= run[j].history
  {
    if i < j {
      HistoryOnlyGrows(app, cfg, steps, run, i, j - 1);
      assert run[j] == Apply(app, cfg, run[j - 1], steps[j - 1]);
    }
  }

  /**
   * A token that was lost is never current again: a turn that acquired its
   * lease and holds it now has held it ever since.
   */
  lemma {:induction false} LostTokensStayLost(app: Application, cfg: Config, steps: seq<Step>, run: seq<System>,
      i: nat, k: nat, j: nat, t: nat)
    requires Execution(app, cfg, steps, run) && OneUse(cfg) && i <= k <= j < |run|
    requires t < |run[i].calls| && run[i].calls[t].acquired && LeaseHeld(run[j].db, cfg.token(t))
    ensures t < |run[k].calls| && run[k].calls[t].acquired && LeaseHeld(run[k].db, cfg.token(t))
  {
    AcquiredStays(app, cfg, steps, run, i, k, t);
    if k < j {
      AcquiredStays(app, cfg, steps, run, i, j - 1, t);
      HeldBefore(app, cfg, run[j - 1], steps[j - 1], t);
      LostTokensStayLost(app, cfg, steps, run, i, k, j - 1, t);
    }
  }

  lemma {:induction false} AcquiredStays(app: Application, cfg: Config, steps: seq<Step>, run: seq<System>, i: nat, j: nat, t: nat)
    requires Execution(app, cfg, steps, run) && i <= j < |run|
    requires t < |run[i].calls| && run[i].calls[t].acquired
    ensures t < |run[j].calls| && run[j].calls[t].acquired
  {
    if i < j {
      AcquiredStays(app, cfg, steps, run, i, j - 1, t);
      assert run[j] == Apply(app, cfg, run[j - 1], steps[j - 1]);
    }
  }

  /** A commit that lands applied `receive` to exactly the state it overwrites, and to a request nobody remembers. */
  lemma CommitOverwritesWhatItRead(app: Application, cfg: Config, sys: System, step: Step)
    requires Inv(app, cfg, sys) && Enabled(app, sys, step) && step.CommitRuns?
    requires Apply(app, cfg, sys, step).history != sys.history
    ensures LeaseHeld(sys.db, cfg.token(step.t))
    ensures StateKey in sys.db.keys ==> sys.db.keys[StateKey] == Str(sys.calls[step.t].phase.input)
    ensures StateKey !in sys.db.keys ==> app.initial(sys.calls[step.t].phase.input)
    ensures sys.calls[step.t].requestId !in Fields(sys.db)
  {
    assert CallOk(app, cfg, sys, step.t);
  }

  /** A turn that timed out never commits afterwards, and the other way round. */
  lemma CommitOrTimeout(app: Application, cfg: Config, steps: seq<Step>, run: seq<System>, i: nat, x: nat, y: nat)
    requires Execution(app, cfg, steps, run) && i < |run| && Sound(cfg)
    requires CounterIsSafe(run[i])
    requires x < |run[i].history| && y < |run[i].history| && x != y
    requires !run[i].history[x].Forgot? && !run[i].history[y].Forgot?
    ensures run[i].history[x].caller != run[i].history[y].caller
  {
    RunsAreSerial(app, cfg, steps, run, i);
    if x < y { OneActionEach(app, run[i].history, x, y); } else { OneActionEach(app, run[i].history, y, x); }
  }

  /** A reply is backed by a commit of the same request and the same command fingerprint. */
  lemma RepliesAreBacked(app: Application, cfg: Config, sys: System, t: nat)
    requires Inv(app, cfg, sys) && t < |sys.calls| && sys.calls[t].outcome.Returned?
    ensures exists k :: 0 <= k < |Commits(sys.history)| && Commits(sys.history)[k].Committed?
                        && Commits(sys.history)[k].requestId == sys.calls[t].requestId
                        && app.fingerprint(Commits(sys.history)[k].command) == app.fingerprint(sys.calls[t].command)
                        && Commits(sys.history)[k].turn.result == sys.calls[t].outcome.result
  {
    assert CallOk(app, cfg, sys, t);
    RecordsFollowCommits(app, sys.history);
    var c := sys.calls[t];
    var k :| 0 <= k < |Records(app, sys.history)|
             && Records(app, sys.history)[k] == Remembered(c.requestId, app.fingerprint(c.command), c.outcome.result);
    assert Records(app, sys.history)[k] == Remember(app, Commits(sys.history)[k]);
  }

  lemma {:induction false} PrintAt(cfg: Config, journal: seq<JournalEntry>, k: nat)
    requires k < |journal|
    ensures PrintAll(cfg, journal)[k] == Print(cfg, journal[k])
  {
    if k < |journal| - 1 { PrintAt(cfg, journal[..|journal| - 1], k); }
  }

  /** Under any mix of caps, commits and markers the stream is a contiguous run of positions ending just below the counter. */
  lemma JournalIsContiguous(app: Application, cfg: Config, sys: System, k: nat)
    requires Inv(app, cfg, sys) && k < |Log(sys.db)|
    ensures Counter(sys.db).Some? && |Log(sys.db)| <= Counter(sys.db).value
    ensures Log(sys.db)[k].seqText == ShowInt(Counter(sys.db).value - |Log(sys.db)| + k)
  {
    var journal := Journal(sys.history);
    var at := |journal| - |Log(sys.db)| + k;
    PrintAt(cfg, journal, at);
    JournalIsNumbered(sys.history);
  }
}
