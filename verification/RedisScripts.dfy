/**
 * The Lua scripts of the Redis runtime, over a typed key store in which any
 * call may raise and writes made before a raise stay.
 */
module RedisScripts {
  import opened Basics
  import opened Options
  import opened Decimal
  import opened SerialSpec

  /** A call's answer, or the error that stops the script. */
  datatype Reply<+T> = Answer(value: T) | Raised {
    predicate IsFailure() { Raised? }

    function PropagateFailure<U>(): Reply<U>
      requires Raised?
    {
      Raised
    }

    function Extract(): T
      requires Answer?
    {
      value
    }
  }

  /** The keys of one identity. */
  datatype DbKey = LeaseKey | StateKey | DedupKey | LogKey | SeqKey

  datatype StreamEntry = StreamEntry(seqText: string, requestId: string, seatKeyId: string, event: string)

  /** What a key may hold; `Foreign` is a list, set or sorted set. */
  datatype Content = Str(text: string) | Hash(fields: map<string, string>) | Stream(entries: seq<StreamEntry>) | Foreign

  /** Keys with their values, and the time to live of those that have one. */
  datatype Db = Db(keys: map<DbKey, Content>, ttl: map<DbKey, int>)

  const MAX_DEDUP_TTL_SECONDS: int := 9007199254740

  /** Lua numbers are doubles: whole numbers up to 2^53 survive, larger ones may be rounded. */
  ghost predicate Exact(lua: int -> int) {
    forall n | -MAX_SAFE_INTEGER - 1 <= n <= MAX_SAFE_INTEGER + 1 :: lua(n) == n
  }

  // ----- the state of the keys a script meets -----

  predicate LeaseHeld(db: Db, token: string) {
    LeaseKey in db.keys && db.keys[LeaseKey] == Str(token)
  }

  predicate LeaseReadable(db: Db) {
    LeaseKey in db.keys ==> db.keys[LeaseKey].Str?
  }

  /** A free lease is taken, a held one stays with its holder. */
  function Acquired(db: Db, token: string, leaseMs: int): Db {
    if LeaseKey in db.keys then db else Db(db.keys[LeaseKey := Str(token)], db.ttl[LeaseKey := leaseMs])
  }

  /** Only the holder can extend its lease, and only the holder can free it. */
  function Renewed(db: Db, token: string, leaseMs: int): Db {
    if LeaseHeld(db, token) then db.(ttl := db.ttl[LeaseKey := leaseMs]) else db
  }

  function Released(db: Db, token: string): Db {
    if LeaseHeld(db, token) then Db(db.keys - {LeaseKey}, db.ttl - {LeaseKey}) else db
  }

  predicate WrongState(db: Db) {
    StateKey in db.keys && !db.keys[StateKey].Str?
  }

  predicate WrongDedup(db: Db) {
    DedupKey in db.keys && !db.keys[DedupKey].Hash?
  }

  predicate WrongLog(db: Db) {
    LogKey in db.keys && !db.keys[LogKey].Stream?
  }

  /** The counter's value, when it has one `INCRBY` can read. */
  function Counter(db: Db): Option<int> {
    if SeqKey !in db.keys then Some(0)
    else match db.keys[SeqKey]
      case Str(text) => Integer(text)
      case _ => None
  }

  predicate Incrementable(db: Db, n: nat) {
    Counter(db).Some? && INT64_MIN <= Counter(db).value + n <= INT64_MAX
  }

  function Fields(db: Db): map<string, string> {
    if DedupKey in db.keys && db.keys[DedupKey].Hash? then db.keys[DedupKey].fields else map[]
  }

  function Log(db: Db): seq<StreamEntry> {
    if LogKey in db.keys && db.keys[LogKey].Stream? then db.keys[LogKey].entries else []
  }

  // ----- one whole commit, as it should look -----

  /** The journal cap an option text asks for. */
  function CapOf(text: string): Option<nat> {
    if PositiveInt(text) then Some(Value(text)) else None
  }

  /** The last `cap` entries when a cap is set. */
  function Retain(cap: Option<nat>, entries: seq<StreamEntry>): seq<StreamEntry> {
    if cap.Some? then Window(cap.value, entries) else entries
  }

  /** Stream entries numbered from `base`. */
  function Numbered(lua: int -> int, base: int, requestId: string, seatKeyId: string,
      events: seq<string>): (entries: seq<StreamEntry>)
    ensures |entries| == |events|
  {
    if events == [] then []
    else
      var n := |events| - 1;
      Numbered(lua, base, requestId, seatKeyId, events[..n]) + [StreamEntry(ShowInt(lua(base + n)), requestId,
          seatKeyId, events[n])]
  }

  lemma NumberedGrows(lua: int -> int, base: int, requestId: string, seatKeyId: string, events: seq<string>, i: nat)
    requires i < |events|
    ensures Numbered(lua, base, requestId, seatKeyId, events[..i + 1])
            == Numbered(lua, base, requestId, seatKeyId, events[..i]) + [StreamEntry(ShowInt(lua(base + i)),
                requestId, seatKeyId, events[i])]
  {
    assert events[..i + 1][..i] == events[..i];
  }

  lemma {:induction false} NumberedAt(lua: int -> int, base: int, requestId: string, seatKeyId: string, events: seq<string>, k: nat)
    requires k < |events|
    ensures Numbered(lua, base, requestId, seatKeyId, events)[k]
        == StreamEntry(ShowInt(lua(base + k)), requestId, seatKeyId, events[k])
  {
    if k < |events| - 1 { NumberedAt(lua, base, requestId, seatKeyId, events[..|events| - 1], k); }
  }

  /** The time to live the commit asks for, when it is one `EXPIRE` takes. */
  function Ttl(ttlText: string): Option<int> {
    if PositiveInt(ttlText) && Value(ttlText) <= MAX_DEDUP_TTL_SECONDS then Some(Value(ttlText)) else None
  }

  function WithCounter(db: Db, count: nat): Db
    requires count > 0 ==> Counter(db).Some?
  {
    if count == 0 then db else db.(keys := db.keys[SeqKey := Str(ShowInt(Counter(db).value + count))])
  }

  function WithTurn(db: Db, state: string, requestId: string, result: string, ttlText: string): Db {
    var ttl := db.ttl - {StateKey};
    Db(db.keys[StateKey := Str(state)][DedupKey := Hash(Fields(db)[requestId := result])],
    match Ttl(ttlText) case Some(seconds) => ttl[DedupKey := seconds] case None => ttl)
  }

  function WithEntry(db: Db, cap: Option<nat>, e: StreamEntry): Db {
    db.(keys := db.keys[LogKey := Stream(Retain(cap, Log(db) + [e]))])
  }

  function WithEntries(db: Db, cap: Option<nat>, entries: seq<StreamEntry>): Db {
    if entries == [] then db else db.(keys := db.keys[LogKey := Stream(Retain(cap, Log(db) + entries))])
  }

  predicate Unfit(db: Db, count: nat) {
    WrongState(db) || WrongDedup(db) || (count > 0 && WrongLog(db))
  }

  /** The script gets past its last check and its counter. */
  predicate Ready(db: Db, token: string, count: nat) {
    LeaseHeld(db, token) && !Unfit(db, count) && (count > 0 ==> Incrementable(db, count))
  }

  /** The position the script gives its first event. */
  function Base(db: Db, lua: int -> int, count: nat): int
    requires count > 0 ==> Counter(db).Some?
  {
    if count == 0 then 0 else lua(Counter(db).value + count) - count
  }

  /** The arguments of COMMIT_TURN that reach Redis commands. */
  datatype CommitArgs = CommitArgs(state: string, requestId: string, result: string, ttlText: string,
      seatKeyId: string, capText: string)

  /** Counter, state and dedup record, then the given events. */
  function Written(db: Db, lua: int -> int, args: CommitArgs, count: nat, events: seq<string>): Db
    requires count > 0 ==> Counter(db).Some?
  {
    WithEntries(WithTurn(WithCounter(db, count), args.state, args.requestId, args.result, args.ttlText),
                CapOf(args.capText), Numbered(lua, Base(db, lua, count), args.requestId, args.seatKeyId, events))
  }

  /** What COMMIT_TURN answers and leaves; `count` is ARGV[8] and `events` are the arguments after it. */
  function CommitScript(db: Db, lua: int -> int, token: string, args: CommitArgs, count: nat, events: seq<string>)
    : (Reply<int>, Db)
  {
    if !LeaseReadable(db) then (Raised, db)
    else if !LeaseHeld(db, token) then (Answer(0), db)
    else if Unfit(db, count) then (Answer(-1), db)
    else if count > 0 && !Incrementable(db, count) then (Raised, db)
    else if count <= |events| then (Answer(1), Written(db, lua, args, count, events[..count]))
    else (Raised, Written(db, lua, args, count, events))
  }

  /** What APPEND_TURN_FAILURE answers and leaves. */
  function FailureScript(db: Db, lua: int -> int, requestId: string, seatKeyId: string, event: string, capText: string)
    : (Reply<int>, Db)
  {
    if WrongLog(db) then (Answer(-1), db)
    else if !Incrementable(db, 1) then (Raised, db)
    else
      (Answer(1),
       WithEntries(WithCounter(db, 1), CapOf(capText), Numbered(lua, Base(db, lua, 1), requestId, seatKeyId, [event])))
  }

  // ----- the server -----

  class Redis {
    var db: Db
    const lua: int -> int
    /** Milliseconds since the epoch, which the server adds to a time to live. */
    const now: int

    constructor (db: Db, lua: int -> int, now: int)
      ensures this.db == db && this.lua == lua && this.now == now
    {
      this.db, this.lua, this.now := db, lua, now;
    }

    /** `GET` raises on a key that holds something other than a string. */
    method Get(key: DbKey) returns (r: Reply<Option<string>>)
      ensures r == if key !in db.keys then Answer(None)
                   else if db.keys[key].Str? then Answer(Some(db.keys[key].text)) else Raised
    {
      if key !in db.keys { return Answer(None); }
      match db.keys[key] {
        case Str(text) => return Answer(Some(text));
        case _ => return Raised;
      }
    }

    /** `INCRBY` with a decimal argument. */
    method IncrBy(key: DbKey, increment: string) returns (r: Reply<int>)
      requires key == SeqKey
      modifies this`db
      ensures Integer(increment).None? ==> r.Raised?
      ensures Integer(increment).Some? ==>
                (r.Raised? <==> Counter(old(db)).None?
                                || !(INT64_MIN <= Counter(old(db)).value + Integer(increment).value <= INT64_MAX))
      ensures r.Raised? ==> db == old(db)
      ensures r.Answer? ==> r.value == Counter(old(db)).value + Integer(increment).value
                            && db == old(db).(keys := old(db).keys[SeqKey := Str(ShowInt(r.value))])
    {
      var step, counter := Integer(increment), Counter(db);
      if step.None? || counter.None? { return Raised; }
      var sum := counter.value + step.value;
      if !(INT64_MIN <= sum <= INT64_MAX) { return Raised; }
      db := db.(keys := db.keys[key := Str(ShowInt(sum))]);
      return Answer(sum);
    }

    /** `SET` takes any key and forgets its time to live. */
    method Set(key: DbKey, text: string)
      modifies this`db
      ensures db == Db(old(db).keys[key := Str(text)], old(db).ttl - {key})
    {
      db := Db(db.keys[key := Str(text)], db.ttl - {key});
    }

    method HSet(key: DbKey, field: string, text: string) returns (r: Reply<()>)
      modifies this`db
      ensures r.Raised? <==> key in old(db).keys && !old(db).keys[key].Hash?
      ensures r.Raised? ==> db == old(db)
      ensures r.Answer? ==>
                db == old(db).(keys := old(db).keys[key := Hash((if key in old(db).keys then old(db).keys[key].fields else map[])[field := text])])
    {
      if key !in db.keys {
        db := db.(keys := db.keys[key := Hash(map[field := text])]);
        return Answer(());
      }
      match db.keys[key] {
        case Hash(fields) =>
          db := db.(keys := db.keys[key := Hash(fields[field := text])]);
          return Answer(());
        case _ => return Raised;
      }
    }

    /** `EXPIRE` raises on a text that is no integer, and on a moment past the 64-bit range. */
    method Expire(key: DbKey, seconds: string) returns (r: Reply<()>)
      requires key in db.keys
      modifies this`db
      ensures r.Raised? <==> Integer(seconds).None? || Integer(seconds).value * 1000 + now > INT64_MAX
      ensures r.Raised? ==> db == old(db)
      ensures r.Answer? && Integer(seconds).value > 0 ==> db == old(db).(ttl := old(db).ttl[key := Integer(seconds).value])
      ensures r.Answer? && Integer(seconds).value <= 0 ==> db == Db(old(db).keys - {key}, old(db).ttl - {key})
    {
      var s := Integer(seconds);
      if s.None? || s.value * 1000 + now > INT64_MAX { return Raised; }
      if s.value > 0 {
        db := db.(ttl := db.ttl[key := s.value]);
      } else {
        db := Db(db.keys - {key}, db.ttl - {key});
      }
      return Answer(());
    }

    /** `XADD log [MAXLEN cap] * ...`; `None` for the event is an argument the script did not receive. */
    method XAdd(cap: Option<string>, seqText: string, requestId: string, seatKeyId: string,
        event: Option<string>) returns (r: Reply<()>)
      modifies this`db
      ensures r.Raised? <==> event.None? || WrongLog(old(db))
                             || (cap.Some? && (Integer(cap.value).None? || Integer(cap.value).value < 0))
      ensures r.Raised? ==> db == old(db)
      ensures r.Answer? ==>
                db == WithEntry(old(db), if cap.Some? then Some(Integer(cap.value).value) else None,
                                StreamEntry(seqText, requestId, seatKeyId, event.value))
    {
      if event.None? || WrongLog(db) { return Raised; }
      var limit: Option<nat> := None;
      if cap.Some? {
        var n := Integer(cap.value);
        if n.None? || n.value < 0 { return Raised; }
        limit := Some(n.value);
      }
      db := WithEntry(db, limit, StreamEntry(seqText, requestId, seatKeyId, event.value));
      return Answer(());
    }

    // ----- the lease scripts -----

    /** ACQUIRE_LEASE: `SET key token PX ms NX`. */
    method AcquireLease(token: string, leaseMs: int) returns (acquired: bool)
      modifies this`db
      ensures acquired <==> LeaseKey !in old(db).keys
      ensures acquired ==> LeaseKey in db.keys && db.keys[LeaseKey] == Str(token) && LeaseKey in db.ttl && db.ttl[LeaseKey] == leaseMs
      ensures !acquired ==> db == old(db)
      ensures db == Acquired(old(db), token, leaseMs)
    {
      if LeaseKey in db.keys { return false; }
      db := Db(db.keys[LeaseKey := Str(token)], db.ttl[LeaseKey := leaseMs]);
      return true;
    }

    method RenewLease(token: string, leaseMs: int) returns (r: Reply<bool>)
      modifies this`db
      ensures r == if !LeaseReadable(old(db)) then Raised else Answer(LeaseHeld(old(db), token))
      ensures r == Answer(true) ==> LeaseKey in db.ttl && db.ttl[LeaseKey] == leaseMs
      ensures r != Answer(true) ==> db == old(db)
      ensures db == Renewed(old(db), token, leaseMs)
    {
      var held :- Get(LeaseKey);
      if held != Some(token) { return Answer(false); }
      db := db.(ttl := db.ttl[LeaseKey := leaseMs]);
      return Answer(true);
    }

    method ReleaseLease(token: string) returns (r: Reply<bool>)
      modifies this`db
      ensures r == if !LeaseReadable(old(db)) then Raised else Answer(LeaseHeld(old(db), token))
      ensures r == Answer(true) ==> LeaseKey !in db.keys && LeaseKey !in db.ttl
      ensures r != Answer(true) ==> db == old(db)
      ensures db == Released(old(db), token)
    {
      var held :- Get(LeaseKey);
      if held != Some(token) { return Answer(false); }
      db := Db(db.keys - {LeaseKey}, db.ttl - {LeaseKey});
      return Answer(true);
    }

    // ----- the commit script -----

    /** COMMIT_TURN, call by call. */
    method CommitTurn(token: string, args: CommitArgs, count: nat, events: seq<string>) returns (reply: Reply<int>)
      requires 0 <= now <= INT64_MAX - 1000 * MAX_DEDUP_TTL_SECONDS && count <= MAX_SAFE_INTEGER
      modifies this`db
      ensures (reply, db) == CommitScript(old(db), lua, token, args, count, events)
    {
      var held :- Get(LeaseKey);
      if held != Some(token) { return Answer(0); }
      if WrongState(db) || WrongDedup(db) { return Answer(-1); }
      if count > 0 && WrongLog(db) { return Answer(-1); }
      var base :- AdvanceCounter(count);
      StoreTurn(args.state, args.requestId, args.result, args.ttlText);
      reply := AppendEvents(args.requestId, args.seatKeyId, args.capText, count, base, events);
    }

    /** APPEND_TURN_FAILURE, call by call. */
    method AppendTurnFailure(requestId: string, seatKeyId: string, event: string, capText: string) returns (reply: Reply<int>)
      modifies this`db
      ensures (reply, db) == FailureScript(old(db), lua, requestId, seatKeyId, event, capText)
    {
      if WrongLog(db) { return Answer(-1); }
      var base :- AdvanceCounter(1);
      assert [event][..1] == [event];
      reply := AppendEvents(requestId, seatKeyId, capText, 1, base, [event]);
    }

    /** The first write, and the position of the first event. */
    method AdvanceCounter(count: nat) returns (r: Reply<int>)
      requires count <= MAX_SAFE_INTEGER
      modifies this`db
      ensures r.Raised? <==> count > 0 && !Incrementable(old(db), count)
      ensures r.Raised? ==> db == old(db)
      ensures r.Answer? ==> db == WithCounter(old(db), count)
      ensures r.Answer? ==> r.value == Base(old(db), lua, count)
    {
      if count == 0 { return Answer(0); }
      assert Integer(Show(count)) == Some(count) by { IntegerReads(count); }
      var counter :- IncrBy(SeqKey, Show(count));
      return Answer(lua(counter) - count);
    }

    /** The writes between the counter and the journal: none of them can raise. */
    method StoreTurn(state: string, requestId: string, result: string, ttlText: string)
      requires !WrongDedup(db)
      requires 0 <= now <= INT64_MAX - 1000 * MAX_DEDUP_TTL_SECONDS
      modifies this`db
      ensures db == WithTurn(old(db), state, requestId, result, ttlText)
    {
      Set(StateKey, state);
      var stored := HSet(DedupKey, requestId, result);
      assert stored.Answer?;
      if PositiveInt(ttlText) && Value(ttlText) <= MAX_DEDUP_TTL_SECONDS {
        PositiveIntIsInteger(ttlText);
        var expires := Expire(DedupKey, ttlText);
        assert expires.Answer?;
      }
    }

    /** The journaling loop of COMMIT_TURN. */
    method AppendEvents(requestId: string, seatKeyId: string, capText: string, count: nat, base: int, events: seq<string>)
      returns (reply: Reply<int>)
      requires count > 0 ==> !WrongLog(db)
      modifies this`db
      ensures reply == if count <= |events| then Answer(1) else Raised
      ensures count <= |events| ==>
                db == WithEntries(old(db), CapOf(capText), Numbered(lua, base, requestId, seatKeyId, events[..count]))
      ensures count > |events| ==>
                db == WithEntries(old(db), CapOf(capText), Numbered(lua, base, requestId, seatKeyId, events))
    {
      ghost var done: seq<StreamEntry> := [];
      var i := 0;
      while i < count
        invariant 0 <= i <= count && i <= |events|
        invariant done == Numbered(lua, base, requestId, seatKeyId, events[..i])
        invariant db == WithEntries(old(db), CapOf(capText), done)
      {
        var seqText := ShowInt(lua(base + i));
        var event := if i < |events| then Some(events[i]) else None;
        var added := AppendOne(capText, seqText, requestId, seatKeyId, event);
        if added.Raised? {
          assert events[..i] == events;
          return Raised;
        }
        NumberedGrows(lua, base, requestId, seatKeyId, events, i);
        ghost var e := StreamEntry(seqText, requestId, seatKeyId, events[i]);
        CapIsPositive(capText);
        EntriesGrow(old(db), CapOf(capText), done, e);
        done := done + [e];
        i := i + 1;
      }
      return Answer(1);
    }

    /** One `XADD`, with the cap only when its text is one Redis takes. */
    method AppendOne(capText: string, seqText: string, requestId: string, seatKeyId: string, event: Option<string>)
      returns (r: Reply<()>)
      requires !WrongLog(db)
      modifies this`db
      ensures r.Raised? <==> event.None?
      ensures r.Raised? ==> db == old(db)
      ensures r.Answer? ==> db == WithEntry(old(db), CapOf(capText), StreamEntry(seqText, requestId, seatKeyId, event.value))
    {
      if PositiveInt(capText) {
        PositiveIntIsInteger(capText);
        r := XAdd(Some(capText), seqText, requestId, seatKeyId, event);
      } else {
        r := XAdd(None, seqText, requestId, seatKeyId, event);
      }
    }
  }

  lemma CapIsPositive(text: string)
    ensures CapOf(text).Some? ==> CapOf(text).value >= 1
  {
    if PositiveInt(text) { PositiveIntIsInteger(text); }
  }

  /** Trimming on every append leaves what one trim at the end would. */
  lemma EntriesGrow(db: Db, cap: Option<nat>, done: seq<StreamEntry>, e: StreamEntry)
    requires cap.Some? ==> cap.value >= 1
    ensures WithEntries(db, cap, done + [e]) == WithEntry(WithEntries(db, cap, done), cap, e)
  {
    var all := Log(db) + done;
    assert Log(db) + (done + [e]) == all + [e];
    if done == [] { assert all == Log(db); }
    if cap.Some? { WindowGrows(cap.value, all, e); }
  }

  // ----- what the lease scripts do, key by key -----

  predicate SameButFor(db: Db, db': Db, key: DbKey) {
    && (forall k | k != key :: (k in db.keys <==> k in db'.keys) && (k in db.ttl <==> k in db'.ttl))
    && (forall k | k != key && k in db.keys :: db'.keys[k] == db.keys[k])
    && (forall k | k != key && k in db.ttl :: db'.ttl[k] == db.ttl[k])
  }

  /** A free lease goes to whoever asks, for the lease length; a taken one stays as it is. */
  lemma AcquireIs(db: Db, token: string, leaseMs: int)
    ensures var after := Acquired(db, token, leaseMs);
            && SameButFor(db, after, LeaseKey)
            && LeaseKey in after.keys
            && (LeaseKey in db.keys ==> after == db)
            && (LeaseKey !in db.keys ==>
                  after.keys[LeaseKey] == Str(token) && LeaseKey in after.ttl && after.ttl[LeaseKey] == leaseMs)
  {
  }

  /** The holder's renewal gives the lease its whole length again; anyone else's does nothing. */
  lemma RenewIs(db: Db, token: string, leaseMs: int)
    ensures var after := Renewed(db, token, leaseMs);
            if LeaseKey in db.keys && db.keys[LeaseKey] == Str(token)
            then after.keys == db.keys && SameButFor(db, after, LeaseKey) && LeaseKey in after.ttl && after.ttl[LeaseKey] == leaseMs
            else after == db
  {
  }

  /** The holder's release frees the lease, so that the next to ask is granted it; anyone else's does nothing. */
  lemma ReleaseIs(db: Db, token: string, next: string, leaseMs: int)
    ensures var after := Released(db, token);
            if LeaseKey in db.keys && db.keys[LeaseKey] == Str(token)
            then && SameButFor(db, after, LeaseKey) && LeaseKey !in after.keys && LeaseKey !in after.ttl
                 && LeaseHeld(Acquired(after, next, leaseMs), next)
            else after == db
  {
  }

  // ----- what the commit script guarantees -----

  /** A script past its checks has moved every key it was asked to move, and only those. */
  lemma WrittenByKey(db: Db, lua: int -> int, args: CommitArgs, count: nat, events: seq<string>)
    requires count > 0 ==> Counter(db).Some?
    ensures var after := Written(db, lua, args, count, events);
            && after.keys.Keys == db.keys.Keys + {StateKey,
                DedupKey} + (if count > 0 then {SeqKey} else {}) + (if events != [] then {LogKey} else {})
            && after.keys[StateKey] == Str(args.state)
            && after.keys[DedupKey] == Hash(Fields(db)[args.requestId := args.result])
            && (LeaseKey in db.keys ==> after.keys[LeaseKey] == db.keys[LeaseKey])
            && (count > 0 ==> after.keys[SeqKey] == Str(ShowInt(Counter(db).value + count)))
            && (events != [] ==>
                  after.keys[LogKey] == Stream(Retain(CapOf(args.capText), Log(db) + Numbered(lua, Base(db, lua,
                      count), args.requestId, args.seatKeyId, events))))
            && (events == [] && LogKey in db.keys ==> after.keys[LogKey] == db.keys[LogKey])
            && (Ttl(args.ttlText).Some? ==> DedupKey in after.ttl && after.ttl[DedupKey] == Ttl(args.ttlText).value)
  {
  }

  /** Of the times to live a commit drops the state's and sets the dedup record's, if it is asked to; the others run on. */
  lemma WrittenTtl(db: Db, lua: int -> int, args: CommitArgs, count: nat, events: seq<string>)
    requires count > 0 ==> Counter(db).Some?
    ensures Written(db, lua, args, count, events).ttl
            == if Ttl(args.ttlText).Some? then (db.ttl - {StateKey})[DedupKey := Ttl(args.ttlText).value] else db.ttl - {StateKey}
  {
  }

  /** A marker past its checks moves the counter by one and adds one entry at the old count; nothing else changes. */
  lemma MarkerByKey(db: Db, lua: int -> int, requestId: string, seatKeyId: string, event: string, capText: string)
    requires Counter(db).Some? && Exact(lua) && 0 <= Counter(db).value <= MAX_SAFE_INTEGER && !WrongLog(db)
    ensures var (reply, after) := FailureScript(db, lua, requestId, seatKeyId, event, capText);
            var e := StreamEntry(ShowInt(Counter(db).value), requestId, seatKeyId, event);
            && reply == Answer(1) && after.ttl == db.ttl
            && after.keys == db.keys[SeqKey := Str(ShowInt(Counter(db).value + 1))][
                             LogKey := Stream(Retain(CapOf(capText), Log(db) + [e]))]
  {
    var n := Counter(db).value;
    assert lua(n + 1) == n + 1 && lua(n) == n;
    assert Numbered(lua, n, requestId, seatKeyId, []) == [];
    assert [event][..0] == [];
    assert Numbered(lua, n, requestId, seatKeyId, [event]) == [StreamEntry(ShowInt(n), requestId, seatKeyId, event)];
  }

  /** A capped log holds its newest entries, and never more than the cap. */
  lemma CapHolds(cap: nat, entries: seq<StreamEntry>)
    ensures var kept := Retain(Some(cap), entries);
            && |kept| == Min(cap, |entries|)
            && (forall k | 0 <= k < |kept| :: kept[k] == entries[|entries| - |kept| + k])
            && Retain(None, entries) == entries
  {
  }

  predicate HoldsString(db: Db, key: DbKey, text: string) {
    key in db.keys && db.keys[key] == Str(text)
  }

  /**
   * COMMIT_TURN answers 0 exactly to a caller that does not hold the lease, and
   * -1 exactly to the holder when a key it would write has another type.
   */
  lemma CommitAnswersIff(db: Db, lua: int -> int, token: string, args: CommitArgs, count: nat, events: seq<string>)
    requires LeaseKey in db.keys ==> db.keys[LeaseKey].Str?
    ensures var (reply, after) := CommitScript(db, lua, token, args, count, events);
            var mistyped := (StateKey in db.keys && !db.keys[StateKey].Str?) || (DedupKey in db.keys && !db.keys[DedupKey].Hash?)
            || (count > 0 && LogKey in db.keys && !db.keys[LogKey].Stream?);
            && (reply == Answer(0) <==> !HoldsString(db, LeaseKey, token))
            && (reply == Answer(-1) <==> HoldsString(db, LeaseKey, token) && mistyped)
            && (reply == Answer(0) || reply == Answer(-1) ==> after == db)
  {
  }

  /** APPEND_TURN_FAILURE answers -1 exactly when the log key is no stream, and asks for no lease. */
  lemma FailureAnswersIff(db: Db, lua: int -> int, requestId: string, seatKeyId: string, event: string, capText: string)
    ensures var (reply, after) := FailureScript(db, lua, requestId, seatKeyId, event, capText);
            && (reply == Answer(-1) <==> LogKey in db.keys && !db.keys[LogKey].Stream?)
            && (reply == Answer(1) <==> !(LogKey in db.keys && !db.keys[LogKey].Stream?) && Incrementable(db, 1))
            && (reply != Answer(1) ==> after == db)
  {
  }

  /** The script announces its answer truthfully: everything moved, or nothing did, when the event count is right. */
  lemma CommitIsAllOrNothing(db: Db, lua: int -> int, token: string, args: CommitArgs, events: seq<string>)
    ensures var (reply, after) := CommitScript(db, lua, token, args, |events|, events);
            if reply == Answer(1)
            then LeaseHeld(db, token) && (events != [] ==> Counter(db).Some?) && after == Written(db, lua, args, |events|, events)
            else after == db
    ensures var (reply, after) := CommitScript(db, lua, token, args, |events|, events);
            reply == Answer(1) <==> Ready(db, token, |events|)
  {
    assert events[..|events|] == events;
  }

  /** It stops halfway exactly when it is sent fewer events than announced and meets no earlier refusal. */
  lemma CommitStopsHalfwayIff(db: Db, lua: int -> int, token: string, args: CommitArgs, count: nat, events: seq<string>)
    ensures var (reply, after) := CommitScript(db, lua, token, args, count, events);
            (reply != Answer(1) && after != db) <==> Ready(db, token, count) && count > |events|
  {
    if Ready(db, token, count) && count > |events| {
      CounterMoved(db, count, args.state, args.requestId, args.result, args.ttlText, CapOf(args.capText),
                   Numbered(lua, Base(db, lua, count), args.requestId, args.seatKeyId, events));
    }
  }

  /** A script that stops in the journaling loop has already moved the counter. */
  lemma CounterMoved(db: Db, count: nat, state: string, requestId: string, result: string, ttlText: string, cap: Option<nat>,
                     entries: seq<StreamEntry>)
    requires count > 0 && Incrementable(db, count)
    ensures WithEntries(WithTurn(WithCounter(db, count), state, requestId, result, ttlText), cap, entries).keys != db.keys
  {
    var after := WithEntries(WithTurn(WithCounter(db, count), state, requestId, result, ttlText), cap, entries);
    IntegerReads(Counter(db).value + count);
    assert after.keys[SeqKey] == Str(ShowInt(Counter(db).value + count));
  }

  // ----- the option validators -----

  /** A JavaScript number. */
  datatype JsNumber = NotANumber | Infinite | Finite(value: real)

  predicate WholeNumber(v: JsNumber) {
    v.Finite? && v.value == v.value.Floor as real
  }

  /** The dedup time to live the constructor accepts. */
  function WholeSeconds(v: JsNumber): Option<nat> {
    if !WholeNumber(v) || v.value < 0.0 || v.value > MAX_DEDUP_TTL_SECONDS as real then None else Some(v.value.Floor)
  }

  /** The journal cap the constructor accepts. */
  function WholeCount(v: JsNumber): Option<nat> {
    if !WholeNumber(v) || v.value < 1.0 || v.value > MAX_SAFE_INTEGER as real then None else Some(v.value.Floor)
  }

  lemma SafeIntegersAreShort()
    ensures MAX_SAFE_INTEGER < Pow10(18)
  {
    EighteenDigits();
  }

  /** An accepted time to live reaches `EXPIRE`, unchanged, exactly when it is at least one second. */
  lemma SecondsReachExpire(v: JsNumber)
    requires WholeSeconds(v).Some?
    ensures var n := WholeSeconds(v).value;
            (PositiveInt(Show(n)) <==> n >= 1) && Ttl(Show(n)) == if n >= 1 then Some(n) else None
  {
    SafeIntegersAreShort();
    PositiveIntOfShow(WholeSeconds(v).value);
    ValueOfShow(WholeSeconds(v).value);
  }

  /** An accepted cap reaches `XADD MAXLEN` unchanged; the unset cap, printed as zero, never does. */
  lemma CountReachesMaxlen(v: JsNumber)
    ensures WholeCount(v).Some? ==> CapOf(Show(WholeCount(v).value)) == Some(WholeCount(v).value)
    ensures CapOf(Show(0)) == None
  {
    SafeIntegersAreShort();
    PositiveIntOfShow(0);
    if WholeCount(v).Some? {
      PositiveIntOfShow(WholeCount(v).value);
      ValueOfShow(WholeCount(v).value);
    }
  }
}
