/**
 * Seat key custody: `RedisSeatKeyStore` under any interleaving of callers, and
 * the single-process `InMemorySeatKeyStore`.
 *
 * The cipher is ideal: a sealed key opens under the key it was sealed with and
 * under no other, and ciphertext corrupted at rest opens under none.
 */
module SeatKeys {
  import opened Options

  type Actor = string
  type KeyId = string

  datatype Cipher = Sealed(plain: string, kek: string) | Corrupted

  datatype Record = Record(keyId: KeyId, cipher: Cipher, exportedAt: Option<string>)

  datatype Failure = Unknown | AlreadyExported | CannotDecrypt | MissingRecord | ConnectionLost

  datatype Result<T> = Ok(value: T) | Err(failure: Failure)

  function Decrypt(cipher: Cipher, kek: string): Option<string> {
    if cipher.Sealed? && cipher.kek == kek then Some(cipher.plain) else None
  }

  /** The two tables: which key an actor has, and each key's record. */
  datatype Store = Store(index: map<Actor, KeyId>, records: map<KeyId, Record>)

  // ----- the two scripts -----

  /** `CLAIM_SEAT_KEY`: the first claim for an actor wins, and every later one is told who won. */
  function Claim(s: Store, actor: Actor, candidate: Record): (Store, KeyId) {
    if actor in s.index then (s, s.index[actor])
    else (Store(s.index[actor := candidate.keyId], s.records[candidate.keyId := candidate]), candidate.keyId)
  }

  /** `MARK_EXPORTED`: an atomic check and mark. */
  function Mark(s: Store, keyId: KeyId, now: string): (Store, Result<()>) {
    if keyId !in s.records then (s, Err(Unknown))
    else if s.records[keyId].exportedAt.Some? then (s, Err(AlreadyExported))
    else (s.(records := s.records[keyId := s.records[keyId].(exportedAt := Some(now))]), Ok(()))
  }

  /** The read half of `takeCustody`: nothing is written, and the key is opened before anything is marked. */
  function ReadAndDecrypt(s: Store, keyId: KeyId, kek: string): Result<string> {
    if keyId !in s.records then Err(Unknown)
    else if s.records[keyId].exportedAt.Some? then Err(AlreadyExported)
    else if Decrypt(s.records[keyId].cipher, kek).None? then Err(CannotDecrypt)
    else Ok(Decrypt(s.records[keyId].cipher, kek).value)
  }

  // ----- callers -----

  datatype Call =
    | Creating(actor: Actor, candidate: Record)
    | Resolving(actor: Actor, winner: KeyId)
    | Created(actor: Actor, keyId: KeyId)
    | Taking(keyId: KeyId, kek: string)
    | Holding(keyId: KeyId, plain: string)
    | Took(keyId: KeyId, plain: string)
    | Failed(failure: Failure)

  /** What `generateSeatKeypair` made: whose candidate it was and its private half. */
  datatype Keypair = Keypair(actor: Actor, plain: string)

  /** The shared store, and two histories: the keypairs generated so far, and for each key the call whose mark landed. */
  datatype Vault = Vault(store: Store, made: map<KeyId, Keypair>, marker: map<KeyId, nat>)

  datatype World = World(vault: Vault, calls: map<nat, Call>)

  datatype Reply = Arrives | Lost | NeverRan

  datatype Step =
    | CallCreate(id: nat, actor: Actor, keyId: KeyId, plain: string, kek: string)
    | RunClaim(id: nat, reply: Reply)
    | Resolve(id: nat)
    | CallTake(id: nat, keyId: KeyId, kek: string)
    | Open(id: nat)
    | RunMark(id: nat, now: string, reply: Reply)
    | Corrupt(keyId: KeyId)

  const EMPTY := World(Vault(Store(map[], map[]), map[], map[]), map[])

  predicate Enabled(w: World, step: Step) {
    match step
    case CallCreate(id, _, keyId, _, _) => id !in w.calls && keyId !in w.vault.made
    case RunClaim(id, _) => id in w.calls && w.calls[id].Creating?
    case Resolve(id) => id in w.calls && w.calls[id].Resolving?
    case CallTake(id, _, _) => id !in w.calls
    case Open(id) => id in w.calls && w.calls[id].Taking?
    case RunMark(id, _, _) => id in w.calls && w.calls[id].Holding?
    case Corrupt(keyId) => keyId in w.vault.store.records
  }

  function Claimed(v: Vault, actor: Actor, candidate: Record): Vault {
    v.(store := Claim(v.store, actor, candidate).0)
  }

  function Marked(v: Vault, keyId: KeyId, id: nat, now: string): Vault {
    var (store, done) := Mark(v.store, keyId, now);
    v.(store := store, marker := if done.Ok? then v.marker[keyId := id] else v.marker)
  }

  function Apply(w: World, step: Step): World
    requires Enabled(w, step)
  {
    match step
    case CallCreate(id, actor, keyId, plain, kek) =>
      World(w.vault.(made := w.vault.made[keyId := Keypair(actor, plain)]),
            w.calls[id := Creating(actor, Record(keyId, Sealed(plain, kek), None))])
    case RunClaim(id, reply) =>
      var call := w.calls[id];
      var winner := Claim(w.vault.store, call.actor, call.candidate).1;
      World(if reply.NeverRan? then w.vault else Claimed(w.vault, call.actor, call.candidate),
            w.calls[id := if !reply.Arrives? then Failed(ConnectionLost)
                          else if winner == call.candidate.keyId then Created(call.actor, winner)
                          else Resolving(call.actor, winner)])
    case Resolve(id) =>
      var call := w.calls[id];
      w.(calls := w.calls[id :=
      if call.winner in w.vault.store.records then Created(call.actor, call.winner) else Failed(MissingRecord)])
    case CallTake(id, keyId, kek) => w.(calls := w.calls[id := Taking(keyId, kek)])
    case Open(id) =>
      var call := w.calls[id];
      var plain := ReadAndDecrypt(w.vault.store, call.keyId, call.kek);
      w.(calls := w.calls[id := if plain.Ok? then Holding(call.keyId, plain.value) else Failed(plain.failure)])
    case RunMark(id, now, reply) =>
      var call := w.calls[id];
      var done := Mark(w.vault.store, call.keyId, now).1;
      World(if reply.NeverRan? then w.vault else Marked(w.vault, call.keyId, id, now),
            w.calls[id := if !reply.Arrives? then Failed(ConnectionLost)
                          else if done.Ok? then Took(call.keyId, call.plain)
                          else Failed(done.failure)])
    case Corrupt(keyId) =>
      var record := w.vault.store.records[keyId];
      w.(vault := w.vault.(store := w.vault.store.(records := w.vault.store.records[keyId := record.(cipher := Corrupted)])))
  }

  ghost predicate Execution(steps: seq<Step>, run: seq<World>) {
    && |run| == |steps| + 1
    && run[0] == EMPTY
    && forall i | 0 <= i < |steps| :: Enabled(run[i], steps[i]) && run[i + 1] == Apply(run[i], steps[i])
  }

  // ----- the invariant -----

  /** Each record belongs to the actor it was made for, whose index entry names it; and a sealed key is the one made. */
  ghost predicate VaultOk(v: Vault) {
    && (forall a | a in v.store.index ::
          v.store.index[a] in v.store.records && v.store.index[a] in v.made && v.made[v.store.index[a]].actor == a)
    && (forall k | k in v.store.records ::
          && k in v.made
          && v.made[k].actor in v.store.index && v.store.index[v.made[k].actor] == k
          && (v.store.records[k].cipher.Sealed? ==> v.store.records[k].cipher.plain == v.made[k].plain)
          && (v.store.records[k].exportedAt.Some? <==> k in v.marker))
    && (forall k | k in v.marker :: k in v.store.records)
  }

  ghost predicate CallOk(v: Vault, id: nat, call: Call) {
    match call
    case Creating(actor, candidate) =>
      && candidate.exportedAt.None? && candidate.cipher.Sealed?
      && candidate.keyId in v.made && v.made[candidate.keyId] == Keypair(actor, candidate.cipher.plain)
    case Resolving(actor, winner) => actor in v.store.index && v.store.index[actor] == winner
    case Created(actor, keyId) => actor in v.store.index && v.store.index[actor] == keyId
    case Taking(_, _) => true
    case Holding(keyId, plain) => keyId in v.store.records && keyId in v.made && plain == v.made[keyId].plain
    case Took(keyId, plain) => keyId in v.marker && v.marker[keyId] == id && keyId in v.made && plain == v.made[keyId].plain
    case Failed(failure) => failure != MissingRecord
  }

  /** A mark was set by a call that had opened the key: one that took it, or one whose reply was lost. */
  predicate Marker(call: Call, k: KeyId) {
    call == Failed(ConnectionLost) || (call.Took? && call.keyId == k)
  }

  ghost predicate MarksOk(w: World) {
    forall k | k in w.vault.marker :: w.vault.marker[k] in w.calls && Marker(w.calls[w.vault.marker[k]], k)
  }

  ghost predicate Inv(w: World) {
    && VaultOk(w.vault)
    && (forall id | id in w.calls :: CallOk(w.vault, id, w.calls[id]))
    && MarksOk(w)
  }

  /** What no step takes back from the store and the histories. */
  ghost predicate Grows(v: Vault, v': Vault) {
    && (forall a | a in v.store.index :: a in v'.store.index && v'.store.index[a] == v.store.index[a])
    && (forall k | k in v.store.records :: k in v'.store.records)
    && (forall k | k in v.made :: k in v'.made && v'.made[k] == v.made[k])
    && (forall k | k in v.marker :: k in v'.marker && v'.marker[k] == v.marker[k])
  }

  predicate Ended(call: Call) {
    call.Created? || call.Took? || call.Failed?
  }

  ghost predicate ResultsKept(calls: map<nat, Call>, calls': map<nat, Call>) {
    forall id | id in calls && Ended(calls[id]) :: id in calls' && calls'[id] == calls[id]
  }

  ghost predicate Keeps(w: World, w': World) {
    Grows(w.vault, w'.vault) && ResultsKept(w.calls, w'.calls)
  }

  lemma CallGrows(v: Vault, v': Vault, id: nat, call: Call)
    requires CallOk(v, id, call) && Grows(v, v')
    ensures CallOk(v', id, call)
  {
  }

  lemma MarksStayOk(w: World, v': Vault, id: nat, call: Call)
    requires MarksOk(w) && (id in w.calls ==> !Ended(w.calls[id]))
    requires forall k | k in v'.marker ::
               (k in w.vault.marker && v'.marker[k] == w.vault.marker[k]) || (v'.marker[k] == id && Marker(call, k))
    ensures MarksOk(World(v', w.calls[id := call]))
  {
    var w' := World(v', w.calls[id := call]);
    forall k | k in w'.vault.marker ensures w'.vault.marker[k] in w'.calls && Marker(w'.calls[w'.vault.marker[k]], k) {
      if k in w.vault.marker && v'.marker[k] == w.vault.marker[k] {
        assert Marker(w.calls[w.vault.marker[k]], k);
      }
    }
  }

  /** Common part of the steps: the store grew, and one call moved on. */
  lemma MoveKeeps(w: World, v': Vault, id: nat, call: Call)
    requires Inv(w) && VaultOk(v') && Grows(w.vault, v') && CallOk(v', id, call)
    requires id in w.calls ==> !Ended(w.calls[id])
    requires forall k | k in v'.marker ::
               (k in w.vault.marker && v'.marker[k] == w.vault.marker[k]) || (v'.marker[k] == id && Marker(call, k))
    ensures Inv(World(v', w.calls[id := call])) && Keeps(w, World(v', w.calls[id := call]))
  {
    MarksStayOk(w, v', id, call);
    var calls' := w.calls[id := call];
    forall c | c in calls' ensures CallOk(v', c, calls'[c]) {
      if c != id { CallGrows(w.vault, v', c, w.calls[c]); }
    }
  }

  lemma ClaimIsOk(v: Vault, actor: Actor, candidate: Record)
    requires VaultOk(v) && CallOk(v, 0, Creating(actor, candidate))
    ensures VaultOk(Claimed(v, actor, candidate)) && Grows(v, Claimed(v, actor, candidate))
    ensures var winner := Claim(v.store, actor, candidate).1;
            CallOk(Claimed(v, actor, candidate), 0, Resolving(actor, winner))
  {
    if actor !in v.store.index {
      assert candidate.keyId !in v.store.records;
    }
  }

  lemma MarkIsOk(v: Vault, keyId: KeyId, id: nat, now: string)
    requires VaultOk(v)
    ensures VaultOk(Marked(v, keyId, id, now)) && Grows(v, Marked(v, keyId, id, now))
    ensures Mark(v.store, keyId, now).1.Ok? ==> keyId !in v.marker
  {
  }

  lemma CorruptKeeps(w: World, step: Step)
    requires Inv(w) && step.Corrupt? && Enabled(w, step)
    ensures Inv(Apply(w, step)) && Keeps(w, Apply(w, step))
  {
    var w' := Apply(w, step);
    assert VaultOk(w'.vault) && Grows(w.vault, w'.vault);
    forall c | c in w.calls ensures CallOk(w'.vault, c, w.calls[c]) {
      CallGrows(w.vault, w'.vault, c, w.calls[c]);
    }
  }

  lemma ClaimKeeps(w: World, step: Step)
    requires Inv(w) && step.RunClaim? && Enabled(w, step)
    ensures Inv(Apply(w, step)) && Keeps(w, Apply(w, step))
  {
    var call := w.calls[step.id];
    assert CallOk(w.vault, step.id, call);
    ClaimIsOk(w.vault, call.actor, call.candidate);
    MoveKeeps(w, Apply(w, step).vault, step.id, Apply(w, step).calls[step.id]);
  }

  lemma MarkKeeps(w: World, step: Step)
    requires Inv(w) && step.RunMark? && Enabled(w, step)
    ensures Inv(Apply(w, step)) && Keeps(w, Apply(w, step))
  {
    var call, call' := w.calls[step.id], Apply(w, step).calls[step.id];
    assert CallOk(w.vault, step.id, call);
    if step.reply.NeverRan? {
      MoveKeeps(w, w.vault, step.id, call');
    } else {
      var v' := Marked(w.vault, call.keyId, step.id, step.now);
      MarkIsOk(w.vault, call.keyId, step.id, step.now);
      assert CallOk(v', step.id, call');
      MoveKeeps(w, v', step.id, call');
    }
  }

  lemma StepKeeps(w: World, step: Step)
    requires Inv(w) && Enabled(w, step)
    ensures Inv(Apply(w, step)) && Keeps(w, Apply(w, step))
  {
    if step.Corrupt? {
      CorruptKeeps(w, step);
    } else if step.RunClaim? {
      ClaimKeeps(w, step);
    } else if step.RunMark? {
      MarkKeeps(w, step);
    } else {
      assert step.id in w.calls ==> CallOk(w.vault, step.id, w.calls[step.id]);
      MoveKeeps(w, Apply(w, step).vault, step.id, Apply(w, step).calls[step.id]);
    }
  }

  lemma {:induction false} ReachableOk(steps: seq<Step>, run: seq<World>, i: nat)
    requires Execution(steps, run) && i < |run|
    ensures Inv(run[i])
  {
    if i > 0 {
      ReachableOk(steps, run, i - 1);
      StepKeeps(run[i - 1], steps[i - 1]);
    }
  }

  lemma KeepsOn(u: World, v: World, w: World)
    requires Keeps(u, v) && Keeps(v, w)
    ensures Keeps(u, w)
  {
  }

  lemma LastKeeps(steps: seq<Step>, run: seq<World>, j: nat)
    requires Execution(steps, run) && 0 < j < |run|
    ensures Keeps(run[j - 1], run[j])
  {
    ReachableOk(steps, run, j - 1);
    StepKeeps(run[j - 1], steps[j - 1]);
  }

  lemma {:induction false} ResultsStay(steps: seq<Step>, run: seq<World>, i: nat, j: nat)
    requires Execution(steps, run) && i <= j < |run|
    ensures Keeps(run[i], run[j])
    decreases j
  {
    if i < j {
      ResultsStay(steps, run, i, j - 1);
      LastKeeps(steps, run, j);
      KeepsOn(run[i], run[j - 1], run[j]);
    }
  }

  // ----- what callers can rely on -----

  /** All creators of one actor's key get the same key, whenever they return. */
  lemma CreatorsAgree(steps: seq<Step>, run: seq<World>, i: nat, j: nat, c: nat, d: nat)
    requires Execution(steps, run) && i < |run| && j < |run|
    requires c in run[i].calls && run[i].calls[c].Created? && d in run[j].calls && run[j].calls[d].Created?
    requires run[i].calls[c].actor == run[j].calls[d].actor
    ensures run[i].calls[c].keyId == run[j].calls[d].keyId
  {
    ReachableOk(steps, run, i);
    ReachableOk(steps, run, j);
    assert CallOk(run[i].vault, c, run[i].calls[c]) && CallOk(run[j].vault, d, run[j].calls[d]);
    if i <= j { ResultsStay(steps, run, i, j); } else { ResultsStay(steps, run, j, i); }
  }

  /** Different actors never share a key, and every index entry leads to a record. */
  lemma KeysHaveOneOwner(steps: seq<Step>, run: seq<World>, i: nat, a: Actor, b: Actor)
    requires Execution(steps, run) && i < |run| && a in run[i].vault.store.index && b in run[i].vault.store.index
    ensures run[i].vault.store.index[a] in run[i].vault.store.records
    ensures run[i].vault.store.index[a] == run[i].vault.store.index[b] ==> a == b
  {
    ReachableOk(steps, run, i);
  }

  /** The error "resolved to a missing record" cannot be raised. */
  lemma ClaimsResolve(steps: seq<Step>, run: seq<World>, i: nat, c: nat)
    requires Execution(steps, run) && i < |run| && c in run[i].calls
    ensures run[i].calls[c] != Failed(MissingRecord)
  {
    ReachableOk(steps, run, i);
    assert CallOk(run[i].vault, c, run[i].calls[c]);
  }

  /** At most one call ever returns a key's private half, and it is the one that was generated. */
  lemma CustodyLeavesOnce(steps: seq<Step>, run: seq<World>, i: nat, j: nat, c: nat, d: nat)
    requires Execution(steps, run) && i <= j < |run|
    requires c in run[i].calls && run[i].calls[c].Took? && d in run[j].calls && run[j].calls[d].Took?
    requires run[i].calls[c].keyId == run[j].calls[d].keyId
    ensures c == d && run[i].calls[c] == run[j].calls[d]
    ensures run[i].calls[c].keyId in run[i].vault.made && run[i].calls[c].plain == run[i].vault.made[run[i].calls[c].keyId].plain
  {
    ReachableOk(steps, run, i);
    ReachableOk(steps, run, j);
    ResultsStay(steps, run, i, j);
    assert CallOk(run[i].vault, c, run[i].calls[c]) && CallOk(run[j].vault, d, run[j].calls[d]);
  }

  predicate Exported(v: Vault, k: KeyId) {
    k in v.store.records && v.store.records[k].exportedAt.Some?
  }

  /** This step marks `k`: run for a call that holds the opened key, on a record that bears no mark. */
  predicate Exports(w: World, step: Step, k: KeyId) {
    && step.RunMark? && !step.reply.NeverRan?
    && step.id in w.calls && k in w.vault.made && w.calls[step.id] == Holding(k, w.vault.made[k].plain)
    && k in w.vault.store.records && !Exported(w.vault, k)
  }

  lemma ExportsIff(w: World, step: Step, k: KeyId)
    requires Inv(w) && Enabled(w, step)
    ensures Exported(Apply(w, step).vault, k) <==> Exported(w.vault, k) || Exports(w, step, k)
  {
    if !step.Corrupt? && step.id in w.calls { assert CallOk(w.vault, step.id, w.calls[step.id]); }
  }

  ghost predicate ExportedBefore(steps: seq<Step>, run: seq<World>, i: nat, k: KeyId)
    requires i <= |steps| < |run|
  {
    exists j :: 0 <= j < i && Exports(run[j], steps[j], k)
  }

  lemma ExportedByNow(steps: seq<Step>, run: seq<World>, i: nat, k: KeyId)
    requires 0 < i <= |steps| < |run|
    ensures ExportedBefore(steps, run, i, k) <==>
            ExportedBefore(steps, run, i - 1, k) || Exports(run[i - 1], steps[i - 1], k)
  {
  }

  /**
   * A record is marked exactly when some earlier step marked it, for a call
   * that had opened that very key; one that fails to open it marks nothing.
   */
  lemma {:induction false} FailedDecryptsMarkNothing(steps: seq<Step>, run: seq<World>, i: nat, k: KeyId)
    requires Execution(steps, run) && i < |run|
    ensures Exported(run[i].vault, k) <==> ExportedBefore(steps, run, i, k)
  {
    if i > 0 {
      ExportedByNow(steps, run, i, k);
      FailedDecryptsMarkNothing(steps, run, i - 1, k);
      ReachableOk(steps, run, i - 1);
      ExportsIff(run[i - 1], steps[i - 1], k);
    }
  }

  /** That step is the only one, and its call took the key or lost its reply. */
  lemma MarkedOnce(steps: seq<Step>, run: seq<World>, i: nat, j: nat, l: nat, k: KeyId)
    requires Execution(steps, run) && i < |run| && j < i && l < i
    requires Exports(run[j], steps[j], k) && Exports(run[l], steps[l], k)
    ensures j == l
    ensures steps[j].id in run[i].calls
    ensures run[i].calls[steps[j].id]
            == if steps[j].reply.Arrives? then Took(k, run[j].vault.made[k].plain) else Failed(ConnectionLost)
  {
    if j < l {
      FailedDecryptsMarkNothing(steps, run, l, k);
      assert ExportedBefore(steps, run, l, k);
    }
    if l < j {
      FailedDecryptsMarkNothing(steps, run, j, k);
      assert ExportedBefore(steps, run, j, k);
    }
    ReachableOk(steps, run, i);
    ResultsStay(steps, run, j, i);
    ResultsStay(steps, run, j + 1, i);
    assert Ended(run[j + 1].calls[steps[j].id]);
  }

  /** A create whose replies arrive ends with the actor's one key: its own candidate if the actor had none. */
  lemma CreateCompletes(w: World, actor: Actor, keyId: KeyId, plain: string, kek: string, id: nat)
    requires Inv(w) && id !in w.calls && keyId !in w.vault.made
    ensures var called := Apply(w, CallCreate(id, actor, keyId, plain, kek));
            && Enabled(called, RunClaim(id, Arrives))
            && var claimed := Apply(called, RunClaim(id, Arrives));
               var key := if actor in w.vault.store.index then w.vault.store.index[actor] else keyId;
               && actor in claimed.vault.store.index && claimed.vault.store.index[actor] == key
               && key in claimed.vault.store.records
               && (actor !in w.vault.store.index ==>
                     claimed.vault.store.records[key] == Record(keyId, Sealed(plain, kek), None))
               && (if actor in w.vault.store.index
                   then && Enabled(claimed, Resolve(id)) && claimed.vault.store == w.vault.store
                        && Apply(claimed, Resolve(id)).calls[id] == Created(actor, key)
                   else claimed.calls[id] == Created(actor, key))
  {
  }

  /** What `takeCustody` says of a key, and that it opens exactly an unmarked record sealed under this store's key. */
  lemma CustodyAnswers(w: World, id: nat)
    requires Enabled(w, Open(id))
    ensures var c, records := w.calls[id], w.vault.store.records;
            var after := Apply(w, Open(id));
            && after.vault == w.vault
            && (c.keyId !in records ==> after.calls[id] == Failed(Unknown))
            && (c.keyId in records && records[c.keyId].exportedAt != None ==> after.calls[id] == Failed(AlreadyExported))
            && (c.keyId in records && records[c.keyId].exportedAt == None ==>
                  && (forall plain :: records[c.keyId].cipher == Sealed(plain, c.kek) ==> after.calls[id] == Holding(c.keyId, plain))
                  && ((forall plain :: records[c.keyId].cipher != Sealed(plain, c.kek)) ==> after.calls[id] == Failed(CannotDecrypt)))
  {
    var c := w.calls[id];
    if c.keyId in w.vault.store.records && Decrypt(w.vault.store.records[c.keyId].cipher, c.kek).Some? {
      var cipher := w.vault.store.records[c.keyId].cipher;
      assert cipher == Sealed(cipher.plain, c.kek);
    }
  }

  /** A caller whose mark is answered takes the key exactly if nobody marked it before; else it is told so and gets nothing. */
  lemma MarkAnswers(w: World, id: nat, now: string)
    requires Enabled(w, RunMark(id, now, Arrives))
    ensures var c, records := w.calls[id], w.vault.store.records;
            Apply(w, RunMark(id, now, Arrives)).calls[id]
            == if c.keyId !in records then Failed(Unknown)
               else if records[c.keyId].exportedAt == None then Took(c.keyId, c.plain) else Failed(AlreadyExported)
  {
  }

  /** An unmarked key that is intact can still be taken, whatever failed before. */
  lemma StillRetryable(w: World, k: KeyId, kek: string, id: nat, now: string)
    requires Inv(w) && k in w.vault.store.records && id !in w.calls
    requires w.vault.store.records[k].exportedAt.None? && Decrypt(w.vault.store.records[k].cipher, kek).Some?
    ensures var called := Apply(w, CallTake(id, k, kek));
            var unsealed := Apply(called, Open(id));
            && Enabled(unsealed, RunMark(id, now, Arrives))
            && Apply(unsealed, RunMark(id, now, Arrives)).calls[id] == Took(k, w.vault.made[k].plain)
  {
    assert k in w.vault.made;
  }

  // ----- the single-process store -----

  class InMemorySeatKeyStore {
    var recordsByKeyId: map<KeyId, Record>
    var keyIdByActor: map<Actor, KeyId>

    ghost function Contents(): Store
      reads this
    {
      Store(keyIdByActor, recordsByKeyId)
    }

    ghost predicate Valid()
      reads this
    {
      forall a | a in keyIdByActor :: keyIdByActor[a] in recordsByKeyId && keyIdByActor[a] != ""
    }

    constructor ()
      ensures Valid() && Contents() == Store(map[], map[])
    {
      recordsByKeyId, keyIdByActor := map[], map[];
    }

    /** `minted` is the keypair the call generates when it has to. */
    method Create(actor: Actor, minted: Record) returns (keyId: KeyId)
      requires Valid() && minted.keyId != "" && minted.exportedAt.None?
      modifies this
      ensures Valid()
      ensures (Contents(), keyId) == Claim(old(Contents()), actor, minted)
    {
      if actor in keyIdByActor && keyIdByActor[actor] != "" {
        return keyIdByActor[actor];
      }
      recordsByKeyId := recordsByKeyId[minted.keyId := minted];
      keyIdByActor := keyIdByActor[actor := minted.keyId];
      return minted.keyId;
    }

    method TakeCustody(keyId: KeyId, kek: string, now: string) returns (r: Result<string>)
      requires Valid()
      modifies this
      ensures Valid()
      ensures r == ReadAndDecrypt(old(Contents()), keyId, kek)
      ensures Contents() == if r.Ok? then Mark(old(Contents()), keyId, now).0 else old(Contents())
    {
      if keyId !in recordsByKeyId { return Err(Unknown); }
      var record := recordsByKeyId[keyId];
      if record.exportedAt.Some? { return Err(AlreadyExported); }
      var plain := Decrypt(record.cipher, kek);
      if plain.None? { return Err(CannotDecrypt); }
      recordsByKeyId := recordsByKeyId[keyId := record.(exportedAt := Some(now))];
      return Ok(plain.value);
    }
  }

  /** The synchronous call is the shared store's exchange run without a pause: its mark cannot fail, and bars every later call. */
  lemma OneCallIsTheExchange(s: Store, keyId: KeyId, kek: string, now: string, kek': string)
    requires ReadAndDecrypt(s, keyId, kek).Ok?
    ensures var (marked, done) := Mark(s, keyId, now);
            && done.Ok? && marked.index == s.index
            && ReadAndDecrypt(marked, keyId, kek') == Err(AlreadyExported)
            && forall k | k != keyId :: ReadAndDecrypt(marked, k, kek') == ReadAndDecrypt(s, k, kek')
  {
  }
}
