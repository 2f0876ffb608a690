/**
 * The contract all four actor runtimes claim for one identity: turns are
 * serial, a commit is whole, a request is not applied twice while it is
 * remembered, and a turn either commits or times out.
 *
 * The contract is stated on a history: the sequence of things that happened to
 * the identity, oldest first. The committed state, the journal and the
 * remembered requests are functions of that history, so an adapter refines the
 * contract when what it stores equals those functions and when every action it
 * adds is legal.
 */
module SerialSpec {
  import opened Options

  /** A state, command, result or event. Runtimes move payloads, they never look inside. */
  type Payload = string

  /** What one successful `receive` produced, schemas included. */
  datatype Turn = Turn(after: Payload, result: Payload, seatKeyId: string, events: seq<Payload>)

  /**
   * The application's code, uninterpreted. `initial` and `receive` are
   * relations: the code behind them may answer differently each time, fail (no
   * answer) or never return.
   */
  datatype Application = Application(
    initial: Payload -> bool,
    receive: (Payload, Payload, Turn) -> bool,
    fingerprint: Payload -> string)

  datatype Action =
    | Committed(caller: nat, requestId: string, command: Payload, before: Payload, turn: Turn)
    | TimedOut(caller: nat, requestId: string, journaled: bool)
    | Forgot

  datatype Fact = Domain(event: Payload) | TurnTimeout
  datatype JournalEntry = JournalEntry(seqNo: nat, requestId: string, seatKeyId: string, fact: Fact)

  /** One remembered request: what a replay compares and returns. */
  datatype Remembered = Remembered(requestId: string, fingerprint: string, result: Payload)

  // ----- what a history means -----

  function Commits(h: seq<Action>): seq<Action> {
    if h == [] then []
    else if h[|h| - 1].Committed? then Commits(h[..|h| - 1]) + [h[|h| - 1]]
    else Commits(h[..|h| - 1])
  }

  /** The state left by the last commit. */
  function StateAfter(h: seq<Action>): Option<Payload> {
    if h == [] then None
    else if h[|h| - 1].Committed? then Some(h[|h| - 1].turn.after)
    else StateAfter(h[..|h| - 1])
  }

  /** Consecutive journal entries for the events of one turn. */
  function Stamp(start: nat, requestId: string, seatKeyId: string, events: seq<Payload>): (entries: seq<JournalEntry>)
    ensures |entries| == |events|
    ensures forall k | 0 <= k < |entries| :: entries[k] == JournalEntry(start + k, requestId, seatKeyId, Domain(events[k]))
  {
    seq(|events|, k requires 0 <= k < |events| => JournalEntry(start + k, requestId, seatKeyId, Domain(events[k])))
  }

  function Marker(at: nat, requestId: string): JournalEntry {
    JournalEntry(at, requestId, "", TurnTimeout)
  }

  function Entries(at: nat, a: Action): seq<JournalEntry> {
    match a
    case Committed(_, requestId, _, _, turn) => Stamp(at, requestId, turn.seatKeyId, turn.events)
    case TimedOut(_, requestId, journaled) => if journaled then [Marker(at, requestId)] else []
    case Forgot => []
  }

  function Journal(h: seq<Action>): seq<JournalEntry> {
    if h == [] then []
    else var before := Journal(h[..|h| - 1]); before + Entries(|before|, h[|h| - 1])
  }

  /** The invocations that already committed or timed out. */
  function Settled(h: seq<Action>): set<nat> {
    set a | a in h && !a.Forgot? :: a.caller
  }

  function Remember(app: Application, c: Action): Remembered
    requires c.Committed?
  {
    Remembered(c.requestId, app.fingerprint(c.command), c.turn.result)
  }

  /** One record per commit, in commit order. */
  function Records(app: Application, h: seq<Action>): seq<Remembered> {
    if h == [] then []
    else if h[|h| - 1].Committed? then Records(app, h[..|h| - 1]) + [Remember(app, h[|h| - 1])]
    else Records(app, h[..|h| - 1])
  }

  /** The records kept by a first-in first-out memory of the given size. */
  function Window<T>(limit: nat, records: seq<T>): seq<T> {
    if |records| <= limit then records else records[|records| - limit..]
  }

  /** A memory trimmed after every record holds what one trim at the end would leave. */
  lemma WindowGrows<T>(limit: nat, records: seq<T>, r: T)
    requires limit >= 1
    ensures Window(limit, Window(limit, records) + [r]) == Window(limit, records + [r])
  {
  }

  /** Commit number `k` is one of the last `limit`. */
  predicate IsRecent(limit: nat, h: seq<Action>, k: nat) {
    |Commits(h)| - limit <= k < |Commits(h)|
  }

  /** None of the last `limit` commits was for this request. */
  ghost predicate NotRecent(limit: nat, h: seq<Action>, requestId: string) {
    forall k: nat | IsRecent(limit, h, k) :: Commits(h)[k].Committed? && Commits(h)[k].requestId != requestId
  }

  predicate Absent(requestId: string, records: seq<Remembered>) {
    forall r | r in records :: r.requestId != requestId
  }

  /** The newest record of a request. */
  function Latest(requestId: string, records: seq<Remembered>): Option<Remembered> {
    if records == [] then None
    else if records[|records| - 1].requestId == requestId then Some(records[|records| - 1])
    else Latest(requestId, records[..|records| - 1])
  }

  function RequestIds(records: seq<Remembered>): (ids: seq<string>)
    ensures |ids| == |records| && forall k | 0 <= k < |ids| :: ids[k] == records[k].requestId
  {
    seq(|records|, k requires 0 <= k < |records| => records[k].requestId)
  }

  /** The requests committed since the last time the memory was wiped. */
  function SinceForgot(app: Application, h: seq<Action>): map<string, Remembered> {
    if h == [] then map[]
    else match h[|h| - 1]
      case Committed(_, requestId, _, _, _) => SinceForgot(app, h[..|h| - 1])[requestId := Remember(app, h[|h| - 1])]
      case TimedOut(_, _, _) => SinceForgot(app, h[..|h| - 1])
      case Forgot => map[]
  }

  // ----- the contract -----

  /** May `a` happen after `h`? */
  ghost predicate Legal(app: Application, h: seq<Action>, a: Action) {
    match a
    case Committed(caller, _, command, before, turn) =>
      && (StateAfter(h).None? ==> app.initial(before))
      && (StateAfter(h).Some? ==> before == StateAfter(h).value)
      && app.receive(command, before, turn)
      && caller !in Settled(h)
    case TimedOut(caller, _, _) => caller !in Settled(h)
    case Forgot => true
  }

  ghost predicate Serial(app: Application, h: seq<Action>) {
    forall i | 0 <= i < |h| :: Legal(app, h[..i], h[i])
  }

  /** No commit repeats a request that a memory of `limit` commits still holds. */
  ghost predicate Deduplicated(app: Application, limit: nat, h: seq<Action>) {
    forall i | 0 <= i < |h| && h[i].Committed? ::
      Absent(h[i].requestId, Window(limit, Records(app, h[..i])))
  }

  /** No commit repeats a request committed since the memory was last wiped. */
  ghost predicate FreshSinceForgot(app: Application, h: seq<Action>) {
    forall i | 0 <= i < |h| && h[i].Committed? :: h[i].requestId !in SinceForgot(app, h[..i])
  }

  // ----- unfolding one more action -----

  lemma Extend(app: Application, h: seq<Action>, a: Action)
    ensures Commits(h + [a]) == if a.Committed? then Commits(h) + [a] else Commits(h)
    ensures StateAfter(h + [a]) == if a.Committed? then Some(a.turn.after) else StateAfter(h)
    ensures Journal(h + [a]) == Journal(h) + Entries(|Journal(h)|, a)
    ensures Settled(h + [a]) == Settled(h) + (if a.Forgot? then {} else {a.caller})
    ensures Records(app, h + [a]) == if a.Committed? then Records(app, h) + [Remember(app, a)] else Records(app, h)
    ensures SinceForgot(app, h + [a]) ==
            match a
            case Committed(_, requestId, _, _, _) => SinceForgot(app, h)[requestId := Remember(app, a)]
            case TimedOut(_, _, _) => SinceForgot(app, h)
            case Forgot => map[]
  {
    assert (h + [a])[..|h + [a]| - 1] == h;
    assert a in h + [a];
    assert forall b | b in h + [a] :: b in h || b == a;
    assert forall b | b in h :: b in h + [a];
  }

  lemma RecordsGrow(app: Application, h: seq<Action>, a: Action)
    ensures forall r | r in Records(app, h) :: r in Records(app, h + [a])
    ensures a.Committed? ==> Remember(app, a) in Records(app, h + [a])
  {
    assert (h + [a])[..|h + [a]| - 1] == h;
  }

  lemma ExtendSerial(app: Application, h: seq<Action>, a: Action)
    requires Serial(app, h) && Legal(app, h, a)
    ensures Serial(app, h + [a])
  {
    var h' := h + [a];
    forall i | 0 <= i < |h'| ensures Legal(app, h'[..i], h'[i]) {
      assert h'[..i] == h[..i];
      if i == |h| { assert h[..i] == h; }
    }
  }

  lemma ExtendDeduplicated(app: Application, limit: nat, h: seq<Action>, a: Action)
    requires Deduplicated(app, limit, h)
    requires a.Committed? ==> Absent(a.requestId, Window(limit, Records(app, h)))
    ensures Deduplicated(app, limit, h + [a])
  {
    var h' := h + [a];
    forall i | 0 <= i < |h'| && h'[i].Committed?
      ensures Absent(h'[i].requestId, Window(limit, Records(app, h'[..i])))
    {
      assert h'[..i] == h[..i];
      if i == |h| { assert h[..i] == h; }
    }
  }

  lemma ExtendFresh(app: Application, h: seq<Action>, a: Action)
    requires FreshSinceForgot(app, h)
    requires a.Committed? ==> a.requestId !in SinceForgot(app, h)
    ensures FreshSinceForgot(app, h + [a])
  {
    var h' := h + [a];
    forall i | 0 <= i < |h'| && h'[i].Committed? ensures h'[i].requestId !in SinceForgot(app, h'[..i]) {
      assert h'[..i] == h[..i];
      if i == |h| { assert h[..i] == h; }
    }
  }

  /** A timed-out turn leaves state and memories as they were, so its request can still commit, and at most one journal entry. */
  lemma TimeoutsLeaveNoTrace(app: Application, h: seq<Action>, a: Action)
    requires a.TimedOut?
    ensures StateAfter(h + [a]) == StateAfter(h) && Records(app, h + [a]) == Records(app, h)
    ensures SinceForgot(app, h + [a]) == SinceForgot(app, h)
    ensures Journal(h + [a]) == Journal(h) + if a.journaled then [Marker(|Journal(h)|, a.requestId)] else []
  {
    Extend(app, h, a);
  }

  // ----- what the contract gives a reader of the history -----

  lemma {:induction false} PrefixSerial(app: Application, h: seq<Action>, n: nat)
    requires n <= |h| && Serial(app, h)
    ensures Serial(app, h[..n])
  {
    forall i | 0 <= i < n ensures Legal(app, h[..n][..i], h[..n][i]) {
      assert h[..n][..i] == h[..i];
    }
  }

  /** Each commit reads exactly what the commit before it wrote. */
  lemma {:induction false} CommitsChain(app: Application, h: seq<Action>)
    requires Serial(app, h)
    ensures forall k | 0 <= k < |Commits(h)| :: Commits(h)[k].Committed?
    ensures forall k | 0 <= k < |Commits(h)| :: app.receive(Commits(h)[k].command, Commits(h)[k].before, Commits(h)[k].turn)
    ensures forall k | 0 < k < |Commits(h)| :: Commits(h)[k].before == Commits(h)[k - 1].turn.after
    ensures |Commits(h)| > 0 ==> app.initial(Commits(h)[0].before)
    ensures StateAfter(h) == if |Commits(h)| == 0 then None else Some(Commits(h)[|Commits(h)| - 1].turn.after)
  {
    if h != [] {
      var n := |h| - 1;
      PrefixSerial(app, h, n);
      CommitsChain(app, h[..n]);
      assert Legal(app, h[..n], h[n]);
    }
  }

  /** The state a sequential run of `commands` reaches from `start`. */
  function Fold(step: (Payload, Payload) -> Payload, start: Payload, commits: seq<Action>): Payload
    requires forall k | 0 <= k < |commits| :: commits[k].Committed?
  {
    if commits == [] then start
    else step(commits[|commits| - 1].command, Fold(step, start, commits[..|commits| - 1]))
  }

  /**
   * For an application whose `receive` computes a function of command and
   * state, the committed state is that of running the committed commands one
   * after the other.
   */
  lemma {:induction false} SerialIsSequential(app: Application, h: seq<Action>, step: (Payload, Payload) -> Payload)
    requires Serial(app, h)
    requires forall c, s, t | app.receive(c, s, t) :: t.after == step(c, s)
    requires StateAfter(h).Some?
    ensures forall k | 0 <= k < |Commits(h)| :: Commits(h)[k].Committed?
    ensures |Commits(h)| > 0
    ensures StateAfter(h).value == Fold(step, Commits(h)[0].before, Commits(h))
  {
    CommitsChain(app, h);
    FoldChain(app, Commits(h), step);
  }

  lemma {:induction false} FoldChain(app: Application, commits: seq<Action>, step: (Payload, Payload) -> Payload)
    requires |commits| > 0
    requires forall k | 0 <= k < |commits| :: commits[k].Committed?
    requires forall k | 0 <= k < |commits| :: app.receive(commits[k].command, commits[k].before, commits[k].turn)
    requires forall k | 0 < k < |commits| :: commits[k].before == commits[k - 1].turn.after
    requires forall c, s, t | app.receive(c, s, t) :: t.after == step(c, s)
    ensures commits[|commits| - 1].turn.after == Fold(step, commits[0].before, commits)
  {
    if |commits| > 1 {
      FoldChain(app, commits[..|commits| - 1], step);
    }
  }

  /** Journal positions are 0, 1, 2, ... with no gap and no repeat. */
  lemma {:induction false} JournalIsNumbered(h: seq<Action>)
    ensures forall k | 0 <= k < |Journal(h)| :: Journal(h)[k].seqNo == k
  {
    if h != [] {
      JournalIsNumbered(h[..|h| - 1]);
    }
  }

  /** A later journal is at least as long. */
  lemma {:induction false} JournalGrows(h: seq<Action>, later: seq<Action>)
    requires h <= later
    ensures |Journal(h)| <= |Journal(later)|
  {
    if |h| < |later| {
      JournalGrows(h, later[..|later| - 1]);
    } else {
      assert h == later;
    }
  }

  /** No invocation appears twice: it commits at most once, and never both commits and times out. */
  lemma {:induction false} OneActionEach(app: Application, h: seq<Action>, i: nat, j: nat)
    requires Serial(app, h)
    requires i < j < |h| && !h[i].Forgot? && !h[j].Forgot?
    ensures h[i].caller != h[j].caller
  {
    assert Legal(app, h[..j], h[j]);
    assert h[i] in h[..j];
  }

  lemma {:induction false} RecordsFollowCommits(app: Application, h: seq<Action>)
    ensures |Records(app, h)| == |Commits(h)|
    ensures forall k | 0 <= k < |Commits(h)| :: Commits(h)[k].Committed? && Records(app, h)[k] == Remember(app, Commits(h)[k])
  {
    if h != [] {
      RecordsFollowCommits(app, h[..|h| - 1]);
    }
  }

  /** A remembered request is one of a recent commit. */
  lemma NotRecentIsAbsent(app: Application, limit: nat, h: seq<Action>, requestId: string)
    requires NotRecent(limit, h, requestId)
    ensures Absent(requestId, Window(limit, Records(app, h)))
  {
    RecordsFollowCommits(app, h);
    var records := Records(app, h);
    var offset := if |records| <= limit then 0 else |records| - limit;
    forall r | r in Window(limit, records) ensures r.requestId != requestId {
      var j :| 0 <= j < |Window(limit, records)| && Window(limit, records)[j] == r;
      assert IsRecent(limit, h, j + offset) && records[j + offset] == Remember(app, Commits(h)[j + offset]);
    }
  }

  /** The requests a memory of `limit` commits holds tell its records apart. */
  lemma SameRequestSameRecord(app: Application, limit: nat, h: seq<Action>, r: Remembered, s: Remembered)
    requires Deduplicated(app, limit, h) && r.requestId == s.requestId
    requires r in Window(limit, Records(app, h)) && s in Window(limit, Records(app, h))
    ensures r == s
  {
    var w := Window(limit, Records(app, h));
    var i: nat :| i < |w| && w[i] == r;
    var j: nat :| j < |w| && w[j] == s;
    if i < j { WindowIsDistinct(app, limit, h, i, j); }
    if j < i { WindowIsDistinct(app, limit, h, j, i); }
  }

  /** A memory of the last `limit` commits holds the record of every recent commit. */
  lemma RecentIsRemembered(app: Application, limit: nat, h: seq<Action>, k: nat)
    requires IsRecent(limit, h, k)
    ensures Commits(h)[k].Committed? && Remember(app, Commits(h)[k]) in Window(limit, Records(app, h))
  {
    RecordsFollowCommits(app, h);
    WindowHolds(limit, Records(app, h), k);
  }

  lemma WindowHolds(limit: nat, records: seq<Remembered>, i: nat)
    requires |records| - limit <= i < |records|
    ensures records[i] in Window(limit, records)
  {
    var offset := if |records| <= limit then 0 else |records| - limit;
    assert Window(limit, records)[i - offset] == records[i];
  }

  /**
   * A request can only be applied again once at least `limit` other commits
   * came between.
   */
  lemma {:induction false} RepeatsAreFarApart(app: Application, limit: nat, h: seq<Action>, i: nat, j: nat)
    requires Deduplicated(app, limit, h)
    requires i < j < |Records(app, h)|
    requires Records(app, h)[i].requestId == Records(app, h)[j].requestId
    ensures j - i - 1 >= limit
  {
    var n := |h| - 1;
    var before := Records(app, h[..n]);
    if j < |before| {
      assert Deduplicated(app, limit, h[..n]) by {
        forall k | 0 <= k < n && h[..n][k].Committed?
          ensures Absent(h[..n][k].requestId, Window(limit, Records(app, h[..n][..k])))
        {
          assert h[..n][..k] == h[..k];
        }
      }
      RepeatsAreFarApart(app, limit, h[..n], i, j);
    } else {
      assert Absent(h[n].requestId, Window(limit, before));
      if |before| - limit <= i {
        WindowHolds(limit, before, i);
      }
    }
  }

  /** The requests a memory of `limit` commits holds are all different. */
  lemma {:induction false} WindowIsDistinct(app: Application, limit: nat, h: seq<Action>, i: nat, j: nat)
    requires Deduplicated(app, limit, h)
    requires i < j < |Window(limit, Records(app, h))|
    ensures Window(limit, Records(app, h))[i].requestId != Window(limit, Records(app, h))[j].requestId
  {
    var r := Records(app, h);
    var offset := if |r| <= limit then 0 else |r| - limit;
    if r[i + offset].requestId == r[j + offset].requestId {
      RepeatsAreFarApart(app, limit, h, i + offset, j + offset);
    }
  }

  /** The newest record of a recent commit's request is that commit's. */
  lemma RecentIsLatest(app: Application, limit: nat, h: seq<Action>, k: nat)
    requires Deduplicated(app, limit, h) && IsRecent(limit, h, k)
    ensures Commits(h)[k].Committed?
    ensures Latest(Commits(h)[k].requestId, Records(app, h)) == Some(Remember(app, Commits(h)[k]))
  {
    RecordsFollowCommits(app, h);
    var records := Records(app, h);
    var j := LatestAt(Commits(h)[k].requestId, records, k);
    if k < j { RepeatsAreFarApart(app, limit, h, k, j); }
  }

  /** The newest record of a request stands at or after any other. */
  lemma {:induction false} LatestAt(requestId: string, records: seq<Remembered>, k: nat) returns (j: nat)
    requires k < |records| && records[k].requestId == requestId
    ensures k <= j < |records| && records[j].requestId == requestId && Latest(requestId, records) == Some(records[j])
  {
    if records[|records| - 1].requestId == requestId {
      j := |records| - 1;
    } else {
      j := LatestAt(requestId, records[..|records| - 1], k);
    }
  }

  /** With an expiring memory, a request is applied again only after the memory was wiped in between. */
  lemma {:induction false} RepeatsNeedForgetting(app: Application, h: seq<Action>, i: nat, j: nat)
    requires FreshSinceForgot(app, h) && i < j < |h|
    requires h[i].Committed? && h[j].Committed? && h[i].requestId == h[j].requestId
    ensures exists k :: i < k < j && h[k].Forgot?
  {
    if forall k | i < k < j :: !h[k].Forgot? {
      RemembersUntilForgot(app, h, i, j);
    }
  }

  lemma {:induction false} RemembersUntilForgot(app: Application, h: seq<Action>, i: nat, j: nat)
    requires i < j <= |h| && h[i].Committed? && forall k | i < k < j :: !h[k].Forgot?
    ensures h[i].requestId in SinceForgot(app, h[..j])
  {
    assert h[..j][..j - 1] == h[..j - 1];
    if i < j - 1 { RemembersUntilForgot(app, h, i, j - 1); }
  }

  /** Until it is wiped, the expiring memory holds a commit's own record. */
  lemma {:induction false} RemembersItsCommit(app: Application, h: seq<Action>, i: nat, j: nat)
    requires FreshSinceForgot(app, h) && i < j <= |h| && h[i].Committed? && forall k | i < k < j :: !h[k].Forgot?
    ensures h[i].requestId in SinceForgot(app, h[..j]) && SinceForgot(app, h[..j])[h[i].requestId] == Remember(app, h[i])
  {
    assert h[..j][..j - 1] == h[..j - 1];
    if i < j - 1 { RemembersItsCommit(app, h, i, j - 1); }
  }

  /** What the expiring memory holds was committed, with that fingerprint and result. */
  lemma {:induction false} RememberedWasCommitted(app: Application, h: seq<Action>, requestId: string)
    requires requestId in SinceForgot(app, h)
    ensures SinceForgot(app, h)[requestId] in Records(app, h)
    ensures SinceForgot(app, h)[requestId].requestId == requestId
  {
    var n := |h| - 1;
    if h[n].TimedOut? || (h[n].Committed? && h[n].requestId != requestId) {
      RememberedWasCommitted(app, h[..n], requestId);
    }
  }
}
