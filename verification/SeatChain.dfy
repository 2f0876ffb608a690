/**
 * How the in-process runtimes hand out seats. A seat is addressed by joining an
 * identity's two halves with U+0000. Every arriving turn chains itself behind
 * the newest turn of the same key and starts once that one released.
 */
module SeatChain {
  import opened Options

  datatype ActorId = ActorId(kind: string, id: string)

  datatype PartCheck = Accepted | Empty | ControlCharacter(found: char)

  /** The characters `String.prototype.trim` removes. */
  predicate Trimmable(c: char) {
    || '\U{0009}' <= c <= '\U{000D}' || c == ' ' || c == '\U{00A0}' || c == '\U{1680}'
    || '\U{2000}' <= c <= '\U{200A}' || c == '\U{2028}' || c == '\U{2029}' || c == '\U{202F}'
    || c == '\U{205F}' || c == '\U{3000}' || c == '\U{FEFF}'
  }

  /** White space and line ends, by the ECMAScript standard. */
  const BLANKS: set<char> := {
    '\U{0009}', '\U{000A}', '\U{000B}', '\U{000C}', '\U{000D}', '\U{0020}', '\U{00A0}', '\U{1680}', '\U{2000}', '\U{2001}',
    '\U{2002}', '\U{2003}', '\U{2004}', '\U{2005}', '\U{2006}', '\U{2007}', '\U{2008}', '\U{2009}', '\U{200A}', '\U{2028}',
    '\U{2029}', '\U{202F}', '\U{205F}', '\U{3000}', '\U{FEFF}'}

  lemma BlanksAreTrimmable(c: char)
    ensures Trimmable(c) <==> c in BLANKS
  {
  }

  predicate Control(c: char) {
    c <= '\U{001F}'
  }

  /** `c` is the first control character of the text. */
  ghost predicate IsFirstControl(value: string, c: char) {
    exists i :: 0 <= i < |value| && value[i] == c && c <= '\U{001F}' && forall j | 0 <= j < i :: value[j] > '\U{001F}'
  }

  function FirstControl(value: string): (r: Option<char>)
    ensures r.None? <==> forall c | c in value :: !Control(c)
  {
    if value == [] then None
    else if Control(value[0]) then Some(value[0])
    else assert value == [value[0]] + value[1..]; FirstControl(value[1..])
  }

  /** One half of an identity, as every runtime checks it. */
  function CheckPart(value: string): (r: PartCheck)
    ensures r.Accepted? <==> (exists c :: c in value && c !in BLANKS) && (forall c | c in value :: c > '\U{001F}')
    ensures r.ControlCharacter? ==> IsFirstControl(value, r.found)
    ensures r.Empty? <==> forall c | c in value :: c in BLANKS
  {
    assert forall c :: Trimmable(c) <==> c in BLANKS by { forall c ensures Trimmable(c) <==> c in BLANKS { BlanksAreTrimmable(c); } }
    if forall c | c in value :: Trimmable(c) then Empty
    else match FirstControl(value)
      case Some(c) => FoundInside(value); ControlCharacter(c)
      case None => Accepted
  }

  lemma {:induction false} FoundInside(value: string)
    ensures FirstControl(value).Some? ==> IsFirstControl(value, FirstControl(value).value)
  {
    if value != [] {
      if Control(value[0]) {
        assert IsFirstControl(value, value[0]);
      } else if FirstControl(value[1..]).Some? {
        FoundInside(value[1..]);
        var c := FirstControl(value[1..]).value;
        var i :| 0 <= i < |value[1..]| && value[1..][i] == c && forall j | 0 <= j < i :: !Control(value[1..][j]);
        forall j | 0 <= j < i + 1 ensures !Control(value[j]) {
          if j > 0 { assert value[j] == value[1..][j - 1]; }
        }
        assert value[i + 1] == c;
      }
    }
  }

  predicate Valid(a: ActorId) {
    CheckPart(a.kind).Accepted? && CheckPart(a.id).Accepted?
  }

  function Key(a: ActorId): string {
    a.kind + ['\0'] + a.id
  }

  /** Accepted identities never share a key. */
  lemma KeysAreDistinct(a: ActorId, b: ActorId)
    requires Valid(a) && Valid(b) && Key(a) == Key(b)
    ensures a == b
  {
    var k := Key(a);
    assert k[|a.kind|] == '\0' && k[|b.kind|] == '\0';
    assert forall i | 0 <= i < |a.kind| :: k[i] == a.kind[i] && a.kind[i] in a.kind;
    assert forall i | 0 <= i < |b.kind| :: k[i] == b.kind[i] && b.kind[i] in b.kind;
    assert |a.kind| == |b.kind|;
    assert a.kind == k[..|a.kind|] == b.kind;
    assert a.id == k[|a.kind| + 1..] == b.id;
  }

  /** Without the rule on control characters two identities can share everything. */
  lemma UncheckedKeysCollide() returns (a: ActorId, b: ActorId)
    ensures a != b && Key(a) == Key(b)
  {
    a, b := ActorId("a", ['b', '\0', 'c']), ActorId(['a', '\0', 'b'], "c");
  }

  // ----- the chain -----

  /** A queued turn; tickets are numbered in arrival order. */
  datatype Ticket = Ticket(actor: ActorId, previous: Option<nat>, started: bool, released: bool)

  datatype Chain = Chain(tails: map<string, nat>, tickets: seq<Ticket>)

  datatype Event = Arrive(actor: ActorId) | Start(t: nat) | Release(t: nat)

  predicate Free(c: Chain, t: nat)
    requires t < |c.tickets|
  {
    match c.tickets[t].previous
    case None => true
    case Some(p) => p < |c.tickets| && c.tickets[p].released
  }

  predicate Enabled(c: Chain, e: Event) {
    match e
    case Arrive(actor) => Valid(actor)
    case Start(t) => t < |c.tickets| && !c.tickets[t].started && Free(c, t)
    case Release(t) => t < |c.tickets| && c.tickets[t].started && !c.tickets[t].released
  }

  function Apply(c: Chain, e: Event): Chain
    requires Enabled(c, e)
  {
    match e
    case Arrive(actor) =>
      var key := Key(actor);
      var previous := if key in c.tails then Some(c.tails[key]) else None;
      Chain(c.tails[key := |c.tickets|], c.tickets + [Ticket(actor, previous, false, false)])
    case Start(t) => c.(tickets := c.tickets[t := c.tickets[t].(started := true)])
    case Release(t) =>
      var key := Key(c.tickets[t].actor);
      c.(tickets := c.tickets[t := c.tickets[t].(released := true)],
      tails := if key in c.tails && c.tails[key] == t then c.tails - {key} else c.tails)
  }

  /** The chain after a run of events, each of which was possible when its turn came. */
  function Run(events: seq<Event>): Option<Chain> {
    if events == [] then Some(Chain(map[], []))
    else
      var last := events[|events| - 1];
      match Run(events[..|events| - 1])
      case Some(c) => if Enabled(c, last) then Some(Apply(c, last)) else None
      case None => None
  }

  predicate Before(c: Chain, j: nat, t: nat)
    requires j < |c.tickets| && t < |c.tickets|
  {
    j < t && c.tickets[j].actor == c.tickets[t].actor
  }

  ghost predicate TicketOk(c: Chain, t: nat)
    requires t < |c.tickets|
  {
    var k := c.tickets[t];
    && Valid(k.actor)
    && (k.previous.None? ==> forall j: nat | j < t && Before(c, j, t) :: c.tickets[j].released)
    && (k.previous.Some? ==> k.previous.value < t && Before(c, k.previous.value, t)
                             && forall j: nat | k.previous.value < j < t :: !Before(c, j, t))
    && (k.released ==> k.started)
    && (k.started ==> forall j: nat | j < t && Before(c, j, t) :: c.tickets[j].released)
    && (!k.released ==> Key(k.actor) in c.tails)
  }

  ghost predicate TailOk(c: Chain, key: string)
    requires key in c.tails
  {
    var t := c.tails[key];
    && t < |c.tickets| && Key(c.tickets[t].actor) == key && !c.tickets[t].released
    && forall j | t < j < |c.tickets| :: c.tickets[j].actor != c.tickets[t].actor
  }

  ghost predicate Inv(c: Chain) {
    && (forall t | 0 <= t < |c.tickets| :: TicketOk(c, t))
    && (forall key | key in c.tails :: TailOk(c, key))
  }

  lemma ArriveKeeps(c: Chain, actor: ActorId)
    requires Inv(c) && Valid(actor)
    ensures Inv(Apply(c, Arrive(actor)))
  {
    var c' := Apply(c, Arrive(actor));
    var n := |c.tickets|;
    var key := Key(actor);
    if key in c.tails {
      assert TailOk(c, key) && TicketOk(c, c.tails[key]);
      KeysAreDistinct(actor, c.tickets[c.tails[key]].actor);
    }
    forall t | 0 <= t < |c'.tickets| ensures TicketOk(c', t) {
      if t < n {
        assert TicketOk(c, t);
        assert forall j: nat | j < t :: Before(c', j, t) == Before(c, j, t);
      } else {
        forall j: nat | j < n && c.tickets[j].actor == actor && !c.tickets[j].released ensures key in c.tails {
          assert TicketOk(c, j);
        }
      }
    }
    forall k | k in c'.tails ensures TailOk(c', k) {
      if k != key {
        assert TailOk(c, k);
      }
    }
  }

  lemma StartKeeps(c: Chain, t: nat)
    requires Inv(c) && Enabled(c, Start(t))
    ensures Inv(Apply(c, Start(t)))
  {
    var c' := Apply(c, Start(t));
    assert TicketOk(c, t);
    forall u | 0 <= u < |c'.tickets| ensures TicketOk(c', u) {
      assert TicketOk(c, u);
      assert forall j: nat | j < u :: Before(c', j, u) == Before(c, j, u);
      if u == t { StartsInOrder(c, t); }
    }
    forall k | k in c'.tails ensures TailOk(c', k) { assert TailOk(c, k); }
  }

  lemma ReleaseKeeps(c: Chain, t: nat)
    requires Inv(c) && Enabled(c, Release(t))
    ensures Inv(Apply(c, Release(t)))
  {
    var c' := Apply(c, Release(t));
    assert TicketOk(c, t);
    var key := Key(c.tickets[t].actor);
    forall u | 0 <= u < |c'.tickets| ensures TicketOk(c', u) {
      assert TicketOk(c, u);
      assert forall j: nat | j < u :: Before(c', j, u) == Before(c, j, u);
      if !c'.tickets[u].released && Key(c.tickets[u].actor) == key && c.tails[key] == t {
        // A newer turn of the same actor would be the tail; an older one was released before this one started.
        KeysAreDistinct(c.tickets[u].actor, c.tickets[t].actor);
        assert TailOk(c, key);
        assert u < t ==> Before(c, u, t);
        assert false;
      }
    }
    forall k | k in c'.tails ensures TailOk(c', k) {
      assert TailOk(c, k);
    }
  }

  lemma {:induction false} ReachableOk(events: seq<Event>, c: Chain)
    requires Run(events) == Some(c)
    ensures Inv(c)
  {
    if events != [] {
      var before := Run(events[..|events| - 1]).value;
      ReachableOk(events[..|events| - 1], before);
      match events[|events| - 1]
      case Arrive(actor) => ArriveKeeps(before, actor);
      case Start(t) => StartKeeps(before, t);
      case Release(t) => ReleaseKeeps(before, t);
    }
  }

  /** Waiting for one promise is waiting for every earlier turn of the identity. */
  lemma StartsInOrder(c: Chain, t: nat)
    requires Inv(c) && t < |c.tickets|
    ensures Free(c, t) <==> forall j: nat | j < t && Before(c, j, t) :: c.tickets[j].released
  {
    assert TicketOk(c, t);
    if c.tickets[t].previous.Some? {
      var p := c.tickets[t].previous.value;
      assert TicketOk(c, p);
      forall j: nat | j < t && Before(c, j, t) && c.tickets[p].released ensures c.tickets[j].released {
        assert j < p ==> Before(c, j, p);
      }
    }
  }

  /** Two turns of one identity never hold the seat together. */
  lemma MutualExclusion(events: seq<Event>, c: Chain, t: nat, u: nat)
    requires Run(events) == Some(c) && t < |c.tickets| && u < |c.tickets|
    requires c.tickets[t].actor == c.tickets[u].actor
    requires !c.tickets[t].released && Free(c, t) && !c.tickets[u].released && Free(c, u)
    ensures t == u
  {
    ReachableOk(events, c);
    StartsInOrder(c, t);
    StartsInOrder(c, u);
    if t < u { assert Before(c, t, u); }
    if u < t { assert Before(c, u, t); }
  }

  /**
   * The queue never wedges: while a turn of an identity has not released, one
   * of them, none newer than it, can take its next step.
   */
  lemma {:induction false} SomeTurnCanGo(events: seq<Event>, c: Chain, t: nat) returns (u: nat)
    requires Run(events) == Some(c) && t < |c.tickets| && !c.tickets[t].released
    ensures u <= t && c.tickets[u].actor == c.tickets[t].actor && !c.tickets[u].released && Free(c, u)
    ensures Enabled(c, Start(u)) || Enabled(c, Release(u))
    decreases t
  {
    ReachableOk(events, c);
    StartsInOrder(c, t);
    if Free(c, t) {
      u := t;
    } else {
      var j: nat :| j < t && Before(c, j, t) && !c.tickets[j].released;
      u := SomeTurnCanGo(events, c, j);
    }
  }

  /** A turn starts only after every earlier turn of its identity started and finished. */
  lemma FirstComeFirstServed(events: seq<Event>, c: Chain, j: nat, t: nat)
    requires Run(events) == Some(c) && j < t < |c.tickets|
    requires c.tickets[j].actor == c.tickets[t].actor && c.tickets[t].started
    ensures c.tickets[j].started && c.tickets[j].released
  {
    ReachableOk(events, c);
    assert TicketOk(c, t) && TicketOk(c, j) && Before(c, j, t);
  }

  /** The map of tails holds exactly the identities with a turn that has not released. */
  lemma TailsAreLive(events: seq<Event>, c: Chain, actor: ActorId)
    requires Run(events) == Some(c) && Valid(actor)
    ensures Key(actor) in c.tails <==> exists t :: 0 <= t < |c.tickets| && c.tickets[t].actor == actor && !c.tickets[t].released
  {
    ReachableOk(events, c);
    if Key(actor) in c.tails {
      assert TailOk(c, Key(actor)) && TicketOk(c, c.tails[Key(actor)]);
      KeysAreDistinct(actor, c.tickets[c.tails[Key(actor)]].actor);
    }
    if t :| 0 <= t < |c.tickets| && c.tickets[t].actor == actor && !c.tickets[t].released {
      assert TicketOk(c, t);
    }
  }

  // ----- the fields of the runtime -----

  class SeatTails {
    var tails: map<string, nat>
    var tickets: seq<Ticket>

    ghost function View(): Chain
      reads this
    {
      Chain(tails, tickets)
    }

    constructor ()
      ensures View() == Chain(map[], [])
    {
      tails, tickets := map[], [];
    }

    /** The part of `serialize` before its first await. */
    method Queue(actor: ActorId) returns (t: nat)
      requires Inv(View()) && Valid(actor)
      modifies this
      ensures View() == Apply(old(View()), Arrive(actor)) && Inv(View())
      ensures t == |old(tickets)|
    {
      ArriveKeeps(View(), actor);
      t := |tickets|;
      var previous := if Key(actor) in tails then Some(tails[Key(actor)]) else None;
      tickets := tickets + [Ticket(actor, previous, false, false)];
      tails := tails[Key(actor) := t];
    }

    /** The `finally` of `serialize`. */
    method Free(t: nat)
      requires Inv(View()) && Enabled(View(), Release(t))
      modifies this
      ensures View() == Apply(old(View()), Release(t)) && Inv(View())
    {
      ReleaseKeeps(View(), t);
      var key := Key(tickets[t].actor);
      tickets := tickets[t := tickets[t].(released := true)];
      if key in tails && tails[key] == t {
        tails := tails - {key};
      }
    }
  }
}
