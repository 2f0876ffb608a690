/**
 * `SeatJournalConsumerHost`: one subscription per process fans every event of
 * an identity out to a fixed list of consumers, each with its own persisted
 * cursor, over any number of processes that crash and start again, or stop and
 * start the same host object.
 *
 * One identity is modelled; the cursors of different identities never meet.
 */
module JournalConsumers {
  import opened Options
  import JournalTail

  /** A position handled by, or thrown at, or recorded for one consumer. */
  type Mark = (string, nat)

  /**
   * One process. `loaded` and `consumed` only record history: the cursors its
   * subscription started with and the events that one passed to handlers.
   */
  datatype Host = Host(
    cursors: map<string, nat>, offered: map<string, nat>,
    tail: Option<nat>, delivering: Option<nat>, next: nat,
    loaded: map<string, nat>, consumed: set<Mark>)

  /** `sent` are the cursor writes that were ever sent: any of them may reach the store, at any time, or never. */
  datatype World = World(
    appended: nat, low: nat,
    stored: map<string, nat>, sent: set<Mark>,
    hosts: map<nat, Host>,
    handled: set<Mark>, threw: set<Mark>)

  datatype Outcome = Returns | Throws | DiesAfterHandling

  datatype Step =
    | Append
    | Trim(low: nat)
    | Boot(host: nat, unread: set<string>)
    | Restart(host: nat)
    | Take(host: nat, event: nat)
    | Dispatch(host: nat, outcome: Outcome)
    | Done(host: nat)
    | Land(mark: Mark)
    | Crash(host: nat)

  const EMPTY := World(0, 0, map[], {}, map[], {}, {})

  // ----- cursors -----

  function Lookup(cursors: map<string, nat>, p: string): Option<nat> {
    if p in cursors then Some(cursors[p]) else None
  }

  function AsInt(cursor: Option<nat>): int {
    if cursor.Some? then cursor.value else -1
  }

  /** Where the shared subscription has to start: the lowest cursor, or the whole journal when one is missing. */
  function Earliest(providers: seq<string>, cursors: map<string, nat>): (c: Option<nat>)
    ensures forall i | 0 <= i < |providers| :: AsInt(c) <= AsInt(Lookup(cursors, providers[i]))
    ensures c.Some? ==> exists i | 0 <= i < |providers| :: Lookup(cursors, providers[i]) == c
  {
    if providers == [] then None
    else
      var front := providers[..|providers| - 1];
      var last := Lookup(cursors, providers[|providers| - 1]);
      if last.None? || front == [] then last
      else
        var c := Earliest(front, cursors);
        assert forall i | 0 <= i < |front| :: providers[i] == front[i];
        if c.None? || c.value <= last.value then c else last
  }

  predicate Skips(cursors: map<string, nat>, p: string, e: nat) {
    p in cursors && e <= cursors[p]
  }

  /** The process says that events were lost to retention. */
  predicate Warns(h: Host, p: string, e: nat) {
    && p in h.cursors
    && e > h.cursors[p] + 1
    && (p !in h.offered || h.offered[p] < e - 1)
  }

  function TailCovers(h: Host, providers: seq<string>): int {
    if h.tail.Some? then h.tail.value else AsInt(Earliest(providers, h.cursors))
  }

  // ----- steps -----

  predicate Enabled(s: World, providers: seq<string>, step: Step) {
    match step
    case Append => true
    case Trim(low) => s.low <= low <= s.appended
    case Boot(host, _) => host !in s.hosts
    case Restart(host) => host in s.hosts && s.hosts[host].delivering.None?
    case Take(host, e) =>
      && host in s.hosts && s.hosts[host].delivering.None?
      && JournalTail.Follows(e, TailCovers(s.hosts[host], providers), s.low, s.appended)
    case Dispatch(host, _) =>
      host in s.hosts && s.hosts[host].delivering.Some? && s.hosts[host].next < |providers|
    case Done(host) =>
      host in s.hosts && s.hosts[host].delivering.Some? && s.hosts[host].next == |providers|
    case Land(mark) => mark in s.sent
    case Crash(host) => host in s.hosts
  }

  /** One provider's turn in `deliver`. */
  function DispatchTo(s: World, host: nat, p: string, e: nat, outcome: Outcome): World
    requires host in s.hosts
  {
    var h := s.hosts[host].(offered := s.hosts[host].offered[p := e], next := s.hosts[host].next + 1);
    if Skips(h.cursors, p, e) then s.(hosts := s.hosts[host := h])
    else
      var tried := h.(consumed := h.consumed + {(p, e)});
      match outcome
      case Throws => s.(hosts := s.hosts[host := tried], threw := s.threw + {(p, e)})
      case DiesAfterHandling => s.(hosts := s.hosts - {host}, handled := s.handled + {(p, e)})
      case Returns =>
        s.(hosts := s.hosts[host := tried.(cursors := h.cursors[p := e])],
        handled := s.handled + {(p, e)}, sent := s.sent + {(p, e)})
  }

  function Apply(s: World, providers: seq<string>, step: Step): World
    requires Enabled(s, providers, step)
  {
    match step
    case Append => s.(appended := s.appended + 1)
    case Trim(low) => s.(low := low)
    case Boot(host, unread) =>
      var loaded := map p | p in s.stored && p in providers && p !in unread :: s.stored[p];
      s.(hosts := s.hosts[host := Host(loaded, map[], None, None, 0, loaded, {})])
    case Restart(host) =>
      var h := s.hosts[host];
      s.(hosts := s.hosts[host := h.(tail := None, loaded := h.cursors, consumed := {})])
    case Take(host, e) => s.(hosts := s.hosts[host := s.hosts[host].(delivering := Some(e), next := 0)])
    case Dispatch(host, outcome) =>
      var h := s.hosts[host];
      DispatchTo(s, host, providers[h.next], h.delivering.value, outcome)
    case Done(host) =>
      var h := s.hosts[host];
      s.(hosts := s.hosts[host := h.(tail := h.delivering, delivering := None, next := 0)])
    case Land(mark) => s.(stored := s.stored[mark.0 := mark.1])
    case Crash(host) => s.(hosts := s.hosts - {host})
  }

  ghost predicate Distinct(providers: seq<string>) {
    forall i, j | 0 <= i < j < |providers| :: providers[i] != providers[j]
  }

  /** Every step was possible when its turn came, and led to the next state. */
  ghost predicate Leads(providers: seq<string>, steps: seq<Step>, run: seq<World>) {
    && |run| == |steps| + 1
    && forall i | 0 <= i < |steps| ::
         Enabled(run[i], providers, steps[i]) && run[i + 1] == Apply(run[i], providers, steps[i])
  }

  ghost predicate Execution(providers: seq<string>, steps: seq<Step>, run: seq<World>) {
    Leads(providers, steps, run) && run[0] == EMPTY
  }

  // ----- the invariant -----

  /** Consumer `p` was given `k`, or can no longer be given it. */
  predicate Dealt(s: World, p: string, k: nat) {
    (p, k) in s.handled || (p, k) in s.threw || k < s.low
  }

  ghost predicate Through(s: World, p: string, c: int) {
    forall k: nat | k <= c :: Dealt(s, p, k)
  }

  ghost predicate GrowsTo(s: World, t: World) {
    s.handled <= t.handled && s.threw <= t.threw && s.low <= t.low && s.appended <= t.appended
  }

  lemma ThroughGrows(s: World, t: World, p: string, c: int)
    requires Through(s, p, c) && GrowsTo(s, t)
    ensures Through(t, p, c)
  {
    forall k: nat | k <= c ensures Dealt(t, p, k) {
      assert Dealt(s, p, k);
    }
  }

  /** How far provider number `i` of a process is. */
  function Past(h: Host, providers: seq<string>, i: nat): int {
    if h.delivering.None? then TailCovers(h, providers)
    else if i < h.next then h.delivering.value
    else h.delivering.value - 1
  }

  /** Everything retained past the cursor the process started with and up to `c` went to the handler of `p`. */
  ghost predicate Replayed(low: nat, h: Host, p: string, c: int) {
    forall k: nat | AsInt(Lookup(h.loaded, p)) < k <= c :: (p, k) in h.consumed || k < low
  }

  /** Provider number `i` had its turn at the event being delivered. */
  predicate Turned(h: Host, i: nat) {
    h.delivering.Some? && i < h.next
  }

  ghost predicate ProviderOk(s: World, h: Host, providers: seq<string>, i: nat)
    requires i < |providers|
  {
    var p := providers[i];
    && Through(s, p, Past(h, providers, i))
    && Replayed(s.low, h, p, Past(h, providers, i))
    && (Turned(h, i) || h.tail.Some? ==> Lookup(h.offered, p) == if Turned(h, i) then h.delivering else h.tail)
    && AsInt(Lookup(h.loaded, p)) <= AsInt(Lookup(h.cursors, p))
    && (Lookup(h.cursors, p) == Lookup(h.loaded, p) || AsInt(Lookup(h.cursors, p)) <= Past(h, providers, i))
  }

  /** No position lies between what a process covered and `e`. */
  ghost predicate Adjoins(h: Host, providers: seq<string>, e: nat) {
    if h.tail.Some? then e == h.tail.value + 1
    else forall i | 0 <= i < |providers| :: e <= AsInt(Lookup(h.loaded, providers[i])) + 1
  }

  ghost predicate HostOk(s: World, h: Host, providers: seq<string>) {
    && h.next <= |providers|
    && (h.delivering.Some? ==> h.delivering.value < s.appended && (h.tail.Some? ==> h.tail.value < h.delivering.value))
    && (h.delivering.Some? ==> h.delivering.value <= s.low || Adjoins(h, providers, h.delivering.value))
    && (h.delivering.None? ==> h.next == 0)
    && (h.delivering.None? && h.tail.None? ==> h.cursors == h.loaded)
    && (forall p | p in h.cursors :: (p, h.cursors[p]) in s.handled)
    && (forall m | m in h.consumed :: AsInt(Lookup(h.loaded, m.0)) < m.1)
    && forall i | 0 <= i < |providers| :: ProviderOk(s, h, providers, i)
  }

  ghost predicate Inv(s: World, providers: seq<string>) {
    && s.low <= s.appended
    && (forall m | m in s.handled :: m.1 < s.appended && Through(s, m.0, m.1))
    && s.sent <= s.handled
    && (forall p | p in s.stored :: (p, s.stored[p]) in s.handled)
    && forall host | host in s.hosts :: HostOk(s, s.hosts[host], providers)
  }

  // ----- every step keeps it -----

  /** A process that a step does not touch is still in order after it. */
  lemma HostGrows(s: World, t: World, h: Host, providers: seq<string>)
    requires HostOk(s, h, providers) && GrowsTo(s, t)
    ensures HostOk(t, h, providers)
  {
    forall i | 0 <= i < |providers| ensures ProviderOk(t, h, providers, i) {
      assert ProviderOk(s, h, providers, i);
      ThroughGrows(s, t, providers[i], Past(h, providers, i));
    }
  }

  /** Common part of all steps: only process `host` changed, and the histories grew. */
  lemma Others(s: World, t: World, providers: seq<string>, host: nat)
    requires Inv(s, providers) && GrowsTo(s, t) && t.low <= t.appended
    requires forall m | m in t.handled :: m in s.handled || (m.1 < t.appended && Through(t, m.0, m.1))
    requires t.sent <= t.handled
    requires forall p | p in t.stored :: (p in s.stored && t.stored[p] == s.stored[p]) || (p, t.stored[p]) in t.handled
    requires forall k | k in t.hosts && k != host :: k in s.hosts && t.hosts[k] == s.hosts[k]
    requires host in t.hosts ==>
               (host in s.hosts && t.hosts[host] == s.hosts[host]) || HostOk(t, t.hosts[host], providers)
    ensures Inv(t, providers)
  {
    forall m | m in t.handled ensures m.1 < t.appended && Through(t, m.0, m.1) {
      if m in s.handled { ThroughGrows(s, t, m.0, m.1); }
    }
    forall k | k in t.hosts ensures HostOk(t, t.hosts[k], providers) {
      if k in s.hosts && t.hosts[k] == s.hosts[k] { HostGrows(s, t, s.hosts[k], providers); }
    }
  }

  lemma BootKeeps(s: World, providers: seq<string>, step: Step)
    requires Inv(s, providers) && step.Boot? && Enabled(s, providers, step)
    ensures Inv(Apply(s, providers, step), providers)
  {
    var t := Apply(s, providers, step);
    var h := t.hosts[step.host];
    forall i | 0 <= i < |providers| ensures ProviderOk(t, h, providers, i) {
      var p := providers[i];
      if p in h.cursors {
        assert (p, h.cursors[p]) in s.handled;
        assert Through(s, p, (p, h.cursors[p]).1);
        forall k: nat | k <= Past(h, providers, i) ensures Dealt(t, p, k) { assert Dealt(s, p, k); }
      }
    }
    Others(s, t, providers, step.host);
  }

  lemma RestartKeeps(s: World, providers: seq<string>, step: Step)
    requires Inv(s, providers) && step.Restart? && Enabled(s, providers, step)
    ensures Inv(Apply(s, providers, step), providers)
  {
    var t := Apply(s, providers, step);
    var h := t.hosts[step.host];
    assert HostOk(s, s.hosts[step.host], providers);
    forall i | 0 <= i < |providers| ensures ProviderOk(t, h, providers, i) {
      var p := providers[i];
      if p in h.cursors {
        assert (p, h.cursors[p]) in s.handled;
        assert Through(s, p, (p, h.cursors[p]).1);
        forall k: nat | k <= Past(h, providers, i) ensures Dealt(t, p, k) { assert Dealt(s, p, k); }
      }
    }
    Others(s, t, providers, step.host);
  }

  lemma TakeKeeps(s: World, providers: seq<string>, step: Step)
    requires Inv(s, providers) && step.Take? && Enabled(s, providers, step)
    ensures Inv(Apply(s, providers, step), providers)
  {
    var t := Apply(s, providers, step);
    var h, h' := s.hosts[step.host], t.hosts[step.host];
    forall i | 0 <= i < |providers| ensures ProviderOk(t, h', providers, i) {
      assert ProviderOk(s, h, providers, i);
      var p := providers[i];
      forall k: nat | k <= step.event - 1 ensures Dealt(t, p, k) {
        if k <= TailCovers(h, providers) { assert Dealt(s, p, k); }
      }
    }
    Others(s, t, providers, step.host);
  }

  lemma DoneKeeps(s: World, providers: seq<string>, step: Step)
    requires Inv(s, providers) && step.Done? && Enabled(s, providers, step)
    ensures Inv(Apply(s, providers, step), providers)
  {
    var t := Apply(s, providers, step);
    var h, h' := s.hosts[step.host], t.hosts[step.host];
    forall i | 0 <= i < |providers| ensures ProviderOk(t, h', providers, i) {
      assert ProviderOk(s, h, providers, i);
      ThroughGrows(s, t, providers[i], Past(h, providers, i));
    }
    Others(s, t, providers, step.host);
  }

  /** A provider that had its turn is through the event, whatever happened. */
  lemma TurnIsThrough(s: World, providers: seq<string>, host: nat, outcome: Outcome)
    requires Inv(s, providers) && Enabled(s, providers, Dispatch(host, outcome))
    ensures var h := s.hosts[host]; var p := providers[h.next]; var e := h.delivering.value;
            var t := DispatchTo(s, host, p, e, outcome);
            GrowsTo(s, t) && Through(t, p, e)
  {
    var h := s.hosts[host];
    var p, e := providers[h.next], h.delivering.value;
    var t := DispatchTo(s, host, p, e, outcome);
    assert ProviderOk(s, h, providers, h.next);
    forall k: nat | k <= e ensures Dealt(t, p, k) {
      if k < e { assert Dealt(s, p, k); }
      else if Skips(h.cursors, p, e) {
        assert Through(s, p, (p, h.cursors[p]).1);
        assert Dealt(s, p, k);
      }
    }
  }

  /** A turn leaves every other provider of the process as far as it was. */
  lemma BystanderOk(s: World, t: World, h: Host, h': Host, providers: seq<string>, i: nat)
    requires i < |providers| && ProviderOk(s, h, providers, i) && GrowsTo(s, t) && h.delivering.Some?
    requires i != h.next && h' == h.(cursors := h'.cursors, offered := h'.offered, next := h.next + 1, consumed := h'.consumed)
    requires Lookup(h'.cursors, providers[i]) == Lookup(h.cursors, providers[i])
    requires Lookup(h'.offered, providers[i]) == Lookup(h.offered, providers[i])
    requires h.consumed <= h'.consumed
    ensures ProviderOk(t, h', providers, i)
  {
    ThroughGrows(s, t, providers[i], Past(h, providers, i));
  }

  lemma TurnTakerOk(s: World, providers: seq<string>, host: nat, outcome: Outcome)
    requires Inv(s, providers)
    requires Enabled(s, providers, Dispatch(host, outcome)) && !outcome.DiesAfterHandling?
    ensures var h := s.hosts[host];
            var t := DispatchTo(s, host, providers[h.next], h.delivering.value, outcome);
            ProviderOk(t, t.hosts[host], providers, h.next)
  {
    var h := s.hosts[host];
    assert HostOk(s, h, providers);
    assert ProviderOk(s, h, providers, h.next);
    TurnIsThrough(s, providers, host, outcome);
  }

  lemma TurnOk(s: World, providers: seq<string>, host: nat, outcome: Outcome, i: nat)
    requires Inv(s, providers) && Distinct(providers) && i < |providers|
    requires Enabled(s, providers, Dispatch(host, outcome)) && !outcome.DiesAfterHandling?
    ensures var h := s.hosts[host];
            var t := DispatchTo(s, host, providers[h.next], h.delivering.value, outcome);
            ProviderOk(t, t.hosts[host], providers, i)
  {
    var h := s.hosts[host];
    var t := DispatchTo(s, host, providers[h.next], h.delivering.value, outcome);
    if i == h.next {
      TurnTakerOk(s, providers, host, outcome);
    } else {
      assert providers[i] != providers[h.next];
      assert HostOk(s, h, providers);
      BystanderOk(s, t, h, t.hosts[host], providers, i);
    }
  }

  lemma TurnHostOk(s: World, providers: seq<string>, host: nat, outcome: Outcome)
    requires Inv(s, providers) && Distinct(providers)
    requires Enabled(s, providers, Dispatch(host, outcome)) && !outcome.DiesAfterHandling?
    ensures var h := s.hosts[host];
            var t := DispatchTo(s, host, providers[h.next], h.delivering.value, outcome);
            HostOk(t, t.hosts[host], providers)
  {
    var h := s.hosts[host];
    var t := DispatchTo(s, host, providers[h.next], h.delivering.value, outcome);
    assert ProviderOk(s, h, providers, h.next);
    forall i | 0 <= i < |providers| ensures ProviderOk(t, t.hosts[host], providers, i) {
      TurnOk(s, providers, host, outcome, i);
    }
  }

  lemma DispatchKeeps(s: World, providers: seq<string>, step: Step)
    requires Inv(s, providers) && Distinct(providers) && step.Dispatch? && Enabled(s, providers, step)
    ensures Inv(Apply(s, providers, step), providers)
  {
    var h := s.hosts[step.host];
    TurnIsThrough(s, providers, step.host, step.outcome);
    var t := Apply(s, providers, step);
    assert HostOk(s, h, providers);
    if !step.outcome.DiesAfterHandling? || Skips(h.cursors, providers[h.next], h.delivering.value) {
      TurnHostOk(s, providers, step.host, if step.outcome.DiesAfterHandling? then Throws else step.outcome);
    }
    Others(s, t, providers, step.host);
  }

  lemma StepKeeps(s: World, providers: seq<string>, step: Step)
    requires Inv(s, providers) && Distinct(providers) && Enabled(s, providers, step)
    ensures Inv(Apply(s, providers, step), providers)
    ensures GrowsTo(s, Apply(s, providers, step))
  {
    match step
    case Boot(_, _) => BootKeeps(s, providers, step);
    case Restart(_) => RestartKeeps(s, providers, step);
    case Take(_, _) => TakeKeeps(s, providers, step);
    case Done(_) => DoneKeeps(s, providers, step);
    case Dispatch(_, _) => DispatchKeeps(s, providers, step);
    case Append => Others(s, Apply(s, providers, step), providers, 0);
    case Trim(_) => Others(s, Apply(s, providers, step), providers, 0);
    case Land(_) => Others(s, Apply(s, providers, step), providers, 0);
    case Crash(host) => Others(s, Apply(s, providers, step), providers, host);
  }

  lemma {:induction false} ReachableOk(providers: seq<string>, steps: seq<Step>, run: seq<World>, i: nat)
    requires Execution(providers, steps, run) && Distinct(providers) && i < |run|
    ensures Inv(run[i], providers)
  {
    if i > 0 {
      ReachableOk(providers, steps, run, i - 1);
      StepKeeps(run[i - 1], providers, steps[i - 1]);
    }
  }

  // ----- at least once -----

  /** A recorded cursor stands on a handled event, and everything up to it was handled, thrown or trimmed. */
  lemma RecordedWasHandled(providers: seq<string>, steps: seq<Step>, run: seq<World>, i: nat, p: string)
    requires Execution(providers, steps, run) && Distinct(providers) && i < |run| && p in run[i].stored
    ensures (p, run[i].stored[p]) in run[i].handled
    ensures Through(run[i], p, run[i].stored[p])
  {
    ReachableOk(providers, steps, run, i);
    assert (p, run[i].stored[p]) in run[i].handled;
  }

  /** With nothing trimmed, the positions handled by a consumer that never throws form a gap-free prefix. */
  lemma HandledIsAPrefix(providers: seq<string>, steps: seq<Step>, run: seq<World>, i: nat, p: string, j: nat, k: nat)
    requires Execution(providers, steps, run) && Distinct(providers) && i < |run|
    requires run[i].low == 0 && forall n: nat :: (p, n) !in run[i].threw
    requires (p, k) in run[i].handled && j <= k
    ensures (p, j) in run[i].handled
  {
    ReachableOk(providers, steps, run, i);
    assert Through(run[i], p, (p, k).1);
    assert Dealt(run[i], p, j);
  }

  /** What a running process is past was handled by, thrown at, or trimmed for every one of its consumers. */
  lemma NothingIsMissed(providers: seq<string>, steps: seq<Step>, run: seq<World>, i: nat, host: nat, n: nat)
    requires Execution(providers, steps, run) && Distinct(providers) && i < |run|
    requires host in run[i].hosts && run[i].hosts[host].tail.Some? && n < |providers|
    ensures Through(run[i], providers[n], run[i].hosts[host].tail.value)
  {
    ReachableOk(providers, steps, run, i);
    var h := run[i].hosts[host];
    assert ProviderOk(run[i], h, providers, n);
    forall k: nat | k <= h.tail.value ensures Dealt(run[i], providers[n], k) {
      assert HostOk(run[i], h, providers);
    }
  }

  /** The retention warning is never a false alarm: everything before the event is gone. */
  lemma WarningsAreRetention(providers: seq<string>, steps: seq<Step>, run: seq<World>, i: nat)
    requires Execution(providers, steps, run) && Distinct(providers) && i < |steps| && steps[i].Dispatch?
    requires var h := run[i].hosts[steps[i].host]; Warns(h, providers[h.next], h.delivering.value)
    ensures run[i].hosts[steps[i].host].delivering.value <= run[i].low
  {
    ReachableOk(providers, steps, run, i);
    var h := run[i].hosts[steps[i].host];
    assert HostOk(run[i], h, providers);
    assert ProviderOk(run[i], h, providers, h.next);
  }

  // ----- what comes back after a restart -----

  /** A step at which process `host` subscribes: it boots, or its host object stops and starts again. */
  predicate Subscribes(step: Step, host: nat) {
    (step.Boot? || step.Restart?) && step.host == host
  }

  /** The subscription that process `host` began at step `b` is still the one running at `i`. */
  ghost predicate SameSubscription(run: seq<World>, steps: seq<Step>, host: nat, b: nat, i: nat)
    requires i < |run| && |run| == |steps| + 1
  {
    && b < i && Subscribes(steps[b], host)
    && (forall j | b < j <= i :: host in run[j].hosts)
    && forall j | b < j < i :: !Subscribes(steps[j], host)
  }

  /** The cursor a subscription starts with: what a booting process reads, or what a restarted object still has. */
  function CursorAtStart(w: World, step: Step, p: string): Option<nat>
    requires step.Boot? || (step.Restart? && step.host in w.hosts)
  {
    match step
    case Boot(_, unread) => if p in unread then None else Lookup(w.stored, p)
    case Restart(host) => Lookup(w.hosts[host].cursors, p)
    case _ => None
  }

  lemma {:induction false} LoadedStays(providers: seq<string>, steps: seq<Step>, run: seq<World>, host: nat, b: nat, i: nat)
    requires Execution(providers, steps, run) && i < |run| && SameSubscription(run, steps, host, b, i)
    ensures run[i].hosts[host].loaded == run[b + 1].hosts[host].loaded
    decreases i
  {
    if i > b + 1 {
      LoadedStays(providers, steps, run, host, b, i - 1);
      assert host in run[i - 1].hosts && !Subscribes(steps[i - 1], host);
    }
  }

  /**
   * A subscription that is past a retained event passed it to a consumer's
   * handler exactly when the cursor it started with was below the event. So an
   * event that was thrown comes back, after a new process or a new start of the
   * same host object, if and only if no later one was on record by then.
   */
  lemma ComesBackIff(providers: seq<string>, steps: seq<Step>, run: seq<World>, host: nat, b: nat, i: nat, n: nat, k: nat)
    requires Execution(providers, steps, run) && Distinct(providers) && i < |run| && n < |providers|
    requires SameSubscription(run, steps, host, b, i) && run[i].low <= k
    requires run[i].hosts[host].tail.Some? && k <= run[i].hosts[host].tail.value
    ensures Enabled(run[b], providers, steps[b])
    ensures (providers[n], k) in run[i].hosts[host].consumed <==> AsInt(CursorAtStart(run[b], steps[b], providers[n])) < k
  {
    ReachableOk(providers, steps, run, i);
    LoadedStays(providers, steps, run, host, b, i);
    var h := run[i].hosts[host];
    assert HostOk(run[i], h, providers);
    assert ProviderOk(run[i], h, providers, n);
    assert Enabled(run[b], providers, steps[b]);
    assert run[b + 1].hosts[host].loaded == h.loaded;
    if (providers[n], k) in h.consumed {
      assert AsInt(Lookup(h.loaded, (providers[n], k).0)) < (providers[n], k).1;
    }
  }

  /** In a process that started and was not stopped since, what a consumer was last offered is what was last delivered. */
  ghost predicate OffersFollow(h: Host, providers: seq<string>, n: nat)
    requires n < |providers|
  {
    h.next <= |providers| && Lookup(h.offered, providers[n]) == if Turned(h, n) then h.delivering else h.tail
  }

  lemma OffersStep(providers: seq<string>, s: World, step: Step, host: nat, n: nat)
    requires Distinct(providers) && Enabled(s, providers, step) && !Subscribes(step, host) && n < |providers|
    requires host in s.hosts && OffersFollow(s.hosts[host], providers, n) && (s.hosts[host].delivering.None? ==> s.hosts[host].next == 0)
    ensures host in Apply(s, providers, step).hosts ==> OffersFollow(Apply(s, providers, step).hosts[host], providers, n)
  {
  }

  lemma BootOffersNothing(providers: seq<string>, s: World, step: Step, n: nat)
    requires step.Boot? && Enabled(s, providers, step) && n < |providers|
    ensures OffersFollow(Apply(s, providers, step).hosts[step.host], providers, n)
  {
  }

  lemma IdleIsAtZero(s: World, providers: seq<string>, host: nat)
    requires Inv(s, providers) && host in s.hosts
    ensures s.hosts[host].delivering.None? ==> s.hosts[host].next == 0
  {
    assert HostOk(s, s.hosts[host], providers);
  }

  lemma {:induction false} OfferedIsDelivered(providers: seq<string>, steps: seq<Step>, run: seq<World>, host: nat, b: nat, i: nat, n: nat)
    requires Execution(providers, steps, run) && Distinct(providers) && i < |run| && n < |providers|
    requires SameSubscription(run, steps, host, b, i) && steps[b].Boot?
    ensures OffersFollow(run[i].hosts[host], providers, n)
    decreases i
  {
    if i == b + 1 {
      BootOffersNothing(providers, run[b], steps[b], n);
    } else {
      OfferedIsDelivered(providers, steps, run, host, b, i - 1, n);
      ReachableOk(providers, steps, run, i - 1);
      IdleIsAtZero(run[i - 1], providers, host);
      assert !Subscribes(steps[i - 1], host);
      OffersStep(providers, run[i - 1], steps[i - 1], host, n);
    }
  }

  /**
   * In a process that was not stopped since it started, a consumer is warned of
   * lost events exactly when its cursor is more than one below the event and
   * the subscription came to the event without the one before it.
   */
  lemma WarnsIff(providers: seq<string>, steps: seq<Step>, run: seq<World>, host: nat, b: nat, i: nat)
    requires Execution(providers, steps, run) && Distinct(providers) && i < |steps|
    requires SameSubscription(run, steps, host, b, i) && steps[b].Boot?
    requires steps[i].Dispatch? && steps[i].host == host
    ensures Enabled(run[i], providers, steps[i])
    ensures var h := run[i].hosts[host];
            var p, e := providers[h.next], h.delivering.value;
            Warns(h, p, e) <==>
            p in h.cursors && e > h.cursors[p] + 1 && (h.tail.None? || e > h.tail.value + 1)
  {
    assert Enabled(run[i], providers, steps[i]);
    OfferedIsDelivered(providers, steps, run, host, b, i, run[i].hosts[host].next);
  }

  lemma More(providers: seq<string>, steps: seq<Step>, run: seq<World>, step: Step, t: World)
    returns (steps': seq<Step>, run': seq<World>)
    requires Leads(providers, steps, run)
    requires Enabled(run[|steps|], providers, step) && t == Apply(run[|steps|], providers, step)
    ensures Leads(providers, steps', run') && run'[|steps'|] == t && run'[0] == run[0]
  {
    steps', run' := steps + [step], run + [t];
  }

  /** A single process with consumer "p" takes the event after its cursor and is done with it. */
  lemma OneEvent(steps: seq<Step>, run: seq<World>, host: nat, h: Host, threw: bool)
    returns (steps': seq<Step>, run': seq<World>)
    requires Execution(["p"], steps, run)
    requires var w := run[|steps|];
             && w.hosts == map[host := h] && h.delivering.None? && h.next == 0
             && TailCovers(h, ["p"]) + 1 < w.appended
             && AsInt(Lookup(h.cursors, "p")) <= TailCovers(h, ["p"])
    ensures Execution(["p"], steps', run')
    ensures var w := run[|steps|]; var e := TailCovers(h, ["p"]) + 1;
            && e >= 0
            && run'[|steps'|] == w.(
               hosts := map[host := h.(
                 cursors := if threw then h.cursors else h.cursors["p" := e],
                 offered := h.offered["p" := e], tail := Some(e), consumed := h.consumed + {("p", e)})],
               threw := if threw then w.threw + {("p", e)} else w.threw,
               handled := if threw then w.handled else w.handled + {("p", e)},
               sent := if threw then w.sent else w.sent + {("p", e)})
  {
    var e := TailCovers(h, ["p"]) + 1;
    var w := run[|steps|];
    var taken := h.(delivering := Some(e));
    assert w.hosts[host := taken] == map[host := taken];
    steps', run' := More(["p"], steps, run, Take(host, e), w.(hosts := map[host := taken]));
    var outcome := if threw then Throws else Returns;
    var w' := DispatchTo(run'[|steps'|], host, "p", e, outcome);
    steps', run' := More(["p"], steps', run', Dispatch(host, outcome), w');
    var h' := w'.hosts[host];
    assert w'.hosts[host := h'.(tail := Some(e), delivering := None, next := 0)]
        == map[host := h'.(tail := Some(e), delivering := None, next := 0)];
    steps', run' := More(["p"], steps', run', Done(host), Apply(w', ["p"], Done(host)));
  }

  /** The first process throws on event 0, records event 1, and dies. */
  lemma ThrewThenRecorded() returns (steps: seq<Step>, run: seq<World>)
    ensures Execution(["p"], steps, run)
    ensures run[|steps|] == World(2, 0, map["p" := 1], {("p", 1)}, map[], {("p", 1)}, {("p", 0)})
  {
    var w := World(2, 0, map[], {}, map[], {}, {});
    var h := Host(map[], map[], None, None, 0, map[], {});
    steps, run := More(["p"], [], [EMPTY], Append, EMPTY.(appended := 1));
    steps, run := More(["p"], steps, run, Append, w);
    steps, run := More(["p"], steps, run, Boot(1, {}), w.(hosts := map[1 := h]));
    steps, run := OneEvent(steps, run, 1, h, true);
    steps, run := OneEvent(steps, run, 1, run[|steps|].hosts[1], false);
    w := run[|steps|].(stored := map["p" := 1]);
    steps, run := More(["p"], steps, run, Land(("p", 1)), w);
    assert w.hosts - {1} == map[];
    steps, run := More(["p"], steps, run, Crash(1), w.(hosts := map[]));
  }

  /** A thrown event that a later success was recorded past: retained, never handled, and skipped by the next process. */
  lemma ThrownCanBeLost() returns (steps: seq<Step>, run: seq<World>)
    ensures Execution(["p"], steps, run)
    ensures var s := run[|steps|];
            && s.low == 0 && ("p", 0) in s.threw && ("p", 0) !in s.handled
            && 2 in s.hosts && s.hosts[2].tail == Some(2) && ("p", 0) !in s.hosts[2].consumed
  {
    steps, run := ThrewThenRecorded();
    var w := run[|steps|].(appended := 3);
    steps, run := More(["p"], steps, run, Append, w);
    var h := Host(map["p" := 1], map[], None, None, 0, map["p" := 1], {});
    assert Apply(w, ["p"], Boot(2, {})).hosts[2].loaded == map["p" := 1];
    steps, run := More(["p"], steps, run, Boot(2, {}), w.(hosts := map[2 := h]));
    assert Earliest(["p"], map["p" := 1]) == Some(1);
    steps, run := OneEvent(steps, run, 2, h, false);
  }

  // ----- what a process left alone does -----

  /** Consumer number `i` had its turn at `e`: its cursor already covered it, or its handler returned and its cursor was sent. */
  ghost predicate Served(before: Host, s: World, h: Host, providers: seq<string>, i: nat, e: nat)
    requires i < |providers|
  {
    var p := providers[i];
    if Skips(before.cursors, p, e) then Lookup(h.cursors, p) == Lookup(before.cursors, p)
    else Lookup(h.cursors, p) == Some(e) && (p, e) in s.handled && (p, e) in s.sent
  }

  /** A host part way through an event, started from `before`. */
  ghost predicate PartWay(before: Host, s: World, h: Host, providers: seq<string>, e: nat) {
    && h.delivering == Some(e) && h.next <= |providers|
    && (forall i | 0 <= i < h.next :: Served(before, s, h, providers, i, e))
    && (forall i | h.next <= i < |providers| :: Lookup(h.cursors, providers[i]) == Lookup(before.cursors, providers[i]))
  }

  lemma ServesOneMore(before: Host, s: World, host: nat, providers: seq<string>, e: nat)
    requires Distinct(providers) && host in s.hosts && PartWay(before, s, s.hosts[host], providers, e)
    requires s.hosts[host].next < |providers|
    ensures var s' := Apply(s, providers, Dispatch(host, Returns));
            && Enabled(s, providers, Dispatch(host, Returns))
            && host in s'.hosts && PartWay(before, s', s'.hosts[host], providers, e)
            && s'.hosts[host].next == s.hosts[host].next + 1
  {
    var h := s.hosts[host];
    var s' := DispatchTo(s, host, providers[h.next], e, Returns);
    forall i | 0 <= i < h.next ensures Served(before, s', s'.hosts[host], providers, i, e) {
      assert Served(before, s, h, providers, i, e) && providers[i] != providers[h.next];
    }
    forall i | h.next < i < |providers|
      ensures Lookup(s'.hosts[host].cursors, providers[i]) == Lookup(before.cursors, providers[i])
    {
      assert providers[h.next] != providers[i];
    }
  }

  lemma {:induction false} ServesAll(before: Host, providers: seq<string>, steps: seq<Step>, run: seq<World>, host: nat, e: nat)
    returns (steps': seq<Step>, run': seq<World>)
    requires Leads(providers, steps, run) && Distinct(providers)
    requires host in run[|steps|].hosts && PartWay(before, run[|steps|], run[|steps|].hosts[host], providers, e)
    ensures Leads(providers, steps', run') && run'[0] == run[0]
    ensures host in run'[|steps'|].hosts && PartWay(before, run'[|steps'|], run'[|steps'|].hosts[host], providers, e)
    ensures run'[|steps'|].hosts[host].next == |providers|
    decreases |providers| - run[|steps|].hosts[host].next
  {
    steps', run' := steps, run;
    if run[|steps|].hosts[host].next < |providers| {
      ServesOneMore(before, run[|steps|], host, providers, e);
      steps', run' := More(providers, steps, run, Dispatch(host, Returns), Apply(run[|steps|], providers, Dispatch(host, Returns)));
      steps', run' := ServesAll(before, providers, steps', run', host, e);
    }
  }

  /**
   * An idle process that is handed an event and whose handlers return gives it
   * to every consumer whose cursor does not cover it, moves those cursors and
   * sends them off, and is then past the event.
   */
  lemma EventReachesAll(providers: seq<string>, s: World, host: nat, e: nat) returns (steps: seq<Step>, run: seq<World>)
    requires Distinct(providers) && Enabled(s, providers, Take(host, e))
    ensures Leads(providers, steps, run) && run[0] == s && host in run[|steps|].hosts
    ensures run[|steps|].hosts[host].tail == Some(e) && run[|steps|].hosts[host].delivering == None
    ensures forall i | 0 <= i < |providers| :: Served(s.hosts[host], run[|steps|], run[|steps|].hosts[host], providers, i, e)
  {
    steps, run := More(providers, [], [s], Take(host, e), Apply(s, providers, Take(host, e)));
    steps, run := ServesAll(s.hosts[host], providers, steps, run, host, e);
    var last := run[|steps|];
    steps, run := More(providers, steps, run, Done(host), Apply(last, providers, Done(host)));
    forall i | 0 <= i < |providers| ensures Served(s.hosts[host], run[|steps|], run[|steps|].hosts[host], providers, i, e) {
      assert Served(s.hosts[host], last, last.hosts[host], providers, i, e);
    }
  }

  /** A cursor write that lands is where the next process that can read it starts, so nothing up to it comes again. */
  lemma LandedIsLoaded(providers: seq<string>, s: World, p: string, e: nat, host: nat, unread: set<string>, k: nat)
    requires (p, e) in s.sent && p in providers && p !in unread && host !in s.hosts
    ensures Enabled(s, providers, Land((p, e)))
    ensures var landed := Apply(s, providers, Land((p, e)));
            && Enabled(landed, providers, Boot(host, unread))
            && var h := Apply(landed, providers, Boot(host, unread)).hosts[host];
               p in h.cursors && h.cursors[p] == e && (Skips(h.cursors, p, k) <==> k <= e)
  {
  }

  // ----- the fields of the host -----

  /** The cursors after the first `n` providers were given `e`, those in `throws` throwing. */
  function CursorsAfter(cursors: map<string, nat>, providers: seq<string>, e: nat, throws: set<string>, n: nat): map<string, nat>
    requires n <= |providers|
  {
    if n == 0 then cursors
    else
      var before := CursorsAfter(cursors, providers, e, throws, n - 1);
      var p := providers[n - 1];
      if Skips(before, p, e) || p in throws then before else before[p := e]
  }

  /** The cursor writes sent while the first `n` providers were given `e`: one for each cursor that moved, in order. */
  function WritesFor(member: string, cursors: map<string, nat>, providers: seq<string>, e: nat, throws: set<string>,
      n: nat): seq<(string, Mark)>
    requires n <= |providers|
  {
    if n == 0 then []
    else
      var before := WritesFor(member, cursors, providers, e, throws, n - 1);
      var p := providers[n - 1];
      if Skips(CursorsAfter(cursors, providers, e, throws, n - 1), p, e) || p in throws then before else before + [(member, (p, e))]
  }

  /** A consumer's cursor moves to the event exactly when it is new to it and its handler returns. */
  lemma {:induction false} CursorMovesIff(cursors: map<string, nat>, providers: seq<string>, e: nat,
      throws: set<string>, n: nat, p: string)
    requires n <= |providers|
    ensures Lookup(CursorsAfter(cursors, providers, e, throws, n), p)
            == if p in providers[..n] && p !in throws && AsInt(Lookup(cursors, p)) < e then Some(e) else Lookup(cursors, p)
  {
    if n > 0 {
      CursorMovesIff(cursors, providers, e, throws, n - 1, p);
      assert providers[..n] == providers[..n - 1] + [providers[n - 1]];
    }
  }

  class SeatJournalConsumerHost {
    const providers: seq<string>
    /** Last position handled, per identity and provider. */
    var cursors: map<string, map<string, nat>>
    /** Last position offered, per identity and provider, in this process only. */
    var offered: map<string, map<string, nat>>
    /** The cursor writes sent to the store, oldest first. */
    var writes: seq<(string, Mark)>

    constructor (providers: seq<string>, loaded: map<string, map<string, nat>>)
      ensures this.providers == providers && cursors == loaded && offered == map[] && writes == []
    {
      this.providers := providers;
      cursors, offered, writes := loaded, map[], [];
    }

    function Of(table: map<string, map<string, nat>>, member: string): map<string, nat> {
      if member in table then table[member] else map[]
    }

    method EarliestCursor(member: string) returns (earliest: Option<nat>)
      ensures earliest == Earliest(providers, Of(cursors, member))
    {
      var known := Of(cursors, member);
      earliest := None;
      var i := 0;
      while i < |providers|
        invariant 0 <= i <= |providers|
        invariant earliest == Earliest(providers[..i], known)
        invariant i > 0 ==> earliest.Some?
      {
        assert providers[..i + 1][..i] == providers[..i];
        if providers[i] !in known {
          MissingMeansAll(providers, known, i);
          return None;
        }
        var cursor := known[providers[i]];
        earliest := if earliest.None? || cursor < earliest.value then Some(cursor) else earliest;
        i := i + 1;
      }
      assert providers[..i] == providers;
    }

    method Deliver(member: string, e: nat, throws: set<string>)
      modifies this
      ensures Of(cursors, member) == CursorsAfter(old(Of(cursors, member)), providers, e, throws, |providers|)
      ensures forall p | p in providers :: p in Of(offered, member) && Of(offered, member)[p] == e
      ensures forall m | m != member :: Of(cursors, m) == old(Of(cursors, m)) && Of(offered, m) == old(Of(offered, m))
      ensures writes == old(writes) + WritesFor(member, old(Of(cursors, member)), providers, e, throws, |providers|)
    {
      var i := 0;
      while i < |providers|
        invariant 0 <= i <= |providers|
        invariant Of(cursors, member) == CursorsAfter(old(Of(cursors, member)), providers, e, throws, i)
        invariant forall p | p in providers[..i] :: p in Of(offered, member) && Of(offered, member)[p] == e
        invariant forall m | m != member :: Of(cursors, m) == old(Of(cursors, m)) && Of(offered, m) == old(Of(offered, m))
        invariant writes == old(writes) + WritesFor(member, old(Of(cursors, member)), providers, e, throws, i)
      {
        var p := providers[i];
        assert providers[..i + 1] == providers[..i] + [p];
        offered := offered[member := Of(offered, member)[p := e]];
        if !Skips(Of(cursors, member), p, e) && p !in throws {
          cursors := cursors[member := Of(cursors, member)[p := e]];
          writes := writes + [(member, (p, e))];
        }
        i := i + 1;
      }
      assert providers[..i] == providers;
    }
  }

  /** One consumer without a cursor makes the subscription read the whole journal. */
  lemma {:induction false} MissingMeansAll(providers: seq<string>, cursors: map<string, nat>, i: nat)
    requires i < |providers| && providers[i] !in cursors
    ensures Earliest(providers, cursors) == None
  {
    var n := |providers| - 1;
    if i < n {
      MissingMeansAll(providers[..n], cursors, i);
    }
  }
}
