/**
 * `RedisJournalSubscription`: replay an identity's journal by position, then
 * tail it live, across reconnects, with a handler that may throw.
 *
 * The journal of one identity is the numbers 0, 1, 2, ... in order, each the
 * position of a committed event. Retention forgets the ones below `low`.
 */
module JournalTail {
  import opened Basics
  import opened Options

  /** The last entry a read returned; `Start` is the id no entry has. */
  datatype Position = Start | At(last: nat)

  /** `batch` is what a read returned and has not been offered yet; `live` says the read was an `XREAD`. */
  datatype Tail = Tail(
    appended: nat, low: nat,
    discovered: bool, position: Option<Position>, cursor: Option<int>,
    batch: seq<nat>, live: bool, closed: bool,
    handed: seq<nat>)

  datatype Step =
    | Append
    | Trim(low: nat)
    | Discover
    | ReplayReads
    | LiveReads(count: nat)
    | Offer(handlerThrows: bool)
    | LoopFails
    | Close

  const FRESH := Tail(0, 0, false, None, None, [], false, false, [])

  /** The positions from `lo` up to but not including `hi`, in order. */
  function Range(lo: nat, hi: int): (s: seq<nat>)
    ensures |s| == Max(0, hi - lo) && forall i | 0 <= i < |s| :: s[i] == lo + i
    decreases Max(0, hi - lo)
  {
    if hi <= lo then [] else Range(lo, hi - 1) + [hi - 1]
  }

  /** What the consumer has been offered: its cursor, else where it asked to resume, else nothing. */
  function Covered(cursor: Option<int>, since: Option<int>): int {
    if cursor.Some? then cursor.value else if since.Some? then since.value else -1
  }

  // ----- offering -----

  /** `offer`: skip what the cursor covers, hand over the rest; a throwing handler advances the cursor too. */
  function OfferOne(cursor: Option<int>, since: Option<int>, seqNo: nat): (Option<int>, seq<nat>) {
    if seqNo <= Covered(cursor, since) then (cursor, []) else (Some(seqNo), [seqNo])
  }

  function OfferAll(cursor: Option<int>, since: Option<int>, entries: seq<nat>): (Option<int>, seq<nat>) {
    if entries == [] then (cursor, [])
    else
      var (cursor', before) := OfferAll(cursor, since, entries[..|entries| - 1]);
      var (cursor'', handed) := OfferOne(cursor', since, entries[|entries| - 1]);
      (cursor'', before + handed)
  }

  lemma OfferAllMore(cursor: Option<int>, since: Option<int>, entries: seq<nat>, e: nat)
    ensures var (cursor', before) := OfferAll(cursor, since, entries);
            var (cursor'', given) := OfferOne(cursor', since, e);
            OfferAll(cursor, since, entries + [e]) == (cursor'', before + given)
  {
    assert (entries + [e])[..|entries|] == entries;
  }

  lemma OfferAllLast(cursor: Option<int>, since: Option<int>, entries: seq<nat>)
    requires entries != []
    ensures var (cursor', before) := OfferAll(cursor, since, entries[..|entries| - 1]);
            var e := entries[|entries| - 1];
            var known := e <= Covered(cursor', since);
            && OfferAll(cursor, since, entries).1 == (if known then before else before + [e])
            && OfferAll(cursor, since, entries).0 == (if known then cursor' else Some(e))
  {
  }

  predicate Consecutive(entries: seq<nat>, lo: nat) {
    forall i | 0 <= i < |entries| :: entries[i] == lo + i
  }

  /** After consecutive entries were offered the cursor covers all of them. */
  lemma {:induction false} OfferAllCovers(cursor: Option<int>, since: Option<int>, lo: nat, entries: seq<nat>)
    requires Consecutive(entries, lo)
    ensures Covered(OfferAll(cursor, since, entries).0, since)
            == if entries == [] then Covered(cursor, since) else Max(Covered(cursor, since), lo + |entries| - 1)
  {
    if entries != [] {
      OfferAllCovers(cursor, since, lo, entries[..|entries| - 1]);
      OfferAllLast(cursor, since, entries);
    }
  }

  /** How many of `n` consecutive positions from `lo` on are covered already. */
  function Known(lo: nat, n: nat, covered: int): (k: nat)
    ensures k <= n
  {
    if covered < lo then 0 else if covered < lo + n then covered + 1 - lo else n
  }

  lemma KnownMore(lo: nat, front: seq<nat>, e: nat, covered: int)
    requires e == lo + |front|
    ensures var k := Known(lo, |front|, covered);
            (front + [e])[Known(lo, |front| + 1, covered)..] == if e <= covered then front[k..] else front[k..] + [e]
  {
  }

  /** Offering a stretch of the journal hands over exactly the part past the cursor, in order. */
  lemma {:induction false} OfferAllIsTheRest(cursor: Option<int>, since: Option<int>, lo: nat, entries: seq<nat>)
    requires Consecutive(entries, lo)
    ensures OfferAll(cursor, since, entries).1 == entries[Known(lo, |entries|, Covered(cursor, since))..]
  {
    if entries != [] {
      var front, e := entries[..|entries| - 1], entries[|entries| - 1];
      assert entries == front + [e];
      OfferAllIsTheRest(cursor, since, lo, front);
      OfferAllCovers(cursor, since, lo, front);
      OfferAllLast(cursor, since, entries);
      KnownMore(lo, front, e, Covered(cursor, since));
    }
  }

  // ----- steps -----

  predicate Enabled(s: Tail, step: Step) {
    match step
    case Append => true
    case Trim(low) => s.low <= low <= s.appended
    case Discover => !s.closed
    case ReplayReads => !s.closed && s.discovered && s.position.None? && s.batch == []
    case LiveReads(_) => !s.closed && s.discovered && s.position.Some? && s.batch == []
    case Offer(_) => !s.closed && s.batch != []
    case LoopFails => !s.closed
    case Close => true
  }

  function Apply(s: Tail, since: Option<int>, step: Step): Tail
    requires Enabled(s, step)
  {
    match step
    case Append => s.(appended := s.appended + 1)
    case Trim(low) => s.(low := low)
    case Discover => s.(discovered := true)
    case ReplayReads =>
      s.(batch := Range(s.low, s.appended), live := false,
      position := Some(if s.low < s.appended then At(s.appended - 1) else Start))
    case LiveReads(count) =>
      var from := Max(s.low, if s.position.value.At? then s.position.value.last + 1 else 0);
      s.(batch := Range(from, if from + count < s.appended then from + count else s.appended), live := true)
    case Offer(_) =>
      var (cursor, handed) := OfferOne(s.cursor, since, s.batch[0]);
      s.(cursor := cursor, handed := s.handed + handed, batch := s.batch[1..],
      position := if s.live then Some(At(s.batch[0])) else s.position)
    case LoopFails => s.(position := None, batch := [])
    case Close => s.(closed := true)
  }

  /** Every step was possible when its turn came, and led to the next state. */
  ghost predicate Leads(since: Option<int>, steps: seq<Step>, run: seq<Tail>) {
    && |run| == |steps| + 1
    && forall i | 0 <= i < |steps| :: Enabled(run[i], steps[i]) && run[i + 1] == Apply(run[i], since, steps[i])
  }

  ghost predicate Execution(since: Option<int>, steps: seq<Step>, run: seq<Tail>) {
    Leads(since, steps, run) && run[0] == FRESH
  }

  // ----- the invariant -----

  /** Whatever lies past the cursor and below `bound` is gone from the journal. */
  ghost predicate OnlyTrimmed(s: Tail, since: Option<int>, bound: int) {
    bound <= Max(s.low, Covered(s.cursor, since) + 1)
  }

  ghost predicate Ascending(ks: seq<nat>) {
    forall i, j | 0 <= i < j < |ks| :: ks[i] < ks[j]
  }

  ghost predicate Inv(s: Tail, since: Option<int>) {
    && s.low <= s.appended
    && Ascending(s.handed)
    && (forall k | k in s.handed :: Covered(None, since) < k <= Covered(s.cursor, since) && k < s.appended)
    && (forall k: nat | Covered(None, since) < k <= Covered(s.cursor, since) :: k in s.handed || k < s.low)
    && (s.cursor.Some? ==> s.cursor.value >= Covered(None, since))
    && (s.batch != [] ==>
          && s.position.Some?
          && (forall i | 0 <= i < |s.batch| :: s.batch[i] == s.batch[0] + i)
          && s.batch[|s.batch| - 1] < s.appended
          && OnlyTrimmed(s, since, s.batch[0])
          && (!s.live ==> s.position == Some(At(s.batch[|s.batch| - 1]))))
    && (s.batch == [] && s.position.Some? && s.position.value.At? ==>
          s.position.value.last < s.appended && OnlyTrimmed(s, since, s.position.value.last + 1))
  }

  lemma AscendingMore(ks: seq<nat>, e: nat)
    requires Ascending(ks) && forall k | k in ks :: k < e
    ensures Ascending(ks + [e])
  {
    assert forall i | 0 <= i < |ks| :: ks[i] in ks;
  }

  lemma OfferKeeps(s: Tail, since: Option<int>, step: Step)
    requires Inv(s, since) && step.Offer? && Enabled(s, step)
    ensures Inv(Apply(s, since, step), since)
  {
    var s' := Apply(s, since, step);
    var e := s.batch[0];
    if e > Covered(s.cursor, since) {
      AscendingMore(s.handed, e);
      assert s'.handed == s.handed + [e];
      assert forall k :: k in s'.handed <==> k in s.handed || k == e;
    }
  }

  lemma ReadKeeps(s: Tail, since: Option<int>, step: Step)
    requires Inv(s, since) && (step.ReplayReads? || step.LiveReads?) && Enabled(s, step)
    ensures Inv(Apply(s, since, step), since)
  {
  }

  lemma OtherKeeps(s: Tail, since: Option<int>, step: Step)
    requires Inv(s, since) && !step.ReplayReads? && !step.LiveReads? && !step.Offer? && Enabled(s, step)
    ensures Inv(Apply(s, since, step), since)
  {
  }

  lemma StepKeeps(s: Tail, since: Option<int>, step: Step)
    requires Inv(s, since) && Enabled(s, step)
    ensures Inv(Apply(s, since, step), since)
  {
    if step.Offer? {
      OfferKeeps(s, since, step);
    } else if step.ReplayReads? || step.LiveReads? {
      ReadKeeps(s, since, step);
    } else {
      OtherKeeps(s, since, step);
    }
  }

  lemma {:induction false} ReachableOk(since: Option<int>, steps: seq<Step>, run: seq<Tail>, i: nat)
    requires Execution(since, steps, run) && i < |run|
    ensures Inv(run[i], since)
  {
    if i > 0 {
      ReachableOk(since, steps, run, i - 1);
      StepKeeps(run[i - 1], since, steps[i - 1]);
    }
  }

  // ----- what a subscriber gets -----

  /** Two ascending sequences with the same members are equal. */
  lemma {:induction false} AscendingIsRange(ks: seq<nat>, lo: nat, hi: int)
    requires Ascending(ks) && forall k: nat :: k in ks <==> lo <= k < hi
    ensures ks == Range(lo, hi)
    decreases Max(0, hi - lo)
  {
    if lo < hi {
      assert (hi - 1) as nat in ks;
      var n := |ks| - 1;
      var at :| 0 <= at < |ks| && ks[at] == hi - 1;
      assert ks[n] in ks;
      assert at == n;
      var front := ks[..n];
      forall k: nat ensures k in front <==> lo <= k < hi - 1 {
        if k in ks { var j :| 0 <= j < |ks| && ks[j] == k; assert k != hi - 1 ==> front[j] == k; }
      }
      AscendingIsRange(front, lo, hi - 1);
      assert ks == front + [ks[n]];
      assert Range(lo, hi) == Range(lo, hi - 1) + [(hi - 1) as nat];
    } else {
      if ks != [] { SomeMember(ks); }
    }
  }

  lemma SomeMember(ks: seq<nat>)
    requires ks != []
    ensures exists k: nat :: k in ks
  {
    assert ks[0] in ks;
  }

  /**
   * While nothing was trimmed, what the handler was given is exactly the
   * journal between where the consumer resumed and its cursor: no gap, no
   * repeat, in order.
   */
  lemma TailIsExact(since: Option<int>, steps: seq<Step>, run: seq<Tail>, i: nat)
    requires Execution(since, steps, run) && i < |run| && run[i].low == 0
    ensures run[i].handed == Range(Max(0, Covered(None, since) + 1), Covered(run[i].cursor, since) + 1)
  {
    ReachableOk(since, steps, run, i);
    AscendingIsRange(run[i].handed, Max(0, Covered(None, since) + 1), Covered(run[i].cursor, since) + 1);
  }

  /** With trimming the handler still sees positions strictly ascending, and misses only what was trimmed. */
  lemma TailAscends(since: Option<int>, steps: seq<Step>, run: seq<Tail>, i: nat)
    requires Execution(since, steps, run) && i < |run|
    ensures Ascending(run[i].handed)
    ensures forall k: nat | Covered(None, since) < k <= Covered(run[i].cursor, since) && k !in run[i].handed :: k < run[i].low
  {
    ReachableOk(since, steps, run, i);
  }

  /** `e` is in the journal and past what was covered, directly or with everything between them trimmed. */
  predicate Follows(e: nat, covered: int, low: nat, appended: nat) {
    covered < e < appended && (e == covered + 1 || e <= low)
  }

  /** The only events a subscriber is handed are those that follow its cursor. */
  lemma HandoversSkipOnlyTrimmed(since: Option<int>, steps: seq<Step>, run: seq<Tail>, i: nat)
    requires Execution(since, steps, run) && i < |steps| && steps[i].Offer?
    requires run[i + 1].handed != run[i].handed
    ensures var e := run[i].batch[0];
            && run[i + 1].handed == run[i].handed + [e] && run[i + 1].cursor == Some(e)
            && (Covered(None, since) >= -1 ==> Follows(e, Covered(run[i].cursor, since), run[i].low, run[i].appended))
  {
    ReachableOk(since, steps, run, i);
  }

  /** Once the loop has read to the end and offered what it read, nothing retained is outstanding. */
  lemma CaughtUp(since: Option<int>, steps: seq<Step>, run: seq<Tail>, i: nat, k: nat)
    requires Execution(since, steps, run) && i < |run|
    requires run[i].batch == [] && run[i].appended > 0 && run[i].position == Some(At(run[i].appended - 1))
    requires Covered(None, since) < k && run[i].low <= k < run[i].appended
    ensures k in run[i].handed
  {
    ReachableOk(since, steps, run, i);
  }

  // ----- a subscription left alone catches up -----

  lemma More(since: Option<int>, steps: seq<Step>, run: seq<Tail>, step: Step) returns (steps': seq<Step>, run': seq<Tail>)
    requires Leads(since, steps, run) && Enabled(run[|steps|], step)
    ensures Leads(since, steps', run') && run'[0] == run[0] && run'[|steps'|] == Apply(run[|steps|], since, step)
  {
    steps', run' := steps + [step], run + [Apply(run[|steps|], since, step)];
  }

  /** Everything read is offered, and the reading position ends on its last entry. */
  lemma {:induction false} Drains(since: Option<int>, steps: seq<Step>, run: seq<Tail>) returns (steps': seq<Step>, run': seq<Tail>)
    requires Leads(since, steps, run) && Inv(run[|steps|], since) && !run[|steps|].closed && run[|steps|].batch != []
    ensures Leads(since, steps', run') && run'[0] == run[0] && Inv(run'[|steps'|], since)
    ensures var here, end := run[|steps|], run'[|steps'|];
            && end.batch == [] && end.position == Some(At(here.batch[|here.batch| - 1])) && here.handed <= end.handed
            && end.appended == here.appended && end.low == here.low && end.discovered == here.discovered && !end.closed
    decreases |run[|steps|].batch|
  {
    var here := run[|steps|];
    OfferKeeps(here, since, Step.Offer(false));
    steps', run' := More(since, steps, run, Step.Offer(false));
    if |here.batch| > 1 { steps', run' := Drains(since, steps', run'); }
  }

  /**
   * From wherever it is, after a failure too, an open subscription that is left
   * alone finds the journal, reads to the end and has then handed over every
   * retained event past its resume point, adding to what it handed over before.
   */
  lemma CatchesUp(since: Option<int>, s: Tail) returns (steps: seq<Step>, run: seq<Tail>)
    requires Inv(s, since) && !s.closed && s.low < s.appended
    ensures Leads(since, steps, run) && run[0] == s && s.handed <= run[|steps|].handed
    ensures run[|steps|].position == Some(At(s.appended - 1)) && run[|steps|].batch == []
    ensures forall k: nat | Covered(None, since) < k && s.low <= k < s.appended :: k in run[|steps|].handed
  {
    OtherKeeps(s, since, Discover);
    steps, run := More(since, [], [s], Discover);
    if run[|steps|].batch != [] { steps, run := Drains(since, steps, run); }
    if run[|steps|].position != Some(At(s.appended - 1)) { steps, run := ReadsToTheEnd(since, steps, run); }
    NothingIsOutstanding(run[|steps|], since);
  }

  /** After a failure the whole retained journal is read again, and what was handed over and the cursor stay. */
  lemma FailureReadsAgain(s: Tail, since: Option<int>)
    requires !s.closed && s.discovered
    ensures var failed := Apply(s, since, LoopFails);
            && failed.handed == s.handed && failed.cursor == s.cursor && Enabled(failed, ReplayReads)
            && Apply(failed, since, ReplayReads).batch == Range(s.low, s.appended)
  {
  }

  /** A closed subscription hands over nothing more. */
  lemma {:induction false} ClosedIsQuiet(since: Option<int>, steps: seq<Step>, run: seq<Tail>, i: nat, j: nat)
    requires Leads(since, steps, run) && i < j < |run| && steps[i].Close?
    ensures run[j].closed && run[j].handed == run[i].handed
  {
    if i < j - 1 { ClosedIsQuiet(since, steps, run, i, j - 1); }
  }

  lemma ReadsToTheEnd(since: Option<int>, steps: seq<Step>, run: seq<Tail>) returns (steps': seq<Step>, run': seq<Tail>)
    requires Leads(since, steps, run) && Inv(run[|steps|], since) && !run[|steps|].closed && run[|steps|].discovered
    requires run[|steps|].batch == [] && run[|steps|].low < run[|steps|].appended
    requires run[|steps|].position != Some(At(run[|steps|].appended - 1))
    ensures Leads(since, steps', run') && run'[0] == run[0] && Inv(run'[|steps'|], since)
    ensures var here, end := run[|steps|], run'[|steps'|];
            && end.batch == [] && end.position == Some(At(here.appended - 1)) && here.handed <= end.handed
            && end.appended == here.appended && end.low == here.low
  {
    var here := run[|steps|];
    var step := if here.position.None? then ReplayReads else LiveReads(here.appended);
    ReadKeeps(here, since, step);
    steps', run' := More(since, steps, run, step);
    var read := run'[|steps'|];
    assert read.batch != [] && read.batch[|read.batch| - 1] == here.appended - 1;
    steps', run' := Drains(since, steps', run');
  }

  /** Read to the end with nothing left to offer: everything retained past the resume point was handed over. */
  lemma NothingIsOutstanding(s: Tail, since: Option<int>)
    requires Inv(s, since) && s.batch == [] && s.appended > 0 && s.position == Some(At(s.appended - 1))
    ensures forall k: nat | Covered(None, since) < k && s.low <= k < s.appended :: k in s.handed
  {
  }

  predicate AtTheEnd(s: Tail) {
    && !s.closed && s.discovered && s.batch == [] && s.position.Some?
    && if s.appended == 0 then s.position.value.Start? else s.position == Some(At(s.appended - 1))
  }

  lemma NextRead(since: Option<int>, s: Tail, count: nat)
    requires Inv(s, since) && AtTheEnd(s) && count >= 1
    ensures Enabled(Apply(s, since, Append), LiveReads(count))
    ensures Apply(Apply(s, since, Append), since, LiveReads(count))
            == s.(appended := s.appended + 1, batch := [s.appended], live := true)
  {
    assert Range(s.appended, s.appended + 1) == [s.appended];
  }

  lemma NextIsNew(since: Option<int>, s: Tail)
    requires Inv(s, since) && AtTheEnd(s) && Covered(None, since) < s.appended
    ensures Covered(s.cursor, since) < s.appended
  {
    var n: nat := s.appended;
    assert n !in s.handed;
  }

  /** A subscription that has caught up hands over the next event as soon as it is read, once, whether its handler throws or not. */
  lemma NextEventIsHandedOver(since: Option<int>, s: Tail, count: nat, throws: bool)
    requires Inv(s, since) && AtTheEnd(s) && count >= 1 && Covered(None, since) < s.appended
    ensures var read := Apply(Apply(s, since, Append), since, LiveReads(count));
            && Enabled(Apply(s, since, Append), LiveReads(count)) && Enabled(read, Step.Offer(throws))
            && var end := Apply(read, since, Step.Offer(throws));
               && end.handed == s.handed + [s.appended] && end.cursor == Some(s.appended) && AtTheEnd(end)
  {
    NextRead(since, s, count);
    NextIsNew(since, s);
  }

  // ----- the fields of the subscription -----

  /** One entry of a stream; `None` is one that cannot be read back. */
  type Entry = Option<nat>

  function Readable(entries: seq<Entry>): seq<nat> {
    if entries == [] then []
    else
      var last := entries[|entries| - 1];
      if last.Some? then Readable(entries[..|entries| - 1]) + [last.value] else Readable(entries[..|entries| - 1])
  }

  lemma ReadableMore(entries: seq<Entry>, i: nat)
    requires i < |entries|
    ensures Readable(entries[..i + 1]) == Readable(entries[..i]) + if entries[i].Some? then [entries[i].value] else []
  {
    assert entries[..i + 1][..i] == entries[..i];
  }

  function Keyed(key: string, ks: seq<nat>): seq<(string, nat)> {
    if ks == [] then [] else Keyed(key, ks[..|ks| - 1]) + [(key, ks[|ks| - 1])]
  }

  class JournalSubscription {
    /** Last position handed to the handler, per identity. */
    var cursors: map<string, int>
    /** Last stream id read, per identity. */
    var positions: map<string, Position>
    /** What the handler was given, oldest first. */
    ghost var handed: seq<(string, nat)>

    constructor ()
      ensures cursors == map[] && positions == map[] && handed == []
    {
      cursors, positions, handed := map[], map[], [];
    }

    ghost function Cursor(key: string): Option<int>
      reads this
    {
      if key in cursors then Some(cursors[key]) else None
    }

    method Offer(key: string, since: Option<int>, entry: Entry)
      modifies this
      ensures positions == old(positions)
      ensures entry.None? ==> cursors == old(cursors) && handed == old(handed)
      ensures entry.Some? ==>
                && Cursor(key) == OfferOne(old(Cursor(key)), since, entry.value).0
                && handed == old(handed) + Keyed(key, OfferOne(old(Cursor(key)), since, entry.value).1)
      ensures forall k | k != key :: Cursor(k) == old(Cursor(k))
    {
      if entry.None? { return; }
      var cursor := if key in cursors then cursors[key] else if since.Some? then since.value else -1;
      if entry.value <= cursor { return; }
      assert Keyed(key, [entry.value]) == [(key, entry.value)] by { assert [entry.value][..0] == []; }
      handed := handed + [(key, entry.value)];
      cursors := cursors[key := entry.value];
    }

    /** One identity's part of `replay`: position first, then every entry past the cursor. */
    method Replay(key: string, since: Option<int>, entries: seq<Entry>, last: Position)
      requires key !in positions
      modifies this
      ensures positions == old(positions)[key := last]
      ensures Cursor(key) == OfferAll(old(Cursor(key)), since, Readable(entries)).0
      ensures handed == old(handed) + Keyed(key, OfferAll(old(Cursor(key)), since, Readable(entries)).1)
      ensures forall k | k != key :: Cursor(k) == old(Cursor(k))
    {
      positions := positions[key := last];
      ghost var start, before := Cursor(key), handed;
      ghost var seen: seq<nat> := [];
      var i := 0;
      while i < |entries|
        invariant 0 <= i <= |entries|
        invariant positions == old(positions)[key := last]
        invariant seen == Readable(entries[..i])
        invariant Cursor(key) == OfferAll(start, since, seen).0
        invariant handed == before + Keyed(key, OfferAll(start, since, seen).1)
        invariant forall k | k != key :: Cursor(k) == old(Cursor(k))
      {
        ReadableMore(entries, i);
        OneMore(key, start, since, seen, entries[i], before);
        Offer(key, since, entries[i]);
        seen := seen + if entries[i].Some? then [entries[i].value] else [];
        i := i + 1;
      }
      assert entries[..i] == entries;
    }

    /** One entry of a live read: the position moves, whether the entry is readable or not. */
    method Advance(key: string, since: Option<int>, entry: Entry, id: Position)
      modifies this
      ensures positions == old(positions)[key := id]
      ensures entry.None? ==> cursors == old(cursors) && handed == old(handed)
      ensures entry.Some? ==>
                && Cursor(key) == OfferOne(old(Cursor(key)), since, entry.value).0
                && handed == old(handed) + Keyed(key, OfferOne(old(Cursor(key)), since, entry.value).1)
      ensures forall k | k != key :: Cursor(k) == old(Cursor(k))
    {
      positions := positions[key := id];
      Offer(key, since, entry);
    }

    /** One identity's part of a live read. */
    method ReadLive(key: string, since: Option<int>, entries: seq<Entry>, ids: seq<Position>)
      requires |ids| == |entries|
      modifies this
      ensures positions == if entries == [] then old(positions) else old(positions)[key := ids[|ids| - 1]]
      ensures Cursor(key) == OfferAll(old(Cursor(key)), since, Readable(entries)).0
      ensures handed == old(handed) + Keyed(key, OfferAll(old(Cursor(key)), since, Readable(entries)).1)
      ensures forall k | k != key :: Cursor(k) == old(Cursor(k))
    {
      ghost var start, before := Cursor(key), handed;
      ghost var seen: seq<nat> := [];
      var i := 0;
      while i < |entries|
        invariant 0 <= i <= |entries|
        invariant positions == if i == 0 then old(positions) else old(positions)[key := ids[i - 1]]
        invariant seen == Readable(entries[..i])
        invariant Cursor(key) == OfferAll(start, since, seen).0
        invariant handed == before + Keyed(key, OfferAll(start, since, seen).1)
        invariant forall k | k != key :: Cursor(k) == old(Cursor(k))
      {
        ReadableMore(entries, i);
        OneMore(key, start, since, seen, entries[i], before);
        MovesOn(old(positions), key, if i == 0 then ids[0] else ids[i - 1], ids[i]);
        Advance(key, since, entries[i], ids[i]);
        seen := seen + if entries[i].Some? then [entries[i].value] else [];
        i := i + 1;
      }
      assert entries[..i] == entries;
    }

    /** The error path of the loop: forget where every stream was read to, keep the cursors. */
    method Reconnect()
      modifies this
      ensures positions == map[] && cursors == old(cursors) && handed == old(handed)
    {
      positions := map[];
    }
  }

  lemma MovesOn(positions: map<string, Position>, key: string, a: Position, b: Position)
    ensures positions[key := a][key := b] == positions[key := b]
  {
  }

  lemma OneMore(key: string, start: Option<int>, since: Option<int>, seen: seq<nat>, entry: Entry, handed: seq<(string, nat)>)
    ensures var (cursor, before) := OfferAll(start, since, seen);
            var now := OfferAll(start, since, seen + if entry.Some? then [entry.value] else []);
            if entry.None? then now == (cursor, before)
            else
              && now.0 == OfferOne(cursor, since, entry.value).0
              && handed + Keyed(key, now.1) == handed + Keyed(key, before) + Keyed(key, OfferOne(cursor, since, entry.value).1)
  {
    if entry.Some? {
      OfferAllMore(start, since, seen, entry.value);
      KeyedMore(key, OfferAll(start, since, seen).1, entry.value, handed);
    } else {
      assert seen + [] == seen;
    }
  }

  lemma KeyedMore(key: string, before: seq<nat>, e: nat, handed: seq<(string, nat)>)
    ensures handed + Keyed(key, before + [e]) == handed + Keyed(key, before) + Keyed(key, [e])
    ensures handed + Keyed(key, before + []) == handed + Keyed(key, before) + Keyed(key, [])
  {
    assert (before + [e])[..|before|] == before && before + [] == before;
    assert [e][..0] == [] && Keyed(key, [e]) == [(key, e)];
  }
}
