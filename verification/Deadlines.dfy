/**
 * Who records a turn timeout when turns call turns. A timeout raised by an
 * inner turn travels out through the runtime frames and the handlers of the
 * turns around it; each frame compares it with its own identity.
 */
module Deadlines {
  import opened Options
  import opened SeatChain

  datatype Failure = Timeout(actor: ActorId, requestId: string) | Other(message: string)

  /** What the code of a turn does with a failure of a call it made. */
  datatype Handling = Rethrow | Swallow | Replace(failure: Failure)

  /** A runtime frame around one turn, and how that turn's handler treats failures from inside. */
  datatype Frame = Frame(actor: ActorId, requestId: string, handling: Handling)

  datatype Marker = Marker(actor: ActorId, requestId: string)

  /** `isOwnTurnTimeout`. */
  predicate IsOwnTimeout(f: Failure, frame: Frame) {
    f.Timeout? && f.actor == frame.actor && f.requestId == frame.requestId
  }

  /** The markers appended while `f` leaves `frames`, innermost first. */
  function Markers(f: Failure, frames: seq<Frame>): seq<Marker>
    decreases |frames|
  {
    if frames == [] then []
    else
      var here := if f == Timeout(frames[0].actor, frames[0].requestId) then [Marker(frames[0].actor, frames[0].requestId)] else [];
      if |frames| == 1 then here
      else match frames[1].handling
        case Rethrow => here + Markers(f, frames[1..])
        case Swallow => here
        case Replace(g) => here + Markers(g, frames[1..])
  }

  /** The failure that reaches frame `i`, if one does. */
  function SeenBy(f: Failure, frames: seq<Frame>, i: nat): (g: Option<Failure>)
    requires i < |frames|
  {
    if i == 0 then Some(f)
    else match frames[i].handling
      case Rethrow => SeenBy(f, frames, i - 1)
      case Swallow => None
      case Replace(g) => if SeenBy(f, frames, i - 1).Some? then Some(g) else None
  }

  /** Frame `i` sees a timeout of its own actor and its own request. */
  predicate Records(f: Failure, frames: seq<Frame>, i: nat)
    requires i < |frames|
  {
    SeenBy(f, frames, i) == Some(Timeout(frames[i].actor, frames[i].requestId))
  }

  /** One marker for each of the first `n` frames that sees a failure naming it, innermost first. */
  function Owed(f: Failure, frames: seq<Frame>, n: nat): seq<Marker>
    requires n <= |frames|
  {
    if n == 0 then []
    else Owed(f, frames, n - 1) + if Records(f, frames, n - 1) then [Marker(frames[n - 1].actor, frames[n - 1].requestId)] else []
  }

  /** What passes the first handler is a failure leaving the frames outside it. */
  lemma {:induction false} SeenOutside(f: Failure, frames: seq<Frame>, i: nat)
    requires 0 < i < |frames|
    ensures var g := SeenBy(f, frames, 1);
            SeenBy(f, frames, i) == if g.Some? then SeenBy(g.value, frames[1..], i - 1) else None
  {
    if i > 1 { SeenOutside(f, frames, i - 1); }
  }

  lemma {:induction false} OwedOutside(f: Failure, frames: seq<Frame>, n: nat)
    requires 1 <= n <= |frames|
    ensures var here := if IsOwnTimeout(f, frames[0]) then [Marker(frames[0].actor, frames[0].requestId)] else [];
            Owed(f, frames, n)
            == if n > 1 && SeenBy(f, frames, 1).Some? then here + Owed(SeenBy(f, frames, 1).value, frames[1..], n - 1) else here
  {
    if n > 1 {
      OwedOutside(f, frames, n - 1);
      SeenOutside(f, frames, n - 1);
    } else {
      assert Owed(f, frames, 0) == [];
    }
  }

  /** The frames that record are exactly those that see a failure naming them, each once. */
  lemma {:induction false} MarkersAreNamed(f: Failure, frames: seq<Frame>)
    ensures Markers(f, frames) == Owed(f, frames, |frames|)
    decreases |frames|
  {
    if frames != [] {
      OwedOutside(f, frames, |frames|);
      if |frames| > 1 && SeenBy(f, frames, 1).Some? {
        MarkersAreNamed(SeenBy(f, frames, 1).value, frames[1..]);
      }
    }
  }

  lemma {:induction false} OwedNothingIff(f: Failure, frames: seq<Frame>, n: nat)
    requires n <= |frames|
    ensures Owed(f, frames, n) == [] <==> forall i | 0 <= i < n :: !Records(f, frames, i)
  {
    if n > 0 { OwedNothingIff(f, frames, n - 1); }
  }

  lemma {:induction false} OwedOnceIff(f: Failure, frames: seq<Frame>, n: nat)
    requires 1 <= n <= |frames| && Records(f, frames, 0)
    ensures |Owed(f, frames, n)| >= 1
    ensures Owed(f, frames, n) == [Marker(frames[0].actor, frames[0].requestId)]
            <==> forall i | 0 < i < n :: !Records(f, frames, i)
  {
    if n > 1 {
      OwedOnceIff(f, frames, n - 1);
    } else {
      assert Owed(f, frames, 0) == [];
    }
  }

  /** Nobody records a failure on its way out exactly when it, and what handlers put in its place, names no frame that sees it. */
  lemma QuietIff(f: Failure, frames: seq<Frame>)
    ensures Markers(f, frames) == [] <==> forall i | 0 <= i < |frames| :: !Records(f, frames, i)
  {
    MarkersAreNamed(f, frames);
    OwedNothingIff(f, frames, |frames|);
  }

  /**
   * A turn that missed its deadline is recorded once, by its own frame, exactly
   * when no later frame sees a failure that names that later frame.
   */
  lemma RecordedOnceIff(frames: seq<Frame>)
    requires frames != []
    ensures var f := Timeout(frames[0].actor, frames[0].requestId);
            Markers(f, frames) == [Marker(frames[0].actor, frames[0].requestId)]
            <==> forall i | 0 < i < |frames| :: !Records(f, frames, i)
  {
    var f := Timeout(frames[0].actor, frames[0].requestId);
    MarkersAreNamed(f, frames);
    OwedOnceIff(f, frames, |frames|);
  }

  // ----- where a second record can come from -----

  /** The failure put in by the handler at `j`, or the original one for 0, is passed on unchanged up to frame `i`. */
  predicate Carried(frames: seq<Frame>, j: nat, i: nat)
    requires j <= i < |frames|
  {
    forall k | j < k <= i :: frames[k].handling.Rethrow?
  }

  /**
   * The handler of frame `j` answers a failure from inside with a timeout that
   * names frame `i`, and all handlers up to `i` pass it on.
   */
  predicate Throws(f: Failure, frames: seq<Frame>, j: nat, i: nat)
    requires 0 < j <= i < |frames|
  {
    && frames[j].handling == Replace(Timeout(frames[i].actor, frames[i].requestId))
    && SeenBy(f, frames, j - 1).Some? && Carried(frames, j, i)
  }

  /** A frame sees the original failure, passed on by everyone, or one that a handler before it put in, passed on since. */
  lemma {:induction false} Origin(f: Failure, frames: seq<Frame>, i: nat) returns (j: nat)
    requires i < |frames| && SeenBy(f, frames, i).Some?
    ensures j <= i && Carried(frames, j, i)
    ensures j == 0 ==> SeenBy(f, frames, i) == Some(f)
    ensures j > 0 ==> frames[j].handling.Replace? && SeenBy(f, frames, j - 1).Some?
    ensures j > 0 ==> SeenBy(f, frames, i) == Some(frames[j].handling.failure)
  {
    if i > 0 && frames[i].handling.Rethrow? {
      j := Origin(f, frames, i - 1);
    } else {
      j := i;
    }
  }

  lemma {:induction false} CarriedIsSeen(f: Failure, frames: seq<Frame>, j: nat, i: nat)
    requires j <= i < |frames| && Carried(frames, j, i)
    ensures SeenBy(f, frames, i) == SeenBy(f, frames, j)
  {
    if i > j { CarriedIsSeen(f, frames, j, i - 1); }
  }

  ghost predicate SomeoneThrows(f: Failure, frames: seq<Frame>) {
    exists j, i | 0 < j <= i < |frames| :: Throws(f, frames, j, i)
  }

  /**
   * Turns in one chain hold different seats. Then a missed deadline is recorded
   * more than once exactly when some handler, given a failure from inside,
   * throws a timeout that names a frame of the chain it still passes.
   */
  lemma SecondRecordIff(frames: seq<Frame>)
    requires frames != [] && forall i | 0 < i < |frames| :: frames[i].actor != frames[0].actor
    ensures var f := Timeout(frames[0].actor, frames[0].requestId);
            Markers(f, frames) == [Marker(frames[0].actor, frames[0].requestId)] <==> !SomeoneThrows(f, frames)
  {
    var f := Timeout(frames[0].actor, frames[0].requestId);
    RecordedOnceIff(frames);
    forall i | 0 < i < |frames| && Records(f, frames, i) ensures SomeoneThrows(f, frames) {
      var j := Origin(f, frames, i);
      assert j > 0;
      assert Throws(f, frames, j, i);
    }
    forall j, i | 0 < j <= i < |frames| && Throws(f, frames, j, i) ensures Records(f, frames, i) {
      CarriedIsSeen(f, frames, j, i);
    }
  }

  /** With handlers that throw no timeouts of their own making, a turn of a chain of different seats is always recorded once. */
  lemma PlainHandlersRecordOnce(frames: seq<Frame>)
    requires frames != [] && forall i | 0 < i < |frames| :: frames[i].actor != frames[0].actor
    requires forall i | 0 < i < |frames| :: frames[i].handling.Replace? ==> frames[i].handling.failure.Other?
    ensures Markers(Timeout(frames[0].actor, frames[0].requestId), frames) == [Marker(frames[0].actor, frames[0].requestId)]
  {
    SecondRecordIff(frames);
  }

  /** A turn whose handler rethrows an old timeout of its own request is recorded although its deadline never fired. */
  lemma RethrownTimeoutIsRecorded(inner: ActorId, outer: ActorId, r: string)
    requires inner != outer
    ensures var frames := [Frame(inner, r, Rethrow), Frame(outer, r, Replace(Timeout(outer, r)))];
            Markers(Timeout(inner, r), frames) == [Marker(inner, r), Marker(outer, r)]
  {
    var frames := [Frame(inner, r, Rethrow), Frame(outer, r, Replace(Timeout(outer, r)))];
    assert frames[1..] == [Frame(outer, r, Replace(Timeout(outer, r)))];
  }
}
