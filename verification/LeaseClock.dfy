/**
 * The renewal timer and the lease scripts together, on a server with a clock:
 * the timer's view of when the lease ends is when the server drops it.
 */
module LeaseClock {
  import opened Basics
  import opened RedisScripts
  import opened Renewal

  /** The server's keys, with the lease's time to live counted in milliseconds from `at`. */
  datatype Server = Server(db: Db, at: int)

  /** The server at a later moment: a lease whose time is up is gone, any other has less left. */
  function Elapse(s: Server, now: int): Server {
    if LeaseKey !in s.db.ttl then s.(at := now)
    else if s.db.ttl[LeaseKey] <= now - s.at then Server(Db(s.db.keys - {LeaseKey}, s.db.ttl - {LeaseKey}), now)
    else Server(s.db.(ttl := s.db.ttl[LeaseKey := s.db.ttl[LeaseKey] - (now - s.at)]), now)
  }

  /** Whether a turn's timer sends a renewal at its next tick. */
  predicate Sends(t: Timer, maxRenewals: int) {
    !t.cleared && t.renewals + 1 <= maxRenewals
  }

  /** The server after the acquire at time 0 and the ticks of the holder's timer, each renewal run at its tick. */
  function Serve(db: Db, token: string, leaseMs: int, maxRenewals: int, ticks: seq<int>): Server {
    if ticks == [] then Server(Acquired(db, token, leaseMs), 0)
    else
      var front, now := ticks[..|ticks| - 1], ticks[|ticks| - 1];
      var s := Elapse(Serve(db, token, leaseMs, maxRenewals, front), now);
      if Sends(After(leaseMs, maxRenewals, front), maxRenewals) then s.(db := Renewed(s.db, token, leaseMs)) else s
  }

  /** The timer says when this server drops the lease. */
  ghost predicate Agrees(s: Server, token: string, t: Timer) {
    if s.at < t.expiresAt
    then LeaseHeld(s.db, token) && LeaseKey in s.db.ttl && s.db.ttl[LeaseKey] == t.expiresAt - s.at
    else LeaseKey !in s.db.keys && LeaseKey !in s.db.ttl
  }

  lemma ElapseAgrees(s: Server, token: string, t: Timer, now: int)
    requires Agrees(s, token, t) && s.at <= now
    ensures Agrees(Elapse(s, now), token, t) && SameButFor(s.db, Elapse(s, now).db, LeaseKey)
  {
  }

  predicate InOrderFrom(ticks: seq<int>, from: int) {
    InOrder(ticks) && forall k | 0 <= k < |ticks| :: from <= ticks[k]
  }

  lemma {:induction false} ServeAgrees(db: Db, token: string, leaseMs: int, maxRenewals: int, ticks: seq<int>)
    requires LeaseKey !in db.keys && LeaseKey !in db.ttl && leaseMs >= 1 && InOrderFrom(ticks, 0)
    ensures var s := Serve(db, token, leaseMs, maxRenewals, ticks);
            && s.at == (if ticks == [] then 0 else ticks[|ticks| - 1])
            && Agrees(s, token, After(leaseMs, maxRenewals, ticks)) && SameButFor(db, s.db, LeaseKey)
  {
    if ticks == [] {
      AcquireIs(db, token, leaseMs);
    } else {
      var front, now := ticks[..|ticks| - 1], ticks[|ticks| - 1];
      ServeAgrees(db, token, leaseMs, maxRenewals, front);
      var s := Serve(db, token, leaseMs, maxRenewals, front);
      ElapseAgrees(s, token, After(leaseMs, maxRenewals, front), now);
      RenewIs(Elapse(s, now).db, token, leaseMs);
    }
  }

  /**
   * Whatever the ticks, from the last of them on the holder's token is current
   * exactly until the moment the timer's account of the lease says, and then
   * the lease is free; no other key is touched.
   */
  lemma LeaseEndsWithTheTimer(db: Db, token: string, leaseMs: int, maxRenewals: int, ticks: seq<int>, now: int)
    requires LeaseKey !in db.keys && LeaseKey !in db.ttl && leaseMs >= 1 && InOrderFrom(ticks, 0)
    requires forall k | 0 <= k < |ticks| :: ticks[k] <= now
    requires now >= 0
    ensures var s := Elapse(Serve(db, token, leaseMs, maxRenewals, ticks), now);
            && (LeaseKey in s.db.keys && s.db.keys[LeaseKey] == Str(token)
                <==> now < After(leaseMs, maxRenewals, ticks).expiresAt)
            && (LeaseKey !in s.db.keys <==> now >= After(leaseMs, maxRenewals, ticks).expiresAt)
            && SameButFor(db, s.db, LeaseKey)
  {
    ServeAgrees(db, token, leaseMs, maxRenewals, ticks);
    ElapseAgrees(Serve(db, token, leaseMs, maxRenewals, ticks), token, After(leaseMs, maxRenewals, ticks), now);
  }

  /** A tick flags the lease lost exactly when it is past the cap, or its renewal finds another token or none. */
  lemma LostIff(db: Db, token: string, leaseMs: int, maxRenewals: int, ticks: seq<int>, now: int)
    requires LeaseKey !in db.keys && LeaseKey !in db.ttl && leaseMs >= 1 && InOrderFrom(ticks, 0)
    requires forall k | 0 <= k < |ticks| :: ticks[k] <= now
    requires now >= 0
    ensures var t := After(leaseMs, maxRenewals, ticks);
            var s := Elapse(Serve(db, token, leaseMs, maxRenewals, ticks), now);
            Tick(t, leaseMs, maxRenewals, now).lost
            <==> t.lost || (!t.cleared && (t.renewals + 1 > maxRenewals || !LeaseHeld(s.db, token)))
  {
    LeaseEndsWithTheTimer(db, token, leaseMs, maxRenewals, ticks, now);
  }
}
