/**
 * The storage a Durable Object actor runs on: its four kinds of keys, the order
 * in which `list` returns journal keys, and the in-process host's storage class.
 */
module DurableStorage {
  import opened Basics
  import opened Decimal

  /** A storage key, before it is printed. */
  datatype Key = RecordKey | OrderKey | DedupKey(requestId: string) | EventKey(seqNo: nat)

  const EVENT_PREFIX := "event:"
  const DEDUP_PREFIX := "dedup:"
  const EVENT_DIGITS := 16

  function Render(k: Key): string {
    match k
    case RecordKey => "record"
    case OrderKey => "dedup-order"
    case DedupKey(requestId) => DEDUP_PREFIX + requestId
    case EventKey(seqNo) => EVENT_PREFIX + Pad(EVENT_DIGITS, Show(seqNo))
  }

  /** Different keys print differently, whatever request ids and positions are in use. */
  lemma RenderIsInjective(k: Key, l: Key)
    requires Render(k) == Render(l)
    ensures k == l
  {
    assert Render(k)[0] == Render(l)[0] && Render(k)[1] == Render(l)[1] && Render(k)[5] == Render(l)[5];
    match k
    case DedupKey(requestId) => assert Render(k)[6..] == requestId && Render(l)[6..] == l.requestId;
    case EventKey(seqNo) =>
      assert Render(k)[6..] == Pad(EVENT_DIGITS, Show(seqNo)) && Render(l)[6..] == Pad(EVENT_DIGITS, Show(l.seqNo));
      PaddedValue(EVENT_DIGITS, seqNo);
      PaddedValue(EVENT_DIGITS, l.seqNo);
    case _ =>
  }

  // ----- listing a journal -----

  ghost predicate TextOrdered(ks: seq<string>) {
    forall i, j | 0 <= i < j < |ks| :: Less(ks[i], ks[j])
  }

  /** The keys of a journal of `n` entries, by position. */
  function JournalKeys(n: nat): (ks: seq<string>)
    ensures |ks| == n && forall i | 0 <= i < n :: ks[i] == Render(EventKey(i))
  {
    seq(n, i requires 0 <= i => Render(EventKey(i)))
  }

  lemma JournalKeysAscend(n: nat)
    requires n <= Pow10(EVENT_DIGITS)
    ensures TextOrdered(JournalKeys(n))
  {
    forall i, j | 0 <= i < j < n ensures Less(Render(EventKey(i)), Render(EventKey(j))) {
      PaddedOrder(EVENT_DIGITS, EVENT_PREFIX, i, j);
    }
  }

  lemma HasAMember(ks: seq<string>)
    requires ks != []
    ensures exists k :: k in ks
  {
    assert ks[0] in ks;
  }

  /** Two ascending sequences with the same elements are equal. */
  lemma {:induction false} AscendingIsUnique(ks: seq<string>, ls: seq<string>)
    requires TextOrdered(ks) && TextOrdered(ls)
    requires forall k :: k in ks <==> k in ls
    ensures ks == ls
  {
    if ks == [] {
      if ls != [] { HasAMember(ls); }
    } else {
      assert ks[0] in ls;
      var i :| 0 <= i < |ls| && ls[i] == ks[0];
      assert ls[0] in ks;
      var j :| 0 <= j < |ks| && ks[j] == ls[0];
      if i > 0 && j > 0 {
        LessIsStrict(ks[0], ls[0]);
      }
      forall k ensures k in ks[1..] <==> k in ls[1..] {
        if x :| 0 < x < |ks| && ks[x] == k { LessIsStrict(ks[0], k); }
        if x :| 0 < x < |ls| && ls[x] == k { LessIsStrict(ls[0], k); }
        assert k in ks <==> k == ks[0] || k in ks[1..];
        assert k in ls <==> k == ls[0] || k in ls[1..];
      }
      AscendingIsUnique(ks[1..], ls[1..]);
      assert ks == [ks[0]] + ks[1..] && ls == [ls[0]] + ls[1..];
    }
  }

  /**
   * Text order is commit order exactly while a journal holds at most 10^16
   * entries. A counter that is a JavaScript number stops before that.
   */
  lemma JournalListsInOrderIff(ks: seq<string>, n: nat)
    requires TextOrdered(ks)
    requires forall k :: k in ks <==> k in JournalKeys(n)
    ensures ks == JournalKeys(n) <==> n <= Pow10(EVENT_DIGITS)
  {
    var top := Pow10(EVENT_DIGITS);
    if n <= top {
      JournalKeysAscend(n);
      AscendingIsUnique(ks, JournalKeys(n));
    } else if ks == JournalKeys(n) {
      PaddingRunsOut(EVENT_DIGITS, EVENT_PREFIX);
      assert ks[top] == Render(EventKey(top)) && ks[top - 1] == Render(EventKey(top - 1));
      LessIsStrict(ks[top], ks[top - 1]);
    }
  }

  lemma SafeCountersFit()
    ensures MAX_SAFE_INTEGER + 1 < Pow10(EVENT_DIGITS)
  {
    assert Pow10(8) == 100000000;
    assert Pow10(12) == 10000 * Pow10(8);
    assert Pow10(16) == 10000 * Pow10(12);
  }

  // ----- the in-process host's storage -----

  /** What a batch leaves when its entries are set one by one. */
  function PutAll<K, V>(entries: map<K, V>, batch: seq<(K, V)>): map<K, V> {
    if batch == [] then entries
    else PutAll(entries, batch[..|batch| - 1])[batch[|batch| - 1].0 := batch[|batch| - 1].1]
  }

  /** How many entries of a batch come before the first one `structuredClone` refuses. */
  function Accepted<K, V>(batch: seq<(K, V)>, cloneable: V -> bool): (n: nat)
    ensures n <= |batch|
    ensures forall i | 0 <= i < n :: cloneable(batch[i].1)
    ensures n < |batch| ==> !cloneable(batch[n].1)
  {
    if batch == [] then 0
    else if cloneable(batch[0].1) then 1 + Accepted(batch[1..], cloneable)
    else 0
  }

  lemma {:induction false} AcceptedIs<K, V>(batch: seq<(K, V)>, cloneable: V -> bool, n: nat)
    requires n <= |batch| && forall i | 0 <= i < n :: cloneable(batch[i].1)
    requires n < |batch| ==> !cloneable(batch[n].1)
    ensures Accepted(batch, cloneable) == n
  {
    if n > 0 {
      assert cloneable(batch[0].1);
      AcceptedIs(batch[1..], cloneable, n - 1);
    }
  }

  function Without<V>(entries: map<string, V>, keys: seq<string>): map<string, V> {
    if keys == [] then entries else Without(entries - {keys[0]}, keys[1..])
  }

  lemma {:induction false} WithoutRemovesThose<V>(entries: map<string, V>, keys: seq<string>)
    ensures Without(entries, keys) == map k | k in entries && k !in keys :: entries[k]
  {
    if keys != [] {
      WithoutRemovesThose(entries - {keys[0]}, keys[1..]);
      assert keys == [keys[0]] + keys[1..];
    }
  }

  /** A text is put where text order wants it. */
  function Insert(ks: seq<string>, k: string): seq<string> {
    if ks == [] || Less(k, ks[0]) then [k] + ks else [ks[0]] + Insert(ks[1..], k)
  }

  lemma {:induction false} InsertHas(ks: seq<string>, k: string)
    ensures forall x :: x in Insert(ks, k) <==> x == k || x in ks
  {
    if ks != [] && !Less(k, ks[0]) {
      InsertHas(ks[1..], k);
      assert ks == [ks[0]] + ks[1..];
    }
  }

  lemma {:induction false} LessIsTotal(s: string, t: string)
    ensures Less(s, t) || s == t || Less(t, s)
  {
    if s != [] && t != [] && s[0] == t[0] {
      LessIsTotal(s[1..], t[1..]);
      assert s == [s[0]] + s[1..] && t == [t[0]] + t[1..];
    }
  }

  lemma {:induction false} LessIsTransitive(s: string, t: string, u: string)
    requires Less(s, t) && Less(t, u)
    ensures Less(s, u)
  {
    if s != [] && s[0] == t[0] && t[0] == u[0] {
      LessIsTransitive(s[1..], t[1..], u[1..]);
    }
  }

  lemma {:induction false} InsertAscends(ks: seq<string>, k: string)
    requires TextOrdered(ks) && k !in ks
    ensures TextOrdered(Insert(ks, k))
  {
    if ks != [] {
      LessIsTotal(k, ks[0]);
      if Less(k, ks[0]) {
        forall j | 0 <= j < |ks| ensures Less(k, ks[j]) {
          if j > 0 { LessIsTransitive(k, ks[0], ks[j]); }
        }
      } else {
        InsertAscends(ks[1..], k);
        InsertHas(ks[1..], k);
        var rest := Insert(ks[1..], k);
        forall j | 0 <= j < |rest| ensures Less(ks[0], rest[j]) {
          assert rest[j] in rest;
        }
      }
    }
  }

  class InProcessStorage<V(==)> {
    var entries: map<string, V>

    constructor ()
      ensures entries == map[]
    {
      entries := map[];
    }

    /** Sets every entry in turn; `false` is a clone error thrown on the way. */
    method Put(batch: seq<(string, V)>, cloneable: V -> bool) returns (ok: bool)
      modifies this
      ensures entries == PutAll(old(entries), batch[..Accepted(batch, cloneable)])
      ensures ok <==> Accepted(batch, cloneable) == |batch|
    {
      var i := 0;
      while i < |batch|
        invariant 0 <= i <= Accepted(batch, cloneable)
        invariant entries == PutAll(old(entries), batch[..i])
      {
        if !cloneable(batch[i].1) { return false; }
        entries := entries[batch[i].0 := batch[i].1];
        assert batch[..i + 1][..i] == batch[..i];
        i := i + 1;
      }
      return true;
    }

    method Delete(keys: seq<string>) returns (deleted: nat)
      modifies this
      ensures entries == Without(old(entries), keys)
      ensures deleted == |old(entries)| - |entries|
    {
      deleted := 0;
      var i := 0;
      while i < |keys|
        invariant 0 <= i <= |keys|
        invariant Without(entries, keys[i..]) == Without(old(entries), keys)
        invariant deleted == |old(entries)| - |entries|
      {
        Shrinks(entries, keys[i]);
        if keys[i] in entries { deleted := deleted + 1; }
        entries := entries - {keys[i]};
        i := i + 1;
      }
    }

    /** The entries whose key has the prefix, in text order of their keys. */
    method List(prefix: string) returns (listed: seq<(string, V)>)
      ensures TextOrdered(KeysOf(listed))
      ensures forall k, v :: (k, v) in listed <==> k in entries && prefix <= k && v == entries[k]
    {
      var ks := [];
      var todo := set k | k in entries && prefix <= k;
      while todo != {}
        invariant TextOrdered(ks)
        invariant todo <= entries.Keys
        invariant forall k :: k in entries && prefix <= k <==> k in ks || k in todo
        invariant forall k | k in todo :: k !in ks
        decreases todo
      {
        var k :| k in todo;
        todo := todo - {k};
        InsertAscends(ks, k);
        InsertHas(ks, k);
        ks := Insert(ks, k);
      }
      listed := [];
      for i := 0 to |ks|
        invariant KeysOf(listed) == ks[..i]
        invariant forall j | 0 <= j < i :: listed[j] == (ks[j], entries[ks[j]])
      {
        listed := listed + [(ks[i], entries[ks[i]])];
      }
      forall k | k in ks ensures (k, entries[k]) in listed {
        var i :| 0 <= i < |ks| && ks[i] == k;
        assert listed[i] == (k, entries[k]);
      }
    }
  }

  function KeysOf<V>(pairs: seq<(string, V)>): (ks: seq<string>)
    ensures |ks| == |pairs| && forall i | 0 <= i < |ks| :: ks[i] == pairs[i].0
  {
    seq(|pairs|, i requires 0 <= i < |pairs| => pairs[i].0)
  }

  lemma Shrinks<V>(m: map<string, V>, k: string)
    ensures |m - {k}| == |m| - (if k in m then 1 else 0)
  {
    if k in m {
      assert (m - {k})[k := m[k]] == m;
    } else {
      assert m - {k} == m;
    }
  }

  /**
   * A batch lands whole or not at all, for every store it may meet, exactly
   * when every value can be cloned or the very first one cannot.
   */
  lemma PutIsAtomicIff<V(!new)>(batch: seq<(string, V)>, cloneable: V -> bool)
    ensures (forall entries: map<string, V> ::
               PutAll(entries, batch[..Accepted(batch, cloneable)]) == entries
               || Accepted(batch, cloneable) == |batch|)
            <==> Accepted(batch, cloneable) == |batch| || Accepted(batch, cloneable) == 0
  {
    var n := Accepted(batch, cloneable);
    if 0 < n < |batch| {
      assert batch[..n] != [];
      var entries: map<string, V> := map[];
      assert batch[n - 1].0 in PutAll(entries, batch[..n]);
      assert PutAll(entries, batch[..n]) != entries;
    }
  }
}
