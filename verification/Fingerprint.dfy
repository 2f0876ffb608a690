/**
 * `actorCommandFingerprint`: sort every object's keys, rebuild it, and print.
 *
 * The key comparator, `localeCompare`, is a parameter: a total preorder on
 * strings, which may call different strings equal.
 */
module Fingerprint {
  import opened JsonText
  import Decimal

  type Comparator = (string, string) -> bool

  ghost predicate Preorder(le: Comparator) {
    && (forall a, b :: le(a, b) || le(b, a))
    && (forall a, b, c :: le(a, b) && le(b, c) ==> le(a, c))
  }

  // ----- what the function does -----

  /** Put an entry behind those it does not precede, as a stable sort does. */
  function Insert(e: Entry, sorted: seq<Entry>, le: Comparator): seq<Entry> {
    if sorted == [] || le(sorted[|sorted| - 1].key, e.key) then sorted + [e]
    else Insert(e, sorted[..|sorted| - 1], le) + [sorted[|sorted| - 1]]
  }

  function Sort(entries: seq<Entry>, le: Comparator): seq<Entry> {
    if entries == [] then []
    else Insert(entries[|entries| - 1], Sort(entries[..|entries| - 1], le), le)
  }

  /** A property name that is an array index: a canonical numeral below 2^32 - 1. */
  predicate IsIndex(key: string) {
    Decimal.Numeral(key) && Decimal.Value(key) < 0xFFFF_FFFF
  }

  /** The indices are the printed numbers up to 2^32 - 2. */
  lemma IndicesAre(key: string)
    ensures IsIndex(key) <==> exists n: nat :: n <= 4294967294 && key == Decimal.Show(n)
  {
    if IsIndex(key) { Decimal.ShowOfValue(key); }
    if n: nat :| n <= 4294967294 && key == Decimal.Show(n) {
      Decimal.ShowIsNumeral(n);
      Decimal.ValueOfShow(n);
    }
  }

  function Only(entries: seq<Entry>, index: bool): seq<Entry> {
    if entries == [] then []
    else
      var front, last := Only(entries[..|entries| - 1], index), entries[|entries| - 1];
      if IsIndex(last.key) == index then front + [last] else front
  }

  predicate IndexBefore(a: string, b: string) {
    !IsIndex(a) || (IsIndex(b) && Decimal.Value(a) <= Decimal.Value(b))
  }

  /** The order an object lists its properties in: array indices by value, then the rest as they were added. */
  function Listed(entries: seq<Entry>): seq<Entry> {
    Sort(Only(entries, true), IndexBefore) + Only(entries, false)
  }

  function Canonical(v: Json, le: Comparator): Json
    decreases v
  {
    match v
    case Arr(items) => Arr(CanonicalItems(items, le))
    case Obj(entries) => Obj(Listed(Sort(CanonicalEntries(entries, le), le)))
    case _ => v
  }

  function CanonicalItems(items: seq<Json>, le: Comparator): (r: seq<Json>)
    ensures |r| == |items|
    decreases items
  {
    if items == [] then [] else [Canonical(items[0], le)] + CanonicalItems(items[1..], le)
  }

  function CanonicalEntries(entries: seq<Entry>, le: Comparator): (r: seq<Entry>)
    ensures |r| == |entries|
    decreases entries
  {
    if entries == [] then []
    else [Entry(entries[0].key, Canonical(entries[0].child, le))] + CanonicalEntries(entries[1..], le)
  }

  function CommandFingerprint(v: Json, le: Comparator): string {
    Print(Canonical(v, le))
  }

  // ----- equal up to key order -----

  ghost predicate Same(v: Json, w: Json)
    decreases v
  {
    match v
    case Arr(items) =>
      w.Arr? && |items| == |w.items| && forall i | 0 <= i < |items| :: Same(items[i], w.items[i])
    case Obj(entries) =>
      && w.Obj?
      && (forall i | 0 <= i < |entries| :: HasPartner(entries[i], w.entries))
      && (forall j | 0 <= j < |w.entries| :: IsPartner(entries, w.entries[j]))
    case _ => v == w
  }

  ghost predicate SameEntry(e: Entry, f: Entry)
    decreases e, 0
  {
    e.key == f.key && Same(e.child, f.child)
  }

  ghost predicate HasPartner(e: Entry, others: seq<Entry>)
    decreases e, 1
  {
    exists j :: 0 <= j < |others| && SameEntry(e, others[j])
  }

  ghost predicate IsPartner(entries: seq<Entry>, f: Entry)
    decreases entries
  {
    exists i :: 0 <= i < |entries| && SameEntry(entries[i], f)
  }

  predicate DistinctKeys(entries: seq<Entry>) {
    forall i, j | 0 <= i < j < |entries| :: entries[i].key != entries[j].key
  }

  /** Numbers spelled as numbers, and no key twice in one object. */
  predicate IsJson(v: Json) {
    match v
    case Num(text) => NumberText(text)
    case Arr(items) => forall i | 0 <= i < |items| :: IsJson(items[i])
    case Obj(entries) => DistinctKeys(entries) && forall i | 0 <= i < |entries| :: IsJson(entries[i].child)
    case _ => true
  }

  ghost predicate KeysApart(entries: seq<Entry>, le: Comparator) {
    forall i, j | 0 <= i < j < |entries| :: !Tied(entries[i].key, entries[j].key, le)
  }

  /** No object in the value, at any depth, has two tied keys. */
  ghost predicate NoTies(v: Json, le: Comparator)
    decreases v
  {
    match v
    case Arr(items) => forall i | 0 <= i < |items| :: NoTies(items[i], le)
    case Obj(entries) => KeysApart(entries, le) && forall i | 0 <= i < |entries| :: NoTies(entries[i].child, le)
    case _ => true
  }

  // ----- sorting -----

  lemma {:induction false} InsertKeeps(e: Entry, sorted: seq<Entry>, le: Comparator)
    ensures multiset(Insert(e, sorted, le)) == multiset(sorted) + multiset{e}
  {
    if sorted != [] && !le(sorted[|sorted| - 1].key, e.key) {
      InsertKeeps(e, sorted[..|sorted| - 1], le);
      assert sorted == sorted[..|sorted| - 1] + [sorted[|sorted| - 1]];
    }
  }

  lemma {:induction false} SortKeeps(entries: seq<Entry>, le: Comparator)
    ensures multiset(Sort(entries, le)) == multiset(entries)
  {
    if entries != [] {
      var front := entries[..|entries| - 1];
      SortKeeps(front, le);
      InsertKeeps(entries[|entries| - 1], Sort(front, le), le);
      assert entries == front + [entries[|entries| - 1]];
    }
  }

  ghost predicate Sorted(entries: seq<Entry>, le: Comparator) {
    forall i, j | 0 <= i < j < |entries| :: le(entries[i].key, entries[j].key)
  }

  ghost predicate AllBelow(entries: seq<Entry>, key: string, le: Comparator) {
    forall i | 0 <= i < |entries| :: le(entries[i].key, key)
  }

  lemma {:induction false} InsertSorts(e: Entry, sorted: seq<Entry>, le: Comparator)
    requires Preorder(le) && Sorted(sorted, le)
    ensures Sorted(Insert(e, sorted, le), le)
    ensures forall key | AllBelow(sorted, key, le) && le(e.key, key) :: AllBelow(Insert(e, sorted, le), key, le)
  {
    if sorted != [] && !le(sorted[|sorted| - 1].key, e.key) {
      var last := sorted[|sorted| - 1];
      InsertSorts(e, sorted[..|sorted| - 1], le);
      assert AllBelow(sorted[..|sorted| - 1], last.key, le);
      forall key | AllBelow(sorted, key, le) && le(e.key, key) ensures AllBelow(Insert(e, sorted, le), key, le) {
        assert AllBelow(sorted[..|sorted| - 1], key, le);
      }
    }
  }

  lemma {:induction false} SortSorts(entries: seq<Entry>, le: Comparator)
    requires Preorder(le)
    ensures Sorted(Sort(entries, le), le)
  {
    if entries != [] {
      SortSorts(entries[..|entries| - 1], le);
      InsertSorts(entries[|entries| - 1], Sort(entries[..|entries| - 1], le), le);
    }
  }

  // ----- listing -----

  lemma {:induction false} OnlySplits(entries: seq<Entry>)
    ensures multiset(Only(entries, true)) + multiset(Only(entries, false)) == multiset(entries)
  {
    if entries != [] {
      OnlySplits(entries[..|entries| - 1]);
      assert entries == entries[..|entries| - 1] + [entries[|entries| - 1]];
    }
  }

  lemma {:induction false} OnlyIs(entries: seq<Entry>, index: bool, le: Comparator)
    ensures forall i | 0 <= i < |Only(entries, index)| :: IsIndex(Only(entries, index)[i].key) == index
    ensures Sorted(entries, le) ==> Sorted(Only(entries, index), le)
    ensures forall key | AllBelow(entries, key, le) :: AllBelow(Only(entries, index), key, le)
  {
    if entries != [] {
      var front, last := entries[..|entries| - 1], entries[|entries| - 1];
      OnlyIs(front, index, le);
      if Sorted(entries, le) { assert AllBelow(front, last.key, le); }
      forall key | AllBelow(entries, key, le) ensures AllBelow(Only(entries, index), key, le) {
        assert AllBelow(front, key, le) && le(last.key, key);
      }
    }
  }

  /** Indices by value, then the other keys by the comparator. */
  function Overall(le: Comparator): Comparator {
    (a, b) =>
      if IsIndex(a) && IsIndex(b) then Decimal.Value(a) <= Decimal.Value(b)
      else if IsIndex(a) || IsIndex(b) then IsIndex(a)
      else le(a, b)
  }

  lemma ListedIs(entries: seq<Entry>, le: Comparator)
    ensures multiset(Listed(entries)) == multiset(entries)
    ensures Sorted(entries, le) ==> Sorted(Listed(entries), Overall(le))
  {
    var indices, others := Only(entries, true), Only(entries, false);
    OnlySplits(entries);
    SortKeeps(indices, IndexBefore);
    OnlyIs(entries, true, IndexBefore);
    OnlyIs(entries, false, le);
    var sorted := Sort(indices, IndexBefore);
    SortSorts(indices, IndexBefore);
    forall i | 0 <= i < |sorted| ensures IsIndex(sorted[i].key) {
      assert sorted[i] in multiset(indices);
    }
  }

  lemma ListingKeeps(entries: seq<Entry>, le: Comparator)
    ensures multiset(Listed(Sort(entries, le))) == multiset(entries)
  {
    SortKeeps(entries, le);
    ListedIs(Sort(entries, le), le);
  }

  /** Two different keys, neither an index, that the comparator calls equal. */
  ghost predicate Tied(a: string, b: string, le: Comparator) {
    !IsIndex(a) && !IsIndex(b) && a != b && le(a, b) && le(b, a)
  }

  ghost predicate Apart(entries: seq<Entry>, le: Comparator) {
    forall e, f | e in entries && f in entries :: !Tied(e.key, f.key, le)
  }

  lemma OverallSeparates(le: Comparator, a: string, b: string)
    requires !Tied(a, b, le) && Overall(le)(a, b) && Overall(le)(b, a)
    ensures a == b
  {
    if IsIndex(a) && IsIndex(b) {
      Decimal.ShowOfValue(a);
      Decimal.ShowOfValue(b);
    }
  }

  ghost predicate OnePerKey(entries: seq<Entry>) {
    forall e, f | e in entries && f in entries && e.key == f.key :: e == f
  }

  lemma HeadsAgree(xs: seq<Entry>, ys: seq<Entry>, le: Comparator)
    requires Apart(xs, le) && Sorted(xs, Overall(le)) && Sorted(ys, Overall(le))
    requires xs != [] && ys != [] && xs[0] in ys && ys[0] in xs && OnePerKey(xs)
    ensures xs[0] == ys[0]
  {
    var i :| 0 <= i < |xs| && xs[i] == ys[0];
    var j :| 0 <= j < |ys| && ys[j] == xs[0];
    if i != 0 && j != 0 {
      OverallSeparates(le, xs[0].key, ys[0].key);
    }
  }

  lemma TailOf(xs: seq<Entry>)
    requires xs != []
    ensures multiset(xs[1..]) == multiset(xs) - multiset{xs[0]}
  {
    assert xs == [xs[0]] + xs[1..];
  }

  lemma SameMembersBack(xs: seq<Entry>, ys: seq<Entry>)
    requires multiset(xs) == multiset(ys)
    ensures |xs| == |ys| && forall e :: e in xs <==> e in ys
  {
    assert |xs| == |multiset(xs)| && |ys| == |multiset(ys)|;
    forall e ensures e in xs <==> e in ys { assert e in multiset(xs) <==> e in multiset(ys); }
  }

  lemma TailIsSorted(xs: seq<Entry>, le: Comparator)
    requires xs != [] && Sorted(xs, Overall(le)) && OnePerKey(xs) && Apart(xs, le)
    ensures Sorted(xs[1..], Overall(le)) && OnePerKey(xs[1..]) && Apart(xs[1..], le)
  {
    assert forall e | e in xs[1..] :: e in xs;
  }

  /** There is one way to put entries in order, if no two of their keys are tied. */
  lemma {:induction false} SortedIsUnique(xs: seq<Entry>, ys: seq<Entry>, le: Comparator)
    requires Apart(xs, le) && Sorted(xs, Overall(le)) && Sorted(ys, Overall(le))
    requires multiset(xs) == multiset(ys) && OnePerKey(xs)
    ensures xs == ys
  {
    SameMembersBack(xs, ys);
    if xs != [] {
      HeadsAgree(xs, ys, le);
      TailOf(xs);
      TailOf(ys);
      TailIsSorted(xs, le);
      BehindIsSorted(ys, le);
      SortedIsUnique(xs[1..], ys[1..], le);
      assert xs == [xs[0]] + xs[1..] && ys == [ys[0]] + ys[1..];
    }
  }

  lemma BehindIsSorted(xs: seq<Entry>, le: Comparator)
    requires xs != [] && Sorted(xs, Overall(le))
    ensures Sorted(xs[1..], Overall(le))
  {
  }

  // ----- canonical forms -----

  lemma {:induction false} ItemAt(items: seq<Json>, le: Comparator, i: nat)
    requires i < |items|
    ensures CanonicalItems(items, le)[i] == Canonical(items[i], le)
  {
    if i > 0 { ItemAt(items[1..], le, i - 1); }
  }

  lemma {:induction false} EntryAt(entries: seq<Entry>, le: Comparator, i: nat)
    requires i < |entries|
    ensures CanonicalEntries(entries, le)[i] == Entry(entries[i].key, Canonical(entries[i].child, le))
  {
    if i > 0 { EntryAt(entries[1..], le, i - 1); }
  }

  /** Every listed property comes from one of the object's own. */
  lemma Origin(entries: seq<Entry>, le: Comparator, i: nat) returns (j: nat)
    requires i < |Listed(Sort(CanonicalEntries(entries, le), le))|
    ensures j < |entries|
    ensures Listed(Sort(CanonicalEntries(entries, le), le))[i] == Entry(entries[j].key, Canonical(entries[j].child, le))
  {
    var inner := CanonicalEntries(entries, le);
    var listed := Listed(Sort(inner, le));
    ListingKeeps(inner, le);
    SameMembersBack(listed, inner);
    assert listed[i] in inner;
    j :| 0 <= j < |inner| && inner[j] == listed[i];
    EntryAt(entries, le, j);
  }

  lemma {:induction false} CanonicalIsWellFormed(v: Json, le: Comparator)
    requires IsJson(v)
    ensures WellFormed(Canonical(v, le))
    decreases v
  {
    match v
    case Arr(items) =>
      forall i | 0 <= i < |items| ensures WellFormed(CanonicalItems(items, le)[i]) {
        ItemAt(items, le, i);
        CanonicalIsWellFormed(items[i], le);
      }
    case Obj(entries) =>
      forall i | 0 <= i < |Canonical(v, le).entries| ensures WellFormed(Canonical(v, le).entries[i].child) {
        var j := Origin(entries, le, i);
        CanonicalIsWellFormed(entries[j].child, le);
      }
    case _ =>
  }

  /** Properties `e` and `f` have one name and one canonical form. */
  predicate Meet(e: Entry, f: Entry, le: Comparator) {
    e.key == f.key && Canonical(e.child, le) == Canonical(f.child, le)
  }

  lemma Meets(entries: seq<Entry>, others: seq<Entry>, le: Comparator, i: nat) returns (j: nat)
    requires i < |entries|
    requires multiset(CanonicalEntries(entries, le)) == multiset(CanonicalEntries(others, le))
    ensures j < |others| && Meet(entries[i], others[j], le)
  {
    var inner, other := CanonicalEntries(entries, le), CanonicalEntries(others, le);
    SameMembersBack(inner, other);
    assert inner[i] in other;
    j :| 0 <= j < |other| && other[j] == inner[i];
    EntryAt(entries, le, i);
    EntryAt(others, le, j);
  }

  /** Values with one canonical form are equal up to key order, whatever the comparator does. */
  lemma {:induction false} CanonicalImpliesSame(v: Json, w: Json, le: Comparator)
    requires Canonical(v, le) == Canonical(w, le)
    ensures Same(v, w)
    decreases v
  {
    match v
    case Arr(items) =>
      forall i | 0 <= i < |items| ensures Same(items[i], w.items[i]) {
        ItemAt(items, le, i);
        ItemAt(w.items, le, i);
        CanonicalImpliesSame(items[i], w.items[i], le);
      }
    case Obj(entries) =>
      ListingKeeps(CanonicalEntries(entries, le), le);
      ListingKeeps(CanonicalEntries(w.entries, le), le);
      EntriesSame(entries, w.entries, le);
    case _ =>
  }

  lemma {:induction false} EntriesSame(entries: seq<Entry>, others: seq<Entry>, le: Comparator)
    requires multiset(CanonicalEntries(entries, le)) == multiset(CanonicalEntries(others, le))
    ensures Same(Obj(entries), Obj(others))
    decreases entries
  {
    forall i | 0 <= i < |entries| ensures HasPartner(entries[i], others) {
      var j := Meets(entries, others, le, i);
      CanonicalImpliesSame(entries[i].child, others[j].child, le);
      assert SameEntry(entries[i], others[j]);
    }
    forall j | 0 <= j < |others| ensures IsPartner(entries, others[j]) {
      var i := Meets(others, entries, le, j);
      CanonicalImpliesSame(entries[i].child, others[j].child, le);
      assert SameEntry(entries[i], others[j]);
    }
  }

  lemma NotAgain(front: seq<Entry>, last: Entry)
    requires DistinctKeys(front + [last])
    ensures last !in front
  {
    forall i | 0 <= i < |front| ensures front[i] != last {
      assert (front + [last])[i].key != (front + [last])[|front|].key;
    }
  }

  lemma {:induction false} CountOfDistinct(entries: seq<Entry>, e: Entry)
    requires DistinctKeys(entries)
    ensures multiset(entries)[e] == if e in entries then 1 else 0
  {
    if entries != [] {
      var front, last := entries[..|entries| - 1], entries[|entries| - 1];
      CountOfDistinct(front, e);
      assert entries == front + [last];
      NotAgain(front, last);
    }
  }

  lemma SameMembers(xs: seq<Entry>, ys: seq<Entry>)
    requires DistinctKeys(xs) && DistinctKeys(ys) && forall e :: e in xs <==> e in ys
    ensures multiset(xs) == multiset(ys)
  {
    forall e ensures multiset(xs)[e] == multiset(ys)[e] {
      CountOfDistinct(xs, e);
      CountOfDistinct(ys, e);
    }
  }

  lemma CanonicalKeysDistinct(entries: seq<Entry>, le: Comparator)
    requires DistinctKeys(entries)
    ensures DistinctKeys(CanonicalEntries(entries, le)) && OnePerKey(CanonicalEntries(entries, le))
  {
    var inner := CanonicalEntries(entries, le);
    forall i | 0 <= i < |inner| ensures inner[i].key == entries[i].key { EntryAt(entries, le, i); }
  }

  lemma CanonicalKeysApart(entries: seq<Entry>, le: Comparator)
    requires KeysApart(entries, le)
    ensures Apart(CanonicalEntries(entries, le), le)
  {
    var inner := CanonicalEntries(entries, le);
    forall e, f | e in inner && f in inner ensures !Tied(e.key, f.key, le) {
      var i :| 0 <= i < |inner| && inner[i] == e;
      var j :| 0 <= j < |inner| && inner[j] == f;
      EntryAt(entries, le, i);
      EntryAt(entries, le, j);
    }
  }

  /** Objects with the same canonical properties are listed alike. */
  lemma ListedAlike(xs: seq<Entry>, ys: seq<Entry>, le: Comparator)
    requires Preorder(le) && Apart(xs, le)
    requires DistinctKeys(xs) && DistinctKeys(ys) && OnePerKey(xs) && forall e :: e in xs <==> e in ys
    ensures Listed(Sort(xs, le)) == Listed(Sort(ys, le))
  {
    SameMembers(xs, ys);
    ListingKeeps(xs, le);
    ListingKeeps(ys, le);
    SortSorts(xs, le);
    SortSorts(ys, le);
    ListedIs(Sort(xs, le), le);
    ListedIs(Sort(ys, le), le);
    var listed := Listed(Sort(xs, le));
    forall e | e in listed ensures e in xs { assert e in multiset(xs); }
    SortedIsUnique(listed, Listed(Sort(ys, le)), le);
  }

  lemma MetIn(entries: seq<Entry>, others: seq<Entry>, le: Comparator, i: nat, j: nat)
    requires i < |entries| && j < |others| && Meet(entries[i], others[j], le)
    ensures CanonicalEntries(entries, le)[i] in CanonicalEntries(others, le)
  {
    EntryAt(entries, le, i);
    EntryAt(others, le, j);
    assert CanonicalEntries(others, le)[j] in CanonicalEntries(others, le);
  }

  lemma SameListing(entries: seq<Entry>, others: seq<Entry>, le: Comparator)
    requires Preorder(le) && KeysApart(entries, le) && DistinctKeys(entries) && DistinctKeys(others)
    requires forall i | 0 <= i < |entries| :: CanonicalEntries(entries, le)[i] in CanonicalEntries(others, le)
    requires forall j | 0 <= j < |others| :: CanonicalEntries(others, le)[j] in CanonicalEntries(entries, le)
    ensures Listed(Sort(CanonicalEntries(entries, le), le)) == Listed(Sort(CanonicalEntries(others, le), le))
  {
    CanonicalKeysDistinct(entries, le);
    CanonicalKeysDistinct(others, le);
    CanonicalKeysApart(entries, le);
    ListedAlike(CanonicalEntries(entries, le), CanonicalEntries(others, le), le);
  }

  /** Equal up to key order means one canonical form, for a value without ties. */
  lemma {:induction false} SameImpliesCanonical(v: Json, w: Json, le: Comparator)
    requires IsJson(v) && IsJson(w) && Same(v, w) && Preorder(le) && NoTies(v, le)
    ensures Canonical(v, le) == Canonical(w, le)
    decreases v
  {
    match v
    case Arr(items) =>
      forall i | 0 <= i < |items| ensures CanonicalItems(items, le)[i] == CanonicalItems(w.items, le)[i] {
        ItemAt(items, le, i);
        ItemAt(w.items, le, i);
        SameImpliesCanonical(items[i], w.items[i], le);
      }
    case Obj(entries) =>
      EntriesCanonical(entries, w.entries, le);
      SameListing(entries, w.entries, le);
    case _ =>
  }

  lemma {:induction false} EntriesCanonical(entries: seq<Entry>, others: seq<Entry>, le: Comparator)
    requires IsJson(Obj(entries)) && IsJson(Obj(others)) && Same(Obj(entries), Obj(others))
    requires Preorder(le) && NoTies(Obj(entries), le)
    ensures forall i | 0 <= i < |entries| :: CanonicalEntries(entries, le)[i] in CanonicalEntries(others, le)
    ensures forall j | 0 <= j < |others| :: CanonicalEntries(others, le)[j] in CanonicalEntries(entries, le)
    decreases entries
  {
    forall i | 0 <= i < |entries| ensures CanonicalEntries(entries, le)[i] in CanonicalEntries(others, le) {
      assert HasPartner(entries[i], others);
      var j :| 0 <= j < |others| && SameEntry(entries[i], others[j]);
      SameImpliesCanonical(entries[i].child, others[j].child, le);
      MetIn(entries, others, le, i, j);
    }
    forall j | 0 <= j < |others| ensures CanonicalEntries(others, le)[j] in CanonicalEntries(entries, le) {
      assert IsPartner(entries, others[j]);
      var i :| 0 <= i < |entries| && SameEntry(entries[i], others[j]);
      SameImpliesCanonical(entries[i].child, others[j].child, le);
      MetIn(others, entries, le, j, i);
    }
  }

  // ----- the fingerprint -----

  /** Under any comparator, commands that differ in more than key order have different fingerprints. */
  lemma NeverTooCoarse(v: Json, w: Json, le: Comparator)
    requires IsJson(v) && IsJson(w) && CommandFingerprint(v, le) == CommandFingerprint(w, le)
    ensures Same(v, w)
  {
    CanonicalIsWellFormed(v, le);
    CanonicalIsWellFormed(w, le);
    PrintIsInjective(Canonical(v, le), Canonical(w, le));
    CanonicalImpliesSame(v, w, le);
  }

  /** A command without ties shares its fingerprint with exactly the commands equal to it up to key order. */
  lemma FingerprintIsExact(v: Json, w: Json, le: Comparator)
    requires IsJson(v) && IsJson(w) && Preorder(le) && NoTies(v, le)
    ensures CommandFingerprint(v, le) == CommandFingerprint(w, le) <==> Same(v, w)
  {
    if Same(v, w) {
      SameImpliesCanonical(v, w, le);
    } else if CommandFingerprint(v, le) == CommandFingerprint(w, le) {
      NeverTooCoarse(v, w, le);
    }
  }

  // ----- ties keep the order they came in -----

  ghost predicate Ahead(entries: seq<Entry>, e: Entry, f: Entry) {
    exists p, q :: 0 <= p < q < |entries| && entries[p] == e && entries[q] == f
  }

  lemma AheadWithin(front: seq<Entry>, back: seq<Entry>, e: Entry, f: Entry)
    requires Ahead(front, e, f) || Ahead(back, e, f) || (e in front && f in back)
    ensures Ahead(front + back, e, f)
  {
    var all := front + back;
    if Ahead(front, e, f) {
      var p, q :| 0 <= p < q < |front| && front[p] == e && front[q] == f;
      assert all[p] == e && all[q] == f;
    } else if Ahead(back, e, f) {
      var p, q :| 0 <= p < q < |back| && back[p] == e && back[q] == f;
      assert all[|front| + p] == e && all[|front| + q] == f;
    } else {
      var p :| 0 <= p < |front| && front[p] == e;
      var q :| 0 <= q < |back| && back[q] == f;
      assert all[p] == e && all[|front| + q] == f;
    }
  }

  lemma AheadSplits(entries: seq<Entry>, e: Entry, f: Entry)
    requires entries != [] && Ahead(entries, e, f)
    ensures Ahead(entries[..|entries| - 1], e, f) || (e in entries[..|entries| - 1] && f == entries[|entries| - 1])
  {
    var front := entries[..|entries| - 1];
    var p, q :| 0 <= p < q < |entries| && entries[p] == e && entries[q] == f;
    assert front[p] == e;
    if q < |front| { assert front[q] == f; }
  }

  lemma {:induction false} InsertKeepsOrder(x: Entry, sorted: seq<Entry>, le: Comparator, e: Entry, f: Entry)
    requires Ahead(sorted, e, f)
    ensures Ahead(Insert(x, sorted, le), e, f)
  {
    if sorted == [] || le(sorted[|sorted| - 1].key, x.key) {
      AheadWithin(sorted, [x], e, f);
    } else {
      var front, last := sorted[..|sorted| - 1], sorted[|sorted| - 1];
      AheadSplits(sorted, e, f);
      if Ahead(front, e, f) {
        InsertKeepsOrder(x, front, le, e, f);
      } else {
        InsertKeeps(x, front, le);
        assert e in multiset(Insert(x, front, le));
      }
      AheadWithin(Insert(x, front, le), [last], e, f);
    }
  }

  lemma {:induction false} InsertLandsBehind(x: Entry, sorted: seq<Entry>, le: Comparator, e: Entry)
    requires e in sorted && le(e.key, x.key)
    ensures Ahead(Insert(x, sorted, le), e, x)
  {
    if sorted == [] || le(sorted[|sorted| - 1].key, x.key) {
      AheadWithin(sorted, [x], e, x);
    } else {
      InsertLandsBehind(x, sorted[..|sorted| - 1], le, e);
      AheadWithin(Insert(x, sorted[..|sorted| - 1], le), [sorted[|sorted| - 1]], e, x);
    }
  }

  /** The sort is stable. */
  lemma {:induction false} SortKeepsOrder(entries: seq<Entry>, le: Comparator, e: Entry, f: Entry)
    requires Ahead(entries, e, f) && le(e.key, f.key)
    ensures Ahead(Sort(entries, le), e, f)
  {
    var front, last := entries[..|entries| - 1], entries[|entries| - 1];
    AheadSplits(entries, e, f);
    if Ahead(front, e, f) {
      SortKeepsOrder(front, le, e, f);
      InsertKeepsOrder(last, Sort(front, le), le, e, f);
    } else {
      SortKeeps(front, le);
      assert e in multiset(Sort(front, le));
      InsertLandsBehind(last, Sort(front, le), le, e);
    }
  }

  lemma {:induction false} OnlyHas(entries: seq<Entry>, e: Entry)
    requires e in entries
    ensures e in Only(entries, IsIndex(e.key))
  {
    if e != entries[|entries| - 1] { OnlyHas(entries[..|entries| - 1], e); }
  }

  lemma {:induction false} OnlyKeepsOrder(entries: seq<Entry>, e: Entry, f: Entry)
    requires Ahead(entries, e, f) && !IsIndex(e.key) && !IsIndex(f.key)
    ensures Ahead(Only(entries, false), e, f)
  {
    var front, last := entries[..|entries| - 1], entries[|entries| - 1];
    AheadSplits(entries, e, f);
    if Ahead(front, e, f) {
      OnlyKeepsOrder(front, e, f);
      AheadWithin(Only(front, false), [last], e, f);
    } else {
      OnlyHas(front, e);
      AheadWithin(Only(front, false), [last], e, f);
    }
  }

  lemma ListingKeepsOrder(entries: seq<Entry>, le: Comparator, e: Entry, f: Entry)
    requires Ahead(entries, e, f) && !IsIndex(e.key) && !IsIndex(f.key) && le(e.key, f.key)
    ensures Ahead(Listed(Sort(entries, le)), e, f)
  {
    var sorted := Sort(entries, le);
    SortKeepsOrder(entries, le, e, f);
    OnlyKeepsOrder(sorted, e, f);
    AheadWithin(Sort(Only(sorted, true), IndexBefore), Only(sorted, false), e, f);
  }

  lemma TwoPlaces(entries: seq<Entry>, e: Entry, p: nat, q: nat)
    requires p < q < |entries| && entries[p] == e == entries[q]
    ensures multiset(entries)[e] >= 2
  {
    assert entries == entries[..q] + entries[q..];
    assert entries[..q][p] == e && entries[q..][0] == e;
  }

  lemma OnlyOneIsAhead(entries: seq<Entry>, e: Entry, f: Entry)
    requires Ahead(entries, e, f) && Ahead(entries, f, e)
    ensures multiset(entries)[e] >= 2 || multiset(entries)[f] >= 2
  {
    var p, q :| 0 <= p < q < |entries| && entries[p] == e && entries[q] == f;
    var r, s :| 0 <= r < s < |entries| && entries[r] == f && entries[s] == e;
    if p < s {
      TwoPlaces(entries, e, p, s);
    } else {
      TwoPlaces(entries, f, r, q);
    }
  }

  function Swap(entries: seq<Entry>, i: nat, j: nat): seq<Entry>
    requires i < j < |entries|
  {
    entries[i := entries[j]][j := entries[i]]
  }

  function Across(i: nat, j: nat, k: nat): nat {
    if k == i then j else if k == j then i else k
  }

  lemma SwappedAt(entries: seq<Entry>, i: nat, j: nat, k: nat)
    requires i < j < |entries| && k < |entries|
    ensures |Swap(entries, i, j)| == |entries| && Swap(entries, i, j)[k] == entries[Across(i, j, k)]
  {
  }

  /** Properties in opposite orders are listed in different orders, if their keys are tied. */
  lemma OppositesDiffer(xs: seq<Entry>, ys: seq<Entry>, le: Comparator, e: Entry, f: Entry)
    requires Ahead(xs, e, f) && Ahead(ys, f, e) && Tied(e.key, f.key, le) && DistinctKeys(xs)
    ensures Listed(Sort(xs, le)) != Listed(Sort(ys, le))
  {
    ListingKeepsOrder(xs, le, e, f);
    ListingKeepsOrder(ys, le, f, e);
    ListingKeeps(xs, le);
    CountOfDistinct(xs, e);
    CountOfDistinct(xs, f);
    if Listed(Sort(xs, le)) == Listed(Sort(ys, le)) { OnlyOneIsAhead(Listed(Sort(xs, le)), e, f); }
  }

  /** Swapping two tied properties shows in the canonical form. */
  lemma SwapShows(entries: seq<Entry>, i: nat, j: nat, le: Comparator)
    requires i < j < |entries| && DistinctKeys(entries) && Tied(entries[i].key, entries[j].key, le)
    ensures Canonical(Obj(entries), le) != Canonical(Obj(Swap(entries, i, j)), le)
  {
    var others := Swap(entries, i, j);
    SwappedAt(entries, i, j, i);
    SwappedAt(entries, i, j, j);
    EntryAt(entries, le, i);
    EntryAt(entries, le, j);
    EntryAt(others, le, i);
    EntryAt(others, le, j);
    CanonicalKeysDistinct(entries, le);
    var inner, other := CanonicalEntries(entries, le), CanonicalEntries(others, le);
    assert other[i] == inner[j] && other[j] == inner[i];
    OppositesDiffer(inner, other, le, inner[i], inner[j]);
  }

  lemma {:induction false} SameToItself(v: Json)
    ensures Same(v, v)
    decreases v
  {
    match v
    case Arr(items) =>
      forall i | 0 <= i < |items| ensures Same(items[i], items[i]) { SameToItself(items[i]); }
    case Obj(entries) =>
      forall i | 0 <= i < |entries| ensures HasPartner(entries[i], entries) && IsPartner(entries, entries[i]) {
        SameToItself(entries[i].child);
        assert SameEntry(entries[i], entries[i]);
      }
    case _ =>
  }

  lemma SwapIsJson(entries: seq<Entry>, i: nat, j: nat)
    requires i < j < |entries| && IsJson(Obj(entries))
    ensures IsJson(Obj(Swap(entries, i, j)))
  {
    var others := Swap(entries, i, j);
    forall a, b | 0 <= a < b < |others| ensures others[a].key != others[b].key {
      SwappedAt(entries, i, j, a);
      SwappedAt(entries, i, j, b);
    }
    forall a | 0 <= a < |others| ensures IsJson(others[a].child) { SwappedAt(entries, i, j, a); }
  }

  lemma SwapIsSame(entries: seq<Entry>, i: nat, j: nat)
    requires i < j < |entries|
    ensures Same(Obj(entries), Obj(Swap(entries, i, j)))
  {
    var others := Swap(entries, i, j);
    forall k | 0 <= k < |entries| ensures HasPartner(entries[k], others) {
      SwappedAt(entries, i, j, Across(i, j, k));
      SameToItself(entries[k].child);
      assert SameEntry(entries[k], others[Across(i, j, k)]);
    }
    forall k | 0 <= k < |others| ensures IsPartner(entries, others[k]) {
      SwappedAt(entries, i, j, k);
      SameToItself(others[k].child);
      assert SameEntry(entries[Across(i, j, k)], others[k]);
    }
  }

  // ----- a tie deeper down -----

  /** `w` is `v` with one item replaced. */
  lemma ItemShows(items: seq<Json>, i: nat, w: Json, le: Comparator)
    requires i < |items| && IsJson(Arr(items)) && IsJson(w) && Same(items[i], w)
    requires Canonical(items[i], le) != Canonical(w, le)
    ensures IsJson(Arr(items[i := w])) && Same(Arr(items), Arr(items[i := w]))
    ensures Canonical(Arr(items), le) != Canonical(Arr(items[i := w]), le)
  {
    ItemAt(items, le, i);
    ItemAt(items[i := w], le, i);
    forall k | 0 <= k < |items| ensures Same(items[k], items[i := w][k]) { SameToItself(items[k]); }
  }

  function WithChild(entries: seq<Entry>, i: nat, w: Json): seq<Entry>
    requires i < |entries|
  {
    entries[i := Entry(entries[i].key, w)]
  }

  lemma ChildIsJson(entries: seq<Entry>, i: nat, w: Json)
    requires i < |entries| && IsJson(Obj(entries)) && IsJson(w)
    ensures IsJson(Obj(WithChild(entries, i, w)))
  {
    var others := WithChild(entries, i, w);
    forall k | 0 <= k < |others| ensures others[k].key == entries[k].key && IsJson(others[k].child) {}
  }

  lemma ChildIsSame(entries: seq<Entry>, i: nat, w: Json)
    requires i < |entries| && Same(entries[i].child, w)
    ensures Same(Obj(entries), Obj(WithChild(entries, i, w)))
  {
    var others := WithChild(entries, i, w);
    forall k | 0 <= k < |entries| ensures SameEntry(entries[k], others[k]) { SameToItself(entries[k].child); }
    forall k | 0 <= k < |entries| ensures HasPartner(entries[k], others) { assert SameEntry(entries[k], others[k]); }
    forall k | 0 <= k < |others| ensures IsPartner(entries, others[k]) { assert SameEntry(entries[k], others[k]); }
  }

  lemma ChildMatches(entries: seq<Entry>, i: nat, w: Json, le: Comparator)
    requires i < |entries| && DistinctKeys(entries)
    requires multiset(CanonicalEntries(entries, le)) == multiset(CanonicalEntries(WithChild(entries, i, w), le))
    ensures Canonical(entries[i].child, le) == Canonical(w, le)
  {
    var others := WithChild(entries, i, w);
    var j := Meets(entries, others, le, i);
    assert others[j].key == entries[j].key;
  }

  lemma ChildShows(entries: seq<Entry>, i: nat, w: Json, le: Comparator)
    requires i < |entries| && DistinctKeys(entries) && Canonical(entries[i].child, le) != Canonical(w, le)
    ensures Canonical(Obj(entries), le) != Canonical(Obj(WithChild(entries, i, w)), le)
  {
    ListingKeeps(CanonicalEntries(entries, le), le);
    ListingKeeps(CanonicalEntries(WithChild(entries, i, w), le), le);
    if Canonical(Obj(entries), le) == Canonical(Obj(WithChild(entries, i, w)), le) {
      ChildMatches(entries, i, w, le);
    }
  }

  /** A value with a tie at any depth has an equal one, up to key order, with another canonical form. */
  lemma {:induction false} TieShows(v: Json, le: Comparator) returns (w: Json)
    requires IsJson(v) && !NoTies(v, le)
    ensures IsJson(w) && Same(v, w) && Canonical(v, le) != Canonical(w, le)
    decreases v
  {
    match v
    case Arr(items) =>
      var i :| 0 <= i < |items| && !NoTies(items[i], le);
      var inner := TieShows(items[i], le);
      ItemShows(items, i, inner, le);
      w := Arr(items[i := inner]);
    case Obj(entries) =>
      if KeysApart(entries, le) {
        var i :| 0 <= i < |entries| && !NoTies(entries[i].child, le);
        var inner := TieShows(entries[i].child, le);
        ChildIsJson(entries, i, inner);
        ChildIsSame(entries, i, inner);
        ChildShows(entries, i, inner, le);
        w := Obj(WithChild(entries, i, inner));
      } else {
        var i, j :| 0 <= i < j < |entries| && Tied(entries[i].key, entries[j].key, le);
        SwapIsJson(entries, i, j);
        SwapIsSame(entries, i, j);
        SwapShows(entries, i, j, le);
        w := Obj(Swap(entries, i, j));
      }
  }

  ghost predicate IgnoresOrder(v: Json, le: Comparator) {
    forall w | IsJson(w) && Same(v, w) :: CommandFingerprint(v, le) == CommandFingerprint(w, le)
  }

  /** Key order never matters for a command if and only if no object in it has two tied keys. */
  lemma OrderIsIgnoredIff(v: Json, le: Comparator)
    requires IsJson(v) && Preorder(le)
    ensures IgnoresOrder(v, le) <==> NoTies(v, le)
  {
    if NoTies(v, le) {
      forall w | IsJson(w) && Same(v, w) ensures CommandFingerprint(v, le) == CommandFingerprint(w, le) {
        FingerprintIsExact(v, w, le);
      }
    } else {
      var w := TieShows(v, le);
      CanonicalIsWellFormed(v, le);
      CanonicalIsWellFormed(w, le);
      if CommandFingerprint(v, le) == CommandFingerprint(w, le) {
        PrintIsInjective(Canonical(v, le), Canonical(w, le));
      }
    }
  }

  function Two(a: string, b: string): Json {
    Obj([Entry(a, Null), Entry(b, Null)])
  }

  /** Two keys the comparator calls equal keep the order they came in, and the fingerprint shows it. */
  lemma TiesShow(a: string, b: string, le: Comparator)
    requires Tied(a, b, le)
    ensures IsJson(Two(a, b)) && IsJson(Two(b, a)) && Same(Two(a, b), Two(b, a))
    ensures CommandFingerprint(Two(a, b), le) != CommandFingerprint(Two(b, a), le)
  {
    var es := Two(a, b).entries;
    assert Swap(es, 0, 1) == Two(b, a).entries;
    SwapIsJson(es, 0, 1);
    SwapIsSame(es, 0, 1);
    SwapShows(es, 0, 1, le);
    CanonicalIsWellFormed(Two(a, b), le);
    CanonicalIsWellFormed(Two(b, a), le);
    if CommandFingerprint(Two(a, b), le) == CommandFingerprint(Two(b, a), le) {
      PrintIsInjective(Canonical(Two(a, b), le), Canonical(Two(b, a), le));
    }
  }

  lemma {:induction false} TiesAreTied(v: Json, le: Comparator) returns (a: string, b: string)
    requires !NoTies(v, le)
    ensures Tied(a, b, le)
    decreases v
  {
    match v
    case Arr(items) =>
      var i :| 0 <= i < |items| && !NoTies(items[i], le);
      a, b := TiesAreTied(items[i], le);
    case Obj(entries) =>
      if KeysApart(entries, le) {
        var i :| 0 <= i < |entries| && !NoTies(entries[i].child, le);
        a, b := TiesAreTied(entries[i].child, le);
      } else {
        var i, j :| 0 <= i < j < |entries| && Tied(entries[i].key, entries[j].key, le);
        a, b := entries[i].key, entries[j].key;
      }
  }

  /** Key order never matters for any command if and only if the comparator ties no two keys. */
  lemma OrderIsAlwaysIgnoredIff(le: Comparator)
    requires Preorder(le)
    ensures (forall v | IsJson(v) :: IgnoresOrder(v, le)) <==> (forall a, b :: !Tied(a, b, le))
  {
    if a, b :| Tied(a, b, le) {
      TiesShow(a, b, le);
      assert !IgnoresOrder(Two(a, b), le);
    } else {
      forall v | IsJson(v) ensures IgnoresOrder(v, le) {
        if !NoTies(v, le) { var a, b := TiesAreTied(v, le); }
        OrderIsIgnoredIff(v, le);
      }
    }
  }
}
