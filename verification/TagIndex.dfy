/**
 * `ContextTagIndexer`: finding bindings by tag through an index, against the
 * linear scan that `filterByTag` describes.
 */
module TagIndex {
  import opened Options

  /** Bindings are identified, as objects are; their keys play no part here. */
  type Id = nat

  /** A tag's value; `None` is JavaScript's `undefined`, which a present tag may also have. */
  type Content = Option<string>

  type TagMap = map<string, Content>

  function At(tags: TagMap, name: string): Content {
    if name in tags then tags[name] else None
  }

  // ----- patterns -----

  /** What a tag map asks of one tag: a value, or a matcher's consent. */
  datatype Want = Exactly(content: Content) | Matching(test: (Content, TagMap) -> bool)

  /** A tag map's entries are its own properties in the order `Object.keys` lists them. */
  datatype Pattern = Name(name: string) | Regex(test: string -> bool) | Tags(entries: seq<(string, Want)>)

  predicate MatchTagValue(want: Want, name: string, tags: TagMap) {
    match want
    case Exactly(content) => At(tags, name) == content
    case Matching(test) => test(At(tags, name), tags)
  }

  predicate IsWildcard(name: string) {
    '*' in name || '?' in name
  }

  /** `wildcardToRegExp`: `*` is any run and `?` any one character, neither of them `.` or `:`. */
  predicate Glob(pattern: string, text: string)
    decreases |pattern| + |text|
  {
    if pattern == "" then text == ""
    else if pattern[0] == '*' then
      Glob(pattern[1..], text) || (text != "" && text[0] != '.' && text[0] != ':' && Glob(pattern, text[1..]))
    else
      && text != ""
      && (if pattern[0] == '?' then text[0] != '.' && text[0] != ':' else text[0] == pattern[0])
      && Glob(pattern[1..], text[1..])
  }

  /** `filterByTag`. */
  predicate Accepts(p: Pattern, tags: TagMap) {
    match p
    case Name(name) => if IsWildcard(name) then exists t | t in tags :: Glob(name, t) else name in tags
    case Regex(test) => exists t | t in tags :: test(t)
    case Tags(entries) => forall i | 0 <= i < |entries| :: MatchTagValue(entries[i].1, entries[i].0, tags)
  }

  // ----- scan and lookup -----

  /** `tags` holds the tags of every binding there is, bound in this context or not. */
  datatype Registry = Registry(bound: set<Id>, tags: map<Id, TagMap>)

  function TagsOf(r: Registry, b: Id): TagMap {
    if b in r.tags then r.tags[b] else map[]
  }

  /** The linear scan. */
  function Scan(r: Registry, p: Pattern): set<Id> {
    set b | b in r.bound && Accepts(p, TagsOf(r, b))
  }

  function Names(p: Pattern): seq<string>
    requires !p.Regex?
  {
    if p.Name? then [p.name] else seq(|p.entries|, i requires 0 <= i < |p.entries| => p.entries[i].0)
  }

  predicate Carries(r: Registry, bs: set<Id>, name: string) {
    exists b | b in bs :: name in TagsOf(r, b)
  }

  /** How many of the names are looked up: up to the first, after name `k`, that no binding of `bs` carries. */
  function Looked(r: Registry, bs: set<Id>, names: seq<string>, k: nat): (n: nat)
    requires k <= |names|
    ensures k <= n <= |names|
    decreases |names| - k
  {
    if k == |names| || (k > 0 && !Carries(r, bs, names[k])) then k else Looked(r, bs, names, k + 1)
  }

  predicate CarriesAll(r: Registry, b: Id, names: seq<string>) {
    forall i | 0 <= i < |names| :: names[i] in TagsOf(r, b)
  }

  function With(r: Registry, bs: set<Id>, name: string): set<Id> {
    set b | b in bs && name in TagsOf(r, b)
  }

  function WithAll(r: Registry, bs: set<Id>, names: seq<string>): set<Id> {
    set b | b in bs && CarriesAll(r, b, names)
  }

  lemma WithAllMore(r: Registry, bs: set<Id>, names: seq<string>, i: nat)
    requires i < |names|
    ensures WithAll(r, bs, names[..i + 1]) == WithAll(r, bs, names[..i]) * With(r, bs, names[i])
    ensures WithAll(r, bs, names[..0]) == bs
    ensures With(r, bs, names[i]) == {} <==> !Carries(r, bs, names[i])
  {
    assert names[..i + 1] == names[..i] + [names[i]];
    if Carries(r, bs, names[i]) {
      var b :| b in bs && names[i] in TagsOf(r, b);
      assert b in With(r, bs, names[i]);
    }
    forall b | b in bs
      ensures b in WithAll(r, bs, names[..i + 1]) <==> b in WithAll(r, bs, names[..i]) && b in With(r, bs, names[i])
    {
      if CarriesAll(r, b, names[..i + 1]) {
        assert names[..i + 1][i] == names[i];
        assert forall j | 0 <= j < i :: names[..i][j] == names[..i + 1][j];
      }
    }
  }

  /** More names, fewer bindings. */
  lemma WithAllShrinks(r: Registry, bs: set<Id>, names: seq<string>, i: nat, j: nat)
    requires i <= j <= |names|
    ensures WithAll(r, bs, names[..j]) <= WithAll(r, bs, names[..i])
  {
    forall b | b in WithAll(r, bs, names[..j]) ensures CarriesAll(r, b, names[..i]) {
      assert forall k | 0 <= k < i :: names[..i][k] == names[..j][k];
    }
  }

  /** What the index returns: the accepted bindings that also carry every name looked up. */
  function Found(r: Registry, p: Pattern): set<Id> {
    var accepted := Scan(r, p);
    if p.Regex? then accepted
    else if Names(p) == [] then {}
    else WithAll(r, accepted, Names(p)[..Looked(r, accepted, Names(p), 0)])
  }

  /** A name that yields nothing ends the lookup with what the names before it left. */
  lemma StopsHere(r: Registry, p: Pattern, i: nat)
    requires !p.Regex? && i < |Names(p)| && With(r, Scan(r, p), Names(p)[i]) == {}
    requires Looked(r, Scan(r, p), Names(p), i) == Looked(r, Scan(r, p), Names(p), 0)
    ensures Found(r, p) == if i == 0 then {} else WithAll(r, Scan(r, p), Names(p)[..i])
  {
    var bs, names := Scan(r, p), Names(p);
    WithAllMore(r, bs, names, i);
    if i == 0 {
      WithAllShrinks(r, bs, names, 1, Looked(r, bs, names, 0));
    }
  }

  /** Once nothing is left the remaining names change nothing. */
  lemma RunsDry(r: Registry, p: Pattern, i: nat)
    requires !p.Regex? && 0 < i <= |Names(p)| && WithAll(r, Scan(r, p), Names(p)[..i]) == {}
    requires Looked(r, Scan(r, p), Names(p), i) == Looked(r, Scan(r, p), Names(p), 0)
    ensures Found(r, p) == {}
  {
    WithAllShrinks(r, Scan(r, p), Names(p), i, Looked(r, Scan(r, p), Names(p), 0));
  }

  /** In one context, the lookup misses nothing when every accepted binding carries the names looked up. */
  lemma CoveredIsFound(r: Registry, p: Pattern)
    requires !p.Regex? && Names(p) != []
    ensures Found(r, p) == Scan(r, p) <==>
            forall b | b in Scan(r, p) :: CarriesAll(r, b, Names(p)[..Looked(r, Scan(r, p), Names(p), 0)])
  {
    if Found(r, p) == Scan(r, p) {
      forall b | b in Scan(r, p) ensures CarriesAll(r, b, Names(p)[..Looked(r, Scan(r, p), Names(p), 0)]) {
        assert b in Found(r, p);
      }
    }
  }

  // ----- what a wildcard stands for -----

  /** A pattern in two parts matches a text exactly when the text splits into two that they match. */
  lemma {:induction false} GlobSplits(p: string, q: string, text: string)
    ensures Glob(p + q, text) <==> exists i | 0 <= i <= |text| :: Glob(p, text[..i]) && Glob(q, text[i..])
    decreases |p| + |text|
  {
    if p == "" {
      assert p + q == q && text[..0] == "" && text[0..] == text;
      assert Glob("", text[..0]) && Glob(q, text[0..]) <==> Glob(q, text);
    } else {
      assert (p + q)[0] == p[0] && (p + q)[1..] == p[1..] + q;
      if p[0] == '*' { StarSplits(p, q, text); } else { CharSplits(p, q, text); }
    }
  }

  lemma {:induction false} CharSplits(p: string, q: string, text: string)
    requires p != "" && p[0] != '*'
    ensures Glob(p + q, text) <==> exists i | 0 <= i <= |text| :: Glob(p, text[..i]) && Glob(q, text[i..])
    decreases |p| + |text|, 0
  {
    assert (p + q)[0] == p[0] && (p + q)[1..] == p[1..] + q;
    if text != "" {
      var rest := text[1..];
      GlobSplits(p[1..], q, rest);
      if i :| 0 <= i <= |rest| && Glob(p[1..], rest[..i]) && Glob(q, rest[i..]) {
        assert text[..i + 1][1..] == rest[..i] && text[i + 1..] == rest[i..] && text[..i + 1][0] == text[0];
        assert Glob(p + q, text) ==> Glob(p, text[..i + 1]) && Glob(q, text[i + 1..]);
      }
      if i :| 0 <= i <= |text| && Glob(p, text[..i]) && Glob(q, text[i..]) {
        assert i > 0 && text[..i][1..] == rest[..i - 1] && text[i..] == rest[i - 1..] && text[..i][0] == text[0];
        assert Glob(p[1..], rest[..i - 1]) && Glob(q, rest[i - 1..]);
      }
    } else {
      assert forall i | 0 <= i <= |text| :: text[..i] == "";
    }
  }

  /** No character that wildcards stop at. */
  predicate Plain(c: char) {
    c != '.' && c != ':'
  }

  lemma {:induction false} StarSplits(p: string, q: string, text: string)
    requires p != "" && p[0] == '*'
    ensures Glob(p + q, text) <==> exists i | 0 <= i <= |text| :: Glob(p, text[..i]) && Glob(q, text[i..])
    decreases |p| + |text|, 0
  {
    assert (p + q)[0] == p[0] && (p + q)[1..] == p[1..] + q;
    GlobSplits(p[1..], q, text);
    if text != "" && Plain(text[0]) { GlobSplits(p, q, text[1..]); }
    if Glob(p + q, text) {
      if Glob(p[1..] + q, text) {
        var i :| 0 <= i <= |text| && Glob(p[1..], text[..i]) && Glob(q, text[i..]);
        assert Glob(p, text[..i]);
      } else {
        var rest := text[1..];
        var i :| 0 <= i <= |rest| && Glob(p, rest[..i]) && Glob(q, rest[i..]);
        assert text[..i + 1][1..] == rest[..i] && text[i + 1..] == rest[i..] && text[..i + 1][0] == text[0];
        assert Glob(p, text[..i + 1]);
      }
    }
    if i :| 0 <= i <= |text| && Glob(p, text[..i]) && Glob(q, text[i..]) {
      if Glob(p[1..], text[..i]) {
        assert Glob(p[1..] + q, text);
      } else {
        var rest := text[1..];
        assert i > 0 && text[..i][1..] == rest[..i - 1] && text[i..] == rest[i - 1..] && text[..i][0] == text[0];
        assert Glob(p, rest[..i - 1]) && Glob(q, rest[i - 1..]);
      }
    }
  }

  /** One pattern character: itself, any one plain character for `?`, any run of them for `*`. */
  lemma {:induction false} GlobOne(c: char, text: string)
    ensures Glob([c], text) <==>
            if c == '*' then forall i | 0 <= i < |text| :: text[i] != '.' && text[i] != ':'
            else if c == '?' then |text| == 1 && text[0] != '.' && text[0] != ':' else text == [c]
    decreases |text|
  {
    assert [c][1..] == "";
    if text != "" {
      assert text == [text[0]] + text[1..];
      if c == '*' { GlobOne(c, text[1..]); }
    }
  }

  // ----- which patterns the index may be asked -----

  /** Every tag map the pattern accepts has the tag. */
  ghost predicate Demands(p: Pattern, name: string) {
    forall t: TagMap | Accepts(p, t) :: name in t
  }

  /** No tag map the pattern accepts has the tag. */
  ghost predicate Forbids(p: Pattern, name: string) {
    forall t: TagMap | Accepts(p, t) :: name !in t
  }

  /**
   * From name `k` on the pattern demands its names, up to the end or to a
   * later name that it forbids, where the lookup stops.
   */
  ghost predicate Safe(p: Pattern, k: nat)
    requires !p.Regex? && k <= |Names(p)|
    decreases |Names(p)| - k
  {
    || k == |Names(p)|
    || (k > 0 && Forbids(p, Names(p)[k]))
    || (Demands(p, Names(p)[k]) && Safe(p, k + 1))
  }

  ghost predicate AlwaysAgrees(p: Pattern) {
    forall r: Registry :: Found(r, p) == Scan(r, p)
  }

  lemma {:induction false} SafeNamesAreCarried(r: Registry, p: Pattern, k: nat, i: nat, b: Id)
    requires !p.Regex? && k <= |Names(p)| && Safe(p, k)
    requires k <= i < Looked(r, Scan(r, p), Names(p), k) && b in Scan(r, p)
    ensures Names(p)[i] in TagsOf(r, b)
    decreases |Names(p)| - k
  {
    if k > 0 && Forbids(p, Names(p)[k]) {
      ForbiddenIsNotCarried(r, p, Names(p)[k]);
    } else if i > k {
      SafeNamesAreCarried(r, p, k + 1, i, b);
    }
  }

  lemma ForbiddenIsNotCarried(r: Registry, p: Pattern, name: string)
    requires Forbids(p, name)
    ensures !Carries(r, Scan(r, p), name)
  {
    forall b | b in Scan(r, p) ensures name !in TagsOf(r, b) {
      assert Accepts(p, TagsOf(r, b));
    }
  }

  /** The lookup gets past name `k` when each name up to it is carried. */
  lemma {:induction false} LookedPast(r: Registry, bs: set<Id>, names: seq<string>, j: nat, k: nat)
    requires j <= k < |names| && forall i: nat | 0 < i <= k :: Carries(r, bs, names[i])
    ensures Looked(r, bs, names, j) > k
    decreases k - j
  {
    if j < k { LookedPast(r, bs, names, j + 1, k); }
  }

  /**
   * A pattern that accepts a tag map without its name `k`, and one with it when
   * a name came before, misses the first in a context that holds both.
   */
  lemma {:induction false} UnsafeMisses(p: Pattern, k: nat) returns (r: Registry)
    requires !p.Regex? && k <= |Names(p)| && !Safe(p, k)
    requires forall j: nat | j < k :: Demands(p, Names(p)[j])
    ensures Found(r, p) != Scan(r, p)
    decreases |Names(p)| - k
  {
    var names := Names(p);
    if Demands(p, names[k]) {
      r := UnsafeMisses(p, k + 1);
    } else {
      var t: TagMap :| Accepts(p, t) && names[k] !in t;
      var u: TagMap := t;
      if k > 0 { u :| Accepts(p, u) && names[k] in u; }
      r := Registry({0, 1}, map[0 := t, 1 := u]);
      var bs := Scan(r, p);
      assert TagsOf(r, 0) == t && TagsOf(r, 1) == u && 0 in bs && 1 in bs;
      forall i: nat | 0 < i <= k ensures Carries(r, bs, names[i]) {
        if i < k { assert Demands(p, names[i]) && names[i] in TagsOf(r, 0); } else { assert names[i] in TagsOf(r, 1); }
      }
      LookedPast(r, bs, names, 0, k);
      assert names[..Looked(r, bs, names, 0)][k] == names[k];
      CoveredIsFound(r, p);
    }
  }

  /**
   * The index returns what the scan returns in every context exactly when the
   * pattern is a regular expression, or has names and is safe from the first:
   * a condition on the pattern alone.
   */
  lemma AgreesIff(p: Pattern)
    ensures AlwaysAgrees(p) <==> p.Regex? || (Names(p) != [] && Safe(p, 0))
  {
    if !p.Regex? {
      if Names(p) == [] {
        var r := Registry({0}, map[]);
        assert 0 in Scan(r, p);
        assert Found(r, p) != Scan(r, p);
      } else if Safe(p, 0) {
        forall r: Registry ensures Found(r, p) == Scan(r, p) {
          forall b | b in Scan(r, p) ensures CarriesAll(r, b, Names(p)[..Looked(r, Scan(r, p), Names(p), 0)]) {
            forall i | 0 <= i < Looked(r, Scan(r, p), Names(p), 0) ensures Names(p)[i] in TagsOf(r, b) {
              SafeNamesAreCarried(r, p, 0, i, b);
            }
          }
          CoveredIsFound(r, p);
        }
      } else {
        var r := UnsafeMisses(p, 0);
      }
    }
  }

  /** No binding without the tag satisfies the entry. */
  ghost predicate RejectsAbsent(want: Want, name: string) {
    forall tags: TagMap | name !in tags :: !MatchTagValue(want, name, tags)
  }

  lemma {:induction false} DemandedIsSafe(p: Pattern, k: nat)
    requires !p.Regex? && k <= |Names(p)| && forall i | 0 <= i < |Names(p)| :: Demands(p, Names(p)[i])
    ensures Safe(p, k)
    decreases |Names(p)| - k
  {
    if k < |Names(p)| { DemandedIsSafe(p, k + 1); }
  }

  /** Stateless regexes and non-empty tag maps that reject absent tags are found exactly, in every context. */
  lemma OrdinaryPatternsAgree(p: Pattern)
    requires p.Name? ==> !IsWildcard(p.name)
    requires p.Tags? ==> p.entries != [] && forall i | 0 <= i < |p.entries| :: RejectsAbsent(p.entries[i].1, p.entries[i].0)
    ensures AlwaysAgrees(p)
  {
    if !p.Regex? {
      forall i | 0 <= i < |Names(p)| ensures Demands(p, Names(p)[i]) {
        if p.Tags? {
          forall t: TagMap | Accepts(p, t) ensures Names(p)[i] in t {
            assert RejectsAbsent(p.entries[i].1, p.entries[i].0);
          }
        }
      }
      DemandedIsSafe(p, 0);
    }
    AgreesIff(p);
  }

  /** What a caller asks of one tag, in its own words: to be there with that value, or with the matcher's consent. */
  predicate Has(tags: TagMap, name: string, want: Want) {
    && name in tags
    && match want
       case Exactly(content) => tags[name] == content
       case Matching(test) => test(tags[name], tags)
  }

  /**
   * A non-empty tag map whose entries reject absent tags finds exactly the
   * bound bindings that hold every tag of it with the very value asked for.
   */
  lemma TagMapFindsExactly(r: Registry, entries: seq<(string, Want)>)
    requires entries != []
    requires forall i | 0 <= i < |entries| ::
               match entries[i].1
               case Exactly(content) => content.Some?
               case Matching(test) => forall tags: TagMap | entries[i].0 !in tags :: !test(None, tags)
    ensures Found(r, Tags(entries))
            == set b | b in r.bound && b in r.tags && forall i | 0 <= i < |entries| :: Has(r.tags[b], entries[i].0, entries[i].1)
  {
    var p := Tags(entries);
    OrdinaryPatternsAgree(p);
    assert Found(r, p) == Scan(r, p);
    forall b
      ensures b in r.bound && Accepts(p, TagsOf(r, b))
              <==> b in r.bound && b in r.tags && forall i | 0 <= i < |entries| :: Has(r.tags[b], entries[i].0, entries[i].1)
    {
      if b in r.bound && Accepts(p, TagsOf(r, b)) {
        assert MatchTagValue(entries[0].1, entries[0].0, TagsOf(r, b));
        forall i | 0 <= i < |entries| ensures b in r.tags && Has(r.tags[b], entries[i].0, entries[i].1) {
          assert MatchTagValue(entries[i].1, entries[i].0, TagsOf(r, b));
        }
      }
      if b in r.tags && forall i | 0 <= i < |entries| :: Has(r.tags[b], entries[i].0, entries[i].1) {
        forall i | 0 <= i < |entries| ensures MatchTagValue(entries[i].1, entries[i].0, TagsOf(r, b)) {
          assert Has(r.tags[b], entries[i].0, entries[i].1);
        }
      }
    }
  }

  /** A plain name finds exactly the bound bindings that hold the tag, a regular expression those with a tag name it accepts. */
  lemma NamesFindExactly(r: Registry, name: string, test: string -> bool)
    requires '*' !in name && '?' !in name
    ensures Found(r, Name(name)) == set b | b in r.bound && b in r.tags && name in r.tags[b]
    ensures Found(r, Regex(test)) == set b | b in r.bound && b in r.tags && exists t | t in r.tags[b] :: test(t)
  {
    OrdinaryPatternsAgree(Name(name));
    assert Found(r, Name(name)) == Scan(r, Name(name));
  }

  /** A single entry is found exactly in every context if and only if it rejects the absent tag. */
  lemma OneTagAgreesIff(want: Want, name: string)
    ensures AlwaysAgrees(Tags([(name, want)])) <==> RejectsAbsent(want, name)
  {
    var p := Tags([(name, want)]);
    assert Names(p) == [name];
    forall t: TagMap ensures Accepts(p, t) <==> MatchTagValue(want, name, t) {
      assert p.entries[0] == (name, want);
    }
    assert Demands(p, name) <==> RejectsAbsent(want, name);
    AgreesIff(p);
  }

  /** A text that a wildcard matches and that has no wildcard in it. */
  function Instance(pattern: string): string {
    if pattern == "" then ""
    else if pattern[0] == '*' then Instance(pattern[1..])
    else [if pattern[0] == '?' then 'x' else pattern[0]] + Instance(pattern[1..])
  }

  lemma {:induction false} InstanceMatches(pattern: string)
    ensures Glob(pattern, Instance(pattern)) && !IsWildcard(Instance(pattern))
  {
    if pattern != "" {
      InstanceMatches(pattern[1..]);
      if pattern[0] != '*' { assert Instance(pattern)[1..] == Instance(pattern[1..]); }
    }
  }

  /** A string is found exactly in every context if and only if it has no wildcard: those must go through `filterByTag` first. */
  lemma NameAgreesIff(name: string)
    ensures AlwaysAgrees(Name(name)) <==> !IsWildcard(name)
  {
    var p := Name(name);
    if IsWildcard(name) {
      var text := Instance(name);
      InstanceMatches(name);
      var t: TagMap := map[text := None];
      assert text in t && Accepts(p, t) && name !in t;
      assert Names(p) == [name] && !Demands(p, name);
      AgreesIff(p);
    } else {
      OrdinaryPatternsAgree(p);
    }
  }

  /** A value matches only tags that are there, unless the value asked for is `undefined`. */
  lemma ValuesRejectAbsentIff(content: Content, name: string)
    ensures RejectsAbsent(Exactly(content), name) <==> content.Some?
  {
    if content.None? {
      var none: TagMap := map[];
      assert name !in none && MatchTagValue(Exactly(content), name, none);
    }
  }

  /** An entry that accepts an absent tag, asked for alone, misses a binding the scan finds. */
  lemma AbsentIsMissed(want: Want, name: string, tags: TagMap)
    requires name !in tags && MatchTagValue(want, name, tags)
    ensures var r := Registry({0}, map[0 := tags]);
            Scan(r, Tags([(name, want)])) == {0} && Found(r, Tags([(name, want)])) == {}
  {
    var r, p := Registry({0}, map[0 := tags]), Tags([(name, want)]);
    assert Names(p) == [name];
    assert 0 in Scan(r, p);
    assert Looked(r, Scan(r, p), [name], 0) == 1;
    assert [name][..1] == [name] && [name][0] !in TagsOf(r, 0);
  }

  /** A wildcard string must go through `filterByTag` first: looked up as it stands it is an ordinary name. */
  lemma WildcardStringIsMissed(r: Registry)
    requires r == Registry({0}, map[0 := map["ab" := None]])
    ensures Scan(r, Name("a*")) == {0} && Found(r, Name("a*")) == {}
    ensures Found(r, Regex(t => Glob("a*", t))) == {0}
  {
    var p := Name("a*");
    assert "a*"[1..] == "*" && "ab"[1..] == "b" && "*"[1..] == "" && "b"[1..] == "";
    assert Glob("a*", "ab");
    assert "ab" in TagsOf(r, 0);
    assert Names(p) == ["a*"];
    assert Looked(r, Scan(r, p), ["a*"], 0) == 1;
    assert ["a*"][..1] == ["a*"] && ["a*"][0] !in TagsOf(r, 0);
    assert IsWildcard("a*") by { assert "a*"[1] == '*'; }
  }

  // ----- the index -----

  /** An argument of `Binding.tag`; an array is refused. */
  datatype TagArgument = One(name: string) | Many(tags: TagMap) | Array

  /** The tag map after the arguments before the first array, as each is applied in turn. */
  function Tagged(tags: TagMap, arguments: seq<TagArgument>): TagMap
    decreases |arguments|
  {
    if arguments == [] || arguments[0].Array? then tags
    else Tagged(if arguments[0].One? then tags[arguments[0].name := Some(arguments[0].name)] else tags + arguments[0].tags, arguments[1..])
  }

  /** The last argument that names a tag decides its value, a name standing for itself; from the first array on nothing is applied. */
  lemma {:induction false} LastArgumentDecides(tags: TagMap, arguments: seq<TagArgument>, last: TagArgument, name: string)
    requires Array !in arguments
    ensures var before, after := Tagged(tags, arguments), Tagged(tags, arguments + [last]);
            && (last.Array? ==> after == before)
            && (last == One(name) ==> name in after && after[name] == Some(name))
            && (last.Many? && name in last.tags ==> name in after && after[name] == last.tags[name])
            && (last != One(name) && !(last.Many? && name in last.tags) ==>
                  (name in after <==> name in before) && (name in before ==> after[name] == before[name]))
    ensures Tagged(tags, []) == tags
    decreases |arguments|
  {
    if arguments == [] {
      assert arguments + [last] == [last] && [last][1..] == [];
    } else {
      var first := arguments[0];
      assert first in arguments;
      assert (arguments + [last])[0] == first && (arguments + [last])[1..] == arguments[1..] + [last];
      LastArgumentDecides(if first.One? then tags[first.name := Some(first.name)] else tags + first.tags, arguments[1..], last, name);
    }
  }

  lemma {:induction false} ArraysStop(tags: TagMap, before: seq<TagArgument>, rest: seq<TagArgument>)
    ensures Tagged(tags, before + [Array] + rest) == Tagged(tags, before)
    decreases |before|
  {
    if before == [] {
      assert (before + [Array] + rest)[0] == Array;
    } else {
      var first := before[0];
      assert (before + [Array] + rest)[0] == first && (before + [Array] + rest)[1..] == before[1..] + [Array] + rest;
      if !first.Array? {
        ArraysStop(if first.One? then tags[first.name := Some(first.name)] else tags + first.tags, before[1..], rest);
      }
    }
  }

  function Under(index: map<string, set<Id>>, name: string): set<Id> {
    if name in index then index[name] else {}
  }

  /** `now` is `before` with `b` listed under `names` besides. */
  ghost predicate Added(before: map<string, set<Id>>, now: map<string, set<Id>>, b: Id, names: set<string>) {
    forall n, c :: c in Under(now, n) <==> c in Under(before, n) || (c == b && n in names)
  }

  lemma AddedMore(before: map<string, set<Id>>, now: map<string, set<Id>>, b: Id, names: set<string>, name: string)
    requires Added(before, now, b, names)
    ensures Added(before, now[name := Under(now, name) + {b}], b, names + {name})
  {
    var next := now[name := Under(now, name) + {b}];
    forall n, c ensures c in Under(next, n) <==> c in Under(before, n) || (c == b && n in names + {name}) {
      assert c in Under(now, n) <==> c in Under(before, n) || (c == b && n in names);
    }
  }

  class ContextTagIndexer {
    /** What the context and its bindings hold. */
    var registry: Registry
    var bindingsIndexedByTag: map<string, set<Id>>

    /** Binding `b` is listed under exactly its tag names while bound, and nowhere otherwise. */
    ghost predicate Synced(b: Id)
      reads this
    {
      forall name :: b in Under(bindingsIndexedByTag, name) <==> b in registry.bound && name in TagsOf(registry, b)
    }

    ghost predicate Valid()
      reads this
    {
      forall b :: Synced(b)
    }

    constructor (tags: map<Id, TagMap>)
      ensures Valid() && registry == Registry({}, tags)
    {
      registry, bindingsIndexedByTag := Registry({}, tags), map[];
    }

    method RemoveTagIndexForBinding(b: Id)
      modifies this`bindingsIndexedByTag
      ensures forall name, c ::
                c in Under(bindingsIndexedByTag, name) <==> c in Under(old(bindingsIndexedByTag), name) && c != b
    {
      var before := bindingsIndexedByTag;
      var names := before.Keys;
      while names != {}
        invariant names <= before.Keys == bindingsIndexedByTag.Keys
        invariant forall name | name in before ::
                    bindingsIndexedByTag[name] == if name in names then before[name] else before[name] - {b}
        decreases |names|
      {
        var name :| name in names;
        bindingsIndexedByTag := bindingsIndexedByTag[name := bindingsIndexedByTag[name] - {b}];
        names := names - {name};
      }
    }

    method UpdateTagIndexForBinding(b: Id)
      modifies this`bindingsIndexedByTag
      ensures forall name, c ::
                c in Under(bindingsIndexedByTag, name)
                <==> if c == b then name in TagsOf(registry, b) else c in Under(old(bindingsIndexedByTag), name)
    {
      RemoveTagIndexForBinding(b);
      ghost var removed := bindingsIndexedByTag;
      var tagNames := TagsOf(registry, b).Keys;
      var todo := tagNames;
      while todo != {}
        invariant todo <= tagNames
        invariant Added(removed, bindingsIndexedByTag, b, tagNames - todo)
        decreases |todo|
      {
        var name :| name in todo;
        AddedMore(removed, bindingsIndexedByTag, b, tagNames - todo, name);
        bindingsIndexedByTag := bindingsIndexedByTag[name := Under(bindingsIndexedByTag, name) + {b}];
        todo := todo - {name};
        assert tagNames - todo == tagNames - (todo + {name}) + {name};
      }
      assert tagNames - todo == tagNames;
    }

    method Bind(b: Id)
      requires Valid()
      modifies this
      ensures Valid() && registry == old(registry).(bound := old(registry).bound + {b})
    {
      registry := registry.(bound := registry.bound + {b});
      UpdateTagIndexForBinding(b);
      assert Synced(b);
      forall c | c != b ensures Synced(c) { assert old(Synced(c)); }
    }

    method Unbind(b: Id)
      requires Valid()
      modifies this
      ensures Valid() && registry == old(registry).(bound := old(registry).bound - {b})
    {
      registry := registry.(bound := registry.bound - {b});
      RemoveTagIndexForBinding(b);
      assert Synced(b);
      forall c | c != b ensures Synced(c) { assert old(Synced(c)); }
    }

    /**
     * Tag a binding. An array among the arguments throws after the ones before
     * it took effect and before the index is told, so the index is then right
     * if and only if those added no new name to a bound binding.
     */
    method Tag(b: Id, arguments: seq<TagArgument>) returns (threw: bool)
      requires Valid()
      modifies this
      ensures registry.bound == old(registry).bound
      ensures registry.tags == old(registry).tags[b := Tagged(old(TagsOf(registry, b)), arguments)]
      ensures threw <==> Array in arguments
      ensures forall c | c != b :: Synced(c)
      ensures Synced(b) <==> !threw || b !in registry.bound || TagsOf(registry, b).Keys <= old(TagsOf(registry, b)).Keys
    {
      var tags := TagsOf(registry, b);
      var i := 0;
      threw := false;
      while i < |arguments| && !threw
        invariant 0 <= i <= |arguments|
        invariant Array !in arguments[..i]
        invariant threw ==> i < |arguments| && arguments[i].Array?
        invariant Tagged(tags, arguments[i..]) == Tagged(old(TagsOf(registry, b)), arguments)
        invariant old(TagsOf(registry, b)).Keys <= tags.Keys
        decreases |arguments| - i, !threw
      {
        assert arguments[i..][1..] == arguments[i + 1..];
        match arguments[i] {
          case One(name) => tags := tags[name := Some(name)]; i := i + 1;
          case Many(more) => tags := tags + more; i := i + 1;
          case Array => threw := true;
        }
      }
      assert !threw ==> arguments[..i] == arguments;
      registry := registry.(tags := registry.tags[b := tags]);
      if !threw && b in registry.bound {
        UpdateTagIndexForBinding(b);
      }
      assert old(Synced(b));
      forall c | c != b ensures Synced(c) { assert old(Synced(c)); }
    }

    method FindByTagIndex(p: Pattern) returns (bindings: set<Id>)
      requires Valid()
      ensures bindings == Found(registry, p)
    {
      if p.Regex? {
        bindings := FindUnion(p);
      } else {
        bindings := FindIntersection(p);
      }
    }

    /** What one name's set yields is the accepted bindings that carry it. */
    lemma MatchedIsWith(p: Pattern, name: string)
      requires Valid()
      ensures (set b | b in Under(bindingsIndexedByTag, name) && Accepts(p, TagsOf(registry, b)))
              == With(registry, Scan(registry, p), name)
    {
      forall b | b in registry.bound || b in Under(bindingsIndexedByTag, name)
        ensures b in Under(bindingsIndexedByTag, name) <==> b in registry.bound && name in TagsOf(registry, b)
      {
        assert Synced(b);
      }
    }

    /** The loop of `findByTagIndex` for a regular expression: the union over the matching names. */
    method FindUnion(p: Pattern) returns (bindings: set<Id>)
      requires Valid() && p.Regex?
      ensures bindings == Scan(registry, p)
    {
      var names := set t | t in bindingsIndexedByTag.Keys && p.test(t);
      forall b, t | b in registry.bound && t in TagsOf(registry, b) && p.test(t) ensures t in names {
        assert Synced(b) && b in Under(bindingsIndexedByTag, t);
      }
      bindings := {};
      while names != {}
        invariant forall t | t in names :: t in bindingsIndexedByTag
        invariant bindings <= Scan(registry, p)
        invariant forall b, t | b in registry.bound && t in TagsOf(registry, b) && p.test(t) :: b in bindings || t in names
        decreases |names|
      {
        var t :| t in names;
        MatchedIsWith(p, t);
        bindings := bindings + set b | b in bindingsIndexedByTag[t] && Accepts(p, TagsOf(registry, b));
        names := names - {t};
      }
    }

    /** The same loop for a name or a tag map: intersect, and stop at the first name that yields nothing. */
    method FindIntersection(p: Pattern) returns (bindings: set<Id>)
      requires Valid() && !p.Regex?
      ensures bindings == Found(registry, p)
    {
      var names := Names(p);
      ghost var accepted := Scan(registry, p);
      bindings := {};
      var i := 0;
      while i < |names|
        invariant 0 <= i <= |names|
        invariant bindings == if i == 0 then {} else WithAll(registry, accepted, names[..i])
        invariant Looked(registry, accepted, names, i) == Looked(registry, accepted, names, 0)
      {
        MatchedIsWith(p, names[i]);
        WithAllMore(registry, accepted, names, i);
        if With(registry, accepted, names[i]) == {} { StopsHere(registry, p, i); }
        if names[i] !in bindingsIndexedByTag { break; }
        var matched := set b | b in bindingsIndexedByTag[names[i]] && Accepts(p, TagsOf(registry, b));
        if matched == {} { break; }
        bindings := if i == 0 then matched else bindings * matched;
        i := i + 1;
        if bindings == {} { RunsDry(registry, p, i); }
        if i > 1 && bindings == {} { break; }
      }
    }
  }
}
