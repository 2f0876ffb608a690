/**
 * JSON values and the text `JSON.stringify` prints for them (sections 4 to 7
 * of RFC 8259), and why no two values print alike.
 *
 * Strings are sequences of Unicode scalar values, so unpaired surrogates do
 * not occur; a number is the text `Number::toString` gives it.
 */
module JsonText {
  datatype Json =
    | Null
    | Bool(b: bool)
    | Num(text: string)
    | Str(s: string)
    | Arr(items: seq<Json>)
    | Obj(entries: seq<Entry>)

  /** An own property; an object's entries are in the order they are enumerated. */
  datatype Entry = Entry(key: string, child: Json)

  predicate NumberChar(c: char) {
    '0' <= c <= '9' || c == '-' || c == '+' || c == '.' || c == 'e'
  }

  predicate NumberText(text: string) {
    && text != "" && (text[0] == '-' || '0' <= text[0] <= '9')
    && forall i | 0 <= i < |text| :: NumberChar(text[i])
  }

  /** Every number in the value is spelled like a number. */
  predicate WellFormed(v: Json) {
    match v
    case Num(text) => NumberText(text)
    case Arr(items) => forall i | 0 <= i < |items| :: WellFormed(items[i])
    case Obj(entries) => forall i | 0 <= i < |entries| :: WellFormed(entries[i].child)
    case _ => true
  }

  // ----- printing: each function gives a text followed by `rest` -----

  function Hex(d: nat): char
    requires d < 16
  {
    "0123456789abcdef"[d]
  }

  function EmitChar(c: char, rest: string): string {
    if c == '"' then ['\\', '"'] + rest
    else if c == '\\' then ['\\', '\\'] + rest
    else if c == '\n' then ['\\', 'n'] + rest
    else if c == '\r' then ['\\', 'r'] + rest
    else if c == '\t' then ['\\', 't'] + rest
    else if c as int == 8 then ['\\', 'b'] + rest
    else if c as int == 12 then ['\\', 'f'] + rest
    else if c as int < 32 then ['\\', 'u', '0', '0', Hex(c as int / 16), Hex(c as int % 16)] + rest
    else [c] + rest
  }

  function EmitChars(s: string, rest: string): string {
    if s == "" then ['"'] + rest else EmitChar(s[0], EmitChars(s[1..], rest))
  }

  function Emit(v: Json, rest: string): string
    decreases v, 1
  {
    match v
    case Null => ['n', 'u', 'l', 'l'] + rest
    case Bool(true) => ['t', 'r', 'u', 'e'] + rest
    case Bool(false) => ['f', 'a', 'l', 's', 'e'] + rest
    case Num(text) => text + rest
    case Str(s) => ['"'] + EmitChars(s, rest)
    case Arr(items) => ['['] + if items == [] then [']'] + rest else Emit(items[0], EmitItems(items[1..], rest))
    case Obj(entries) => ['{'] + if entries == [] then ['}'] + rest else EmitEntry(entries[0], EmitEntries(entries[1..], rest))
  }

  function EmitItems(items: seq<Json>, rest: string): string {
    if items == [] then [']'] + rest else [','] + Emit(items[0], EmitItems(items[1..], rest))
  }

  function EmitEntry(e: Entry, rest: string): string
    decreases e, 2
  {
    ['"'] + EmitChars(e.key, [':'] + Emit(e.child, rest))
  }

  function EmitEntries(entries: seq<Entry>, rest: string): string {
    if entries == [] then ['}'] + rest else [','] + EmitEntry(entries[0], EmitEntries(entries[1..], rest))
  }

  /** `JSON.stringify`. */
  function Print(v: Json): string {
    Emit(v, "")
  }

  // ----- no two values print alike -----

  lemma Cancel(c: char, d: char, a: string, b: string)
    requires [c] + a == [d] + b
    ensures c == d && a == b
  {
    assert c == ([c] + a)[0] && d == ([d] + b)[0];
    assert a == ([c] + a)[1..] && b == ([d] + b)[1..];
  }

  lemma CancelFront(front: string, a: string, b: string)
    requires front + a == front + b
    ensures a == b
  {
    assert a == (front + a)[|front|..] && b == (front + b)[|front|..];
  }

  function HexValue(h: char): int {
    if '0' <= h <= '9' then h as int - '0' as int else h as int - 'a' as int + 10
  }

  /** Reading back one printed character. */
  function ReadChar(text: string): (char, string)
    requires |text| >= 1
  {
    if text[0] != '\\' || |text| == 1 then (text[0], text[1..])
    else
      var rest := text[2..];
      match text[1]
      case 'n' => ('\n', rest)
      case 'r' => ('\r', rest)
      case 't' => ('\t', rest)
      case 'b' => (8 as char, rest)
      case 'f' => (12 as char, rest)
      case 'u' =>
        if |text| >= 6 && 0 <= 16 * HexValue(text[4]) + HexValue(text[5]) < 32 then
          ((16 * HexValue(text[4]) + HexValue(text[5])) as char, text[6..])
        else (text[1], rest)
      case c => (c, rest)
  }

  lemma HexIsRead(d: nat)
    requires d < 16
    ensures HexValue(Hex(d)) == d
  {
  }

  lemma CharIsRead(c: char, rest: string)
    ensures EmitChar(c, rest) != "" && ReadChar(EmitChar(c, rest)) == (c, rest)
  {
    var text := EmitChar(c, rest);
    if c as int < 32 {
      HexIsRead(c as int / 16);
      HexIsRead(c as int % 16);
      assert |text| >= 6 && text[1] == 'u' ==> text[6..] == rest;
    }
    if text[0] == '\\' {
      assert text[1] != 'u' ==> text[2..] == rest;
    } else {
      assert text[1..] == rest;
    }
  }

  lemma CharsUnique(c: char, d: char, a: string, b: string)
    requires EmitChar(c, a) == EmitChar(d, b)
    ensures c == d && a == b
  {
    CharIsRead(c, a);
    CharIsRead(d, b);
  }

  lemma {:induction false} StringsUnique(s: string, t: string, a: string, b: string)
    requires EmitChars(s, a) == EmitChars(t, b)
    ensures s == t && a == b
  {
    if s == "" || t == "" {
      assert EmitChars(s, a)[0] == EmitChars(t, b)[0];
      CharStarts(s, a);
      CharStarts(t, b);
      Cancel('"', '"', a, b);
    } else {
      CharsUnique(s[0], t[0], EmitChars(s[1..], a), EmitChars(t[1..], b));
      StringsUnique(s[1..], t[1..], a, b);
      assert s == [s[0]] + s[1..] && t == [t[0]] + t[1..];
    }
  }

  lemma CharStarts(s: string, rest: string)
    ensures EmitChars(s, rest) != "" && (EmitChars(s, rest)[0] == '"' <==> s == "")
  {
  }

  /** What may follow a value inside a text. */
  predicate Ends(rest: string) {
    rest == "" || rest[0] in [',', ']', '}']
  }

  lemma LongerNumber(m: string, n: string, a: string, b: string)
    requires |m| < |n| && NumberText(n) && m + a == n + b
    ensures a != "" && NumberChar(a[0])
  {
    assert |m + a| == |n + b|;
    assert (n + b)[|m|] == n[|m|] && (m + a)[|m|] == a[0];
  }

  lemma NumbersUnique(m: string, n: string, a: string, b: string)
    requires NumberText(m) && NumberText(n) && Ends(a) && Ends(b) && m + a == n + b
    ensures m == n && a == b
  {
    if |m| < |n| {
      LongerNumber(m, n, a, b);
    } else if |n| < |m| {
      LongerNumber(n, m, b, a);
    } else {
      assert m == (m + a)[..|m|] && n == (n + b)[..|n|];
      CancelFront(m, a, b);
    }
  }

  /** The first character tells what kind of value a text starts with. */
  function Kind(v: Json): char
    requires WellFormed(v)
  {
    match v
    case Null => 'n'
    case Bool(b) => if b then 't' else 'f'
    case Num(_) => '0'
    case Str(_) => '"'
    case Arr(_) => '['
    case Obj(_) => '{'
  }

  lemma StartsWithKind(v: Json, rest: string)
    requires WellFormed(v)
    ensures var text := Emit(v, rest);
            text != "" && (if v.Num? then text[0] == '-' || '0' <= text[0] <= '9' else text[0] == Kind(v))
  {
  }

  lemma ItemsStart(items: seq<Json>, rest: string)
    ensures EmitItems(items, rest) != "" && EmitItems(items, rest)[0] == if items == [] then ']' else ','
  {
  }

  lemma EntriesStart(entries: seq<Entry>, rest: string)
    ensures EmitEntries(entries, rest) != "" && EmitEntries(entries, rest)[0] == if entries == [] then '}' else ','
  {
  }

  /** Two values that print to the start of the same text are the same value. */
  lemma {:induction false} Unique(v: Json, w: Json, a: string, b: string)
    requires WellFormed(v) && WellFormed(w) && Ends(a) && Ends(b) && Emit(v, a) == Emit(w, b)
    ensures v == w && a == b
    decreases v, 1
  {
    StartsWithKind(v, a);
    StartsWithKind(w, b);
    match v
    case Null => CancelFront(['n', 'u', 'l', 'l'], a, b);
    case Bool(t) => CancelFront(if t then ['t', 'r', 'u', 'e'] else ['f', 'a', 'l', 's', 'e'], a, b);
    case Num(m) => NumbersUnique(m, w.text, a, b);
    case Str(s) =>
      CancelFront(['"'], EmitChars(s, a), EmitChars(w.s, b));
      StringsUnique(s, w.s, a, b);
    case Arr(items) => ArraysUnique(items, w.items, a, b);
    case Obj(entries) => ObjectsUnique(entries, w.entries, a, b);
  }

  lemma {:induction false} ArraysUnique(items: seq<Json>, others: seq<Json>, a: string, b: string)
    requires WellFormed(Arr(items)) && WellFormed(Arr(others)) && Ends(a) && Ends(b)
    requires Emit(Arr(items), a) == Emit(Arr(others), b)
    ensures items == others && a == b
    decreases items, 1
  {
    var t := if items == [] then [']'] + a else Emit(items[0], EmitItems(items[1..], a));
    var u := if others == [] then [']'] + b else Emit(others[0], EmitItems(others[1..], b));
    Cancel('[', '[', t, u);
    if items == [] || others == [] {
      if items != [] { StartsWithKind(items[0], EmitItems(items[1..], a)); }
      if others != [] { StartsWithKind(others[0], EmitItems(others[1..], b)); }
      Cancel(']', ']', a, b);
    } else {
      ItemsStart(items[1..], a);
      ItemsStart(others[1..], b);
      Unique(items[0], others[0], EmitItems(items[1..], a), EmitItems(others[1..], b));
      ItemsUnique(items[1..], others[1..], a, b);
    }
  }

  lemma {:induction false} ItemsUnique(items: seq<Json>, others: seq<Json>, a: string, b: string)
    requires WellFormed(Arr(items)) && WellFormed(Arr(others)) && Ends(a) && Ends(b)
    requires EmitItems(items, a) == EmitItems(others, b)
    ensures items == others && a == b
    decreases items
  {
    ItemsStart(items, a);
    ItemsStart(others, b);
    if items == [] {
      Cancel(']', ']', a, b);
    } else {
      ItemsStart(items[1..], a);
      ItemsStart(others[1..], b);
      Cancel(',', ',', Emit(items[0], EmitItems(items[1..], a)), Emit(others[0], EmitItems(others[1..], b)));
      Unique(items[0], others[0], EmitItems(items[1..], a), EmitItems(others[1..], b));
      ItemsUnique(items[1..], others[1..], a, b);
    }
  }

  lemma {:induction false} EntryUnique(e: Entry, f: Entry, a: string, b: string)
    requires WellFormed(e.child) && WellFormed(f.child) && Ends(a) && Ends(b) && EmitEntry(e, a) == EmitEntry(f, b)
    ensures e == f && a == b
    decreases e, 2
  {
    Cancel('"', '"', EmitChars(e.key, [':'] + Emit(e.child, a)), EmitChars(f.key, [':'] + Emit(f.child, b)));
    StringsUnique(e.key, f.key, [':'] + Emit(e.child, a), [':'] + Emit(f.child, b));
    Cancel(':', ':', Emit(e.child, a), Emit(f.child, b));
    Unique(e.child, f.child, a, b);
  }

  lemma {:induction false} ObjectsUnique(entries: seq<Entry>, others: seq<Entry>, a: string, b: string)
    requires WellFormed(Obj(entries)) && WellFormed(Obj(others)) && Ends(a) && Ends(b)
    requires Emit(Obj(entries), a) == Emit(Obj(others), b)
    ensures entries == others && a == b
    decreases entries, 1
  {
    var t := if entries == [] then ['}'] + a else EmitEntry(entries[0], EmitEntries(entries[1..], a));
    var u := if others == [] then ['}'] + b else EmitEntry(others[0], EmitEntries(others[1..], b));
    Cancel('{', '{', t, u);
    if entries == [] || others == [] {
      assert t[0] == u[0];
      Cancel('}', '}', a, b);
    } else {
      EntriesStart(entries[1..], a);
      EntriesStart(others[1..], b);
      EntryUnique(entries[0], others[0], EmitEntries(entries[1..], a), EmitEntries(others[1..], b));
      EntriesUnique(entries[1..], others[1..], a, b);
    }
  }

  lemma {:induction false} EntriesUnique(entries: seq<Entry>, others: seq<Entry>, a: string, b: string)
    requires WellFormed(Obj(entries)) && WellFormed(Obj(others)) && Ends(a) && Ends(b)
    requires EmitEntries(entries, a) == EmitEntries(others, b)
    ensures entries == others && a == b
    decreases entries
  {
    EntriesStart(entries, a);
    EntriesStart(others, b);
    if entries == [] {
      Cancel('}', '}', a, b);
    } else {
      EntriesStart(entries[1..], a);
      EntriesStart(others[1..], b);
      Cancel(',', ',', EmitEntry(entries[0], EmitEntries(entries[1..], a)), EmitEntry(others[0], EmitEntries(others[1..], b)));
      EntryUnique(entries[0], others[0], EmitEntries(entries[1..], a), EmitEntries(others[1..], b));
      EntriesUnique(entries[1..], others[1..], a, b);
    }
  }

  /** Different values print differently. */
  lemma PrintIsInjective(v: Json, w: Json)
    requires WellFormed(v) && WellFormed(w)
    ensures Print(v) == Print(w) <==> v == w
  {
    if Print(v) == Print(w) {
      Unique(v, w, "", "");
    }
  }

  // ----- printed text is one line -----

  predicate Printable(text: string) {
    forall i | 0 <= i < |text| :: text[i] as int >= 32
  }

  lemma CharsArePrintable(c: char, rest: string)
    requires Printable(rest)
    ensures Printable(EmitChar(c, rest))
  {
  }

  lemma {:induction false} StringsArePrintable(s: string, rest: string)
    requires Printable(rest)
    ensures Printable(EmitChars(s, rest))
  {
    if s != "" {
      StringsArePrintable(s[1..], rest);
      CharsArePrintable(s[0], EmitChars(s[1..], rest));
    }
  }

  /** Printed JSON has no control character in it, so no line end. */
  lemma {:induction false} IsPrintable(v: Json, rest: string)
    requires WellFormed(v) && Printable(rest)
    ensures Printable(Emit(v, rest))
    decreases v, 1
  {
    match v
    case Str(s) => StringsArePrintable(s, rest);
    case Arr(items) =>
      if items != [] {
        ItemsArePrintable(items[1..], rest);
        IsPrintable(items[0], EmitItems(items[1..], rest));
      }
    case Obj(entries) =>
      if entries != [] {
        EntriesArePrintable(entries[1..], rest);
        EntryIsPrintable(entries[0], EmitEntries(entries[1..], rest));
      }
    case _ =>
  }

  lemma {:induction false} ItemsArePrintable(items: seq<Json>, rest: string)
    requires WellFormed(Arr(items)) && Printable(rest)
    ensures Printable(EmitItems(items, rest))
    decreases items
  {
    if items != [] {
      ItemsArePrintable(items[1..], rest);
      IsPrintable(items[0], EmitItems(items[1..], rest));
    }
  }

  lemma {:induction false} EntryIsPrintable(e: Entry, rest: string)
    requires WellFormed(e.child) && Printable(rest)
    ensures Printable(EmitEntry(e, rest))
    decreases e, 2
  {
    IsPrintable(e.child, rest);
    StringsArePrintable(e.key, [':'] + Emit(e.child, rest));
  }

  lemma {:induction false} EntriesArePrintable(entries: seq<Entry>, rest: string)
    requires WellFormed(Obj(entries)) && Printable(rest)
    ensures Printable(EmitEntries(entries, rest))
    decreases entries
  {
    if entries != [] {
      EntriesArePrintable(entries[1..], rest);
      EntryIsPrintable(entries[0], EmitEntries(entries[1..], rest));
    }
  }
}
