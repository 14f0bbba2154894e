/** The canonical JSON printer whose texts decide what counts as a replay (control-runtime/control-client.ts:48-65).
    Strings are sequences of UTF-16 code units. A number is the token it prints as: printing numbers is taken to be
    injective. */
module CanonicalJson {
  import opened Lexicographic

  type Unit = u: int | 0 <= u < 0x1_0000

  type Text = seq<Unit>

  const QUOTE: Unit := 34
  const COMMA: Unit := 44
  const COLON: Unit := 58
  const OPEN_ARRAY: Unit := 91
  const BACKSLASH: Unit := 92
  const CLOSE_ARRAY: Unit := 93
  const OPEN_OBJECT: Unit := 123
  const CLOSE_OBJECT: Unit := 125

  datatype Json =
    | Undefined
    | Null
    | Bool(b: bool)
    | Num(token: Text)
    | Str(text: Text)
    | Arr(items: seq<Json>)
    | Obj(entries: seq<Entry>)

  /** Entries are listed in the order in which they were added. */
  datatype Entry = Entry(key: Text, value: Json)

  // ----- string escaping

  predicate High(u: Unit) { 0xD800 <= u <= 0xDBFF }

  predicate Low(u: Unit) { 0xDC00 <= u <= 0xDFFF }

  function Hex(d: int): Unit
    requires 0 <= d < 16
  {
    if d < 10 then 48 + d else 87 + d
  }

  function Hex4(u: Unit): Text {
    [Hex(u / 4096), Hex(u / 256 % 16), Hex(u / 16 % 16), Hex(u % 16)]
  }

  /** One code unit that is not half of a surrogate pair. */
  function Escaped(u: Unit): Text {
    if u == QUOTE then [BACKSLASH, QUOTE]
    else if u == BACKSLASH then [BACKSLASH, BACKSLASH]
    else if u == 8 then [BACKSLASH, 98]
    else if u == 12 then [BACKSLASH, 102]
    else if u == 10 then [BACKSLASH, 110]
    else if u == 13 then [BACKSLASH, 114]
    else if u == 9 then [BACKSLASH, 116]
    else if u < 32 || High(u) || Low(u) then [BACKSLASH, 117] + Hex4(u)
    else [u]
  }

  predicate Paired(s: Text) {
    |s| >= 2 && High(s[0]) && Low(s[1])
  }

  function Body(s: Text): Text {
    if s == [] then []
    else if Paired(s) then [s[0], s[1]] + Body(s[2..])
    else Escaped(s[0]) + Body(s[1..])
  }

  function Quoted(s: Text): Text {
    [QUOTE] + Body(s) + [QUOTE]
  }

  lemma HexDigits(u: Unit)
    ensures u / 4096 * 4096 + u / 256 % 16 * 256 + u / 16 % 16 * 16 + u % 16 == u
  {
    var a := u / 16;
    var b := a / 16;
    assert u == 16 * a + u % 16;
    assert a == 16 * b + a % 16;
    assert b == u / 256;
    assert b == 16 * (b / 16) + b % 16;
    assert b / 16 == u / 4096;
  }

  lemma HexInjective(u: Unit, w: Unit)
    requires Hex4(u) == Hex4(w)
    ensures u == w
  {
    var a, b := Hex4(u), Hex4(w);
    assert a[0] == b[0] && a[1] == b[1] && a[2] == b[2] && a[3] == b[3];
    HexDigits(u); HexDigits(w);
    SameDigit(u / 4096, w / 4096);
    SameDigit(u / 256 % 16, w / 256 % 16);
    SameDigit(u / 16 % 16, w / 16 % 16);
    SameDigit(u % 16, w % 16);
  }

  lemma SameDigit(d: int, e: int)
    requires 0 <= d < 16 && 0 <= e < 16 && Hex(d) == Hex(e)
    ensures d == e
  {}

  lemma EscapedStarts(u: Unit)
    ensures |Escaped(u)| >= 1 && Escaped(u)[0] != QUOTE && !High(Escaped(u)[0]) && !Low(Escaped(u)[0])
    ensures |Escaped(u)| == 1 <==> Escaped(u)[0] != BACKSLASH
    ensures |Escaped(u)| > 1 ==> |Escaped(u)| == (if Escaped(u)[1] == 117 then 6 else 2)
  {}

  /** No escape of a code unit is a proper prefix of another, and equal escapes come from equal units. */
  lemma EscapedPrefixFree(u: Unit, w: Unit, r: Text, t: Text)
    requires Escaped(u) + r == Escaped(w) + t
    ensures u == w && r == t
  {
    EscapedStarts(u); EscapedStarts(w);
    var a, b := Escaped(u) + r, Escaped(w) + t;
    assert a[0] == Escaped(u)[0] && b[0] == Escaped(w)[0];
    assert |Escaped(u)| > 1 ==> a[1] == Escaped(u)[1];
    assert |Escaped(w)| > 1 ==> b[1] == Escaped(w)[1];
    assert |Escaped(u)| == |Escaped(w)|;
    assert Escaped(u) == a[..|Escaped(u)|] == Escaped(w);
    assert r == a[|Escaped(u)|..] == t;
    if |Escaped(u)| == 6 {
      assert Escaped(u)[2..] == Hex4(u) && Escaped(w)[2..] == Hex4(w);
      HexInjective(u, w);
    }
  }

  lemma BodyStarts(s: Text)
    requires s != []
    ensures Body(s) != [] && Body(s)[0] != QUOTE
    ensures Paired(s) <==> High(Body(s)[0])
  {
    EscapedStarts(s[0]);
  }

  /** The rest of a printed string, from somewhere inside it. */
  function Closing(s: Text, r: Text): Text {
    Body(s) + [QUOTE] + r
  }

  lemma ClosingPair(s: Text, r: Text)
    requires Paired(s)
    ensures Closing(s, r) == [s[0], s[1]] + Closing(s[2..], r)
  {}

  lemma ClosingUnit(s: Text, r: Text)
    requires s != [] && !Paired(s)
    ensures Closing(s, r) == Escaped(s[0]) + Closing(s[1..], r)
  {
    hide Escaped;
  }

  lemma ClosingStarts(s: Text, r: Text)
    ensures |Closing(s, r)| >= 1
    ensures s == [] <==> Closing(s, r)[0] == QUOTE
    ensures Paired(s) <==> High(Closing(s, r)[0])
  {
    if s != [] { BodyStarts(s); }
  }

  lemma SamePair(a: Unit, b: Unit, c: Unit, d: Unit, x: Text, y: Text)
    requires [a, b] + x == [c, d] + y
    ensures a == c && b == d && x == y
  {
    var t, u := [a, b] + x, [c, d] + y;
    assert t[0] == u[0] && t[1] == u[1] && t[2..] == u[2..];
  }

  /** The closing quote of a printed string can be found, and the string read back. */
  lemma {:induction false} BodyReadable(s: Text, t: Text, r1: Text, r2: Text)
    requires Closing(s, r1) == Closing(t, r2)
    ensures s == t && r1 == r2
  {
    hide Closing, Body, Escaped;
    ClosingStarts(s, r1); ClosingStarts(t, r2);
    if s == [] {
      EmptyClosing(r1); EmptyClosing(r2);
    } else if Paired(s) {
      ClosingPair(s, r1); ClosingPair(t, r2);
      SamePair(s[0], s[1], t[0], t[1], Closing(s[2..], r1), Closing(t[2..], r2));
      BodyReadable(s[2..], t[2..], r1, r2);
      assert s == [s[0], s[1]] + s[2..] && t == [t[0], t[1]] + t[2..];
    } else {
      ClosingUnit(s, r1); ClosingUnit(t, r2);
      EscapedPrefixFree(s[0], t[0], Closing(s[1..], r1), Closing(t[1..], r2));
      BodyReadable(s[1..], t[1..], r1, r2);
      assert s == [s[0]] + s[1..] && t == [t[0]] + t[1..];
    }
  }

  lemma EmptyClosing(r: Text)
    ensures Closing([], r)[1..] == r
  {}

  lemma QuotedReadable(s: Text, t: Text, r1: Text, r2: Text)
    requires Quoted(s) + r1 == Quoted(t) + r2
    ensures s == t && r1 == r2
  {
    assert Quoted(s) + r1 == [QUOTE] + Closing(s, r1) && Quoted(t) + r2 == [QUOTE] + Closing(t, r2);
    assert Closing(s, r1) == (Quoted(s) + r1)[1..] == Closing(t, r2);
    BodyReadable(s, t, r1, r2);
  }

  // ----- key order: that of the code units

  function Defined(entries: seq<Entry>): (r: seq<Entry>)
    ensures forall e :: e in r <==> e in entries && e.value != Undefined
  {
    if entries == [] then [] else (if entries[0].value == Undefined then [] else [entries[0]]) + Defined(entries[1..])
  }

  function Insert(e: Entry, sorted: seq<Entry>): (r: seq<Entry>)
    ensures forall x :: x in r <==> x == e || x in sorted
  {
    if sorted == [] || Less(e.key, sorted[0].key) then [e] + sorted else [sorted[0]] + Insert(e, sorted[1..])
  }

  function Sorted(entries: seq<Entry>): (r: seq<Entry>)
    ensures forall e :: e in r <==> e in entries
  {
    if entries == [] then [] else Insert(entries[0], Sorted(entries[1..]))
  }

  predicate UniqueKeys(entries: seq<Entry>) {
    forall i, j :: 0 <= i < j < |entries| ==> entries[i].key != entries[j].key
  }

  predicate Ascending(entries: seq<Entry>) {
    forall i, j :: 0 <= i < j < |entries| ==> Less(entries[i].key, entries[j].key)
  }

  lemma {:induction false} InsertAscending(e: Entry, sorted: seq<Entry>)
    requires Ascending(sorted) && forall x :: x in sorted ==> x.key != e.key
    ensures Ascending(Insert(e, sorted))
  {
    if sorted != [] {
      LessTotal(e.key, sorted[0].key);
      var r := Insert(e, sorted);
      if Less(e.key, sorted[0].key) {
        forall j | 0 <= j < |sorted| ensures Less(e.key, sorted[j].key) {
          if j > 0 { LessTransitive(e.key, sorted[0].key, sorted[j].key); }
        }
      } else {
        InsertAscending(e, sorted[1..]);
        forall j | 1 <= j < |r| ensures Less(r[0].key, r[j].key) {
          assert r[j] in Insert(e, sorted[1..]);
          if r[j] != e { var k :| 0 <= k < |sorted[1..]| && sorted[1..][k] == r[j]; assert sorted[k+1] == r[j]; }
        }
        forall i, j | 0 <= i < j < |r| ensures Less(r[i].key, r[j].key) {
          if i > 0 { assert r[i] == r[1..][i-1] && r[j] == r[1..][j-1]; }
        }
      }
    }
  }

  lemma {:induction false} SortedAscending(entries: seq<Entry>)
    requires UniqueKeys(entries)
    ensures Ascending(Sorted(entries))
  {
    if entries != [] {
      SortedAscending(entries[1..]);
      forall x | x in Sorted(entries[1..]) ensures x.key != entries[0].key {
        var k :| 0 <= k < |entries[1..]| && entries[1..][k] == x;
        assert entries[k+1] == x;
      }
      InsertAscending(entries[0], Sorted(entries[1..]));
    }
  }

  lemma {:induction false} DefinedUnique(entries: seq<Entry>)
    requires UniqueKeys(entries)
    ensures UniqueKeys(Defined(entries))
  {
    if entries != [] {
      DefinedUnique(entries[1..]);
      var d := Defined(entries[1..]);
      forall j | 0 <= j < |d| ensures d[j].key != entries[0].key {
        assert d[j] in entries[1..];
        var k :| 0 <= k < |entries[1..]| && entries[1..][k] == d[j];
        assert entries[k+1] == d[j];
      }
    }
  }

  // ----- printing

  const NULL_TEXT: Text := [110, 117, 108, 108]
  const TRUE_TEXT: Text := [116, 114, 117, 101]
  const FALSE_TEXT: Text := [102, 97, 108, 115, 101]

  function Print(v: Json): Text
    decreases v, 1, 0
  {
    match v
    case Undefined => NULL_TEXT
    case Null => NULL_TEXT
    case Bool(b) => if b then TRUE_TEXT else FALSE_TEXT
    case Num(token) => token
    case Str(text) => Quoted(text)
    case Arr(items) => [OPEN_ARRAY] + PrintItems(v, items, true)
    case Obj(entries) => [OPEN_OBJECT] + PrintEntries(v, Sorted(Defined(entries)), true)
  }

  /** The remaining items and the closing bracket; every item but the first follows a comma. */
  function PrintItems(v: Json, items: seq<Json>, first: bool): Text
    requires v.Arr? && forall x :: x in items ==> x in v.items
    decreases v, 0, |items|
  {
    if items == [] then [CLOSE_ARRAY]
    else
      assert items[0] in v.items;
      (if first then [] else [COMMA]) + (Print(items[0]) + PrintItems(v, items[1..], false))
  }

  function PrintEntries(v: Json, entries: seq<Entry>, first: bool): Text
    requires v.Obj? && forall e :: e in entries ==> e in v.entries
    decreases v, 0, |entries|
  {
    if entries == [] then [CLOSE_OBJECT]
    else
      assert entries[0] in v.entries;
      (if first then [] else [COMMA]) +
      (Quoted(entries[0].key) + ([COLON] + (Print(entries[0].value) + PrintEntries(v, entries[1..], false))))
  }

  // ----- the values a text stands for

  predicate NumberUnit(u: Unit) {
    48 <= u <= 57 || u in {43, 45, 46, 69, 101}
  }

  predicate NumberToken(t: Text) {
    t != [] && (48 <= t[0] <= 57 || t[0] == 45) && forall i :: 0 <= i < |t| ==> NumberUnit(t[i])
  }

  /** A value a JavaScript program can build: number tokens are well formed and no object has a key twice. */
  predicate Proper(v: Json) {
    match v
    case Num(token) => NumberToken(token)
    case Arr(items) => forall i :: 0 <= i < |items| ==> Proper(items[i])
    case Obj(entries) => UniqueKeys(entries) && forall i :: 0 <= i < |entries| ==> Proper(entries[i].value)
    case _ => true
  }

  function Blank(v: Json): Json {
    if v == Undefined then Null else v
  }

  /** Equal up to the order of object keys; an undefined entry counts as absent and an undefined item as null. */
  predicate Similar(v: Json, w: Json)
    decreases v
  {
    match v
    case Undefined => Blank(w) == Null
    case Null => Blank(w) == Null
    case Bool(_) => w == v
    case Num(_) => w == v
    case Str(_) => w == v
    case Arr(items) => w.Arr? && |items| == |w.items| && forall i :: 0 <= i < |items| ==> Similar(items[i], w.items[i])
    case Obj(entries) =>
      && w.Obj?
      && (forall i :: 0 <= i < |entries| && entries[i].value != Undefined ==>
            exists j :: 0 <= j < |w.entries| && w.entries[j].value != Undefined
              && w.entries[j].key == entries[i].key && Similar(entries[i].value, w.entries[j].value))
      && (forall j :: 0 <= j < |w.entries| && w.entries[j].value != Undefined ==> HasKey(entries, w.entries[j].key))
  }

  predicate HasKey(entries: seq<Entry>, key: Text) {
    exists i :: 0 <= i < |entries| && entries[i].value != Undefined && entries[i].key == key
  }

  // ----- unique readability

  /** What can follow a printed value. */
  predicate Follows(r: Text) {
    r == [] || r[0] in {COMMA, CLOSE_ARRAY, CLOSE_OBJECT}
  }

  function KindOf(v: Json): nat {
    match v
    case Undefined => 0
    case Null => 0
    case Bool(b) => if b then 1 else 2
    case Num(_) => 3
    case Str(_) => 4
    case Arr(_) => 5
    case Obj(_) => 6
  }

  function KindOfUnit(u: Unit): nat {
    if u == 110 then 0
    else if u == 116 then 1
    else if u == 102 then 2
    else if 48 <= u <= 57 || u == 45 then 3
    else if u == QUOTE then 4
    else if u == OPEN_ARRAY then 5
    else if u == OPEN_OBJECT then 6
    else 7
  }

  /** The first unit of a text tells the kind of the value. */
  lemma PrintStarts(v: Json)
    requires Proper(v)
    ensures |Print(v)| >= 1 && KindOfUnit(Print(v)[0]) == KindOf(v) && !Follows(Print(v))
  {}

  lemma SameKind(v: Json, w: Json, r1: Text, r2: Text)
    requires Proper(v) && Proper(w) && Print(v) + r1 == Print(w) + r2
    ensures KindOf(v) == KindOf(w)
  {
    hide Print, Proper;
    PrintStarts(v); PrintStarts(w);
    assert (Print(v) + r1)[0] == Print(v)[0] && (Print(w) + r2)[0] == Print(w)[0];
  }

  lemma Cut(a: Text, b: Text, r1: Text, r2: Text)
    requires a + r1 == b + r2 && |a| == |b|
    ensures a == b && r1 == r2
  {
    assert a == (a + r1)[..|a|] == (b + r2)[..|b|] == b;
    assert r1 == (a + r1)[|a|..] == (b + r2)[|b|..] == r2;
  }

  /** The length of the longest prefix of number units. */
  function Span(t: Text): nat {
    if t == [] || !NumberUnit(t[0]) then 0 else 1 + Span(t[1..])
  }

  lemma {:induction false} SpanOf(a: Text, r: Text)
    requires Follows(r) && forall i :: 0 <= i < |a| ==> NumberUnit(a[i])
    ensures Span(a + r) == |a|
  {
    if a == [] {
      assert a + r == r;
    } else {
      assert (a + r)[1..] == a[1..] + r;
      SpanOf(a[1..], r);
    }
  }

  lemma NumberReadable(a: Text, b: Text, r1: Text, r2: Text)
    requires NumberToken(a) && NumberToken(b) && Follows(r1) && Follows(r2) && a + r1 == b + r2
    ensures a == b && r1 == r2
  {
    SpanOf(a, r1); SpanOf(b, r2);
    Cut(a, b, r1, r2);
  }

  lemma ItemsFollow(v: Json, items: seq<Json>, r: Text)
    requires v.Arr? && forall x :: x in items ==> x in v.items
    ensures Follows(PrintItems(v, items, false) + r)
  {}

  lemma EntriesFollow(v: Json, entries: seq<Entry>, r: Text)
    requires v.Obj? && forall e :: e in entries ==> e in v.entries
    ensures Follows(PrintEntries(v, entries, false) + r)
  {}

  lemma ProperIn(v: Json)
    requires Proper(v)
    ensures v.Arr? ==> forall x :: x in v.items ==> Proper(x)
    ensures v.Obj? ==> forall e :: e in v.entries ==> Proper(e.value)
  {}

  function Comma(first: bool): Text {
    if first then [] else [COMMA]
  }

  /** Two lists of printed items, either empty or both after the same separator. */
  lemma ItemsStart(v: Json, items: seq<Json>, first: bool, r: Text)
    requires v.Arr? && Proper(v) && forall x :: x in items ==> x in v.items
    ensures |PrintItems(v, items, first) + r| >= 1
    ensures items == [] <==> (PrintItems(v, items, first) + r)[0] == CLOSE_ARRAY
    ensures items != [] ==> items[0] in v.items && Proper(items[0])
    ensures items != [] ==>
              PrintItems(v, items, first) + r
                == Comma(first) + (Print(items[0]) + (PrintItems(v, items[1..], false) + r))
  {
    hide Print, Proper;
    ProperIn(v);
    if items != [] {
      assert items[0] in v.items;
      var p := Print(items[0]);
      PrintStarts(items[0]);
      RegroupItem(Comma(first), p, PrintItems(v, items[1..], false), r);
      assert (PrintItems(v, items, first) + r)[0] == if first then p[0] else COMMA;
    }
  }

  lemma RegroupItem(p: Text, v: Text, t: Text, r: Text)
    ensures (p + (v + t)) + r == p + (v + (t + r))
  {}

  lemma Regroup(p: Text, q: Text, c: Text, v: Text, t: Text, r: Text)
    ensures (p + (q + (c + (v + t)))) + r == p + (q + (c + (v + (t + r))))
  {}

  lemma EntriesStart(v: Json, entries: seq<Entry>, first: bool, r: Text)
    requires v.Obj? && Proper(v) && forall e :: e in entries ==> e in v.entries
    ensures |PrintEntries(v, entries, first) + r| >= 1
    ensures entries == [] <==> (PrintEntries(v, entries, first) + r)[0] == CLOSE_OBJECT
    ensures entries != [] ==> entries[0] in v.entries && Proper(entries[0].value)
    ensures entries != [] ==>
              PrintEntries(v, entries, first) + r
                 == Comma(first) + (Quoted(entries[0].key) + ([COLON] +
                 (Print(entries[0].value) + (PrintEntries(v, entries[1..], false) + r))))
  {
    hide Print, Proper, Quoted;
    ProperIn(v);
    if entries != [] {
      assert entries[0] in v.entries;
      var q := Quoted(entries[0].key);
      QuotedStarts(entries[0].key);
      Regroup(Comma(first), q, [COLON], Print(entries[0].value), PrintEntries(v, entries[1..], false), r);
      assert (PrintEntries(v, entries, first) + r)[0] == if first then q[0] else COMMA;
    }
  }

  lemma QuotedStarts(s: Text)
    ensures |Quoted(s)| >= 1 && Quoted(s)[0] == QUOTE
  {}

  lemma {:induction false} ItemsReadable(v: Json, w: Json, a: seq<Json>, b: seq<Json>, first: bool, r1: Text, r2: Text)
    requires v.Arr? && w.Arr? && Proper(v) && Proper(w)
    requires (forall x :: x in a ==> x in v.items) && (forall x :: x in b ==> x in w.items)
    requires PrintItems(v, a, first) + r1 == PrintItems(w, b, first) + r2
    ensures |a| == |b| && r1 == r2 && forall i :: 0 <= i < |a| ==> Similar(a[i], b[i])
    decreases v, 0, |a|
  {
    hide Print, PrintItems, Proper, Similar;
    ItemsStart(v, a, first, r1); ItemsStart(w, b, first, r2);
    if a == [] {
      ClosedItems(v, first, r1); ClosedItems(w, first, r2);
    } else {
      var x, y := PrintItems(v, a[1..], false) + r1, PrintItems(w, b[1..], false) + r2;
      Cut(Comma(first), Comma(first), Print(a[0]) + x, Print(b[0]) + y);
      ItemsFollow(v, a[1..], r1); ItemsFollow(w, b[1..], r2);
      Readable(a[0], b[0], x, y);
      ItemsReadable(v, w, a[1..], b[1..], false, r1, r2);
      forall i | 0 <= i < |a| ensures Similar(a[i], b[i]) {
        if i > 0 { assert a[i] == a[1..][i-1] && b[i] == b[1..][i-1]; }
      }
    }
  }

  lemma ClosedItems(v: Json, first: bool, r: Text)
    requires v.Arr?
    ensures (PrintItems(v, [], first) + r)[1..] == r
  {}

  lemma ClosedEntries(v: Json, first: bool, r: Text)
    requires v.Obj?
    ensures (PrintEntries(v, [], first) + r)[1..] == r
  {}

  /** The same keys in the same order, with similar values. */
  predicate Matched(a: seq<Entry>, b: seq<Entry>) {
    |a| == |b| && forall i :: 0 <= i < |a| ==> a[i].key == b[i].key && Similar(a[i].value, b[i].value)
  }

  lemma MatchedCons(a: seq<Entry>, b: seq<Entry>)
    requires a != [] && b != [] && a[0].key == b[0].key && Similar(a[0].value, b[0].value) && Matched(a[1..], b[1..])
    ensures Matched(a, b)
  {
    hide Similar;
    forall i | 0 <= i < |a| ensures a[i].key == b[i].key && Similar(a[i].value, b[i].value) {
      if i > 0 { assert a[i] == a[1..][i-1] && b[i] == b[1..][i-1]; }
    }
  }

  lemma {:induction false} EntriesReadable(v: Json, w: Json, a: seq<Entry>, b: seq<Entry>, first: bool, r1: Text,
                                           r2: Text)
    requires v.Obj? && w.Obj? && Proper(v) && Proper(w)
    requires (forall e :: e in a ==> e in v.entries) && (forall e :: e in b ==> e in w.entries)
    requires PrintEntries(v, a, first) + r1 == PrintEntries(w, b, first) + r2
    ensures Matched(a, b) && r1 == r2
    decreases v, 0, |a|
  {
    hide Print, PrintEntries, Proper, Similar, Quoted;
    EntriesStart(v, a, first, r1); EntriesStart(w, b, first, r2);
    if a == [] {
      ClosedEntries(v, first, r1); ClosedEntries(w, first, r2);
    } else {
      var x, y := PrintEntries(v, a[1..], false) + r1, PrintEntries(w, b[1..], false) + r2;
      var p, q := [COLON] + (Print(a[0].value) + x), [COLON] + (Print(b[0].value) + y);
      Cut(Comma(first), Comma(first), Quoted(a[0].key) + p, Quoted(b[0].key) + q);
      QuotedReadable(a[0].key, b[0].key, p, q);
      Cut([COLON], [COLON], Print(a[0].value) + x, Print(b[0].value) + y);
      EntriesFollow(v, a[1..], r1); EntriesFollow(w, b[1..], r2);
      Readable(a[0].value, b[0].value, x, y);
      EntriesReadable(v, w, a[1..], b[1..], false, r1, r2);
      MatchedCons(a, b);
    }
  }

  /** The defined entries in printing order: `Sorted` and `Defined` neither lose nor invent one. */
  lemma Printed(entries: seq<Entry>, e: Entry)
    ensures e in Sorted(Defined(entries)) <==> e in entries && e.value != Undefined
  {}

  lemma MatchedForth(v: Json, w: Json, i: nat)
    requires v.Obj? && w.Obj? && Matched(Sorted(Defined(v.entries)), Sorted(Defined(w.entries)))
    requires i < |v.entries| && v.entries[i].value != Undefined
    ensures exists j :: 0 <= j < |w.entries| && w.entries[j].value != Undefined
              && w.entries[j].key == v.entries[i].key && Similar(v.entries[i].value, w.entries[j].value)
  {
    hide Sorted, Defined, Similar;
    var a, b := Sorted(Defined(v.entries)), Sorted(Defined(w.entries));
    Printed(v.entries, v.entries[i]);
    var k :| 0 <= k < |a| && a[k] == v.entries[i];
    Printed(w.entries, b[k]);
    var j :| 0 <= j < |w.entries| && w.entries[j] == b[k];
  }

  lemma MatchedBack(v: Json, w: Json, j: nat)
    requires v.Obj? && w.Obj? && Matched(Sorted(Defined(v.entries)), Sorted(Defined(w.entries)))
    requires j < |w.entries| && w.entries[j].value != Undefined
    ensures HasKey(v.entries, w.entries[j].key)
  {
    hide Sorted, Defined, Similar;
    var a, b := Sorted(Defined(v.entries)), Sorted(Defined(w.entries));
    Printed(w.entries, w.entries[j]);
    var k :| 0 <= k < |b| && b[k] == w.entries[j];
    Printed(v.entries, a[k]);
    var i :| 0 <= i < |v.entries| && v.entries[i] == a[k];
  }

  lemma MatchedObjects(v: Json, w: Json)
    requires v.Obj? && w.Obj? && Matched(Sorted(Defined(v.entries)), Sorted(Defined(w.entries)))
    ensures Similar(v, w)
  {
    hide Sorted, Defined, Matched, HasKey;
    forall i | 0 <= i < |v.entries| && v.entries[i].value != Undefined
      ensures exists j :: 0 <= j < |w.entries| && w.entries[j].value != Undefined
                && w.entries[j].key == v.entries[i].key && Similar(v.entries[i].value, w.entries[j].value)
    {
      MatchedForth(v, w, i);
    }
    forall j | 0 <= j < |w.entries| && w.entries[j].value != Undefined ensures HasKey(v.entries, w.entries[j].key) {
      MatchedBack(v, w, j);
    }
  }

  lemma ObjectText(v: Json, r: Text)
    requires v.Obj?
    ensures Print(v) + r == [OPEN_OBJECT] + (PrintEntries(v, Sorted(Defined(v.entries)), true) + r)
  {
    hide Quoted;
  }

  lemma ArrayText(v: Json, r: Text)
    requires v.Arr?
    ensures Print(v) + r == [OPEN_ARRAY] + (PrintItems(v, v.items, true) + r)
  {}

  /** A printed value can be told from what follows it, and determines the value up to key order. */
  lemma {:induction false} Readable(v: Json, w: Json, r1: Text, r2: Text)
    requires Proper(v) && Proper(w) && Follows(r1) && Follows(r2) && Print(v) + r1 == Print(w) + r2
    ensures Similar(v, w) && r1 == r2
    decreases v, 1, 0
  {
    hide PrintItems, PrintEntries, Quoted;
    SameKind(v, w, r1, r2);
    match v
    case Undefined => Cut(NULL_TEXT, NULL_TEXT, r1, r2);
    case Null => Cut(NULL_TEXT, NULL_TEXT, r1, r2);
    case Bool(_) => Cut(Print(v), Print(w), r1, r2);
    case Num(a) => NumberReadable(a, w.token, r1, r2);
    case Str(a) => QuotedReadable(a, w.text, r1, r2);
    case Arr(items) =>
      ArrayText(v, r1); ArrayText(w, r2);
      Cut([OPEN_ARRAY], [OPEN_ARRAY], PrintItems(v, items, true) + r1, PrintItems(w, w.items, true) + r2);
      ItemsReadable(v, w, items, w.items, true, r1, r2);
    case Obj(entries) =>
      ObjectText(v, r1); ObjectText(w, r2);
      var a, b := Sorted(Defined(entries)), Sorted(Defined(w.entries));
      Cut([OPEN_OBJECT], [OPEN_OBJECT], PrintEntries(v, a, true) + r1, PrintEntries(w, b, true) + r2);
      EntriesReadable(v, w, a, b, true, r1, r2);
      MatchedObjects(v, w);
  }

  // ----- similar values print equally

  predicate KeyIn(entries: seq<Entry>, key: Text) {
    exists j :: 0 <= j < |entries| && entries[j].key == key
  }

  predicate Partnered(e: Entry, entries: seq<Entry>) {
    exists j :: 0 <= j < |entries| && entries[j].key == e.key && Similar(e.value, entries[j].value)
  }

  predicate KeysWithin(a: seq<Entry>, b: seq<Entry>) {
    forall i :: 0 <= i < |a| ==> KeyIn(b, a[i].key)
  }

  lemma SmallestFirst(a: seq<Entry>, b: seq<Entry>)
    requires a != [] && b != [] && Ascending(a) && Ascending(b) && KeyIn(a, b[0].key) && KeyIn(b, a[0].key)
    ensures a[0].key == b[0].key
  {
    var j :| 0 <= j < |b| && b[j].key == a[0].key;
    var i :| 0 <= i < |a| && a[i].key == b[0].key;
    LessTotal(a[0].key, b[0].key);
  }

  lemma TailKeys(a: seq<Entry>, b: seq<Entry>)
    requires a != [] && b != [] && Ascending(a) && a[0].key == b[0].key && KeysWithin(a, b)
    ensures KeysWithin(a[1..], b[1..])
  {
    forall i | 0 <= i < |a[1..]| ensures KeyIn(b[1..], a[1..][i].key) {
      assert KeyIn(b, a[i+1].key);
      var j :| 0 <= j < |b| && b[j].key == a[i+1].key;
      LessTotal(a[0].key, a[i+1].key);
      assert b[1..][j-1].key == a[1..][i].key;
    }
  }

  predicate SameKeys(a: seq<Entry>, b: seq<Entry>) {
    |a| == |b| && forall i :: 0 <= i < |a| ==> a[i].key == b[i].key
  }

  lemma {:induction false} SameKeysInOrder(a: seq<Entry>, b: seq<Entry>)
    requires Ascending(a) && Ascending(b) && KeysWithin(a, b) && KeysWithin(b, a)
    ensures SameKeys(a, b)
  {
    hide KeyIn, Ascending;
    if b != [] { SomeKey(b, a); }
    if a != [] {
      SomeKey(a, b);
      SmallestFirst(a, b);
      TailKeys(a, b); TailKeys(b, a);
      AscendingTail(a); AscendingTail(b);
      SameKeysInOrder(a[1..], b[1..]);
      forall i | 0 <= i < |a| ensures a[i].key == b[i].key {
        if i > 0 { assert a[i] == a[1..][i-1] && b[i] == b[1..][i-1]; }
      }
    }
  }

  lemma SomeKey(a: seq<Entry>, b: seq<Entry>)
    requires a != [] && KeysWithin(a, b)
    ensures b != [] && KeyIn(b, a[0].key)
  {}

  lemma AscendingTail(a: seq<Entry>)
    requires Ascending(a) && a != []
    ensures Ascending(a[1..])
  {
    hide Less;
    forall i, j | 0 <= i < j < |a[1..]|
      ensures Less(a[1..][i].key, a[1..][j].key) { assert Less(a[i+1].key, a[j+1].key); }
  }

  lemma PartnerOf(v: Json, w: Json, e: Entry)
    requires v.Obj? && w.Obj? && Similar(v, w) && e in v.entries && e.value != Undefined
    ensures exists f :: f in w.entries && f.value != Undefined && f.key == e.key && Similar(e.value, f.value)
  {
    var k :| 0 <= k < |v.entries| && v.entries[k] == e;
    var m :| 0 <= m < |w.entries| && w.entries[m].value != Undefined
             && w.entries[m].key == e.key && Similar(e.value, w.entries[m].value);
    assert w.entries[m] in w.entries;
  }

  lemma PartnerBack(v: Json, w: Json, f: Entry)
    requires v.Obj? && w.Obj? && Similar(v, w) && f in w.entries && f.value != Undefined
    ensures exists e :: e in v.entries && e.value != Undefined && e.key == f.key
  {
    var k :| 0 <= k < |w.entries| && w.entries[k] == f;
    assert HasKey(v.entries, w.entries[k].key);
    var m :| 0 <= m < |v.entries| && v.entries[m].value != Undefined && v.entries[m].key == f.key;
    assert v.entries[m] in v.entries;
  }

  lemma PartnersForward(v: Json, w: Json)
    requires v.Obj? && w.Obj? && Similar(v, w)
    ensures var a, b := Sorted(Defined(v.entries)), Sorted(Defined(w.entries));
            KeysWithin(a, b) && forall i :: 0 <= i < |a| ==> Partnered(a[i], b)
  {
    hide Similar, Sorted, Defined;
    var a, b := Sorted(Defined(v.entries)), Sorted(Defined(w.entries));
    forall i | 0 <= i < |a| ensures KeyIn(b, a[i].key) && Partnered(a[i], b) {
      assert a[i] in a;
      PartnerOf(v, w, a[i]);
      var f :| f in w.entries && f.value != Undefined && f.key == a[i].key && Similar(a[i].value, f.value);
      assert f in b;
      var j :| 0 <= j < |b| && b[j] == f;
    }
  }

  lemma PartnersBackward(v: Json, w: Json)
    requires v.Obj? && w.Obj? && Similar(v, w)
    ensures KeysWithin(Sorted(Defined(w.entries)), Sorted(Defined(v.entries)))
  {
    hide Similar, Sorted, Defined;
    var a, b := Sorted(Defined(v.entries)), Sorted(Defined(w.entries));
    forall j | 0 <= j < |b| ensures KeyIn(a, b[j].key) {
      assert b[j] in b;
      PartnerBack(v, w, b[j]);
      var e :| e in v.entries && e.value != Undefined && e.key == b[j].key;
      assert e in a;
      var i :| 0 <= i < |a| && a[i] == e;
    }
  }

  lemma SimilarMatched(v: Json, w: Json)
    requires v.Obj? && w.Obj? && Proper(v) && Proper(w) && Similar(v, w)
    ensures Matched(Sorted(Defined(v.entries)), Sorted(Defined(w.entries)))
  {
    hide Proper, Similar, Sorted, Defined, KeysWithin, Partnered, UniqueKeys, Matched;
    UniqueIn(v); UniqueIn(w);
    DefinedUnique(v.entries); DefinedUnique(w.entries);
    SortedAscending(Defined(v.entries)); SortedAscending(Defined(w.entries));
    PartnersForward(v, w); PartnersBackward(v, w);
    var a, b := Sorted(Defined(v.entries)), Sorted(Defined(w.entries));
    SameKeysInOrder(a, b);
    MatchedByKey(a, b);
  }

  lemma UniqueIn(v: Json)
    requires Proper(v) && v.Obj?
    ensures UniqueKeys(v.entries)
  {}

  lemma MatchedByKey(a: seq<Entry>, b: seq<Entry>)
    requires SameKeys(a, b) && Ascending(b) && forall i :: 0 <= i < |a| ==> Partnered(a[i], b)
    ensures Matched(a, b)
  {
    hide Similar, Partnered, Ascending;
    forall i | 0 <= i < |a| ensures Similar(a[i].value, b[i].value) { PartnerAt(a, b, i); }
  }

  lemma PartnerAt(a: seq<Entry>, b: seq<Entry>, i: nat)
    requires Ascending(b) && i < |a| && i < |b| && b[i].key == a[i].key && Partnered(a[i], b)
    ensures Similar(a[i].value, b[i].value)
  {
    hide Similar, Less;
    var j :| 0 <= j < |b| && b[j].key == a[i].key && Similar(a[i].value, b[j].value);
    LessTotal(b[i].key, b[j].key);
  }

  lemma {:induction false} ItemsPrint(v: Json, w: Json, a: seq<Json>, b: seq<Json>, first: bool)
    requires v.Arr? && w.Arr? && Proper(v) && Proper(w) && |a| == |b|
    requires (forall x :: x in a ==> x in v.items) && (forall x :: x in b ==> x in w.items)
    requires forall i :: 0 <= i < |a| ==> Similar(a[i], b[i])
    ensures PrintItems(v, a, first) == PrintItems(w, b, first)
    decreases v, 0, |a|
  {
    hide Print, Similar, Proper;
    ProperIn(v); ProperIn(w);
    if a != [] {
      assert a[0] in v.items && b[0] in w.items;
      SimilarPrints(a[0], b[0]);
      ItemsPrint(v, w, a[1..], b[1..], false);
    }
  }

  lemma {:induction false} EntriesPrint(v: Json, w: Json, a: seq<Entry>, b: seq<Entry>, first: bool)
    requires v.Obj? && w.Obj? && Proper(v) && Proper(w) && Matched(a, b)
    requires (forall e :: e in a ==> e in v.entries) && (forall e :: e in b ==> e in w.entries)
    ensures PrintEntries(v, a, first) == PrintEntries(w, b, first)
    decreases v, 0, |a|
  {
    hide Print, Similar, Proper, Quoted;
    ProperIn(v); ProperIn(w);
    if a != [] {
      assert a[0] in v.entries && b[0] in w.entries;
      SimilarPrints(a[0].value, b[0].value);
      EntriesPrint(v, w, a[1..], b[1..], false);
    }
  }

  lemma {:induction false} SimilarPrints(v: Json, w: Json)
    requires Proper(v) && Proper(w) && Similar(v, w)
    ensures Print(v) == Print(w)
    decreases v, 1, 0
  {
    hide PrintItems, PrintEntries, Quoted, Matched;
    match v
    case Arr(items) => ItemsPrint(v, w, items, w.items, true);
    case Obj(entries) =>
      SimilarMatched(v, w);
      EntriesPrint(v, w, Sorted(Defined(entries)), Sorted(Defined(w.entries)), true);
    case _ =>
  }

  /** Two values print equally exactly when they are equal up to the order of object keys. */
  lemma CanonicalText(v: Json, w: Json)
    requires Proper(v) && Proper(w)
    ensures Print(v) == Print(w) <==> Similar(v, w)
  {
    hide Print, Similar, Proper;
    if Similar(v, w) { SimilarPrints(v, w); }
    if Print(v) == Print(w) {
      assert Print(v) + [] == Print(w) + [];
      Readable(v, w, [], []);
    }
  }
}
