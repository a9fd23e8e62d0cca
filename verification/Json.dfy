/** JSON values, their printed form, and equality up to the order of object keys. */
module Json {
  import opened StableSort
  import opened Wrappers

  /** The shortest text of a number, as the printer writes it. */
  predicate IsNumeral(s: string) {
    && s != "" && (s[0] == '-' || '0' <= s[0] <= '9')
    && forall i :: 0 <= i < |s| ==> IsNumeralChar(s[i])
  }

  predicate IsNumeralChar(c: char) {
    '0' <= c <= '9' || c == '-' || c == '+' || c == '.' || c == 'e' || c == 'E'
  }

  type Numeral = s: string | IsNumeral(s) witness "0"

  datatype Json =
    | Null
    | Bool(b: bool)
    | Num(numeral: Numeral)
    | Str(s: string)
    | Arr(items: seq<Json>)
    | Obj(members: seq<Member>)

  datatype Member = Member(key: string, value: Json)

  predicate DistinctKeys(ms: seq<Member>) {
    forall i, j :: 0 <= i < j < |ms| ==> ms[i].key != ms[j].key
  }

  /** Every object, at every depth, has each key once. */
  predicate WellFormed(v: Json) {
    match v
    case Arr(items) => forall i :: 0 <= i < |items| ==> WellFormed(items[i])
    case Obj(ms) => DistinctKeys(ms) && forall i :: 0 <= i < |ms| ==> WellFormed(ms[i].value)
    case _ => true
  }

  ghost predicate HasKey(ms: seq<Member>, key: string) {
    exists i :: 0 <= i < |ms| && ms[i].key == key
  }

  ghost predicate KeysIncluded(ms: seq<Member>, ns: seq<Member>) {
    forall i :: 0 <= i < |ms| ==> HasKey(ns, ms[i].key)
  }

  ghost predicate SameKeys(ms: seq<Member>, ns: seq<Member>) {
    KeysIncluded(ms, ns) && KeysIncluded(ns, ms)
  }

  /** Equality of values when objects are unordered, at every depth (section 4 of RFC 8259). */
  ghost predicate Equiv(a: Json, b: Json) {
    match (a, b)
    case (Arr(xs), Arr(ys)) => |xs| == |ys| && forall i :: 0 <= i < |xs| ==> Equiv(xs[i], ys[i])
    case (Obj(ms), Obj(ns)) =>
      && SameKeys(ms, ns)
      && forall i, j :: 0 <= i < |ms| && 0 <= j < |ns| && ms[i].key == ns[j].key ==> Equiv(ms[i].value, ns[j].value)
    case (Arr(_), _) => false
    case (Obj(_), _) => false
    case _ => a == b
  }

  /** The value an object has under a key. */
  function MemberValue(ms: seq<Member>, k: string): Option<Json> {
    if ms == [] then None else if ms[0].key == k then Some(ms[0].value) else MemberValue(ms[1..], k)
  }

  /** The members of an object literal; JSON.stringify drops those whose value is undefined. */
  function RecordMembers(keys: seq<string>, values: seq<Option<Json>>): seq<Member>
    requires |keys| == |values|
  {
    if keys == [] then []
    else (if values[0].Some? then [Member(keys[0], values[0].value)] else []) + RecordMembers(keys[1..], values[1..])
  }

  // --------------------------------------------------------------- printing

  function HexDigit(n: nat): char
    requires n < 16
  {
    if n < 10 then '0' + n as char else 'a' + (n - 10) as char
  }

  function EscapeChar(c: char): (r: string)
    ensures r != ""
  {
    if c == '"' then "\\\""
    else if c == '\\' then "\\\\"
    else if c as int == 8 then "\\b"
    else if c as int == 12 then "\\f"
    else if c == '\n' then "\\n"
    else if c == '\r' then "\\r"
    else if c == '\t' then "\\t"
    else if (c as int) < 32 then "\\u00" + [HexDigit(c as int / 16), HexDigit(c as int % 16)]
    else [c]
  }

  function EscapeChars(s: string): string {
    if s == "" then "" else EscapeChar(s[0]) + EscapeChars(s[1..])
  }

  function Quote(s: string): string {
    "\"" + EscapeChars(s) + "\""
  }

  /** The text that JSON.stringify gives a value. */
  function Print(v: Json): string
    decreases v, 2
  {
    match v
    case Null => "null"
    case Bool(b) => if b then "true" else "false"
    case Num(numeral) => numeral
    case Str(s) => Quote(s)
    case Arr(items) => "[" + PrintItems(items, true)
    case Obj(ms) => "{" + PrintMembers(ms, true)
  }

  function PrintItems(items: seq<Json>, first: bool): string
    decreases items, 1
  {
    if items == [] then "]"
    else (if first then "" else ",") + Print(items[0]) + PrintItems(items[1..], false)
  }

  function PrintMembers(ms: seq<Member>, first: bool): string
    decreases ms, 1
  {
    if ms == [] then "}"
    else
      (if first then "" else ",") + Quote(ms[0].key) + ":" + Print(ms[0].value) + PrintMembers(ms[1..], false)
  }

  // ------------------------------------------------ the printer is injective

  /** What can stand behind a printed value: nothing that would read on a number. */
  predicate Ends(x: string) {
    x == "" || !IsNumeralChar(x[0])
  }

  function HexValue(c: char): nat {
    if '0' <= c <= '9' then (c - '0') as nat else if 'a' <= c <= 'f' then 10 + (c - 'a') as nat else 0
  }

  /** The character that the escape at the front of `s` stands for, and the length of the escape. */
  function Unescape(s: string): (r: (char, nat))
    requires s != ""
  {
    if s[0] != '\\' || |s| < 2 then (s[0], 1)
    else if s[1] == 'b' then (8 as char, 2)
    else if s[1] == 'f' then (12 as char, 2)
    else if s[1] == 'n' then ('\n', 2)
    else if s[1] == 'r' then ('\r', 2)
    else if s[1] == 't' then ('\t', 2)
    else if s[1] == 'u' && |s| >= 6 then ((16 * HexValue(s[4]) + HexValue(s[5])) as char, 6)
    else (s[1], 2)
  }

  lemma UnescapeInverts(c: char, x: string)
    ensures Unescape(EscapeChar(c) + x) == (c, |EscapeChar(c)|)
  {
    var e := EscapeChar(c);
    assert forall i :: 0 <= i < |e| ==> (e + x)[i] == e[i];
    if (c as int) < 32 {
      assert HexValue(HexDigit(c as int / 16)) == c as int / 16;
      assert HexValue(HexDigit(c as int % 16)) == c as int % 16;
    }
  }

  lemma EscapeCharPrefixFree(c: char, d: char, x: string, y: string)
    requires EscapeChar(c) + x == EscapeChar(d) + y
    ensures c == d && x == y
  {
    UnescapeInverts(c, x);
    UnescapeInverts(d, y);
    hide EscapeChar, Unescape;
    var s := EscapeChar(c) + x;
    assert s[|EscapeChar(c)|..] == x && s[|EscapeChar(d)|..] == y;
  }

  lemma EscapeCharIsNoQuote(c: char, x: string)
    ensures (EscapeChar(c) + x)[0] != '"'
  {
  }

  /** A quoted string goes on exactly as long as its next character is no quote. */
  lemma EscapeCharsUnfold(s: string, x: string)
    ensures var p := EscapeChars(s) + "\"" + x;
      && p != "" && (p[0] == '"' <==> s == "")
      && (s == "" ==> p[1..] == x)
      && (s != "" ==> p == EscapeChar(s[0]) + (EscapeChars(s[1..]) + "\"" + x))
  {
    hide EscapeChar;
    if s != "" {
      EscapeCharIsNoQuote(s[0], EscapeChars(s[1..]) + "\"" + x);
    }
  }

  lemma {:induction false} EscapeCharsPrefixFree(s: string, t: string, x: string, y: string)
    requires EscapeChars(s) + "\"" + x == EscapeChars(t) + "\"" + y
    ensures s == t && x == y
    decreases |s|
  {
    hide EscapeChar;
    EscapeCharsUnfold(s, x);
    EscapeCharsUnfold(t, y);
    if s != "" {
      EscapeCharPrefixFree(s[0], t[0], EscapeChars(s[1..]) + "\"" + x, EscapeChars(t[1..]) + "\"" + y);
      EscapeCharsPrefixFree(s[1..], t[1..], x, y);
      HeadAndTail(s, t);
    }
  }

  lemma QuotePrefixFree(s: string, t: string, x: string, y: string)
    requires Quote(s) + x == Quote(t) + y
    ensures s == t && x == y
  {
    hide EscapeChars;
    var a, b := EscapeChars(s) + "\"" + x, EscapeChars(t) + "\"" + y;
    assert Quote(s) + x == "\"" + a && Quote(t) + y == "\"" + b;
    assert ("\"" + a)[1..] == a && ("\"" + b)[1..] == b;
    EscapeCharsPrefixFree(s, t, x, y);
  }

  function NumeralLength(s: string): (n: nat)
    ensures n <= |s|
  {
    if s != "" && IsNumeralChar(s[0]) then 1 + NumeralLength(s[1..]) else 0
  }

  lemma {:induction false} NumeralLengthIs(s: string, x: string)
    requires (forall i :: 0 <= i < |s| ==> IsNumeralChar(s[i])) && Ends(x)
    ensures NumeralLength(s + x) == |s|
  {
    if s == "" {
      assert s + x == x;
    } else {
      assert (s + x)[1..] == s[1..] + x;
      NumeralLengthIs(s[1..], x);
    }
  }

  lemma NumeralPrefixFree(s: string, t: string, x: string, y: string)
    requires (forall i :: 0 <= i < |s| ==> IsNumeralChar(s[i])) && (forall i :: 0 <= i < |t| ==> IsNumeralChar(t[i]))
    requires Ends(x) && Ends(y) && s + x == t + y
    ensures s == t && x == y
  {
    NumeralLengthIs(s, x);
    NumeralLengthIs(t, y);
    assert (s + x)[..|s|] == s && (t + y)[..|t|] == t && (s + x)[|s|..] == x && (t + y)[|t|..] == y;
  }

  lemma PrintHead(v: Json)
    ensures var p := Print(v); p != "" && match v
      case Null => p[0] == 'n'
      case Bool(b) => p[0] == if b then 't' else 'f'
      case Num(_) => p[0] == '-' || '0' <= p[0] <= '9'
      case Str(_) => p[0] == '"'
      case Arr(_) => p[0] == '['
      case Obj(_) => p[0] == '{'
  {
    hide EscapeChars, PrintItems, PrintMembers;
  }

  predicate IsLeaf(v: Json) {
    !v.Arr? && !v.Obj?
  }

  lemma LeafPrefixFree(a: Json, b: Json, x: string, y: string)
    requires IsLeaf(a) && IsLeaf(b) && Print(a) + x == Print(b) + y && Ends(x) && Ends(y)
    ensures a == b && x == y
  {
    PrintHead(a);
    PrintHead(b);
    var p := Print(a) + x;
    assert p[0] == Print(a)[0] == Print(b)[0];
    hide Quote;
    if a.Num? {
      NumeralPrefixFree(a.numeral, b.numeral, x, y);
    } else if a.Str? {
      QuotePrefixFree(a.s, b.s, x, y);
    } else {
      assert a == b && p[|Print(a)|..] == x && p[|Print(b)|..] == y;
    }
  }

  lemma {:induction false} PrintPrefixFree(a: Json, b: Json, x: string, y: string)
    requires Print(a) + x == Print(b) + y && Ends(x) && Ends(y)
    ensures a == b && x == y
    decreases a, 2
  {
    hide PrintItems, PrintMembers, Quote;
    PrintHead(a);
    PrintHead(b);
    var p := Print(a) + x;
    assert p[0] == Print(a)[0] == Print(b)[0];
    if a.Arr? {
      assert p[1..] == PrintItems(a.items, true) + x == PrintItems(b.items, true) + y;
      ItemsPrefixFree(a.items, b.items, true, x, y);
    } else if a.Obj? {
      assert p[1..] == PrintMembers(a.members, true) + x == PrintMembers(b.members, true) + y;
      MembersPrefixFree(a.members, b.members, true, x, y);
    } else {
      LeafPrefixFree(a, b, x, y);
    }
  }

  lemma ItemsUnfold(items: seq<Json>, first: bool, x: string)
    requires items != []
    ensures PrintItems(items, first) + x ==
      (if first then "" else ",") + (Print(items[0]) + (PrintItems(items[1..], false) + x))
    ensures Ends(PrintItems(items[1..], false) + x)
  {
    hide Print;
  }

  lemma Separator(first: bool, s: string, t: string)
    requires (if first then "" else ",") + s == (if first then "" else ",") + t
    ensures s == t
  {
    if !first {
      assert ("," + s)[1..] == s && ("," + t)[1..] == t;
    } else {
      assert "" + s == s && "" + t == t;
    }
  }

  lemma {:induction false} ItemsPrefixFree(xs: seq<Json>, ys: seq<Json>, first: bool, x: string, y: string)
    requires PrintItems(xs, first) + x == PrintItems(ys, first) + y
    ensures xs == ys && x == y
    decreases xs, 1
  {
    hide Print;
    if xs == [] && ys == [] {
      assert ("]" + x)[1..] == x && ("]" + y)[1..] == y;
    } else if xs == [] {
      ItemsHead(ys, first, y);
    } else if ys == [] {
      ItemsHead(xs, first, x);
    } else {
      ItemsUnfold(xs, first, x);
      ItemsUnfold(ys, first, y);
      var restX, restY := PrintItems(xs[1..], false) + x, PrintItems(ys[1..], false) + y;
      hide PrintItems;
      Separator(first, Print(xs[0]) + restX, Print(ys[0]) + restY);
      PrintPrefixFree(xs[0], ys[0], restX, restY);
      ItemsPrefixFree(xs[1..], ys[1..], false, x, y);
      HeadAndTail(xs, ys);
    }
  }

  lemma ItemsHead(items: seq<Json>, first: bool, x: string)
    requires items != []
    ensures var p := PrintItems(items, first) + x; p != "" && p[0] != ']'
  {
    PrintHead(items[0]);
    hide Print;
  }

  lemma MembersUnfold(ms: seq<Member>, first: bool, x: string)
    requires ms != []
    ensures PrintMembers(ms, first) + x ==
      (if first then "" else ",") +
      (Quote(ms[0].key) + (":" + (Print(ms[0].value) + (PrintMembers(ms[1..], false) + x))))
    ensures Ends(PrintMembers(ms[1..], false) + x)
  {
    hide Print, Quote;
  }

  lemma {:induction false} MembersPrefixFree(ms: seq<Member>, ns: seq<Member>, first: bool, x: string, y: string)
    requires PrintMembers(ms, first) + x == PrintMembers(ns, first) + y
    ensures ms == ns && x == y
    decreases ms, 1
  {
    hide Print;
    if ms == [] && ns == [] {
      assert ("}" + x)[1..] == x && ("}" + y)[1..] == y;
    } else if ms == [] {
      MembersHead(ns, first, y);
    } else if ns == [] {
      MembersHead(ms, first, x);
    } else {
      MembersUnfold(ms, first, x);
      MembersUnfold(ns, first, y);
      var restX, restY := PrintMembers(ms[1..], false) + x, PrintMembers(ns[1..], false) + y;
      hide PrintMembers, Quote;
      var valX, valY := Print(ms[0].value) + restX, Print(ns[0].value) + restY;
      Separator(first, Quote(ms[0].key) + (":" + valX), Quote(ns[0].key) + (":" + valY));
      QuotePrefixFree(ms[0].key, ns[0].key, ":" + valX, ":" + valY);
      assert (":" + valX)[1..] == valX && (":" + valY)[1..] == valY;
      PrintPrefixFree(ms[0].value, ns[0].value, restX, restY);
      MembersPrefixFree(ms[1..], ns[1..], false, x, y);
      HeadAndTail(ms, ns);
    }
  }

  lemma MembersHead(ms: seq<Member>, first: bool, x: string)
    requires ms != []
    ensures var p := PrintMembers(ms, first) + x; p != "" && p[0] != '}'
  {
    hide Print, EscapeChars;
  }

  /** Different values print differently. */
  lemma PrintIsInjective(a: Json, b: Json)
    ensures Print(a) == Print(b) <==> a == b
  {
    if Print(a) == Print(b) {
      PrintPrefixFree(a, b, "", "");
    }
  }
}
