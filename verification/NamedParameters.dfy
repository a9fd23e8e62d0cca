/** The named-parameter scanner: its six-state loop and the recursive tokenizer that specifies it. */
module NamedParameters {
  import opened Texts
  import opened Wrappers

  predicate IsIdentifierStart(c: char) {
    'A' <= c <= 'Z' || 'a' <= c <= 'z' || c == '_'
  }

  predicate IsIdentifierPart(c: char) {
    IsIdentifierStart(c) || '0' <= c <= '9'
  }

  datatype ScanState = Normal | SingleQuote | DoubleQuote | LineComment | BlockComment | DollarQuote

  datatype PlaceholderStyle = PgIndexed | Question

  datatype CompileResult<V> = CompileResult(sql: string, values: seq<V>, orderedNames: seq<string>)

  datatype CompileError = MissingValue(name: string) | NoParameters

  // ---------------------------------------------------------------- tokens

  /** A quote, comment or dollar quote is one token, closed or running to the end of the text. */
  datatype Token =
    | Raw(c: char)
    | Cast
    | Param(name: string)
    | Protected(kind: ScanState, body: string, closed: bool)

  function Text(t: Token): string {
    match t
    case Raw(c) => [c]
    case Cast => "::"
    case Param(name) => ":" + name
    case Protected(_, body, _) => body
  }

  function Source(tokens: seq<Token>): string {
    if tokens == [] then "" else Text(tokens[0]) + Source(tokens[1..])
  }

  function Names(tokens: seq<Token>): seq<string> {
    if tokens == [] then []
    else (if tokens[0].Param? then [tokens[0].name] else []) + Names(tokens[1..])
  }

  predicate StartsWith(s: string, c: char) {
    s != "" && s[0] == c
  }

  /** Length of the longest run of identifier characters that `s` begins with. */
  function IdentifierLength(s: string): (n: nat)
    ensures n <= |s|
    ensures forall i :: 0 <= i < n ==> IsIdentifierPart(s[i])
    ensures n < |s| ==> !IsIdentifierPart(s[n])
  {
    if s != "" && IsIdentifierPart(s[0]) then 1 + IdentifierLength(s[1..]) else 0
  }

  /** The dollar-quote tag that `s` begins with, or "" when there is none. */
  function DollarTag(s: string): (tag: string)
    ensures tag <= s
    ensures tag != "" ==> |tag| >= 2 && tag[0] == '$'
  {
    if !StartsWith(s, '$') then ""
    else if StartsWith(s[1..], '$') then s[..2]
    else if s[1..] == "" || !IsIdentifierStart(s[1]) then ""
    else
      var n := IdentifierLength(s[1..]);
      if StartsWith(s[1 + n..], '$') then s[..n + 2] else ""
  }

  /** How far a protected region reaches once it is open, and whether a terminator ends it. */
  datatype Extent = Extent(length: nat, closed: bool)

  /** What the scanner reads at once inside a region: how many characters, and whether they end the region. */
  function RegionStep(kind: ScanState, tag: string, s: string): (step: (nat, bool))
    requires kind != Normal && (kind == DollarQuote ==> tag != "")
    requires s != ""
    ensures 0 < step.0 <= |s|
  {
    match kind
    case LineComment => (1, s[0] == '\n')
    case BlockComment => if s[0] == '*' && StartsWith(s[1..], '/') then (2, true) else (1, false)
    case SingleQuote => QuoteStep('\'', s)
    case DoubleQuote => QuoteStep('"', s)
    case DollarQuote => if tag <= s then (|tag|, true) else (1, false)
  }

  function QuoteStep(quote: char, s: string): (step: (nat, bool))
    requires s != ""
    ensures 0 < step.0 <= |s|
  {
    if s[0] == quote && StartsWith(s[1..], quote) then (2, false) else (1, s[0] == quote)
  }

  function RegionExtent(kind: ScanState, tag: string, s: string): (e: Extent)
    requires kind != Normal && (kind == DollarQuote ==> tag != "")
    ensures e.length <= |s|
    ensures !e.closed ==> e.length == |s|
    decreases |s|
  {
    if s == "" then Extent(0, false)
    else
      var (k, closes) := RegionStep(kind, tag, s);
      if closes then Extent(k, true)
      else
        var rest := RegionExtent(kind, tag, s[k..]);
        Extent(k + rest.length, rest.closed)
  }

  /** The region that `s` opens, with the text that opens it; `Normal` when it opens none. */
  function OpenedRegion(s: string): (r: (ScanState, string))
    ensures r.1 <= s
    ensures r.0 != Normal ==> r.1 != ""
  {
    if "--" <= s then (LineComment, s[..2])
    else if "/*" <= s then (BlockComment, s[..2])
    else if StartsWith(s, '\'') then (SingleQuote, s[..1])
    else if StartsWith(s, '"') then (DoubleQuote, s[..1])
    else if DollarTag(s) != "" then (DollarQuote, DollarTag(s))
    else (Normal, "")
  }

  function FirstToken(s: string): (t: Token)
    requires s != ""
    ensures Text(t) != "" && Text(t) <= s
  {
    var (kind, opening) := OpenedRegion(s);
    if kind != Normal then Region(kind, opening, opening, s[|opening|..])
    else if "::" <= s then Cast
    else if s[0] == ':' && s[1..] != "" && IsIdentifierStart(s[1]) then
      Param(s[1..][..IdentifierLength(s[1..])])
    else Raw(s[0])
  }

  /** The token of a region of which `open` has been read and `s` is what follows. */
  function Region(kind: ScanState, tag: string, open: string, s: string): (t: Token)
    requires kind != Normal && (kind == DollarQuote ==> tag != "")
    ensures t.Protected? && t.body <= open + s && |open| <= |t.body|
    ensures !t.closed ==> t.body == open + s
  {
    var e := RegionExtent(kind, tag, s);
    Protected(kind, open + s[..e.length], e.closed)
  }

  function Tokenize(s: string): seq<Token>
    decreases |s|
  {
    if s == "" then []
    else
      var t := FirstToken(s);
      [t] + Tokenize(s[|Text(t)|..])
  }

  lemma TokenizeUnfolds(s: string)
    ensures Tokenize("") == []
    ensures s != "" ==> Tokenize(s) == [FirstToken(s)] + Tokenize(s[|Text(FirstToken(s))|..])
  {
    hide FirstToken;
  }

  // ------------------------------------------------- rendering and outcome

  function ResolvePlaceholder(style: PlaceholderStyle, index: nat): string {
    match style
    case PgIndexed => "$" + Digits(index)
    case Question => "?"
  }

  /** The compiled text of `tokens` when `count` parameters came before them. */
  function Render(tokens: seq<Token>, style: PlaceholderStyle, count: nat): string {
    if tokens == [] then ""
    else if tokens[0].Param? then
      ResolvePlaceholder(style, count + 1) + Render(tokens[1..], style, count + 1)
    else Text(tokens[0]) + Render(tokens[1..], style, count)
  }

  /** The first of `names` that has no value, in text order. */
  function FirstMissing<V>(names: seq<string>, params: map<string, V>): (r: Option<string>)
    ensures r.None? <==> forall n :: n in names ==> n in params
  {
    if names == [] then None
    else if names[0] !in params then Some(names[0])
    else FirstMissing(names[1..], params)
  }

  function ValuesOf<V>(names: seq<string>, params: map<string, V>): (r: seq<V>)
    requires forall n :: n in names ==> n in params
    ensures |r| == |names| && forall i :: 0 <= i < |r| ==> r[i] == params[names[i]]
  {
    seq(|names|, i requires 0 <= i < |names| => params[names[i]])
  }

  /** What the token view says the compiler returns; the scanning loop below is proved to return it. */
  function Compile<V>(sql: string, params: map<string, V>, style: PlaceholderStyle):
    (r: Result<CompileResult<V>, CompileError>)
  {
    var tokens := Tokenize(sql);
    var names := Names(tokens);
    var missing := FirstMissing(names, params);
    if missing.Some? then Failure(MissingValue(missing.value))
    else if names == [] then Failure(NoParameters)
    else Success(CompileResult(Render(tokens, style, 0), ValuesOf(names, params), names))
  }

  // -------------------------------------------------------------- the loop

  method ParseDollarTag(sql: string, index: nat) returns (tag: Option<string>)
    requires index <= |sql|
    ensures tag == if DollarTag(sql[index..]) == "" then None else Some(DollarTag(sql[index..]))
  {
    ghost var rest := sql[index..];
    if index >= |sql| || sql[index] != '$' {
      return None;
    }
    assert rest[0] == '$' && rest[1..] == sql[index + 1..];
    if index + 1 < |sql| && sql[index + 1] == '$' {
      assert rest[..2] == "$$";
      return Some("$$");
    }
    if index + 1 >= |sql| || !IsIdentifierStart(sql[index + 1]) {
      return None;
    }
    var cursor := ScanIdentifier(sql, index + 1);
    assert rest[cursor - index..] == sql[cursor..];
    if cursor >= |sql| || sql[cursor] != '$' {
      return None;
    }
    tag := Some(sql[index..cursor + 1]);
    assert rest[..cursor + 1 - index] == sql[index..cursor + 1];
  }

  /** The cursor loop that both the tag parser and the parameter branch run. */
  method ScanIdentifier(sql: string, start: nat) returns (cursor: nat)
    requires start <= |sql|
    ensures cursor == start + IdentifierLength(sql[start..])
    ensures cursor <= |sql|
  {
    cursor := start;
    while cursor < |sql| && IsIdentifierPart(sql[cursor])
      invariant start <= cursor <= |sql|
      invariant IdentifierLength(sql[start..]) == cursor - start + IdentifierLength(sql[cursor..])
    {
      assert sql[cursor..][0] == sql[cursor] && sql[cursor..][1..] == sql[cursor + 1..];
      cursor := cursor + 1;
    }
  }

  /** What the tokenizer makes of `s` when the scanner meets it in `state` with `open` already read. */
  ghost function Resume(state: ScanState, tag: string, open: string, s: string): seq<Token>
    requires state == DollarQuote ==> tag != ""
  {
    if state == Normal then Tokenize(s)
    else [Region(state, tag, open, s)] + Tokenize(s[RegionExtent(state, tag, s).length..])
  }

  /** The scanner is at `index`: `done` is copied out and `open` is the part of the region it is inside. */
  ghost predicate ScannedTo(sql: string, done: seq<Token>, state: ScanState, tag: string, open: string, index: nat) {
    && index <= |sql|
    && (state == DollarQuote <==> tag != "")
    && (state == Normal ==> open == "")
    && Tokenize(sql) == done + Resume(state, tag, open, sql[index..])
  }

  lemma ResumeOpens(s: string, tag: string)
    requires s != "" && OpenedRegion(s).0 != Normal
    requires tag == if OpenedRegion(s).0 == DollarQuote then OpenedRegion(s).1 else ""
    ensures var (kind, opening) := OpenedRegion(s); Tokenize(s) == Resume(kind, tag, opening, s[|opening|..])
  {
    hide Tokenize, OpenedRegion, RegionExtent;
    TokenizeUnfolds(s);
    var (kind, opening) := OpenedRegion(s);
    var rest := s[|opening|..];
    TagOnlyMattersToDollarQuotes(kind, opening, tag, rest);
    var e := RegionExtent(kind, tag, rest);
    assert FirstToken(s) == Region(kind, tag, opening, rest);
    assert s[|opening| + e.length..] == rest[e.length..];
  }

  lemma OpensRegion(sql: string, done: seq<Token>, index: nat)
    requires index < |sql| && OpenedRegion(sql[index..]).0 != Normal
    requires ScannedTo(sql, done, Normal, "", "", index)
    ensures var (kind, opening) := OpenedRegion(sql[index..]);
      ScannedTo(sql, done, kind, if kind == DollarQuote then opening else "", opening, index + |opening|)
  {
    hide Tokenize, OpenedRegion;
    var (kind, opening) := OpenedRegion(sql[index..]);
    ResumeOpens(sql[index..], if kind == DollarQuote then opening else "");
    assert sql[index..][|opening|..] == sql[index + |opening|..];
  }

  lemma {:induction false} TagOnlyMattersToDollarQuotes(kind: ScanState, tag: string, tag': string, s: string)
    requires kind != Normal && (kind == DollarQuote ==> tag == tag' != "")
    ensures RegionExtent(kind, tag, s) == RegionExtent(kind, tag', s)
    decreases |s|
  {
    if s != "" {
      var (k, closes) := RegionStep(kind, tag, s);
      TagOnlyMattersToDollarQuotes(kind, tag, tag', s[k..]);
    }
  }

  lemma ResumeAdvances(state: ScanState, tag: string, open: string, s: string, k: nat)
    requires state != Normal && (state == DollarQuote ==> tag != "")
    requires s != "" && RegionStep(state, tag, s) == (k, false)
    ensures Resume(state, tag, open, s) == Resume(state, tag, open + s[..k], s[k..])
  {
    hide Tokenize, RegionStep;
    var e, rest := RegionExtent(state, tag, s), s[k..];
    var e' := RegionExtent(state, tag, rest);
    assert s[e.length..] == rest[e'.length..];
    assert s[..e.length] == s[..k] + rest[..e'.length];
    assert open + (s[..k] + rest[..e'.length]) == (open + s[..k]) + rest[..e'.length];
  }

  lemma StepsInside(sql: string, done: seq<Token>, state: ScanState, tag: string, open: string, index: nat,
                    copied: string)
    requires state != Normal && ScannedTo(sql, done, state, tag, open, index)
    requires index < |sql| && copied <= sql[index..]
    requires RegionStep(state, tag, sql[index..]) == (|copied|, false)
    ensures ScannedTo(sql, done, state, tag, open + copied, index + |copied|)
  {
    hide Tokenize, RegionStep, Resume;
    ResumeAdvances(state, tag, open, sql[index..], |copied|);
    assert sql[index..][|copied|..] == sql[index + |copied|..];
    assert sql[index..][..|copied|] == copied;
  }

  lemma ClosesRegion(sql: string, done: seq<Token>, state: ScanState, tag: string, open: string, index: nat,
                     copied: string)
    requires state != Normal && ScannedTo(sql, done, state, tag, open, index)
    requires index < |sql| && copied <= sql[index..]
    requires RegionStep(state, tag, sql[index..]) == (|copied|, true)
    ensures ScannedTo(sql, done + [Protected(state, open + copied, true)], Normal, "", "", index + |copied|)
  {
    hide Tokenize, RegionStep;
    assert sql[index..][|copied|..] == sql[index + |copied|..];
    assert sql[index..][..|copied|] == copied;
    var t, after := Protected(state, open + copied, true), Tokenize(sql[index + |copied|..]);
    assert done + ([t] + after) == (done + [t]) + after;
  }

  lemma TakesToken(sql: string, done: seq<Token>, index: nat)
    requires index < |sql| && ScannedTo(sql, done, Normal, "", "", index)
    ensures var t := FirstToken(sql[index..]); ScannedTo(sql, done + [t], Normal, "", "", index + |Text(t)|)
  {
    var t := FirstToken(sql[index..]);
    assert sql[index..][|Text(t)|..] == sql[index + |Text(t)|..];
  }

  /** The scanner's outputs are those of the tokens it has copied out, plus the open region's text. */
  ghost predicate Emitted<V>(done: seq<Token>, open: string, params: map<string, V>, style: PlaceholderStyle,
                             compiledSql: string, values: seq<V>, orderedNames: seq<string>)
  {
    && compiledSql == Render(done, style, 0) + open
    && orderedNames == Names(done)
    && (forall n :: n in orderedNames ==> n in params)
    && values == ValuesOf(orderedNames, params)
  }

  lemma {:induction false} RenderAppend(a: seq<Token>, b: seq<Token>, style: PlaceholderStyle, count: nat)
    ensures Render(a + b, style, count) == Render(a, style, count) + Render(b, style, count + |Names(a)|)
  {
    if a == [] {
      assert a + b == b;
    } else {
      assert (a + b)[1..] == a[1..] + b;
      RenderAppend(a[1..], b, style, if a[0].Param? then count + 1 else count);
    }
  }

  lemma {:induction false} NamesAppend(a: seq<Token>, b: seq<Token>)
    ensures Names(a + b) == Names(a) + Names(b)
  {
    if a == [] {
      assert a + b == b;
    } else {
      assert (a + b)[1..] == a[1..] + b;
      NamesAppend(a[1..], b);
    }
  }

  lemma {:induction false} SourceAppend(a: seq<Token>, b: seq<Token>)
    ensures Source(a + b) == Source(a) + Source(b)
  {
    if a == [] {
      assert a + b == b;
    } else {
      assert (a + b)[1..] == a[1..] + b;
      SourceAppend(a[1..], b);
    }
  }

  lemma AppendOne(done: seq<Token>, t: Token, style: PlaceholderStyle)
    ensures Names(done + [t]) == Names(done) + if t.Param? then [t.name] else []
    ensures Render(done + [t], style, 0) == Render(done, style, 0) +
      if t.Param? then ResolvePlaceholder(style, |Names(done)| + 1) else Text(t)
  {
    hide ResolvePlaceholder;
    RenderAppend(done, [t], style, 0);
    NamesAppend(done, [t]);
    assert [t][1..] == [];
  }

  lemma EmitsText<V>(done: seq<Token>, t: Token, params: map<string, V>, style: PlaceholderStyle,
                     compiledSql: string, values: seq<V>, orderedNames: seq<string>)
    requires !t.Param? && Emitted(done, "", params, style, compiledSql, values, orderedNames)
    ensures Emitted(done + [t], "", params, style, compiledSql + Text(t), values, orderedNames)
  {
    hide Names, Render, Text;
    AppendOne(done, t, style);
  }

  lemma EmittedNames<V>(done: seq<Token>, open: string, params: map<string, V>, style: PlaceholderStyle,
                        compiledSql: string, values: seq<V>, orderedNames: seq<string>)
    requires Emitted(done, open, params, style, compiledSql, values, orderedNames)
    ensures orderedNames == Names(done) && |values| == |orderedNames| && forall n :: n in orderedNames ==> n in params
  {
  }

  lemma EmitsInside<V>(done: seq<Token>, open: string, copied: string, params: map<string, V>, style: PlaceholderStyle,
                       compiledSql: string, values: seq<V>, orderedNames: seq<string>)
    requires Emitted(done, open, params, style, compiledSql, values, orderedNames)
    ensures Emitted(done, open + copied, params, style, compiledSql + copied, values, orderedNames)
  {
    assert Render(done, style, 0) + open + copied == Render(done, style, 0) + (open + copied);
  }

  lemma EmitsRegion<V>(done: seq<Token>, kind: ScanState, open: string, closed: bool, params: map<string, V>,
                       style: PlaceholderStyle, compiledSql: string, values: seq<V>, orderedNames: seq<string>)
    requires Emitted(done, open, params, style, compiledSql, values, orderedNames)
    ensures Emitted(done + [Protected(kind, open, closed)], "", params, style, compiledSql, values, orderedNames)
  {
    EmitsText(done, Protected(kind, open, closed), params, style, Render(done, style, 0), values, orderedNames);
  }

  lemma EmitsParam<V>(done: seq<Token>, name: string, params: map<string, V>, style: PlaceholderStyle,
                      compiledSql: string, values: seq<V>, orderedNames: seq<string>)
    requires name in params && Emitted(done, "", params, style, compiledSql, values, orderedNames)
    ensures Emitted(done + [Param(name)], "", params, style,
                    compiledSql + ResolvePlaceholder(style, |values| + 1), values + [params[name]],
                      orderedNames + [name])
  {
    hide Names, Render, ResolvePlaceholder;
    AppendOne(done, Param(name), style);
    ValuesOfOneMore(orderedNames, name, params);
  }

  lemma ValuesOfOneMore<V>(names: seq<string>, name: string, params: map<string, V>)
    requires name in params && forall n :: n in names ==> n in params
    ensures forall n :: n in names + [name] ==> n in params
    ensures ValuesOf(names + [name], params) == ValuesOf(names, params) + [params[name]]
  {
  }

  lemma {:induction false} FirstMissingAt<V>(before: seq<string>, name: string, after: seq<string>,
                                             params: map<string, V>)
    requires (forall n :: n in before ==> n in params) && name !in params
    ensures FirstMissing(before + [name] + after, params) == Some(name)
  {
    if before == [] {
      assert before + [name] + after == [name] + after;
    } else {
      assert (before + [name] + after)[1..] == before[1..] + [name] + after;
      FirstMissingAt(before[1..], name, after, params);
    }
  }

  lemma MissingIsReported<V>(sql: string, done: seq<Token>, index: nat, params: map<string, V>, style: PlaceholderStyle)
    requires index < |sql| && ScannedTo(sql, done, Normal, "", "", index) && FirstToken(sql[index..]).Param?
    requires (forall n :: n in Names(done) ==> n in params) && FirstToken(sql[index..]).name !in params
    ensures Compile(sql, params, style) == Failure(MissingValue(FirstToken(sql[index..]).name))
  {
    hide Render, Tokenize, FirstToken, FirstMissing;
    var rest := sql[index..];
    TokenizeUnfolds(rest);
    var t := FirstToken(rest);
    var after := Tokenize(rest[|Text(t)|..]);
    NamesAppend(done, [t] + after);
    assert ([t] + after)[1..] == after;
    assert Names(done) + ([t.name] + Names(after)) == Names(done) + [t.name] + Names(after);
    FirstMissingAt(Names(done), t.name, Names(after), params);
  }

  /** One step inside a quote, comment or dollar quote: copies what it reads and says whether the region closed. */
  method CopyInsideRegion(sql: string, index: nat, state: ScanState, dollarTag: Option<string>)
    returns (copied: string, closes: bool)
    requires index < |sql| && state != Normal
    requires state == DollarQuote ==> dollarTag.Some? && dollarTag.value != ""
    ensures copied != "" && copied <= sql[index..]
    ensures RegionStep(state, TagText(dollarTag), sql[index..]) == (|copied|, closes)
  {
    var c := sql[index];
    var hasNext := index + 1 < |sql|;
    ghost var rest := sql[index..];
    assert rest[0] == c && (hasNext ==> rest[1] == sql[index + 1]) && rest[1..] == sql[index + 1..];
    copied, closes := [c], false;
    match state
    case LineComment =>
      closes := c == '\n';
    case BlockComment =>
      if c == '*' && hasNext && sql[index + 1] == '/' {
        copied, closes := copied + [sql[index + 1]], true;
      }
    case SingleQuote =>
      if c == '\'' && hasNext && sql[index + 1] == '\'' {
        copied := copied + [sql[index + 1]];
      } else {
        closes := c == '\'';
      }
    case DoubleQuote =>
      if c == '"' && hasNext && sql[index + 1] == '"' {
        copied := copied + [sql[index + 1]];
      } else {
        closes := c == '"';
      }
    case DollarQuote =>
      if dollarTag.value <= sql[index..] {
        copied, closes := dollarTag.value, true;
      }
  }

  /** Which region, if any, opens at `index` of a scanner in the normal state, and the text that opens it. */
  method OpenRegion(sql: string, index: nat) returns (state: ScanState, opening: string)
    requires index < |sql|
    ensures (state, opening) == OpenedRegion(sql[index..])
  {
    var c := sql[index];
    var hasNext := index + 1 < |sql|;
    ghost var rest := sql[index..];
    assert rest[0] == c && (hasNext ==> rest[1] == sql[index + 1] && rest[..2] == [c, sql[index + 1]]);
    assert rest[..1] == [c];
    if c == '-' && hasNext && sql[index + 1] == '-' {
      return LineComment, [c, sql[index + 1]];
    }
    if c == '/' && hasNext && sql[index + 1] == '*' {
      return BlockComment, [c, sql[index + 1]];
    }
    if c == '\'' {
      return SingleQuote, [c];
    }
    if c == '"' {
      return DoubleQuote, [c];
    }
    if c == '$' {
      var tag := ParseDollarTag(sql, index);
      if tag.Some? {
        return DollarQuote, tag.value;
      }
    }
    return Normal, "";
  }

  /** The token that starts at `index` of a scanner in the normal state that opens no region there. */
  method PlainToken(sql: string, index: nat) returns (t: Token)
    requires index < |sql| && OpenedRegion(sql[index..]).0 == Normal
    ensures t == FirstToken(sql[index..])
  {
    ghost var rest := sql[index..];
    assert rest[0] == sql[index] && rest[1..] == sql[index + 1..];
    if sql[index] == ':' && index + 1 < |sql| && sql[index + 1] == ':' {
      return Cast;
    }
    if sql[index] == ':' && index + 1 < |sql| && IsIdentifierStart(sql[index + 1]) {
      var cursor := ScanIdentifier(sql, index + 1);
      assert sql[index + 1..cursor] == rest[1..][..cursor - index - 1];
      return Param(sql[index + 1..cursor]);
    }
    return Raw(sql[index]);
  }

  lemma EndsTokens(sql: string, done: seq<Token>, state: ScanState, tag: string, open: string)
    requires ScannedTo(sql, done, state, tag, open, |sql|)
    ensures Tokenize(sql) == done + if state == Normal then [] else [Protected(state, open, false)]
    ensures state == Normal ==> open == ""
  {
    hide Tokenize, RegionStep;
    TokenizeUnfolds("");
    assert sql[|sql|..] == "" && open + "" == open;
  }

  lemma EndsHere<V>(sql: string, done: seq<Token>, state: ScanState, tag: string, open: string, params: map<string, V>,
                    style: PlaceholderStyle, compiledSql: string, values: seq<V>, orderedNames: seq<string>)
    requires ScannedTo(sql, done, state, tag, open, |sql|)
    requires Emitted(done, open, params, style, compiledSql, values, orderedNames)
    ensures Compile(sql, params, style) ==
      if orderedNames == [] then Failure(NoParameters) else Success(CompileResult(compiledSql, values, orderedNames))
  {
    EndsTokens(sql, done, state, tag, open);
    hide Tokenize, ScannedTo, Resume, Render, Names, FirstMissing, ValuesOf;
    if state == Normal {
      assert done + [] == done && open == "" && Render(done, style, 0) + "" == Render(done, style, 0);
    } else {
      EmitsRegion(done, state, open, false, params, style, compiledSql, values, orderedNames);
      var text := Render(done + [Protected(state, open, false)], style, 0);
      assert text + "" == text;
    }
  }

  lemma StartsScan<V>(sql: string, params: map<string, V>, style: PlaceholderStyle)
    ensures ScannedTo(sql, [], Normal, "", "", 0)
    ensures Emitted([], "", params, style, "", [], [])
  {
    assert sql[0..] == sql;
  }

  method CompileNamedParameters<V>(sql: string, params: map<string, V>, style: PlaceholderStyle)
    returns (r: Result<CompileResult<V>, CompileError>)
    ensures r == Compile(sql, params, style)
  {
    hide Compile, ScannedTo, Emitted, Text, FirstToken, OpenedRegion, RegionStep, ResolvePlaceholder;
    var state := Normal;
    var dollarTag: Option<string> := None;
    var compiledSql := "";
    var values: seq<V> := [];
    var orderedNames: seq<string> := [];
    var found := false;
    var index := 0;
    ghost var done: seq<Token> := [];
    ghost var open := "";
    StartsScan(sql, params, style);
    while index < |sql|
      invariant ScannedTo(sql, done, state, TagText(dollarTag), open, index)
      invariant index <= |sql|
      invariant state == DollarQuote <==> dollarTag.Some?
      invariant dollarTag.Some? ==> dollarTag.value != ""
      invariant state == Normal ==> open == ""
      invariant Emitted(done, open, params, style, compiledSql, values, orderedNames)
      invariant found <==> orderedNames != []
    {
      if state != Normal {
        var copied, closes := CopyInsideRegion(sql, index, state, dollarTag);
        EmitsInside(done, open, copied, params, style, compiledSql, values, orderedNames);
        compiledSql := compiledSql + copied;
        if closes {
          ClosesRegion(sql, done, state, TagText(dollarTag), open, index, copied);
          EmitsRegion(done, state, open + copied, true, params, style, compiledSql, values, orderedNames);
          done, open := done + [Protected(state, open + copied, true)], "";
          state, dollarTag := Normal, None;
        } else {
          StepsInside(sql, done, state, TagText(dollarTag), open, index, copied);
          open := open + copied;
        }
        index := index + |copied|;
        continue;
      }
      var opens, opening := OpenRegion(sql, index);
      if opens != Normal {
        OpensRegion(sql, done, index);
        EmitsInside(done, open, opening, params, style, compiledSql, values, orderedNames);
        compiledSql, index, state := compiledSql + opening, index + |opening|, opens;
        dollarTag := if opens == DollarQuote then Some(opening) else None;
        assert open + opening == opening;
        open := opening;
        continue;
      }
      var t := PlainToken(sql, index);
      if t.Param? {
        if t.name !in params {
          EmittedNames(done, open, params, style, compiledSql, values, orderedNames);
          MissingIsReported(sql, done, index, params, style);
          return Failure(MissingValue(t.name));
        }
        EmitsParam(done, t.name, params, style, compiledSql, values, orderedNames);
        values := values + [params[t.name]];
        orderedNames := orderedNames + [t.name];
        compiledSql := compiledSql + ResolvePlaceholder(style, |values|);
        found := true;
      } else {
        EmitsText(done, t, params, style, compiledSql, values, orderedNames);
        compiledSql := compiledSql + Text(t);
      }
      TakesToken(sql, done, index);
      index, done := index + |Text(t)|, done + [t];
    }
    EndsHere(sql, done, state, TagText(dollarTag), open, params, style, compiledSql, values, orderedNames);
    if !found {
      return Failure(NoParameters);
    }
    return Success(CompileResult(compiledSql, values, orderedNames));
  }

  function TagText(tag: Option<string>): string {
    if tag.Some? then tag.value else ""
  }
}
