/** Composition, round trip, meaning under a driver, and the exact outcomes of compiling named parameters. */
module NamedParameterMeaning {
  import opened Texts
  import opened Wrappers
  import opened NamedParameters
  import opened NamedParameterLexing
  import opened NamedParameterLaws
  import opened NamedParameterRescan

  // ------------------------------------------------------------ composition

  predicate EndsNormal(tokens: seq<Token>) {
    tokens != [] ==> var t := tokens[|tokens| - 1]; !(t.Protected? && !t.closed)
  }

  /** Characters that neither extend, open nor close anything; every white-space character is one. */
  predicate IsSeparator(c: char) {
    !IsIdentifierPart(c) && c != '-' && c != '/' && c != '*' && c != ':' && c != '$' && c != '\'' && c != '"'
  }

  lemma DollarTagCharacters(s: string)
    ensures forall i :: 0 <= i < |DollarTag(s)| ==> s[i] == '$' || IsIdentifierPart(s[i])
  {
    var tag := DollarTag(s);
    if |tag| > 2 {
      forall i | 0 < i < |tag| - 1 ensures IsIdentifierPart(s[i]) {
        assert s[i] == s[1..][i - 1];
      }
    }
  }

  lemma SeparatorMayFollow(t: Token, s: string, c: char, more: string)
    requires MayPrecede(t, s) && IsSeparator(c) && !(t.Protected? && !t.closed)
    ensures MayPrecede(t, s + [c] + more)
  {
    hide DollarTag;
    assert s == "" ==> s + [c] + more == [c] + more;
    if t == Raw('$') {
      var whole := "$" + (s + [c] + more);
      assert whole == ("$" + s) + ([c] + more) && whole[|s| + 1] == c;
      DollarTagSplit("$" + s, [c] + more);
      DollarTagCharacters(whole);
    }
  }

  lemma SeparatedStep(t: Token, rest: seq<Token>, c: char, b: seq<Token>)
    requires Lexed([t] + rest) && Text(t) != "" && (t.Protected? && !t.closed ==> rest != [])
    requires IsSeparator(c) && Lexed(rest + ([Raw(c)] + b))
    ensures Lexed([t] + (rest + ([Raw(c)] + b)))
  {
    hide Lexed, MayPrecede, Source, FirstToken, StandsAlone;
    LexedCons(t, rest);
    LexedCons(t, rest + ([Raw(c)] + b));
    SourceAppend(rest, [Raw(c)] + b);
    SourceCons(Raw(c), b);
    assert Source(rest) + ([c] + Source(b)) == Source(rest) + [c] + Source(b);
    UnclosedIsLast(t, rest);
    SeparatorMayFollow(t, Source(rest), c, Source(b));
  }

  lemma SourceCons(t: Token, tokens: seq<Token>)
    ensures Source([t] + tokens) == Text(t) + Source(tokens)
  {
    assert ([t] + tokens)[1..] == tokens;
  }

  lemma {:induction false} SeparatedLexed(a: seq<Token>, c: char, b: seq<Token>)
    requires Lexed(a) && EndsNormal(a) && IsSeparator(c) && Lexed(b)
    ensures Lexed(a + ([Raw(c)] + b))
  {
    hide FirstToken, MayPrecede, Lexed, StandsAlone, Source;
    if a == [] {
      assert a + ([Raw(c)] + b) == [Raw(c)] + b;
      LexedCons(Raw(c), b);
      PlainAlone(c);
      SeparatorMayPrecede(c, Source(b));
    } else {
      var t, rest := a[0], a[1..];
      LexedHead(a);
      assert a == [t] + rest && a + ([Raw(c)] + b) == [t] + (rest + ([Raw(c)] + b));
      assert rest != [] ==> rest[|rest| - 1] == a[|a| - 1];
      SeparatedLexed(rest, c, b);
      SeparatedStep(t, rest, c, b);
    }
  }

  lemma SeparatorMayPrecede(c: char, rest: string)
    requires IsSeparator(c)
    ensures MayPrecede(Raw(c), rest)
  {
  }

  lemma UnclosedIsLast(t: Token, rest: seq<Token>)
    requires MayPrecede(t, Source(rest)) && Lexed(rest)
    ensures t.Protected? && !t.closed ==> rest == []
  {
    TextIsNonEmpty(rest);
  }

  lemma SeparatedScan(a: string, c: char, b: string)
    requires EndsNormal(Tokenize(a)) && IsSeparator(c)
    ensures Tokenize(a + [c] + b) == Tokenize(a) + ([Raw(c)] + Tokenize(b))
  {
    hide Tokenize, Lexed, Source, EndsNormal;
    TokensCoverSource(a);
    TokensCoverSource(b);
    var tail := [Raw(c)] + Tokenize(b);
    SeparatedLexed(Tokenize(a), c, Tokenize(b));
    SourceAppend(Tokenize(a), tail);
    SourceCons(Raw(c), Tokenize(b));
    assert a + ([c] + b) == a + [c] + b;
    LexedIffScanned(Tokenize(a) + tail);
  }

  lemma RawCons(c: char, tokens: seq<Token>, style: PlaceholderStyle, count: nat)
    ensures Names([Raw(c)] + tokens) == Names(tokens)
    ensures Render([Raw(c)] + tokens, style, count) == [c] + Render(tokens, style, count)
  {
    hide ResolvePlaceholder;
    assert ([Raw(c)] + tokens)[1..] == tokens;
  }

  /** Scanning two texts with a separator between them is scanning them one after the other. */
  lemma ScanIsCompositional(a: string, c: char, b: string, style: PlaceholderStyle, count: nat)
    requires EndsNormal(Tokenize(a)) && IsSeparator(c)
    ensures var k := |Names(Tokenize(a))|;
      && Tokenize(a + [c] + b) == Tokenize(a) + ([Raw(c)] + Tokenize(b))
      && Names(Tokenize(a + [c] + b)) == Names(Tokenize(a)) + Names(Tokenize(b))
      && Render(Tokenize(a + [c] + b), style, count) ==
           Render(Tokenize(a), style, count) + ([c] + Render(Tokenize(b), style, count + k))
  {
    hide Tokenize, Names, Render, EndsNormal, IsSeparator;
    SeparatedScan(a, c, b);
    var ta, tb := Tokenize(a), Tokenize(b);
    NamesAppend(ta, [Raw(c)] + tb);
    RenderAppend(ta, [Raw(c)] + tb, style, count);
    RawCons(c, tb, style, count + |Names(ta)|);
  }

  lemma {:induction false} FirstMissingOfTwo<V>(na: seq<string>, nb: seq<string>, params: map<string, V>)
    ensures FirstMissing(na + nb, params) ==
      if FirstMissing(na, params).Some? then FirstMissing(na, params) else FirstMissing(nb, params)
  {
    if na == [] {
      assert na + nb == nb;
    } else {
      assert (na + nb)[1..] == na[1..] + nb;
      FirstMissingOfTwo(na[1..], nb, params);
    }
  }

  /**
   * Compiling two texts with a separator between them, whether or not each compiles alone: it succeeds exactly when a
   * parameter occurs in either and all have values, with the second text's numbers carrying on; otherwise the first
   * missing name of the first text is reported, or else that of the second.
   */
  lemma CompileIsCompositional<V>(a: string, c: char, b: string, params: map<string, V>, style: PlaceholderStyle)
    requires EndsNormal(Tokenize(a)) && IsSeparator(c)
    ensures var ta, tb := Tokenize(a), Tokenize(b);
      var na, nb, joined := Names(ta), Names(tb), Compile(a + [c] + b, params, style);
      && (joined.Success? <==> na + nb != [] && forall n :: n in na || n in nb ==> n in params)
      && match joined
         case Success(r) =>
           && r.sql == Render(ta, style, 0) + ([c] + Render(tb, style, |na|))
           && r.values == ValuesOf(na, params) + ValuesOf(nb, params) && r.orderedNames == na + nb
         case Failure(e) =>
           if FirstMissing(na, params).Some? then e == MissingValue(FirstMissing(na, params).value)
           else if FirstMissing(nb, params).Some? then e == MissingValue(FirstMissing(nb, params).value)
           else e == NoParameters
  {
    hide Tokenize, Render, Names;
    ScanIsCompositional(a, c, b, style, 0);
    var na, nb := Names(Tokenize(a)), Names(Tokenize(b));
    FirstMissingOfTwo(na, nb, params);
    hide FirstMissing;
    if FirstMissing(na + nb, params).None? {
      assert forall n :: n in na + nb <==> n in na || n in nb;
      assert ValuesOf(na + nb, params) == ValuesOf(na, params) + ValuesOf(nb, params);
    }
  }

  // ------------------------------------------------- round trip and meaning

  /** The text around the parameters: one more chunk than there are parameters. */
  function Chunks(tokens: seq<Token>): (r: seq<string>)
    ensures |r| == |Names(tokens)| + 1
  {
    if tokens == [] then [""]
    else
      var rest := Chunks(tokens[1..]);
      if tokens[0].Param? then [""] + rest else [Text(tokens[0]) + rest[0]] + rest[1..]
  }

  function Weave(chunks: seq<string>, fills: seq<string>): string
    requires |chunks| == |fills| + 1
  {
    if fills == [] then chunks[0] else chunks[0] + fills[0] + Weave(chunks[1..], fills[1..])
  }

  /** The text with its i-th parameter replaced by the i-th fill. */
  function Substitute(tokens: seq<Token>, fills: seq<string>): string
    requires |fills| == |Names(tokens)|
  {
    if tokens == [] then ""
    else if tokens[0].Param? then fills[0] + Substitute(tokens[1..], fills[1..])
    else Text(tokens[0]) + Substitute(tokens[1..], fills)
  }

  function NamedMarkers(names: seq<string>): (r: seq<string>)
    ensures |r| == |names|
  {
    seq(|names|, i requires 0 <= i < |names| => ":" + names[i])
  }

  function Placeholders(style: PlaceholderStyle, count: nat, n: nat): (r: seq<string>)
    ensures |r| == n
  {
    seq(n, i requires 0 <= i < n => ResolvePlaceholder(style, count + i + 1))
  }

  lemma {:induction false} SubstituteWeaves(tokens: seq<Token>, fills: seq<string>)
    requires |fills| == |Names(tokens)|
    ensures Substitute(tokens, fills) == Weave(Chunks(tokens), fills)
  {
    hide Text;
    if tokens != [] {
      var rest := Chunks(tokens[1..]);
      if tokens[0].Param? {
        SubstituteWeaves(tokens[1..], fills[1..]);
        assert Chunks(tokens) == [""] + rest && Chunks(tokens)[1..] == rest;
      } else {
        SubstituteWeaves(tokens[1..], fills);
        WeaveHead(Text(tokens[0]), rest, fills);
      }
    }
  }

  lemma WeaveHead(text: string, chunks: seq<string>, fills: seq<string>)
    requires |chunks| == |fills| + 1
    ensures Weave([text + chunks[0]] + chunks[1..], fills) == text + Weave(chunks, fills)
  {
    var longer := [text + chunks[0]] + chunks[1..];
    assert longer[1..] == chunks[1..];
    if fills != [] {
      assert text + (chunks[0] + fills[0] + Weave(chunks[1..], fills[1..])) ==
        (text + chunks[0]) + fills[0] + Weave(chunks[1..], fills[1..]);
    }
  }

  lemma MarkersTail(names: seq<string>)
    requires names != []
    ensures NamedMarkers(names)[0] == ":" + names[0] && NamedMarkers(names)[1..] == NamedMarkers(names[1..])
  {
  }

  lemma {:induction false} SourceSubstitutes(tokens: seq<Token>)
    ensures Source(tokens) == Substitute(tokens, NamedMarkers(Names(tokens)))
  {
    if tokens != [] {
      SourceSubstitutes(tokens[1..]);
      var names := Names(tokens);
      if tokens[0].Param? {
        assert names[1..] == Names(tokens[1..]);
        MarkersTail(names);
      } else {
        assert names == Names(tokens[1..]);
      }
    }
  }

  lemma {:induction false} RenderSubstitutes(tokens: seq<Token>, style: PlaceholderStyle, count: nat)
    ensures Render(tokens, style, count) == Substitute(tokens, Placeholders(style, count, |Names(tokens)|))
  {
    hide ResolvePlaceholder;
    if tokens != [] {
      if tokens[0].Param? {
        RenderSubstitutes(tokens[1..], style, count + 1);
        assert Placeholders(style, count, |Names(tokens)|)[1..] == Placeholders(style, count + 1, |Names(tokens[1..])|);
      } else {
        RenderSubstitutes(tokens[1..], style, count);
      }
    }
  }

  /** What each parameter of the source stands for. */
  function ByName<V>(names: seq<string>, params: map<string, V>, show: V -> string): (r: seq<string>)
    requires forall n :: n in names ==> n in params
    ensures |r| == |names|
  {
    seq(|names|, i requires 0 <= i < |names| => show(params[names[i]]))
  }

  function ByPosition<V>(values: seq<V>, show: V -> string): (r: seq<string>)
    ensures |r| == |values|
  {
    seq(|values|, i requires 0 <= i < |values| => show(values[i]))
  }

  /** Source and output are one list of chunks, woven with ":name" markers and with placeholders 1..k in order. */
  lemma OutputRestoresSource<V>(sql: string, params: map<string, V>, style: PlaceholderStyle)
    requires Compile(sql, params, style).Success?
    ensures var r := Compile(sql, params, style).value; var chunks := Chunks(Tokenize(sql));
      && |r.values| == |r.orderedNames| == |chunks| - 1
      && sql == Weave(chunks, NamedMarkers(r.orderedNames))
      && r.sql == Weave(chunks, Placeholders(style, 0, |r.values|))
      && forall show: V -> string :: ByPosition(r.values, show) == ByName(r.orderedNames, params, show)
  {
    hide Tokenize, Render, ResolvePlaceholder;
    var tokens := Tokenize(sql);
    TokensCoverSource(sql);
    SourceSubstitutes(tokens);
    RenderSubstitutes(tokens, style, 0);
    SubstituteWeaves(tokens, NamedMarkers(Names(tokens)));
    SubstituteWeaves(tokens, Placeholders(style, 0, |Names(tokens)|));
  }

  // ------------------------------------------------------- driver semantics

  /** A driver that binds the plain question marks of a text in order; it fails unless the counts agree. */
  function BindQuestionMarks(tokens: seq<Token>, fills: seq<string>): Option<string> {
    if tokens == [] then (if fills == [] then Some("") else None)
    else if tokens[0] == Raw('?') then
      if fills == [] then None
      else
        var rest := BindQuestionMarks(tokens[1..], fills[1..]);
        if rest.None? then None else Some(fills[0] + rest.value)
    else
      var rest := BindQuestionMarks(tokens[1..], fills);
      if rest.None? then None else Some(Text(tokens[0]) + rest.value)
  }

  function QuestionMarks(tokens: seq<Token>): nat {
    if tokens == [] then 0 else (if tokens[0] == Raw('?') then 1 else 0) + QuestionMarks(tokens[1..])
  }

  lemma {:induction false} BindSpread(tokens: seq<Token>, fills: seq<string>, count: nat)
    ensures var bound := BindQuestionMarks(Spread(tokens, Question, count), fills);
      && (bound.Some? <==> |fills| == |Names(tokens)| + QuestionMarks(tokens))
      && (QuestionMarks(tokens) == 0 && |fills| == |Names(tokens)| ==> bound.value == Substitute(tokens, fills))
  {
    if tokens != [] {
      var spread := Spread(tokens, Question, count);
      if tokens[0].Param? {
        assert RawChars("?") == [Raw('?')];
        assert spread[1..] == Spread(tokens[1..], Question, count + 1);
        if fills != [] {
          BindSpread(tokens[1..], fills[1..], count + 1);
        }
      } else {
        assert spread[1..] == Spread(tokens[1..], Question, count);
        if tokens[0] != Raw('?') {
          BindSpread(tokens[1..], fills, count);
        } else if fills != [] {
          BindSpread(tokens[1..], fills[1..], count);
        }
      }
    }
  }

  lemma {:induction false} QuestionMarksCounted(tokens: seq<Token>)
    ensures QuestionMarks(tokens) == 0 <==> Raw('?') !in tokens
  {
    if tokens != [] {
      QuestionMarksCounted(tokens[1..]);
      assert forall t :: t in tokens <==> t == tokens[0] || t in tokens[1..];
    }
  }

  /** A positional driver accepts the output exactly when the source has no plain "?", and then reads it by name. */
  lemma QuestionDriverReadsByName<V>(sql: string, params: map<string, V>, show: V -> string)
    requires Compile(sql, params, Question).Success?
    ensures var r := Compile(sql, params, Question).value;
      var bound := BindQuestionMarks(Tokenize(r.sql), ByPosition(r.values, show));
      && (bound.Some? <==> Raw('?') !in Tokenize(sql))
      && (bound.Some? ==> bound.value == Substitute(Tokenize(sql), ByName(Names(Tokenize(sql)), params, show)))
  {
    hide Tokenize, Render;
    var tokens := Tokenize(sql);
    var r := Compile(sql, params, Question).value;
    RescanFindsSameTokens(sql, Question, 0);
    BindSpread(tokens, ByPosition(r.values, show), 0);
    QuestionMarksCounted(tokens);
    assert ByPosition(r.values, show) == ByName(Names(tokens), params, show);
  }

  predicate IsDigit(c: char) {
    '0' <= c <= '9'
  }

  function LeadingDigits(tokens: seq<Token>): (d: string)
    ensures |d| <= |tokens|
  {
    if tokens != [] && tokens[0].Raw? && IsDigit(tokens[0].c) then [tokens[0].c] + LeadingDigits(tokens[1..]) else ""
  }

  function NumberOf(digits: string): nat {
    if digits == "" then 0
    else
      var c := digits[|digits| - 1];
      10 * NumberOf(digits[..|digits| - 1]) + if IsDigit(c) then (c - '0') as nat else 0
  }

  /** A driver that reads every plain "$n" as the n-th value; it fails on a number it has no value for. */
  function BindNumbered(tokens: seq<Token>, fills: seq<string>): Option<string>
    decreases |tokens|
  {
    if tokens == [] then Some("")
    else if tokens[0] == Raw('$') && LeadingDigits(tokens[1..]) != "" then
      var digits := LeadingDigits(tokens[1..]);
      var rest := BindNumbered(tokens[1..][|digits|..], fills);
      if rest.None? || !(1 <= NumberOf(digits) <= |fills|) then None
      else Some(fills[NumberOf(digits) - 1] + rest.value)
    else
      var rest := BindNumbered(tokens[1..], fills);
      if rest.None? then None else Some(Text(tokens[0]) + rest.value)
  }

  /** The text itself holds a plain "$" followed by a digit. */
  predicate HasPlainNumber(tokens: seq<Token>) {
    tokens != [] && ((tokens[0] == Raw('$') && LeadingDigits(tokens[1..]) != "") || HasPlainNumber(tokens[1..]))
  }

  lemma {:induction false} NumberOfDigits(n: nat)
    ensures NumberOf(Digits(n)) == n
  {
    var c := '0' + (n % 10) as char;
    assert IsDigit(c) && (c - '0') as nat == n % 10;
    if n < 10 {
      assert Digits(n) == [c] && [c][..0] == "";
    } else {
      NumberOfDigits(n / 10);
      assert Digits(n)[..|Digits(n)| - 1] == Digits(n / 10);
    }
  }

  lemma {:induction false} LeadingDigitsOfChars(digits: string, more: seq<Token>)
    requires forall c :: c in digits ==> IsDigit(c)
    ensures LeadingDigits(RawChars(digits) + more) == digits + LeadingDigits(more)
  {
    var all := RawChars(digits) + more;
    if digits == "" {
      assert all == more;
    } else {
      assert digits[0] in digits && forall c :: c in digits[1..] ==> c in digits;
      assert all[1..] == RawChars(digits[1..]) + more;
      LeadingDigitsOfChars(digits[1..], more);
      assert [digits[0]] + (digits[1..] + LeadingDigits(more)) == digits + LeadingDigits(more);
    }
  }

  /** One placeholder, as the numbered driver reads it. */
  lemma BindPlaceholder(index: nat, more: seq<Token>, fills: seq<string>)
    requires LeadingDigits(more) == "" && 1 <= index <= |fills|
    ensures var rest := BindNumbered(more, fills);
      BindNumbered(RawChars(ResolvePlaceholder(PgIndexed, index)) + more, fills) ==
      if rest.None? then None else Some(fills[index - 1] + rest.value)
  {
    hide Digits, NumberOf;
    var digits := Digits(index);
    var tokens := RawChars("$" + digits) + more;
    assert tokens[0] == Raw('$') && tokens[1..] == RawChars(digits) + more;
    LeadingDigitsOfChars(digits, more);
    NumberOfDigits(index);
    assert digits + "" == digits && (RawChars(digits) + more)[|digits|..] == more;
  }

  lemma BindOne(t: Token, more: seq<Token>, fills: seq<string>)
    requires !(t == Raw('$') && LeadingDigits(more) != "")
    ensures var rest := BindNumbered(more, fills);
      BindNumbered([t] + more, fills) == if rest.None? then None else Some(Text(t) + rest.value)
  {
    assert ([t] + more)[1..] == more;
  }

  // ------------------------------------------ what the numbered driver scans

  lemma StartsWithDigit(s: string)
    ensures LeadingDigits(Tokenize(s)) != "" <==> s != "" && IsDigit(s[0])
  {
    TokenizeUnfolds(s);
    hide Tokenize, RegionExtent;
    if s != "" && FirstToken(s).Raw? {
      assert Text(FirstToken(s)) <= s;
    }
  }

  /** Compiled text starts with a plain digit exactly when its source does. */
  lemma DigitAhead(tokens: seq<Token>, count: nat)
    requires Lexed(tokens)
    ensures LeadingDigits(Tokenize(Render(tokens, PgIndexed, count))) != "" <==> LeadingDigits(tokens) != ""
  {
    hide Tokenize, Lexed, FirstToken;
    StartsWithDigit(Render(tokens, PgIndexed, count));
    HeadOfRendered(tokens, PgIndexed, count);
    TextIsNonEmpty(tokens);
    hide Render, Source;
  }

  lemma ParamEndsDigits(tokens: seq<Token>)
    requires Lexed(tokens) && tokens != [] && tokens[0].Param?
    ensures LeadingDigits(tokens[1..]) == ""
  {
    hide FirstToken, StandsAlone;
    LexedHead(tokens);
    TextIsNonEmpty(tokens[1..]);
  }

  /** A token of the source that no join touches is read again before the compiled rest. */
  lemma TokenScans(t: Token, rest: seq<Token>, count: nat)
    requires Text(t) != "" && StandsAlone(t) && MayPrecede(t, Source(rest)) && Lexed(rest) && !t.Param?
    requires !(t == Raw('$') && FormsTag(rest))
    ensures Tokenize(Text(t) + Render(rest, PgIndexed, count)) == [t] + Tokenize(Render(rest, PgIndexed, count))
  {
    hide Tokenize, Lexed, FirstToken, StandsAlone, MayPrecede, Render, Source;
    if t == Raw('$') {
      DollarBeforeRendered(rest, PgIndexed, count);
    } else {
      RenderedMayFollow(t, rest, PgIndexed, count);
    }
    FirstTokenSplit(t, Render(rest, PgIndexed, count));
    ScanOne(Text(t) + Render(rest, PgIndexed, count), t, Render(rest, PgIndexed, count));
  }

  // ----------------------------------------- where the driver reads otherwise

  /** Values that no placeholder and no dollar quote can be mistaken for. */
  predicate AllZ(fills: seq<string>) {
    forall i :: 0 <= i < |fills| ==> fills[i] == "Z"
  }

  /** A plain number: the driver puts a value where the source has a "$". */
  lemma NumberClashes(more: seq<Token>, fills: seq<string>, text: string)
    requires LeadingDigits(more) != "" && AllZ(fills)
    ensures BindNumbered([Raw('$')] + more, fills) != Some("$" + text)
  {
    hide NumberOf;
    var tokens := [Raw('$')] + more;
    assert tokens[1..] == more;
    var bound := BindNumbered(tokens, fills);
    if bound.Some? {
      assert bound.value[0] == 'Z' && ("$" + text)[0] == '$';
    }
  }

  /** Up to the parameter that a run ends at, compiled and substituted text agree; there they part. */
  lemma {:induction false} RunThenFill(tokens: seq<Token>, fills: seq<string>, count: nat) returns (k: nat)
    requires RunEndsAtParam(tokens) && |fills| == |Names(tokens)| && AllZ(fills)
    ensures var r, u := Render(tokens, PgIndexed, count), Substitute(tokens, fills);
      && k < |r| && k < |u| && r[k] == '$' && u[k] == 'Z' && (forall i :: 0 <= i < k ==> IsIdentifierPart(r[i]))
      && (k > 0 ==> tokens[0].Raw? && r[0] == tokens[0].c)
  {
    hide Digits;
    if tokens[0].Param? {
      k := 0;
    } else {
      var l := RunThenFill(tokens[1..], fills, count);
      k := l + 1;
      var r := Render(tokens, PgIndexed, count);
      assert r == [tokens[0].c] + Render(tokens[1..], PgIndexed, count);
    }
  }

  /** A dollar quote stands for itself, so the driver's text starts with its tag. */
  lemma TagStandsForItself(tag: string, s: string, fills: seq<string>)
    requires tag != "" && DollarTag(tag + s) == tag
    ensures var bound := BindNumbered(Tokenize(tag + s), fills); bound.Some? ==> tag <= bound.value
  {
    hide Tokenize, DollarTag, OpenedRegion, FirstToken, Region;
    var whole := tag + s;
    assert whole + "" == whole;
    TagOpens(whole, "");
    RegionIsFirst(whole, tag, s);
    var t := Region(DollarQuote, tag, tag, s);
    RegionStartsWithTag(tag, s, t);
    TokenizeUnfolds(whole);
    BindOne(t, Tokenize(whole[|t.body|..]), fills);
  }

  lemma TextsPart(r: string, u: string, k: nat)
    requires k < |r| && k < |u| && r[k] == '$' && u[k] != '$'
    ensures "$" + r == "$" + r[..k] + "$" + r[k + 1..] && !("$" + r[..k] + "$" <= "$" + u)
  {
    assert ("$" + r[..k] + "$")[k + 1] == '$' && ("$" + u)[k + 1] == u[k];
  }

  lemma IdentifierOpensTag(r: string, k: nat)
    requires k < |r| && forall i :: 0 <= i < k ==> IsIdentifierPart(r[i])
    requires k > 0 ==> IsIdentifierStart(r[0])
    ensures OpenTag("$" + r[..k])
  {
    assert ("$" + r[..k])[1..] == r[..k];
  }

  /** A join: the driver keeps the "$" of the placeholder where the source has a value. */
  lemma JoinClashes(rest: seq<Token>, fills: seq<string>, all: seq<string>, count: nat)
    requires FormsTag(rest) && |fills| == |Names(rest)| && AllZ(fills)
    ensures BindNumbered(Tokenize("$" + Render(rest, PgIndexed, count)), all) != Some("$" + Substitute(rest, fills))
  {
    var k := RunThenFill(rest, fills, count);
    hide Render, Substitute, Tokenize, DollarTag, RunEndsAtParam, BindNumbered, AllZ;
    var r, u := Render(rest, PgIndexed, count), Substitute(rest, fills);
    var s := "$" + r[..k];
    IdentifierOpensTag(r, k);
    hide OpenTag;
    CompletedTag(s, r[k + 1..]);
    TextsPart(r, u, k);
    TagStandsForItself(s + "$", r[k + 1..], all);
  }

  /** The driver reads the text by name: as a claim about what is left of it. */
  predicate ReadsByName(tokens: seq<Token>, fills: seq<string>, count: nat)
    requires |fills| == count + |Names(tokens)|
  {
    BindNumbered(Tokenize(Render(tokens, PgIndexed, count)), fills) == Some(Substitute(tokens, fills[count..]))
  }

  /** Neither a plain number nor a dollar that joins a placeholder. */
  predicate Unmistakable(tokens: seq<Token>) {
    !HasPlainNumber(tokens) && !Joins(tokens)
  }

  lemma ReadsPastParam(tokens: seq<Token>, fills: seq<string>, count: nat)
    requires Lexed(tokens) && tokens != [] && tokens[0].Param? && |fills| == count + |Names(tokens)|
    ensures ReadsByName(tokens, fills, count) <==> ReadsByName(tokens[1..], fills, count + 1)
  {
    hide Tokenize, FirstToken, BindNumbered, ResolvePlaceholder;
    var rest := tokens[1..];
    var r := Render(rest, PgIndexed, count + 1);
    ParamEndsDigits(tokens);
    LexedHead(tokens);
    hide Lexed;
    DigitAhead(rest, count + 1);
    PlaceholderScans(count + 1, r);
    BindPlaceholder(count + 1, Tokenize(r), fills);
    assert fills[count..][1..] == fills[count + 1..];
    SameTail(fills[count], BindNumbered(Tokenize(r), fills), Substitute(rest, fills[count + 1..]));
  }

  lemma SameTail(head: string, tail: Option<string>, text: string)
    ensures (if tail.None? then None else Some(head + tail.value)) == Some(head + text) <==> tail == Some(text)
  {
    if tail.Some? && head + tail.value == head + text {
      assert (head + tail.value)[|head|..] == tail.value && (head + text)[|head|..] == text;
    }
  }

  lemma ReadsPastToken(tokens: seq<Token>, fills: seq<string>, count: nat)
    requires Lexed(tokens) && tokens != [] && !tokens[0].Param? && |fills| == count + |Names(tokens)|
    requires !(tokens[0] == Raw('$') && (FormsTag(tokens[1..]) || LeadingDigits(tokens[1..]) != ""))
    ensures ReadsByName(tokens, fills, count) <==> ReadsByName(tokens[1..], fills, count)
  {
    hide Tokenize, FirstToken, BindNumbered;
    var t, rest := tokens[0], tokens[1..];
    var r := Render(rest, PgIndexed, count);
    LexedHead(tokens);
    hide Lexed, StandsAlone, MayPrecede;
    DigitAhead(rest, count);
    TokenScans(t, rest, count);
    BindOne(t, Tokenize(r), fills);
    SameTail(Text(t), BindNumbered(Tokenize(r), fills), Substitute(rest, fills[count..]));
  }

  /** At a plain number or a join the driver, given values that stand out, does not read by name. */
  lemma MistakenDollar(tokens: seq<Token>, fills: seq<string>, count: nat)
    requires Lexed(tokens) && tokens != [] && |fills| == count + |Names(tokens)| && AllZ(fills)
    requires tokens[0] == Raw('$') && (FormsTag(tokens[1..]) || LeadingDigits(tokens[1..]) != "")
    ensures !ReadsByName(tokens, fills, count)
  {
    hide Tokenize, FirstToken, BindNumbered;
    var rest := tokens[1..];
    LexedHead(tokens);
    hide Lexed, StandsAlone;
    if FormsTag(rest) {
      JoinClashes(rest, fills[count..], fills, count);
    } else {
      DigitAhead(rest, count);
      TokenScans(tokens[0], rest, count);
      NumberClashes(Tokenize(Render(rest, PgIndexed, count)), fills, Substitute(rest, fills[count..]));
    }
  }

  lemma {:induction false} ReadsIffUnmistakable(tokens: seq<Token>, fills: seq<string>, count: nat)
    requires Lexed(tokens) && |fills| == count + |Names(tokens)|
    ensures Unmistakable(tokens) ==> ReadsByName(tokens, fills, count)
    ensures AllZ(fills) && ReadsByName(tokens, fills, count) ==> Unmistakable(tokens)
    decreases |tokens|
  {
    if tokens != [] {
      hide FirstToken, Tokenize, BindNumbered, Lexed, FormsTag, LeadingDigits, ReadsByName, AllZ;
      var t, rest := tokens[0], tokens[1..];
      LexedHead(tokens);
      if t.Param? {
        ReadsPastParam(tokens, fills, count);
        ReadsIffUnmistakable(rest, fills, count + 1);
      } else if t == Raw('$') && (FormsTag(rest) || LeadingDigits(rest) != "") {
        if AllZ(fills) {
          MistakenDollar(tokens, fills, count);
        }
      } else {
        ReadsPastToken(tokens, fills, count);
        ReadsIffUnmistakable(rest, fills, count);
      }
    }
  }

  /**
   * A numbered driver reads the output as the source by name, for every rendering of values, exactly when the
   * source holds no plain "$n" of its own and no plain "$" or "$tag" that joins a placeholder.
   */
  lemma NumberedDriverReadsByName<V(!new)>(sql: string, params: map<string, V>)
    requires Compile(sql, params, PgIndexed).Success?
    ensures var r := Compile(sql, params, PgIndexed).value; var tokens := Tokenize(sql);
      !HasPlainNumber(tokens) && !Joins(tokens) <==> forall show: V -> string ::
        BindNumbered(Tokenize(r.sql), ByPosition(r.values, show)) ==
          Some(Substitute(tokens, ByName(Names(tokens), params, show)))
  {
    hide Tokenize, Render, Lexed, BindNumbered, Joins, HasPlainNumber, Substitute;
    var tokens := Tokenize(sql);
    var r := Compile(sql, params, PgIndexed).value;
    TokensCoverSource(sql);
    forall show: V -> string
      ensures Unmistakable(tokens) ==>
        BindNumbered(Tokenize(r.sql), ByPosition(r.values, show)) ==
          Some(Substitute(tokens, ByName(Names(tokens), params, show)))
    {
      var fills := ByPosition(r.values, show);
      ReadsIffUnmistakable(tokens, fills, 0);
      assert fills == ByName(Names(tokens), params, show) && fills[0..] == fills;
    }
    var z: V -> string := _ => "Z";
    var fills := ByPosition(r.values, z);
    ReadsIffUnmistakable(tokens, fills, 0);
    assert fills == ByName(Names(tokens), params, z) && fills[0..] == fills;
    if !Unmistakable(tokens) {
      assert BindNumbered(Tokenize(r.sql), fills) != Some(Substitute(tokens, fills));
    }
  }

  // --------------------------------------------------------------- outcomes

  lemma FirstMissingIsFirst<V>(names: seq<string>, params: map<string, V>, name: string)
    ensures FirstMissing(names, params) == Some(name) <==>
      exists i :: 0 <= i < |names| && names[i] == name && name !in params &&
                  forall j :: 0 <= j < i ==> names[j] in params
  {
    if FirstMissing(names, params) == Some(name) {
      var i := FirstMissingIndex(names, params);
    }
    if i :| 0 <= i < |names| && names[i] == name && name !in params && forall j :: 0 <= j < i ==> names[j] in params {
      assert names == names[..i] + [name] + names[i + 1..];
      FirstMissingAt(names[..i], name, names[i + 1..], params);
    }
  }

  lemma {:induction false} FirstMissingIndex<V>(names: seq<string>, params: map<string, V>) returns (i: nat)
    requires FirstMissing(names, params).Some?
    ensures i < |names| && FirstMissing(names, params) == Some(names[i]) && names[i] !in params
    ensures forall j :: 0 <= j < i ==> names[j] in params
  {
    if names[0] !in params {
      i := 0;
    } else {
      var k := FirstMissingIndex(names[1..], params);
      i := k + 1;
      assert forall j :: 0 < j < i ==> names[j] == names[1..][j - 1];
    }
  }

  /** Each outcome, by the parameters the text holds and those that have values. */
  lemma Outcomes<V>(sql: string, params: map<string, V>, style: PlaceholderStyle)
    ensures var names := Names(Tokenize(sql)); var r := Compile(sql, params, style);
      && (r.Success? <==> names != [] && forall n :: n in names ==> n in params)
      && (r == Failure(NoParameters) <==> names == [])
      && (forall n :: r == Failure(MissingValue(n)) <==> exists i ::
            0 <= i < |names| && names[i] == n && n !in params && forall j :: 0 <= j < i ==> names[j] in params)
  {
    hide Tokenize, Names, Render;
    var names := Names(Tokenize(sql));
    hide FirstMissing;
    forall n {
      FirstMissingIsFirst(names, params, n);
    }
    if names == [] {
      assert forall n :: n in names ==> n in params;
    }
  }

  /** Values for names the text does not use never matter, and the style changes nothing but the text. */
  lemma OnlyUsedParamsMatter<V>(sql: string, params: map<string, V>, params': map<string, V>,
                                style: PlaceholderStyle, style': PlaceholderStyle)
    requires forall n :: n in Names(Tokenize(sql)) ==>
      (n in params <==> n in params') && (n in params ==> params[n] == params'[n])
    ensures Compile(sql, params, style) == Compile(sql, params', style)
    ensures var r, r' := Compile(sql, params, style), Compile(sql, params', style');
      && (r.Failure? <==> r'.Failure?)
      && (r.Failure? ==> r.error == r'.error)
      && (r.Success? ==> r.value.values == r'.value.values && r.value.orderedNames == r'.value.orderedNames)
  {
    hide Tokenize, Names, Render;
    var names := Names(Tokenize(sql));
    FirstMissingAgrees(names, params, params');
    hide FirstMissing;
    if FirstMissing(names, params).None? {
      assert ValuesOf(names, params) == ValuesOf(names, params');
    }
  }

  lemma {:induction false} FirstMissingAgrees<V>(names: seq<string>, params: map<string, V>, params': map<string, V>)
    requires forall n :: n in names ==> (n in params <==> n in params')
    ensures FirstMissing(names, params) == FirstMissing(names, params')
  {
    if names != [] {
      assert forall n :: n in names[1..] ==> n in names;
      FirstMissingAgrees(names[1..], params, params');
    }
  }
}
