/** Which token lists the scanner reads back from their own text: each token alone, and before what follows it. */
module NamedParameterLexing {
  import opened NamedParameters

  /** A token list that the scanner reads back from its own text. */
  predicate Lexed(tokens: seq<Token>) {
    tokens == [] || (Source(tokens) != "" && FirstToken(Source(tokens)) == tokens[0] && Lexed(tokens[1..]))
  }

  lemma {:induction false} TokensCoverSource(s: string)
    ensures Source(Tokenize(s)) == s
    ensures Lexed(Tokenize(s))
    decreases |s|
  {
    if s != "" {
      hide FirstToken;
      var t := FirstToken(s);
      var rest := s[|Text(t)|..];
      assert ([t] + Tokenize(rest))[1..] == Tokenize(rest);
      TokensCoverSource(rest);
      assert s == Text(t) + rest;
    }
  }

  lemma {:induction false} LexedIffScanned(tokens: seq<Token>)
    ensures Lexed(tokens) <==> Tokenize(Source(tokens)) == tokens
  {
    if tokens != [] {
      hide FirstToken;
      LexedIffScanned(tokens[1..]);
      var s := Source(tokens);
      assert s[|Text(tokens[0])|..] == Source(tokens[1..]);
      if s != "" && FirstToken(s) == tokens[0] {
        assert tokens == [tokens[0]] + tokens[1..];
      }
    }
  }

  /** What may follow a token without changing how the token is read. */
  predicate MayPrecede(t: Token, rest: string) {
    match t
    case Raw(c) =>
      && (c == '-' ==> !StartsWith(rest, '-'))
      && (c == '/' ==> !StartsWith(rest, '*'))
      && (c == ':' ==> rest == "" || (rest[0] != ':' && !IsIdentifierStart(rest[0])))
      && (c == '$' ==> DollarTag("$" + rest) == "")
    case Cast => true
    case Param(_) => rest == "" || !IsIdentifierPart(rest[0])
    case Protected(kind, _, closed) => if closed then !Reopens(kind, rest) else rest == ""
  }

  /** A closing quote directly before another quote of its kind is an escaped quote, not a close. */
  predicate Reopens(kind: ScanState, rest: string) {
    (kind == SingleQuote && StartsWith(rest, '\'')) || (kind == DoubleQuote && StartsWith(rest, '"'))
  }

  predicate StandsAlone(t: Token) {
    Text(t) != "" && FirstToken(Text(t)) == t
  }

  lemma {:induction false} IdentifierLengthSplit(s: string, rest: string)
    ensures IdentifierLength(s + rest) ==
      if IdentifierLength(s) < |s| then IdentifierLength(s) else |s| + IdentifierLength(rest)
  {
    if s == "" {
      assert s + rest == rest;
    } else {
      assert (s + rest)[1..] == s[1..] + rest;
      IdentifierLengthSplit(s[1..], rest);
    }
  }

  lemma DollarTagSplit(s: string, rest: string)
    ensures DollarTag(s) != "" ==> DollarTag(s + rest) == DollarTag(s)
    ensures DollarTag(s + rest) != "" && |DollarTag(s + rest)| <= |s| ==> DollarTag(s) == DollarTag(s + rest)
  {
    if s != "" {
      var whole := s + rest;
      assert whole[1..] == s[1..] + rest;
      IdentifierLengthSplit(s[1..], rest);
      var n := IdentifierLength(s[1..]);
      if 1 + n < |s| {
        assert whole[..n + 2] == s[..n + 2];
      }
      if |s| >= 2 {
        assert whole[..2] == s[..2];
      }
    } else {
      assert DollarTag(s) == "";
    }
  }

  lemma OpenedRegionSplit(s: string, rest: string)
    ensures OpenedRegion(s).0 != Normal ==> OpenedRegion(s + rest) == OpenedRegion(s)
    ensures OpenedRegion(s + rest).0 != Normal && |OpenedRegion(s + rest).1| <= |s| ==>
      OpenedRegion(s) == OpenedRegion(s + rest)
  {
    DollarTagSplit(s, rest);
    hide DollarTag;
    var whole := s + rest;
    if |s| >= 2 {
      assert whole[..2] == s[..2];
    }
    if |s| >= 1 {
      assert whole[..1] == s[..1];
    }
  }

  lemma {:induction false} ClosedExtentIsPositive(kind: ScanState, tag: string, s: string)
    requires kind != Normal && (kind == DollarQuote ==> tag != "")
    ensures var e := RegionExtent(kind, tag, s); e.closed ==>
      e.length > 0 && (kind == DollarQuote ==> e.length >= |tag|)
    decreases |s|
  {
    if s != "" {
      var (k, _) := RegionStep(kind, tag, s);
      ClosedExtentIsPositive(kind, tag, s[k..]);
    }
  }

  /** One step inside a region reads the same with more text behind it, unless it takes some of that text along. */
  lemma StepSplit(kind: ScanState, tag: string, s: string, rest: string)
    requires kind != Normal && (kind == DollarQuote ==> tag != "") && s != ""
    ensures var (k, closes) := RegionStep(kind, tag, s); var (k', closes') := RegionStep(kind, tag, s + rest);
      if k' <= |s| then k' == k && closes' == closes && (closes && k == |s| ==> !Reopens(kind, rest))
      else if closes then Reopens(kind, rest) && k == |s|
      else |s| == 1 || (kind == DollarQuote && |s| < |tag|)
  {
    var whole := s + rest;
    assert whole[1..] == s[1..] + rest;
    if kind == DollarQuote && |tag| <= |s| {
      assert whole[..|tag|] == s[..|tag|];
    }
  }

  lemma DropOfAppend(s: string, rest: string, k: nat)
    requires k <= |s|
    ensures (s + rest)[k..] == s[k..] + rest
  {
  }

  lemma ExtentUnfolds(kind: ScanState, tag: string, s: string)
    requires kind != Normal && (kind == DollarQuote ==> tag != "") && s != ""
    ensures var (k, closes) := RegionStep(kind, tag, s); var rest := RegionExtent(kind, tag, s[k..]);
      RegionExtent(kind, tag, s) == if closes then Extent(k, true) else Extent(k + rest.length, rest.closed)
  {
    hide RegionStep;
  }

  /** A region that ends exactly where `s` does still ends there with more text behind it, unless that reopens it. */
  lemma {:induction false} ExtentSplit(kind: ScanState, tag: string, s: string, rest: string)
    requires kind != Normal && (kind == DollarQuote ==> tag != "")
    ensures RegionExtent(kind, tag, s + rest) == Extent(|s|, true) <==>
            RegionExtent(kind, tag, s) == Extent(|s|, true) && !Reopens(kind, rest)
    decreases |s|
  {
    hide RegionExtent, RegionStep, Reopens;
    var whole := s + rest;
    ClosedExtentIsPositive(kind, tag, s);
    ClosedExtentIsPositive(kind, tag, whole);
    if s != "" {
      StepSplit(kind, tag, s, rest);
      ExtentUnfolds(kind, tag, s);
      ExtentUnfolds(kind, tag, whole);
      var (k, closes) := RegionStep(kind, tag, s);
      ClosedExtentIsPositive(kind, tag, s[k..]);
      DropOfAppend(s, rest, k);
      if !closes {
        ExtentSplit(kind, tag, s[k..], rest);
      }
    }
  }

  lemma RawSplit(c: char, rest: string)
    ensures FirstToken([c] + rest) == Raw(c) <==> StandsAlone(Raw(c)) && MayPrecede(Raw(c), rest)
  {
    var whole := [c] + rest;
    assert whole[1..] == rest;
    hide RegionExtent;
    if c == '$' {
      assert whole == "$" + rest;
    }
  }

  lemma ColonToken(s: string)
    ensures FirstToken(":" + s) ==
      if StartsWith(s, ':') then Cast
      else if s != "" && IsIdentifierStart(s[0]) then Param(s[..IdentifierLength(s)])
      else Raw(':')
  {
    hide RegionExtent, IdentifierLength;
    assert (":" + s)[1..] == s;
  }

  lemma ParamSplit(name: string, rest: string)
    ensures FirstToken(":" + name + rest) == Param(name) <==> StandsAlone(Param(name)) && MayPrecede(Param(name), rest)
  {
    hide FirstToken, IdentifierLength;
    assert ":" + name + rest == ":" + (name + rest);
    ColonToken(name + rest);
    ColonToken(name);
    IdentifierLengthSplit(name, rest);
    assert (name + rest)[..|name|] == name && name[..|name|] == name;
    assert rest != "" ==> (IdentifierLength(rest) == 0 <==> !IsIdentifierPart(rest[0]));
  }

  lemma ProtectedSplit(t: Token, rest: string)
    requires t.Protected? && t.body != ""
    ensures FirstToken(t.body + rest) == t <==> StandsAlone(t) && MayPrecede(t, rest)
  {
    hide OpenedRegion, RegionExtent;
    var whole := t.body + rest;
    OpenedRegionSplit(t.body, rest);
    var (kind, opening) := OpenedRegion(t.body);
    if kind != Normal && OpenedRegion(whole) == OpenedRegion(t.body) {
      var inner := t.body[|opening|..];
      DropOfAppend(t.body, rest, |opening|);
      ExtentSplit(kind, opening, inner, rest);
      assert t.body == opening + inner;
      RegionIs(kind, opening, t, inner);
      RegionIs(kind, opening, t, inner + rest);
      assert whole == opening + (inner + rest);
      if rest == "" {
        assert whole == t.body;
      }
    }
  }

  /** A region read from its opening is the token `t` exactly when its extent is what `t` holds beyond the opening. */
  lemma RegionIs(kind: ScanState, opening: string, t: Token, s: string)
    requires kind != Normal && opening != "" && t.Protected? && opening <= t.body && t.body <= opening + s
    ensures Region(kind, opening, opening, s) == t <==>
            t.kind == kind && RegionExtent(kind, opening, s) == Extent(|t.body| - |opening|, t.closed)
  {
    hide RegionExtent;
    var e := RegionExtent(kind, opening, s);
    assert (opening + s)[..|t.body|] == opening + s[..|t.body| - |opening|];
  }

  /** Reading a token back from the front of a text: the token must read back alone, and bear what follows it. */
  lemma FirstTokenSplit(t: Token, rest: string)
    requires Text(t) != ""
    ensures FirstToken(Text(t) + rest) == t <==> StandsAlone(t) && MayPrecede(t, rest)
  {
    hide FirstToken;
    match t
    case Raw(c) => RawSplit(c, rest);
    case Cast => CastSplit(rest);
    case Param(name) => ParamSplit(name, rest);
    case Protected(_, _, _) => ProtectedSplit(t, rest);
  }

  lemma CastSplit(rest: string)
    ensures FirstToken("::" + rest) == Cast && FirstToken("::") == Cast
  {
    hide RegionExtent, DollarTag;
  }

  lemma LexedCons(t: Token, tokens: seq<Token>)
    ensures Lexed([t] + tokens) <==> StandsAlone(t) && MayPrecede(t, Source(tokens)) && Lexed(tokens)
  {
    hide FirstToken, MayPrecede;
    var all := [t] + tokens;
    assert all[1..] == tokens;
    if Text(t) != "" {
      FirstTokenSplit(t, Source(tokens));
    }
  }

  lemma LexedHead(tokens: seq<Token>)
    requires Lexed(tokens) && tokens != []
    ensures Text(tokens[0]) != "" && StandsAlone(tokens[0]) && MayPrecede(tokens[0], Source(tokens[1..]))
    ensures Lexed(tokens[1..])
  {
    hide FirstToken;
    assert Text(FirstToken(Source(tokens))) != "";
    FirstTokenSplit(tokens[0], Source(tokens[1..]));
  }
}
