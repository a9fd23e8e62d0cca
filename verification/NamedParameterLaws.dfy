/** Scanning compiled output again: when it finds the same tokens, and an input whose output exposes quoted text. */
module NamedParameterLaws {
  import opened Texts
  import opened Wrappers
  import opened NamedParameters
  import opened NamedParameterLexing

  // ------------------------------------------------ scanning compiled output

  function RawChars(s: string): seq<Token> {
    seq(|s|, i requires 0 <= i < |s| => Raw(s[i]))
  }

  /** The source's tokens with every parameter turned into the plain characters of its placeholder. */
  function Spread(tokens: seq<Token>, style: PlaceholderStyle, count: nat): seq<Token> {
    if tokens == [] then []
    else if tokens[0].Param? then
      RawChars(ResolvePlaceholder(style, count + 1)) + Spread(tokens[1..], style, count + 1)
    else [tokens[0]] + Spread(tokens[1..], style, count)
  }

  function Regions(tokens: seq<Token>): seq<Token> {
    if tokens == [] then []
    else (if tokens[0].Protected? then [tokens[0]] else []) + Regions(tokens[1..])
  }

  lemma {:induction false} RawCharsAre(s: string, more: seq<Token>)
    ensures Source(RawChars(s) + more) == s + Source(more)
    ensures Names(RawChars(s) + more) == Names(more)
    ensures Regions(RawChars(s) + more) == Regions(more)
  {
    if s == "" {
      assert RawChars(s) + more == more;
    } else {
      var all := RawChars(s) + more;
      assert all[1..] == RawChars(s[1..]) + more;
      RawCharsAre(s[1..], more);
    }
  }

  lemma {:induction false} SpreadIsRendered(tokens: seq<Token>, style: PlaceholderStyle, count: nat)
    ensures Source(Spread(tokens, style, count)) == Render(tokens, style, count)
    ensures Names(Spread(tokens, style, count)) == []
    ensures Regions(Spread(tokens, style, count)) == Regions(tokens)
  {
    if tokens != [] {
      if tokens[0].Param? {
        RawCharsAre(ResolvePlaceholder(style, count + 1), Spread(tokens[1..], style, count + 1));
        SpreadIsRendered(tokens[1..], style, count + 1);
      } else {
        SpreadIsRendered(tokens[1..], style, count);
        assert Spread(tokens, style, count)[1..] == Spread(tokens[1..], style, count);
      }
    }
  }

  /** Plain identifier characters that run up to a parameter. */
  predicate RunEndsAtParam(tokens: seq<Token>) {
    tokens != [] &&
    (tokens[0].Param? || (tokens[0].Raw? && IsIdentifierPart(tokens[0].c) && RunEndsAtParam(tokens[1..])))
  }

  /** After a plain "$": an identifier, possibly empty, that runs up to a parameter. */
  predicate FormsTag(tokens: seq<Token>) {
    RunEndsAtParam(tokens) && (tokens[0].Raw? ==> IsIdentifierStart(tokens[0].c))
  }

  /** A plain "$" or "$tag" stands directly before a parameter somewhere in the text. */
  predicate Joins(tokens: seq<Token>) {
    tokens != [] && ((tokens[0] == Raw('$') && FormsTag(tokens[1..])) || Joins(tokens[1..]))
  }

  lemma HeadOfRendered(tokens: seq<Token>, style: PlaceholderStyle, count: nat)
    requires Lexed(tokens)
    ensures Render(tokens, style, count) == "" <==> Source(tokens) == ""
    ensures Source(tokens) != "" && !tokens[0].Param? ==> Render(tokens, style, count)[0] == Source(tokens)[0]
    ensures Source(tokens) != "" && tokens[0].Param? ==>
      Source(tokens)[0] == ':' && Render(tokens, style, count)[0] == if style == PgIndexed then '$' else '?'
  {
    hide FirstToken, Digits;
    if tokens != [] {
      LexedHead(tokens);
    }
  }

  lemma RenderedMayFollow(t: Token, tokens: seq<Token>, style: PlaceholderStyle, count: nat)
    requires Lexed(tokens) && MayPrecede(t, Source(tokens)) && t != Raw('$') && !t.Param?
    ensures MayPrecede(t, Render(tokens, style, count))
  {
    hide Lexed, Source, Render;
    HeadOfRendered(tokens, style, count);
  }

  lemma RegionHeadIsNoIdentifier(t: Token)
    requires t.Protected? && StandsAlone(t)
    ensures !IsIdentifierPart(t.body[0])
  {
    hide RegionExtent, DollarTag;
  }

  /** How the identifier runs at the front of a source text and of its compiled text compare. */
  ghost predicate SameRun(tokens: seq<Token>, style: PlaceholderStyle, s: string, r: string) {
    var n := IdentifierLength(s);
    && IdentifierLength(r) == n
    && (RunEndsAtParam(tokens) ==> n < |r| && r[n] == if style == PgIndexed then '$' else '?')
    && (!RunEndsAtParam(tokens) ==> (n < |s| <==> n < |r|) && (n < |s| ==> r[n] == s[n]))
  }

  lemma SameRunStarts(tokens: seq<Token>, style: PlaceholderStyle, count: nat)
    requires Lexed(tokens) && !(tokens != [] && tokens[0].Raw? && IsIdentifierPart(tokens[0].c))
    ensures SameRun(tokens, style, Source(tokens), Render(tokens, style, count))
  {
    hide FirstToken, StandsAlone, MayPrecede, Source, Render, Lexed;
    HeadOfRendered(tokens, style, count);
    TextIsNonEmpty(tokens);
  }

  lemma SameRunGrows(tokens: seq<Token>, style: PlaceholderStyle, s: string, r: string)
    requires tokens != [] && tokens[0].Raw? && IsIdentifierPart(tokens[0].c)
    requires SameRun(tokens[1..], style, s, r)
    ensures SameRun(tokens, style, [tokens[0].c] + s, [tokens[0].c] + r)
  {
    var c := tokens[0].c;
    assert ([c] + s)[1..] == s && ([c] + r)[1..] == r;
  }

  lemma {:induction false} RunsAgree(tokens: seq<Token>, style: PlaceholderStyle, count: nat)
    requires Lexed(tokens)
    ensures SameRun(tokens, style, Source(tokens), Render(tokens, style, count))
  {
    hide FirstToken, SameRun, RunEndsAtParam;
    if tokens != [] && tokens[0].Raw? && IsIdentifierPart(tokens[0].c) {
      RunsAgree(tokens[1..], style, count);
      SameRunGrows(tokens, style, Source(tokens[1..]), Render(tokens[1..], style, count));
    } else {
      SameRunStarts(tokens, style, count);
    }
  }

  /** Behind a plain "$", compiled text starts a dollar tag exactly when a numbered placeholder completes one. */
  lemma DollarBeforeRendered(tokens: seq<Token>, style: PlaceholderStyle, count: nat)
    requires Lexed(tokens) && MayPrecede(Raw('$'), Source(tokens))
    ensures MayPrecede(Raw('$'), Render(tokens, style, count)) <==> !(style == PgIndexed && FormsTag(tokens))
  {
    hide Lexed, IdentifierLength, FirstToken;
    var s, r := Source(tokens), Render(tokens, style, count);
    RunsAgree(tokens, style, count);
    HeadOfRendered(tokens, style, count);
    assert ("$" + s)[1..] == s && ("$" + r)[1..] == r;
    hide Source, Render;
    var n := IdentifierLength(s);
    assert ("$" + s)[1 + n..] == s[n..] && ("$" + r)[1 + n..] == r[n..];
    TextIsNonEmpty(tokens);
  }

  lemma TextIsNonEmpty(tokens: seq<Token>)
    requires Lexed(tokens)
    ensures tokens == [] <==> Source(tokens) == ""
    ensures tokens != [] && tokens[0].Raw? ==> Source(tokens)[0] == tokens[0].c
    ensures tokens != [] && tokens[0].Protected? ==> !IsIdentifierPart(Source(tokens)[0])
    ensures tokens != [] && (tokens[0].Cast? || tokens[0].Param?) ==> Source(tokens)[0] == ':'
  {
    hide FirstToken, StandsAlone;
    if tokens != [] {
      LexedHead(tokens);
      if tokens[0].Protected? {
        RegionHeadIsNoIdentifier(tokens[0]);
      }
    }
  }

  lemma {:induction false} DigitsLexed(digits: string, more: seq<Token>)
    requires forall c :: c in digits ==> '0' <= c <= '9'
    ensures Lexed(RawChars(digits) + more) <==> Lexed(more)
  {
    if digits == "" {
      assert RawChars(digits) + more == more;
    } else {
      hide Lexed, FirstToken;
      var rest := RawChars(digits[1..]) + more;
      assert RawChars(digits) + more == [Raw(digits[0])] + rest;
      LexedCons(Raw(digits[0]), rest);
      assert digits[0] in digits;
      PlainAlone(digits[0]);
      assert forall c :: c in digits[1..] ==> c in digits;
      DigitsLexed(digits[1..], more);
    }
  }

  lemma PlainAlone(c: char)
    requires c != '\'' && c != '"'
    ensures StandsAlone(Raw(c))
  {
    hide RegionExtent;
    assert [c][1..] == "";
  }

  lemma PlaceholderLexed(style: PlaceholderStyle, index: nat, more: seq<Token>)
    ensures Lexed(RawChars(ResolvePlaceholder(style, index)) + more) <==> Lexed(more)
  {
    hide Lexed, FirstToken;
    match style
    case Question =>
      assert RawChars("?") + more == [Raw('?')] + more;
      LexedCons(Raw('?'), more);
      PlainAlone('?');
    case PgIndexed =>
      var digits := Digits(index);
      var rest := RawChars(digits) + more;
      assert RawChars("$" + digits) + more == [Raw('$')] + rest;
      LexedCons(Raw('$'), rest);
      PlainAlone('$');
      DigitsLexed(digits, more);
      RawCharsAre(digits, more);
      assert digits[0] in digits && ("$" + Source(rest))[1] == digits[0];
      assert ("$" + Source(rest))[1..] == Source(rest);
  }

  lemma {:induction false} SpreadLexed(tokens: seq<Token>, style: PlaceholderStyle, count: nat)
    requires Lexed(tokens)
    ensures Lexed(Spread(tokens, style, count)) <==> !(style == PgIndexed && Joins(tokens))
  {
    if tokens != [] {
      hide FirstToken, MayPrecede, Digits, ResolvePlaceholder;
      var t, rest := tokens[0], tokens[1..];
      LexedHead(tokens);
      if t.Param? {
        SpreadLexed(rest, style, count + 1);
        PlaceholderLexed(style, count + 1, Spread(rest, style, count + 1));
      } else {
        SpreadLexed(rest, style, count);
        SpreadIsRendered(rest, style, count);
        LexedCons(t, Spread(rest, style, count));
        if t == Raw('$') {
          DollarBeforeRendered(rest, style, count);
        } else {
          RenderedMayFollow(t, rest, style, count);
        }
      }
    }
  }

  /** Scanning compiled text finds the source's tokens, placeholders as plain text, exactly when no "$" joins. */
  lemma RescanFindsSameTokens(sql: string, style: PlaceholderStyle, count: nat)
    ensures var tokens := Tokenize(sql);
      Tokenize(Render(tokens, style, count)) == Spread(tokens, style, count) <==>
      !(style == PgIndexed && Joins(tokens))
  {
    TokensCoverSource(sql);
    SpreadLexed(Tokenize(sql), style, count);
    SpreadIsRendered(Tokenize(sql), style, count);
    LexedIffScanned(Spread(Tokenize(sql), style, count));
  }

  /** Why the condition is there: "$:a" compiles to "$$1", whose "$$" exposes a parameter the source had quoted. */
  lemma JoinedDollarExposesText()
    ensures Tokenize("$:a$$:b$$") == [Raw('$'), Param("a"), Protected(DollarQuote, "$$:b$$", true)]
    ensures Tokenize("$$1$$:b$$") == [Protected(DollarQuote, "$$1$$", true), Param("b"),
      Protected(DollarQuote, "$$", false)]
    ensures Compile("$:a$$:b$$", map["a" := 0], PgIndexed) == Success(CompileResult("$$1$$:b$$", [0], ["a"]))
    ensures Compile("$$1$$:b$$", map["b" := 0], PgIndexed).Success?
  {
    ScanJoined();
    ScanRejoined();
    hide Tokenize, FirstToken, Digits;
    OneDigit();
    var tokens := Tokenize("$:a$$:b$$");
    assert tokens[1..] == [Param("a"), Protected(DollarQuote, "$$:b$$", true)];
    assert tokens[1..][1..] == [Protected(DollarQuote, "$$:b$$", true)];
    var again := Tokenize("$$1$$:b$$");
    assert again[1..] == [Param("b"), Protected(DollarQuote, "$$", false)];
    assert again[1..][1..] == [Protected(DollarQuote, "$$", false)];
    assert Render(tokens, PgIndexed, 0) == "$$1$$:b$$" by {
      assert Render(tokens[1..][1..], PgIndexed, 1) == "$$:b$$" + "";
      assert "$" + (("$" + "1") + ("$$:b$$" + "")) == "$$1$$:b$$";
    }
    assert Names(tokens) == ["a"] && Names(again) == ["b"];
    assert ValuesOf(["a"], map["a" := 0]) == [0];
  }

  lemma OneDigit()
    ensures Digits(1) == "1"
  {
  }

  lemma ScanOne(s: string, t: Token, rest: string)
    requires Text(t) != "" && s == Text(t) + rest && FirstToken(s) == t
    ensures Tokenize(s) == [t] + Tokenize(rest)
  {
    hide FirstToken, Tokenize;
    TokenizeUnfolds(s);
    assert s[|Text(t)|..] == rest;
  }

  lemma ScanJoined()
    ensures Tokenize("$:a$$:b$$") == [Raw('$'), Param("a"), Protected(DollarQuote, "$$:b$$", true)]
  {
    hide FirstToken, Tokenize;
    var s2 := "$$:b$$";
    ScanDollarQuote(":b", "");
    assert "$$" + ":b" + "$$" == s2 && s2 + "" == s2;
    ScanOne(s2, Protected(DollarQuote, s2, true), "");
    ScanParam("a", s2);
    ScanOne(":a" + s2, Param("a"), s2);
    ScanPlainDollar(":a" + s2);
    ScanOne("$" + (":a" + s2), Raw('$'), ":a" + s2);
    TokenizeUnfolds("");
    assert "$" + (":a" + s2) == "$:a$$:b$$";
  }

  lemma ScanRejoined()
    ensures Tokenize("$$1$$:b$$") ==
      [Protected(DollarQuote, "$$1$$", true), Param("b"), Protected(DollarQuote, "$$", false)]
  {
    hide FirstToken, Tokenize;
    ScanOpenDollarQuote();
    ScanOne("$$", Protected(DollarQuote, "$$", false), "");
    ScanParam("b", "$$");
    ScanOne(":b" + "$$", Param("b"), "$$");
    ScanDollarQuote("1", ":b$$");
    assert "$$" + "1" + "$$" == "$$1$$" && ":b" + "$$" == ":b$$";
    ScanOne("$$1$$" + ":b$$", Protected(DollarQuote, "$$1$$", true), ":b$$");
    TokenizeUnfolds("");
    assert "$$1$$" + ":b$$" == "$$1$$:b$$";
  }

  lemma ScanPlainDollar(rest: string)
    requires StartsWith(rest, ':')
    ensures FirstToken("$" + rest) == Raw('$')
  {
    hide RegionExtent;
    assert ("$" + rest)[1..] == rest;
  }

  lemma ScanOpenDollarQuote()
    ensures FirstToken("$$") == Protected(DollarQuote, "$$", false)
  {
    var s := "$$";
    assert s[..2] == s && s[2..] == "" && s[1..] == "$" && DollarTag(s) == s;
  }

  lemma ScanParam(name: string, rest: string)
    requires |name| == 1 && IsIdentifierStart(name[0]) && (rest == "" || !IsIdentifierPart(rest[0]))
    ensures FirstToken(":" + name + rest) == Param(name)
  {
    ColonToken(name + rest);
    IdentifierLengthSplit(name, rest);
    assert IdentifierLength(name[1..]) == 0 && (name + rest)[..1] == name;
    assert ":" + name + rest == ":" + (name + rest);
  }

  lemma ScanDollarQuote(content: string, more: string)
    requires '$' !in content
    ensures FirstToken("$$" + content + "$$" + more) == Protected(DollarQuote, "$$" + content + "$$", true)
  {
    var s := "$$" + content + "$$" + more;
    hide RegionExtent;
    ClosesAt("$$", content, more);
    assert s[..2] == "$$" && s[1..][0] == '$';
    assert s[2..] == content + "$$" + more;
    assert (content + "$$" + more)[..|content| + 2] == content + "$$";
    assert "$$" + (content + "$$") == "$$" + content + "$$";
  }

  /** The extent of a dollar quote whose content has no "$". */
  lemma {:induction false} ClosesAt(tag: string, content: string, more: string)
    requires tag != "" && tag[0] == '$' && '$' !in content
    ensures RegionExtent(DollarQuote, tag, content + tag + more) == Extent(|content| + |tag|, true)
  {
    var s := content + tag + more;
    if content == "" {
      assert s[..|tag|] == tag;
    } else {
      assert s[1..] == content[1..] + tag + more;
      ClosesAt(tag, content[1..], more);
    }
  }
}
