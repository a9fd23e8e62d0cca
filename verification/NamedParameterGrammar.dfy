/** The language of the scanner spelled out by characters, with no reference to how it scans. */
module NamedParameterGrammar {
  import opened NamedParameters
  import opened NamedParameterLexing

  // -------------------------------------------------------------- the grammar

  predicate IsLetter(c: char) {
    'a' <= c <= 'z' || 'A' <= c <= 'Z' || c == '_'
  }

  predicate IsWordChar(c: char) {
    IsLetter(c) || '0' <= c <= '9'
  }

  predicate IsIdentifier(name: string) {
    name != "" && IsLetter(name[0]) && forall i :: 0 <= i < |name| ==> IsWordChar(name[i])
  }

  /** "$$", or an identifier between two dollars. */
  predicate IsTag(tag: string) {
    |tag| >= 2 && tag[0] == '$' && tag[|tag| - 1] == '$' && (|tag| > 2 ==> IsIdentifier(tag[1..|tag| - 1]))
  }

  predicate OccursAt(s: string, part: string, i: nat) {
    i <= |s| && part <= s[i..]
  }

  predicate Occurs(s: string, part: string) {
    exists i :: 0 <= i <= |s| && OccursAt(s, part, i)
  }

  /** `s` ends with `part`, which does not occur before. */
  predicate EndsAtFirst(s: string, part: string) {
    |part| <= |s| && OccursAt(s, part, |s| - |part|) && forall i :: 0 <= i < |s| - |part| ==> !OccursAt(s, part, i)
  }

  /** A text as it is written inside quotes: every quote in it doubled. */
  function Escaped(text: string, quote: char): string {
    if text == "" then ""
    else (if text[0] == quote then [quote, quote] else [text[0]]) + Escaped(text[1..], quote)
  }

  /** What a region holds after its opening: up to its first terminator, or none and all the rest. */
  ghost predicate Inside(kind: ScanState, opening: string, inner: string, closed: bool) {
    match kind
    case Normal => false
    case LineComment => if closed then EndsAtFirst(inner, "\n") else !Occurs(inner, "\n")
    case BlockComment => if closed then EndsAtFirst(inner, "*/") else !Occurs(inner, "*/")
    case SingleQuote => exists text :: inner == Escaped(text, '\'') + if closed then "'" else ""
    case DoubleQuote => exists text :: inner == Escaped(text, '"') + if closed then "\"" else ""
    case DollarQuote => if closed then EndsAtFirst(inner, opening) else !Occurs(inner, opening)
  }

  predicate IsOpening(kind: ScanState, opening: string) {
    match kind
    case Normal => false
    case LineComment => opening == "--"
    case BlockComment => opening == "/*"
    case SingleQuote => opening == "'"
    case DoubleQuote => opening == "\""
    case DollarQuote => IsTag(opening)
  }

  ghost predicate IsToken(t: Token) {
    match t
    case Raw(c) => c != '\'' && c != '"'
    case Cast => true
    case Param(name) => IsIdentifier(name)
    case Protected(kind, body, closed) =>
      exists opening, inner ::
        IsOpening(kind, opening) && body == opening + inner && Inside(kind, opening, inner, closed)
  }

  /** What stops a token from being followed directly by `rest`: the two would be read as something else. */
  ghost predicate Clings(t: Token, rest: string) {
    match t
    case Raw('-') => "-" <= rest
    case Raw('/') => "*" <= rest
    case Raw(':') => ":" <= rest || (rest != "" && IsLetter(rest[0]))
    case Raw('$') => exists tag :: IsTag(tag) && tag <= "$" + rest
    case Param(_) => rest != "" && IsWordChar(rest[0])
    case Protected(SingleQuote, _, true) => "'" <= rest
    case Protected(DoubleQuote, _, true) => "\"" <= rest
    case Protected(_, _, false) => rest != ""
    case _ => false
  }

  ghost predicate FitsAt(tokens: seq<Token>, i: nat)
    requires i < |tokens|
  {
    IsToken(tokens[i]) && !Clings(tokens[i], Source(tokens[i + 1..]))
  }

  ghost predicate Grammatical(tokens: seq<Token>) {
    forall i :: 0 <= i < |tokens| ==> FitsAt(tokens, i)
  }

  // --------------------------------------------------- identifiers and tags

  lemma {:induction false} IdentifierLengthIs(s: string, n: nat)
    requires n <= |s| && (forall i :: 0 <= i < n ==> IsWordChar(s[i])) && (n < |s| ==> !IsWordChar(s[n]))
    ensures IdentifierLength(s) == n
  {
    if n > 0 {
      IdentifierLengthIs(s[1..], n - 1);
    }
  }

  /** The tag the scanner reads at the front of a text is the one tag the text starts with. */
  lemma TagRead(s: string)
    ensures DollarTag(s) != "" ==> IsTag(DollarTag(s)) && DollarTag(s) <= s
  {
    var tag := DollarTag(s);
    if |tag| > 2 {
      var n := IdentifierLength(s[1..]);
      assert tag == s[..n + 2] && s[1 + n..][0] == '$' && tag[1..|tag| - 1] == s[1..][..n];
    }
  }

  lemma TagIsRead(tag: string, rest: string)
    requires IsTag(tag)
    ensures DollarTag(tag + rest) == tag
  {
    hide IdentifierLength;
    var s := tag + rest;
    if |tag| == 2 {
      assert s[1..][0] == '$' && s[..2] == tag;
    } else {
      var name := tag[1..|tag| - 1];
      assert name[0] == s[1] && s[1..] == name + ("$" + rest);
      assert forall i :: 0 <= i < |name| ==> IsWordChar((name + ("$" + rest))[i]);
      IdentifierLengthIs(s[1..], |name|);
      assert s[1 + |name|..] == "$" + rest && s[..|name| + 2] == tag;
    }
  }

  lemma TagAhead(s: string)
    ensures DollarTag(s) == "" <==> !exists tag :: IsTag(tag) && tag <= s
  {
    TagRead(s);
    hide DollarTag, IsTag;
    if tag :| IsTag(tag) && tag <= s {
      assert s == tag + s[|tag|..] && |tag| >= 2 by {
        assert |tag| >= 2 by { OpeningsAreNonEmpty(DollarQuote, tag); }
      }
      TagIsRead(tag, s[|tag|..]);
    }
  }

  lemma OpeningsAreNonEmpty(kind: ScanState, opening: string)
    requires IsOpening(kind, opening)
    ensures opening != "" && kind != Normal && (kind == DollarQuote ==> |opening| >= 2)
  {
  }

  /** The region a text opens is the one whose opening it starts with. */
  lemma OpeningRead(s: string)
    ensures OpenedRegion(s).0 != Normal ==> IsOpening(OpenedRegion(s).0, OpenedRegion(s).1)
  {
    hide DollarTag, IsTag;
    TagRead(s);
  }

  lemma OpeningIsRead(kind: ScanState, opening: string, rest: string)
    requires IsOpening(kind, opening)
    ensures OpenedRegion(opening + rest) == (kind, opening)
  {
    var s := opening + rest;
    OpeningsAreNonEmpty(kind, opening);
    assert s[0] == opening[0] && s[..|opening|] == opening;
    if kind == DollarQuote {
      TagIsRead(opening, rest);
    }
    hide DollarTag;
  }

  // ---------------------------------------------------------- where regions end

  predicate IsQuoteKind(kind: ScanState) {
    kind == SingleQuote || kind == DoubleQuote
  }

  function QuoteOf(kind: ScanState): char {
    if kind == SingleQuote then '\'' else '"'
  }

  function Terminator(kind: ScanState, opening: string): string {
    if kind == LineComment then "\n" else if kind == BlockComment then "*/" else opening
  }

  /** Comments and dollar quotes are read up to the first occurrence of a terminator. */
  lemma StepSeeks(kind: ScanState, tag: string, s: string)
    requires kind != Normal && !IsQuoteKind(kind) && (kind == DollarQuote ==> tag != "") && s != ""
    ensures RegionStep(kind, tag, s) ==
      if Terminator(kind, tag) <= s then (|Terminator(kind, tag)|, true) else (1, false)
  {
  }

  lemma OccursFromNext(s: string, part: string)
    requires s != "" && part != "" && !(part <= s)
    ensures Occurs(s, part) <==> Occurs(s[1..], part)
    ensures EndsAtFirst(s, part) <==> EndsAtFirst(s[1..], part)
  {
    assert forall i :: 0 < i <= |s| ==> s[1..][i - 1..] == s[i..];
    assert forall i :: 0 < i <= |s| ==> (OccursAt(s[1..], part, i - 1) <==> OccursAt(s, part, i));
    assert !OccursAt(s, part, 0);
    if i :| 0 <= i <= |s[1..]| && OccursAt(s[1..], part, i) {
      assert OccursAt(s, part, i + 1);
    }
    if EndsAtFirst(s, part) && |part| < |s| {
      forall i | 0 <= i < |s[1..]| - |part| ensures !OccursAt(s[1..], part, i) {
        assert !OccursAt(s, part, i + 1);
      }
    }
  }

  lemma {:induction false} SeekEnds(kind: ScanState, tag: string, s: string)
    requires kind != Normal && !IsQuoteKind(kind) && (kind == DollarQuote ==> tag != "")
    ensures var e, part := RegionExtent(kind, tag, s), Terminator(kind, tag);
      && (e == Extent(|s|, true) <==> EndsAtFirst(s, part))
      && (!e.closed <==> !Occurs(s, part))
    decreases |s|
  {
    var part := Terminator(kind, tag);
    if s == "" {
      assert part != "";
    } else {
      StepSeeks(kind, tag, s);
      hide RegionStep, Terminator;
      if part <= s {
        assert OccursAt(s, part, 0);
        if |s| == |part| {
          assert s[|s| - |part|..] == s;
        }
      } else {
        OccursFromNext(s, part);
        SeekEnds(kind, tag, s[1..]);
        assert part == Terminator(kind, tag);
      }
    }
  }

  lemma {:induction false} EscapedReads(kind: ScanState, tag: string, text: string)
    requires IsQuoteKind(kind)
    ensures RegionExtent(kind, tag, Escaped(text, QuoteOf(kind))).closed == false
    ensures var s := Escaped(text, QuoteOf(kind)) + [QuoteOf(kind)]; RegionExtent(kind, tag, s) == Extent(|s|, true)
  {
    if text != "" {
      EscapedReads(kind, tag, text[1..]);
      var quote := QuoteOf(kind);
      EscapedFirst(kind, tag, text, Escaped(text[1..], quote));
      EscapedFirst(kind, tag, text, Escaped(text[1..], quote) + [quote]);
      var first := if text[0] == quote then [quote, quote] else [text[0]];
      assert first + Escaped(text[1..], quote) + [quote] == first + (Escaped(text[1..], quote) + [quote]);
    }
  }

  /** What a first character, doubled if it is a quote, adds to the extent of a quoted text. */
  lemma EscapedFirst(kind: ScanState, tag: string, text: string, rest: string)
    requires IsQuoteKind(kind) && text != ""
    ensures var quote := QuoteOf(kind);
      var first := if text[0] == quote then [quote, quote] else [text[0]];
      var e := RegionExtent(kind, tag, rest);
      RegionExtent(kind, tag, first + rest) == Extent(|first| + e.length, e.closed)
  {
    var quote := QuoteOf(kind);
    var first := if text[0] == quote then [quote, quote] else [text[0]];
    assert (first + rest)[|first|..] == rest;
  }

  lemma {:induction false} ReadsEscaped(kind: ScanState, tag: string, s: string) returns (text: string)
    requires IsQuoteKind(kind)
    requires var e := RegionExtent(kind, tag, s); e.closed ==> e.length == |s|
    ensures s == Escaped(text, QuoteOf(kind)) + if RegionExtent(kind, tag, s).closed then [QuoteOf(kind)] else ""
    decreases |s|
  {
    var quote := QuoteOf(kind);
    if s == "" || s == [quote] {
      text := "";
    } else {
      var k := RegionStep(kind, tag, s).0;
      var rest := ReadsEscaped(kind, tag, s[k..]);
      text := [s[0]] + rest;
      assert text[1..] == rest;
    }
  }

  lemma QuoteEnds(kind: ScanState, opening: string, s: string, closed: bool)
    requires IsQuoteKind(kind)
    ensures Inside(kind, opening, s, closed) <==>
      RegionExtent(kind, opening, s).closed == closed && RegionExtent(kind, opening, s).length == |s|
  {
    var quote := QuoteOf(kind);
    hide RegionExtent, Escaped;
    if RegionExtent(kind, opening, s).closed == closed && RegionExtent(kind, opening, s).length == |s| {
      var text := ReadsEscaped(kind, opening, s);
      assert s == Escaped(text, quote) + if closed then [quote] else "";
    }
    if text :| s == Escaped(text, quote) + if closed then [quote] else "" {
      EscapedReads(kind, opening, text);
      assert Escaped(text, quote) + "" == Escaped(text, quote);
    }
  }

  /** A region reaches exactly as far as the grammar says. */
  lemma InsideIffRead(kind: ScanState, opening: string, s: string, closed: bool)
    requires IsOpening(kind, opening)
    ensures Inside(kind, opening, s, closed) <==>
      RegionExtent(kind, opening, s).closed == closed && RegionExtent(kind, opening, s).length == |s|
  {
    hide RegionExtent, IsTag, EndsAtFirst, Occurs;
    OpeningsAreNonEmpty(kind, opening);
    if IsQuoteKind(kind) {
      QuoteEnds(kind, opening, s, closed);
    } else {
      SeekEnds(kind, opening, s);
    }
  }

  // -------------------------------------------------------- tokens, one by one

  lemma GrammaticalRegionIsRead(t: Token, opening: string, inner: string)
    requires t.Protected? && IsOpening(t.kind, opening) && t.body == opening + inner
    requires Inside(t.kind, opening, inner, t.closed)
    ensures StandsAlone(t)
  {
    hide OpenedRegion, RegionExtent, IsOpening, Inside;
    OpeningsAreNonEmpty(t.kind, opening);
    OpeningIsRead(t.kind, opening, inner);
    InsideIffRead(t.kind, opening, inner, t.closed);
    assert t.body[|opening|..] == inner;
  }

  lemma ReadRegionIsGrammatical(t: Token)
    requires t.Protected? && StandsAlone(t)
    ensures IsToken(t)
  {
    hide OpenedRegion, RegionExtent, IsOpening, Inside;
    OpeningRead(t.body);
    var opening := OpenedRegion(t.body).1;
    var inner := t.body[|opening|..];
    assert t.body == opening + inner;
    InsideIffRead(t.kind, opening, inner, t.closed);
  }

  lemma RegionIffGrammatical(t: Token)
    requires t.Protected?
    ensures IsToken(t) <==> StandsAlone(t)
  {
    hide StandsAlone, IsOpening, Inside;
    if opening, inner :|
      IsOpening(t.kind, opening) && t.body == opening + inner && Inside(t.kind, opening, inner, t.closed)
    {
      GrammaticalRegionIsRead(t, opening, inner);
    }
    if StandsAlone(t) {
      ReadRegionIsGrammatical(t);
    }
  }

  lemma ParamIffGrammatical(name: string)
    ensures IsIdentifier(name) <==> StandsAlone(Param(name))
  {
    hide FirstToken;
    ColonToken(name);
    if IsIdentifier(name) {
      IdentifierLengthIs(name, |name|);
    }
  }

  lemma TokenIffGrammatical(t: Token)
    ensures IsToken(t) <==> StandsAlone(t)
  {
    match t
    case Raw(c) =>
      hide RegionExtent;
    case Cast =>
      CastSplit("");
    case Param(name) =>
      ParamIffGrammatical(name);
    case Protected(_, _, _) =>
      RegionIffGrammatical(t);
  }

  lemma ClingsIff(t: Token, rest: string)
    ensures Clings(t, rest) <==> !MayPrecede(t, rest)
  {
    TagAhead("$" + rest);
    hide DollarTag, IsTag;
  }

  lemma {:induction false} LexedIffGrammatical(tokens: seq<Token>)
    ensures Lexed(tokens) <==> Grammatical(tokens)
  {
    if tokens != [] {
      var t, rest := tokens[0], tokens[1..];
      assert tokens == [t] + rest;
      LexedIffGrammatical(rest);
      LexedCons(t, rest);
      TokenIffGrammatical(t);
      ClingsIff(t, Source(rest));
      GrammaticalCons(t, rest);
      hide IsToken, StandsAlone, Clings, MayPrecede, Lexed, Grammatical;
    }
  }

  lemma GrammaticalCons(t: Token, rest: seq<Token>)
    ensures Grammatical([t] + rest) <==> IsToken(t) && !Clings(t, Source(rest)) && Grammatical(rest)
  {
    hide IsToken, Clings;
    var all := [t] + rest;
    assert all[1..] == rest;
    forall i | 0 <= i < |rest| ensures FitsAt(rest, i) <==> FitsAt(all, i + 1) {
      assert all[i + 1] == rest[i] && all[i + 2..] == rest[i + 1..];
    }
    assert FitsAt(all, 0) <==> IsToken(t) && !Clings(t, Source(rest));
    hide FitsAt;
    if Grammatical(rest) {
      assert forall i :: 0 < i < |all| ==> (FitsAt(all, i) <==> FitsAt(rest, i - 1));
    }
  }

  /** The scanner's tokens of a text are the one list of tokens of the grammar that spells the text. */
  lemma ScansByTheGrammar(sql: string, tokens: seq<Token>)
    ensures Tokenize(sql) == tokens <==> Source(tokens) == sql && Grammatical(tokens)
  {
    hide Tokenize, Source, Lexed, Grammatical;
    TokensCoverSource(sql);
    LexedIffScanned(tokens);
    LexedIffGrammatical(tokens);
    LexedIffGrammatical(Tokenize(sql));
  }
}
