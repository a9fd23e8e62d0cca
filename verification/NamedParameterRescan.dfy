/** Scanning compiled text again: exactly when it finds the regions of the source. */
module NamedParameterRescan {
  import opened Texts
  import opened Wrappers
  import opened NamedParameters
  import opened NamedParameterLexing
  import opened NamedParameterLaws

  // ------------------------------------------------------------- quiet text

  /** At `i` nothing but a dollar quote can open. */
  predicate QuietAt(s: string, i: nat)
    requires i < |s|
  {
    && s[i] != '\'' && s[i] != '"'
    && (i + 1 < |s| ==> !(s[i] == '-' && s[i + 1] == '-') && !(s[i] == '/' && s[i + 1] == '*'))
  }

  predicate Quiet(s: string) {
    forall i :: 0 <= i < |s| ==> QuietAt(s, i)
  }

  /** No comment opens across the seam of `s` and `t`. */
  predicate Fits(s: string, t: string) {
    s != "" && t != "" ==>
      !(s[|s| - 1] == '-' && t[0] == '-') && !(s[|s| - 1] == '/' && t[0] == '*')
  }

  lemma QuietParts(s: string, t: string)
    requires Quiet(s + t)
    ensures Quiet(s) && Quiet(t)
  {
    var whole := s + t;
    forall i | 0 <= i < |s| ensures QuietAt(s, i) {
      assert QuietAt(whole, i);
    }
    forall i | 0 <= i < |t| ensures QuietAt(t, i) {
      assert QuietAt(whole, |s| + i);
    }
  }

  lemma QuietJoin(s: string, t: string)
    requires Quiet(s) && Quiet(t) && Fits(s, t)
    ensures Quiet(s + t)
  {
    var whole := s + t;
    forall i | 0 <= i < |whole| ensures QuietAt(whole, i) {
      if i < |s| {
        assert QuietAt(s, i);
      } else {
        assert QuietAt(t, i - |s|);
      }
    }
  }

  // ------------------------------------------------ a gap with a tag inside it

  predicate TagAt(s: string, i: nat)
    requires i <= |s|
  {
    DollarTag(s[i..]) != ""
  }

  /** Text in which a scan from its front opens a dollar quote, wherever it continues. */
  ghost predicate Gap(s: string) {
    Quiet(s) && exists i :: 0 <= i <= |s| && TagAt(s, i)
  }

  lemma TagIsIdentifier(s: string, i: nat)
    requires DollarTag(s) != "" && 0 < i < |DollarTag(s)| - 1
    ensures IsIdentifierPart(s[i])
  {
  }

  /** A tag that ends beyond `s` leaves no dollar in the rest of `s`. */
  lemma LongTagMeansNoDollar(s: string, rest: string, i: nat)
    requires |DollarTag(s + rest)| > |s| && 0 < i < |s|
    ensures s[i] != '$'
  {
    TagIsIdentifier(s + rest, i);
  }

  lemma GapTail(s: string, k: nat, i: nat)
    requires Quiet(s) && k <= i <= |s| && TagAt(s, i)
    ensures Gap(s[k..])
  {
    hide DollarTag;
    assert s == s[..k] + s[k..];
    QuietParts(s[..k], s[k..]);
    assert s[k..][i - k..] == s[i..];
    assert TagAt(s[k..], i - k);
  }

  lemma TagStartsWithDollar(s: string, i: nat)
    requires i <= |s| && TagAt(s, i)
    ensures i < |s| && s[i] == '$'
  {
    assert DollarTag(s[i..]) <= s[i..];
  }

  /** At the front of a gap there is a tag, or a token that is no region and stops before the tag. */
  lemma GapFront(s: string, rest: string)
    requires Gap(s) && DollarTag(s) == ""
    ensures var t := FirstToken(s + rest); !t.Protected? && |Text(t)| <= |s| && Gap(s[|Text(t)|..])
  {
    var i :| 0 <= i <= |s| && TagAt(s, i);
    assert s[0..] == s;
    TagStartsWithDollar(s, i);
    assert QuietAt(s, 0);
    NoRegionInFront(s, rest, i);
    hide FirstToken, DollarTag, Quiet, OpenedRegion;
    TokenStopsAtDollar(s, rest, i);
    GapTail(s, |Text(FirstToken(s + rest))|, i);
  }

  lemma NoRegionInFront(s: string, rest: string, i: nat)
    requires 0 < i < |s| && s[i] == '$' && QuietAt(s, 0) && DollarTag(s) == ""
    ensures OpenedRegion(s + rest).0 == Normal
  {
    var whole := s + rest;
    DollarTagSplit(s, rest);
    if DollarTag(whole) != "" {
      LongTagMeansNoDollar(s, rest, i);
    }
    hide DollarTag;
    assert whole[0] == s[0] && whole[1] == s[1];
  }

  lemma TokenStopsAtDollar(s: string, rest: string, i: nat)
    requires 0 < i < |s| && s[i] == '$' && OpenedRegion(s + rest).0 == Normal
    ensures var t := FirstToken(s + rest); !t.Protected? && |Text(t)| <= i
  {
    hide OpenedRegion, RegionExtent;
    var whole := s + rest;
    assert whole[i] == '$';
    if whole[0] == ':' && whole[1..] != "" && IsIdentifierStart(whole[1]) && !("::" <= whole) {
      var n := IdentifierLength(whole[1..]);
      assert whole[1..][i - 1] == '$';
    }
  }

  // ------------------------------------------------------ scanning into a gap

  /** The first region a scan of the gap opens: where it stands, and its tag. */
  datatype Opening = Opening(before: string, tag: string, after: string)

  lemma RegionsCons(t: Token, tokens: seq<Token>)
    ensures Regions([t] + tokens) == (if t.Protected? then [t] else []) + Regions(tokens)
  {
    assert ([t] + tokens)[1..] == tokens;
  }

  /** What a scan of `s` and then `rest` finds: a dollar quote that opens in `s`, and what follows it. */
  ghost predicate OpensAt(o: Opening, s: string, rest: string) {
    && s == o.before + o.tag + o.after && o.tag != "" && DollarTag(o.tag + o.after) == o.tag
    && var inner := o.after + rest; var e := RegionExtent(DollarQuote, o.tag, inner);
    Regions(Tokenize(s + rest)) == [Region(DollarQuote, o.tag, o.tag, inner)] + Regions(Tokenize(inner[e.length..]))
  }

  lemma OpensLater(o: Opening, s: string, rest: string, t: Token)
    requires !t.Protected? && |Text(t)| <= |s| && s + rest != "" && FirstToken(s + rest) == t
    requires OpensAt(o, s[|Text(t)|..], rest)
    ensures OpensAt(Opening(s[..|Text(t)|] + o.before, o.tag, o.after), s, rest)
  {
    hide FirstToken, Tokenize, RegionExtent, Region, DollarTag;
    var k := |Text(t)|;
    TokenizeUnfolds(s + rest);
    assert (s + rest)[k..] == s[k..] + rest;
    RegionsCons(t, Tokenize(s[k..] + rest));
    assert s == s[..k] + s[k..];
  }

  /** Scanning a gap finds no region before a tag that lies in it, and a dollar quote there. */
  lemma {:induction false} GapOpens(s: string, rest: string) returns (o: Opening)
    requires Gap(s)
    ensures OpensAt(o, s, rest)
    decreases |s|
  {
    hide FirstToken, Gap, OpensAt;
    GapHasText(s);
    if DollarTag(s) != "" {
      o := Opening("", DollarTag(s), s[|DollarTag(s)|..]);
      OpensWithTag(s, rest);
    } else {
      GapFront(s, rest);
      var t := FirstToken(s + rest);
      var o' := GapOpens(s[|Text(t)|..], rest);
      OpensLater(o', s, rest, t);
      o := Opening(s[..|Text(t)|] + o'.before, o'.tag, o'.after);
    }
  }

  lemma GapHasText(s: string)
    requires Gap(s)
    ensures s != ""
  {
    var i :| 0 <= i <= |s| && TagAt(s, i);
    TagStartsWithDollar(s, i);
  }

  lemma TagOpens(s: string, rest: string)
    requires DollarTag(s) != ""
    ensures OpenedRegion(s + rest) == (DollarQuote, DollarTag(s))
  {
    DollarTagSplit(s, rest);
    hide IdentifierLength;
  }

  lemma RegionIsFirst(whole: string, tag: string, inner: string)
    requires tag != "" && whole == tag + inner && OpenedRegion(whole) == (DollarQuote, tag)
    ensures var t := Region(DollarQuote, tag, tag, inner);
      var e := RegionExtent(DollarQuote, tag, inner);
      FirstToken(whole) == t && whole[|t.body|..] == inner[e.length..]
  {
    hide RegionExtent, DollarTag, OpenedRegion;
    assert whole[|tag|..] == inner;
    var e := RegionExtent(DollarQuote, tag, inner);
    assert |Region(DollarQuote, tag, tag, inner).body| == |tag| + e.length;
    assert whole[|tag| + e.length..] == inner[e.length..];
  }

  lemma OpensWithTag(s: string, rest: string)
    requires DollarTag(s) != ""
    ensures OpensAt(Opening("", DollarTag(s), s[|DollarTag(s)|..]), s, rest)
  {
    hide RegionExtent, DollarTag, OpenedRegion, Tokenize, FirstToken, Region, Regions;
    var tag, after := DollarTag(s), s[|DollarTag(s)|..];
    assert tag + after == s && "" + tag + after == s;
    assert s + rest == tag + (after + rest);
    TagOpens(s, rest);
    RegionIsFirst(s + rest, tag, after + rest);
    TokenizeUnfolds(s + rest);
    var e := RegionExtent(DollarQuote, tag, after + rest);
    RegionsCons(Region(DollarQuote, tag, tag, after + rest), Tokenize((after + rest)[e.length..]));
  }

  // -------------------------------------------------------- dollar quotes end

  /** A dollar quote ends with its tag, and no later than where the tag first stands. */
  lemma {:induction false} ExtentReachesTag(tag: string, pre: string, post: string)
    requires tag != ""
    ensures var e := RegionExtent(DollarQuote, tag, pre + tag + post);
      e.closed && |tag| <= e.length <= |pre| + |tag| && (pre + tag + post)[e.length - |tag|..e.length] == tag
    decreases |pre|
  {
    var s := pre + tag + post;
    ExtentUnfolds(DollarQuote, tag, s);
    if tag <= s {
      assert s[..|tag|] == tag;
    } else {
      assert (tag + post)[..|tag|] == tag && (pre == "" ==> s == tag + post);
      assert s[1..] == pre[1..] + tag + post;
      hide RegionExtent;
      ExtentReachesTag(tag, pre[1..], post);
      var e := RegionExtent(DollarQuote, tag, s[1..]);
      assert s[1..][e.length - |tag|..e.length] == s[e.length + 1 - |tag|..e.length + 1];
    }
  }

  lemma TagStays(s: string, t: string)
    requires Gap(s) && Quiet(s + t)
    ensures Gap(s + t)
  {
    hide DollarTag, Quiet;
    var i :| 0 <= i <= |s| && TagAt(s, i);
    assert (s + t)[i..] == s[i..] + t;
    DollarTagSplit(s[i..], t);
    assert TagAt(s + t, i);
  }

  lemma TagShape(tag: string, after: string)
    requires tag != "" && DollarTag(tag + after) == tag
    ensures DollarTag(tag) == tag && |tag| >= 2 && tag[0] == '$' && tag[|tag| - 1] == '$'
  {
    DollarTagSplit(tag, after);
  }

  // ---------------------------------------------- once behind, always behind

  /** What the scan of a dollar quote leaves of the gap and of the region it was to find is a gap again. */
  lemma LeftoverIsGap(tag: string, after: string, body: string, length: nat)
    requires tag != "" && DollarTag(tag + after) == tag && Quiet(tag + after)
    requires |tag| <= length <= |after| + |tag| && body == tag + (after + tag)[..length]
    requires (after + tag)[length - |tag|..length] == tag
    ensures length <= |after + body| && Gap((after + body)[length..])
    ensures var gap := (after + body)[length..]; gap[|gap| - 1] == '$'
  {
    hide DollarTag;
    TagShape(tag, after);
    QuietParts(tag, after);
    QuietJoin(tag + after, tag);
    var all := tag + after + tag;
    assert all == tag + (after + tag);
    assert all == body + (after + tag)[length..];
    QuietParts(body, (after + tag)[length..]);
    QuietJoin(after, body);
    var gap := (after + body)[length..];
    assert after + body == (after + body)[..length] + gap;
    QuietParts((after + body)[..length], gap);
    assert body[|body| - |tag|..] == tag;
    var i := |gap| - |tag|;
    assert gap[i..] == tag;
    assert TagAt(gap, i);
  }

  /** A region that starts with the tag makes the dollar quote before it end by the end of that tag. */
  lemma ExtentBeforeRegion(tag: string, after: string, body: string, more: string)
    requires tag != "" && tag <= body
    ensures var e := RegionExtent(DollarQuote, tag, after + (body + more));
      && |tag| <= e.length <= |after| + |tag| && (after + (body + more))[..e.length] == (after + tag)[..e.length]
      && (after + tag)[e.length - |tag|..e.length] == tag
  {
    hide RegionExtent;
    var rest := body[|tag|..] + more;
    var inner := after + (body + more);
    TagSplitsOff(tag, after, body, more);
    ExtentReachesTag(tag, after, rest);
    PrefixAgrees(after + tag, rest, RegionExtent(DollarQuote, tag, inner).length, |tag|);
  }

  lemma TagSplitsOff(tag: string, after: string, body: string, more: string)
    requires tag <= body
    ensures after + (body + more) == after + tag + (body[|tag|..] + more)
  {
    assert body == tag + body[|tag|..];
  }

  lemma PrefixAgrees(s: string, rest: string, n: nat, k: nat)
    requires k <= n <= |s|
    ensures (s + rest)[..n] == s[..n] && (s + rest)[n - k..n] == s[n - k..n]
  {
  }

  lemma RegionStartsWithTag(tag: string, s: string, t: Token)
    requires tag != "" && t == Region(DollarQuote, tag, tag, s)
    ensures t.Protected? && tag <= t.body && t.body == tag + s[..RegionExtent(DollarQuote, tag, s).length]
  {
    hide RegionExtent;
  }

  lemma DropLeftover(after: string, body: string, more: string, n: nat)
    requires n <= |after + body|
    ensures (after + (body + more))[n..] == (after + body)[n..] + more
  {
    assert after + (body + more) == (after + body) + more;
  }

  /** A dollar quote that the scan finds in the gap and that equals the source's next region. */
  lemma SameRegionLeavesGap(o: Opening, gap: string, t: Token, more: string)
    requires Gap(gap) && gap == o.before + o.tag + o.after && o.tag != "" && DollarTag(o.tag + o.after) == o.tag
    requires t.Protected? && t == Region(DollarQuote, o.tag, o.tag, o.after + (t.body + more))
    ensures var inner := o.after + (t.body + more); var e := RegionExtent(DollarQuote, o.tag, inner);
      && e.length <= |o.after + t.body|
      && inner[e.length..] == (o.after + t.body)[e.length..] + more && Gap((o.after + t.body)[e.length..])
      && Fits((o.after + t.body)[e.length..], more)
  {
    hide RegionExtent, DollarTag, Gap, Quiet, Region;
    var e := RegionExtent(DollarQuote, o.tag, o.after + (t.body + more));
    RegionStartsWithTag(o.tag, o.after + (t.body + more), t);
    ExtentBeforeRegion(o.tag, o.after, t.body, more);
    assert gap == o.before + (o.tag + o.after);
    QuietGapParts(gap, o.before, o.tag + o.after);
    LeftoverIsGap(o.tag, o.after, t.body, e.length);
    DropLeftover(o.after, t.body, more, e.length);
  }

  lemma QuietGapParts(gap: string, before: string, tail: string)
    requires Gap(gap) && gap == before + tail
    ensures Quiet(tail)
  {
    QuietParts(before, tail);
  }

  lemma RegionsOf(tokens: seq<Token>)
    requires tokens != []
    ensures Regions(tokens) == (if tokens[0].Protected? then [tokens[0]] else []) + Regions(tokens[1..])
  {
  }

  function Next(t: Token, count: nat): nat {
    if t.Param? then count + 1 else count
  }

  /** What a token that is no region is rendered to. */
  function Piece(t: Token, next: nat): string {
    if t.Param? then ResolvePlaceholder(PgIndexed, next) else Text(t)
  }

  /** A token that is no region joins the gap. */
  lemma GapGrows(gap: string, t: Token, rest: seq<Token>, count: nat)
    requires Gap(gap) && !t.Protected? && StandsAlone(t) && MayPrecede(t, Source(rest)) && Lexed(rest)
    requires Fits(gap, Piece(t, Next(t, count)) + Render(rest, PgIndexed, Next(t, count)))
    ensures var piece := Piece(t, Next(t, count));
      Gap(gap + piece) && Fits(gap + piece, Render(rest, PgIndexed, Next(t, count)))
  {
    hide Lexed, Render, Gap, Quiet, Piece, StandsAlone, MayPrecede, Source;
    var next := Next(t, count);
    PieceIsQuiet(t, next);
    PieceFits(t, rest, next);
    QuietGap(gap);
    QuietJoin(gap, Piece(t, next));
    TagStays(gap, Piece(t, next));
  }

  lemma RenderUnfolds(tokens: seq<Token>, count: nat)
    requires tokens != []
    ensures var next := Next(tokens[0], count);
      Render(tokens, PgIndexed, count) == Piece(tokens[0], next) + Render(tokens[1..], PgIndexed, next)
  {
  }

  lemma QuietGap(s: string)
    requires Gap(s)
    ensures Quiet(s) && s != ""
  {
    GapHasText(s);
  }

  lemma PieceIsQuiet(t: Token, count: nat)
    requires !t.Protected? && StandsAlone(t)
    ensures Piece(t, count) != "" && Quiet(Piece(t, count))
  {
    if t.Raw? {
      assert [t.c][1..] == "";
      hide RegionExtent, DollarTag;
    } else if t.Param? {
      assert forall c :: c in Digits(count) ==> '0' <= c <= '9';
      forall i | 0 <= i < |ResolvePlaceholder(PgIndexed, count)|
        ensures QuietAt(ResolvePlaceholder(PgIndexed, count), i)
      {
        if i > 0 {
          assert Digits(count)[i - 1] in Digits(count);
        }
      }
    }
  }

  lemma PieceFits(t: Token, rest: seq<Token>, count: nat)
    requires !t.Protected? && StandsAlone(t) && MayPrecede(t, Source(rest)) && Lexed(rest)
    ensures Fits(Piece(t, count), Render(rest, PgIndexed, count))
  {
    hide Lexed, Render, Source, DollarTag, FirstToken;
    HeadOfRendered(rest, PgIndexed, count);
    if t.Param? {
      assert Digits(count)[|Digits(count)| - 1] in Digits(count);
    }
  }

  /** A scan that is inside a gap when the source's scan is past it never finds the same regions. */
  lemma {:induction false} GapNeverAgrees(gap: string, tokens: seq<Token>, count: nat)
    requires Gap(gap) && Lexed(tokens) && Fits(gap, Render(tokens, PgIndexed, count))
    ensures Regions(Tokenize(gap + Render(tokens, PgIndexed, count))) != Regions(tokens)
    decreases |tokens|
  {
    hide Gap, Tokenize, FirstToken, Region, RegionExtent, Fits;
    var r := Render(tokens, PgIndexed, count);
    var o := GapOpens(gap, r);
    if tokens != [] {
      RegionsOf(tokens);
      RenderUnfolds(tokens, count);
      LexedHead(tokens);
      hide Lexed, Render, Regions;
      var t, rest := tokens[0], tokens[1..];
      if t.Protected? {
        var more := Render(rest, PgIndexed, count);
        if Regions(Tokenize(gap + r)) == Regions(tokens) {
          var inner := o.after + r;
          var e := RegionExtent(DollarQuote, o.tag, inner);
          HeadsMatch(Region(DollarQuote, o.tag, o.tag, inner), Regions(Tokenize(inner[e.length..])), t, Regions(rest));
          SameRegionLeavesGap(o, gap, t, more);
          GapNeverAgrees((o.after + t.body)[e.length..], rest, count);
        }
      } else {
        var next := Next(t, count);
        var piece := Piece(t, next);
        GapGrows(gap, t, rest, count);
        GapNeverAgrees(gap + piece, rest, next);
        assert gap + (piece + Render(rest, PgIndexed, next)) == (gap + piece) + Render(rest, PgIndexed, next);
      }
    }
  }

  lemma HeadsMatch(x: Token, xs: seq<Token>, y: Token, ys: seq<Token>)
    requires [x] + xs == [y] + ys
    ensures x == y && xs == ys
  {
    assert ([x] + xs)[0] == ([y] + ys)[0] && ([x] + xs)[1..] == ([y] + ys)[1..];
  }

  // ------------------------------------------------------- the first join

  /** "$" or "$tag" without its closing "$". */
  predicate OpenTag(s: string) {
    s != "" && s[0] == '$' && (forall i :: 1 <= i < |s| ==> IsIdentifierPart(s[i])) &&
      (|s| > 1 ==> IsIdentifierStart(s[1]))
  }

  lemma {:induction false} IdentifierThenDollar(name: string, rest: string)
    requires forall i :: 0 <= i < |name| ==> IsIdentifierPart(name[i])
    ensures IdentifierLength(name + "$" + rest) == |name|
  {
    if name != "" {
      assert (name + "$" + rest)[1..] == name[1..] + "$" + rest;
      IdentifierThenDollar(name[1..], rest);
    }
  }

  lemma CompletedTag(s: string, rest: string)
    requires OpenTag(s)
    ensures DollarTag(s + "$" + rest) == s + "$"
  {
    var name, whole := s[1..], s + "$" + rest;
    assert whole[1..] == name + "$" + rest;
    IdentifierThenDollar(name, rest);
    assert whole[1 + |name|..] == "$" + rest;
    assert whole[..|s| + 1] == s + "$";
  }

  lemma CompletedIsQuiet(s: string, digits: string)
    requires OpenTag(s) && digits != "" && forall i :: 0 <= i < |digits| ==> '0' <= digits[i] <= '9'
    ensures Quiet(s + "$" + digits)
    ensures forall t :: Fits(s + "$" + digits, t)
  {
    var gap := s + "$" + digits;
    forall i | 0 <= i < |gap| ensures QuietAt(gap, i) {
    }
  }

  /** A numbered placeholder completes the tag. */
  lemma PlaceholderCompletes(s: string, index: nat)
    requires OpenTag(s)
    ensures Gap(s + ResolvePlaceholder(PgIndexed, index))
    ensures forall t :: Fits(s + ResolvePlaceholder(PgIndexed, index), t)
  {
    hide DollarTag, Quiet, Digits, Fits;
    var digits := Digits(index);
    forall i | 0 <= i < |digits| ensures '0' <= digits[i] <= '9' {
      assert digits[i] in digits;
    }
    CompletedIsQuiet(s, digits);
    CompletedTag(s, digits);
    var gap := s + ResolvePlaceholder(PgIndexed, index);
    assert gap == s + "$" + digits && gap[0..] == gap;
    assert TagAt(gap, 0);
  }

  lemma OpenTagGrows(s: string, c: char)
    requires OpenTag(s) && IsIdentifierPart(c) && (s == "$" ==> IsIdentifierStart(c))
    ensures OpenTag(s + [c]) && s != ""
  {
  }

  /** From an open tag whose identifier runs up to a parameter, the scans never agree again. */
  lemma {:induction false} OpenTagNeverAgrees(s: string, tokens: seq<Token>, count: nat)
    requires OpenTag(s) && Lexed(tokens) && RunEndsAtParam(tokens)
    requires s == "$" && tokens[0].Raw? ==> IsIdentifierStart(tokens[0].c)
    ensures Regions(Tokenize(s + Render(tokens, PgIndexed, count))) != Regions(tokens)
    decreases |tokens|
  {
    hide Tokenize, FirstToken, Gap, Fits, StandsAlone, MayPrecede, OpenTag, Lexed, Render, Regions, ResolvePlaceholder;
    var t, rest := tokens[0], tokens[1..];
    var next := Next(t, count);
    var piece, more := Piece(t, next), Render(rest, PgIndexed, next);
    LexedHead(tokens);
    RenderUnfolds(tokens, count);
    RegionsOf(tokens);
    assert s + (piece + more) == (s + piece) + more;
    if t.Param? {
      PlaceholderCompletes(s, next);
      GapNeverAgrees(s + piece, rest, next);
    } else {
      OpenTagGrows(s, t.c);
      assert |s + piece| > 1;
      OpenTagNeverAgrees(s + piece, rest, next);
    }
  }

  /** A placeholder is read as plain characters, whatever follows. */
  lemma PlaceholderScans(index: nat, s: string)
    ensures var chars := ResolvePlaceholder(PgIndexed, index);
      Tokenize(chars + s) == RawChars(chars) + Tokenize(s) && Regions(Tokenize(chars + s)) == Regions(Tokenize(s))
  {
    hide Tokenize, Lexed, FirstToken;
    var chars := ResolvePlaceholder(PgIndexed, index);
    TokensCoverSource(s);
    PlaceholderLexed(PgIndexed, index, Tokenize(s));
    RawCharsAre(chars, Tokenize(s));
    LexedIffScanned(RawChars(chars) + Tokenize(s));
  }

  lemma TokenOff(t: Token, s: string)
    requires Text(t) != "" && FirstToken(Text(t) + s) == t
    ensures Regions(Tokenize(Text(t) + s)) == (if t.Protected? then [t] else []) + Regions(Tokenize(s))
  {
    hide FirstToken, Tokenize;
    TokenizeUnfolds(Text(t) + s);
    RegionsCons(t, Tokenize(s));
  }

  lemma StillDiffer(t: Token, xs: seq<Token>, ys: seq<Token>)
    requires xs != ys
    ensures (if t.Protected? then [t] else []) + xs != (if t.Protected? then [t] else []) + ys
  {
    if t.Protected? {
      assert ([t] + xs)[1..] == xs && ([t] + ys)[1..] == ys;
    } else {
      assert [] + xs == xs && [] + ys == ys;
    }
  }

  /** Joined text: the regions differ, wherever the first join stands. */
  lemma {:induction false} JoinedNeverAgrees(tokens: seq<Token>, count: nat)
    requires Lexed(tokens) && Joins(tokens)
    ensures Regions(Tokenize(Render(tokens, PgIndexed, count))) != Regions(tokens)
  {
    hide FirstToken, Tokenize, MayPrecede, StandsAlone;
    var t, rest := tokens[0], tokens[1..];
    var next := Next(t, count);
    var r := Render(rest, PgIndexed, next);
    LexedHead(tokens);
    RenderUnfolds(tokens, count);
    RegionsOf(tokens);
    if t == Raw('$') && FormsTag(rest) {
      OpenTagNeverAgrees("$", rest, count);
    } else {
      JoinedNeverAgrees(rest, next);
      if t.Param? {
        PlaceholderScans(next, r);
      } else {
        if t == Raw('$') {
          DollarBeforeRendered(rest, PgIndexed, next);
        } else {
          RenderedMayFollow(t, rest, PgIndexed, next);
        }
        FirstTokenSplit(t, r);
        TokenOff(t, r);
        StillDiffer(t, Regions(Tokenize(r)), Regions(rest));
      }
    }
  }

  /** Compiled text holds the regions of its source exactly when no "$" joins a numbered placeholder. */
  lemma RegionsSurviveIff(sql: string, style: PlaceholderStyle, count: nat)
    ensures Regions(Tokenize(Render(Tokenize(sql), style, count))) == Regions(Tokenize(sql)) <==>
      !(style == PgIndexed && Joins(Tokenize(sql)))
  {
    hide FirstToken, Tokenize;
    TokensCoverSource(sql);
    if style == PgIndexed && Joins(Tokenize(sql)) {
      JoinedNeverAgrees(Tokenize(sql), count);
    } else {
      RescanFindsSameTokens(sql, style, count);
      SpreadIsRendered(Tokenize(sql), style, count);
    }
  }

  /**
   * Compiled text holds the same regions and no parameter, so that compiling it again fails, exactly when no "$" joins
   * a numbered placeholder.
   */
  lemma RecompileFails<V, W>(sql: string, params: map<string, V>, style: PlaceholderStyle,
                             params': map<string, W>, style': PlaceholderStyle)
    requires Compile(sql, params, style).Success?
    ensures var compiled := Compile(sql, params, style).value.sql;
      (Regions(Tokenize(compiled)) == Regions(Tokenize(sql)) &&
        Compile(compiled, params', style') == Failure(NoParameters))
      <==> !(style == PgIndexed && Joins(Tokenize(sql)))
  {
    RegionsSurviveIff(sql, style, 0);
    RescanFindsSameTokens(sql, style, 0);
    SpreadIsRendered(Tokenize(sql), style, 0);
  }
}
