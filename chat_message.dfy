/**
 * One rendered chat message. Its only logic is `parseResultXml`: the first
 * case-insensitive match of
 *
 *   <result>\s*<uri>(.*?)</uri>\s*<text>([\s\S]*?)</text>\s*</result>
 *
 * in the message, with both captures trimmed, and the three-way choice of
 * what the bubble shows. The RegExp is not modelled as an engine. `IsMatch`
 * states when a block of text is one match of the pattern, `Precedes` states
 * the order in which a backtracking RegExp (section 22.2 of ECMA-262) tries
 * the alternatives, and the searching functions below are proved to return
 * the first match in that order.
 */
module ChatMessage {
  import opened Wrappers
  import opened JsText

  // The five tags, in the lower-case spelling that case folding maps to.
  const ResultOpen: string := "<result>"
  const UriOpen: string := "<uri>"
  const UriClose: string := "</uri>"
  const TextOpen: string := "<text>"
  const TextClose: string := "</text>"
  const ResultClose: string := "</result>"

  /** Case folding against the tags. A RegExp with the `i` flag and without
      `u` compares characters through the Canonicalize operation of
      ECMA-262, their upper-case form, which never maps a character at or
      above 128 onto one below 128. Every tag character is ASCII, so a
      character matches a lower-case tag character exactly when lowering its
      ASCII capitals gives that character: only ASCII case matters here. */
  function FoldAscii(c: char): (f: char)
    ensures f == c <==> !('A' <= c <= 'Z')
    ensures 'A' <= c <= 'Z' ==> 'a' <= f <= 'z' && f as int - c as int == 32
  {
    if 'A' <= c <= 'Z' then (c as int + 32) as char else c
  }

  /** The text at `i` spells `tag` up to ASCII case. */
  predicate TagAt(s: string, i: nat, tag: string) {
    i + |tag| <= |s| && forall j {:trigger FoldAscii(s[j])} :: i <= j < i + |tag| ==> FoldAscii(s[j]) == tag[j - i]
  }

  /** `s[i..j]` is matched by `\s*`. */
  predicate AllWhiteSpace(s: string, i: nat, j: nat)
    requires i <= j <= |s|
  {
    forall k {:trigger IsStrWhiteSpaceChar(s[k])} :: i <= k < j ==> IsStrWhiteSpaceChar(s[k])
  }

  /** `s[i..j]` is matched by `.*`: no line terminator inside. */
  predicate NoLineTerminator(s: string, i: nat, j: nat)
    requires i <= j <= |s|
  {
    forall k {:trigger IsLineTerminator(s[k])} :: i <= k < j ==> !IsLineTerminator(s[k])
  }

  /** The positions of one match: where `<result>`, `<uri>`, `</uri>`,
      `<text>`, `</text>` and `</result>` begin. The uri capture is
      `s[uriTag + 5..uriEnd]`, the text capture `s[textTag + 6..textEnd]`. */
  datatype Match = Match(start: nat, uriTag: nat, uriEnd: nat, textTag: nat, textEnd: nat, closeTag: nat)

  /** `m` is a match of the pattern in `s`: the six tags in order, only white
      space (possibly none) between `<result>` and `<uri>`, between `</uri>`
      and `<text>` and between `</text>` and `</result>`, no line terminator in
      the uri, anything at all in the text. */
  predicate IsMatch(s: string, m: Match) {
    && TagAt(s, m.start, ResultOpen)
    && m.start + 8 <= m.uriTag && TagAt(s, m.uriTag, UriOpen)
    && AllWhiteSpace(s, m.start + 8, m.uriTag)
    && m.uriTag + 5 <= m.uriEnd && TagAt(s, m.uriEnd, UriClose)
    && NoLineTerminator(s, m.uriTag + 5, m.uriEnd)
    && m.uriEnd + 6 <= m.textTag && TagAt(s, m.textTag, TextOpen)
    && AllWhiteSpace(s, m.uriEnd + 6, m.textTag)
    && m.textTag + 6 <= m.textEnd && TagAt(s, m.textEnd, TextClose)
    && m.textEnd + 7 <= m.closeTag && TagAt(s, m.closeTag, ResultClose)
    && AllWhiteSpace(s, m.textEnd + 7, m.closeTag)
  }

  /** The order in which the RegExp tries matches: leftmost start first;
      at one start the lazy uri group tries shorter captures first, and for
      one uri the lazy text group does. */
  predicate Precedes(a: Match, b: Match) {
    || a.start < b.start
    || (a.start == b.start && a.uriEnd < b.uriEnd)
    || (a.start == b.start && a.uriEnd == b.uriEnd && a.textEnd < b.textEnd)
  }

  /** `m` is the match `String.prototype.match` returns: no match comes before it. */
  ghost predicate IsFirstMatch(s: string, m: Match) {
    IsMatch(s, m) && forall m' :: IsMatch(s, m') ==> !Precedes(m', m)
  }

  function UriCapture(s: string, m: Match): string
    requires IsMatch(s, m)
  {
    s[m.uriTag + 5..m.uriEnd]
  }

  function TextCapture(s: string, m: Match): string
    requires IsMatch(s, m)
  {
    s[m.textTag + 6..m.textEnd]
  }

  /** The end of the longest white-space run that starts at `i`. */
  function SkipWhiteSpace(s: string, i: nat): (r: nat)
    requires i <= |s|
    ensures i <= r <= |s| && AllWhiteSpace(s, i, r)
    ensures r == |s| || !IsStrWhiteSpaceChar(s[r])
    decreases |s| - i
  {
    if i < |s| && IsStrWhiteSpaceChar(s[i]) then SkipWhiteSpace(s, i + 1) else i
  }

  /** A `\s*` followed by a tag (which starts with `<`, not white space) can
      only have consumed the longest run, so greedy `\s*` never backtracks here. */
  lemma WhiteSpaceBeforeTag(s: string, i: nat, j: nat, tag: string)
    requires i <= j && TagAt(s, j, tag) && |tag| > 0 && tag[0] == '<'
    requires AllWhiteSpace(s, i, j)
    ensures j == SkipWhiteSpace(s, i)
  {
    var r := SkipWhiteSpace(s, i);
    assert FoldAscii(s[j + 0]) == tag[0];
    assert !IsStrWhiteSpaceChar(s[j]);
    assert r < |s| ==> !IsStrWhiteSpaceChar(s[r]);
  }

  /** Where a match starting at `start` has its `<uri>`. */
  lemma UriTagDetermined(s: string, start: nat)
    ensures forall m :: IsMatch(s, m) && m.start == start ==> m.uriTag == SkipWhiteSpace(s, start + 8)
  {
    forall m | IsMatch(s, m) && m.start == start ensures m.uriTag == SkipWhiteSpace(s, start + 8) {
      WhiteSpaceBeforeTag(s, m.start + 8, m.uriTag, UriOpen);
    }
  }

  /** Where a match whose uri ends at `uriEnd` has its `<text>`. */
  lemma TextTagDetermined(s: string, uriEnd: nat)
    ensures forall m :: IsMatch(s, m) && m.uriEnd == uriEnd ==> m.textTag == SkipWhiteSpace(s, uriEnd + 6)
  {
    forall m | IsMatch(s, m) && m.uriEnd == uriEnd ensures m.textTag == SkipWhiteSpace(s, uriEnd + 6) {
      WhiteSpaceBeforeTag(s, m.uriEnd + 6, m.textTag, TextOpen);
    }
  }

  /** Where a match whose text ends at `textEnd` has its `</result>`. */
  lemma CloseTagDetermined(s: string, textEnd: nat)
    ensures forall m :: IsMatch(s, m) && m.textEnd == textEnd ==> m.closeTag == SkipWhiteSpace(s, textEnd + 7)
  {
    forall m | IsMatch(s, m) && m.textEnd == textEnd ensures m.closeTag == SkipWhiteSpace(s, textEnd + 7) {
      WhiteSpaceBeforeTag(s, m.textEnd + 7, m.closeTag, ResultClose);
    }
  }

  /** In every match the three white-space runs are the longest ones, so a
      match is determined by its start and its two capture ends. */
  lemma MatchesDetermined(s: string)
    ensures forall m :: IsMatch(s, m) ==>
      && m.uriTag == SkipWhiteSpace(s, m.start + 8)
      && m.textTag == SkipWhiteSpace(s, m.uriEnd + 6)
      && m.closeTag == SkipWhiteSpace(s, m.textEnd + 7)
  {
    forall m | IsMatch(s, m)
      ensures m.uriTag == SkipWhiteSpace(s, m.start + 8)
      ensures m.textTag == SkipWhiteSpace(s, m.uriEnd + 6)
      ensures m.closeTag == SkipWhiteSpace(s, m.textEnd + 7)
    {
      WhiteSpaceBeforeTag(s, m.start + 8, m.uriTag, UriOpen);
      WhiteSpaceBeforeTag(s, m.uriEnd + 6, m.textTag, TextOpen);
      WhiteSpaceBeforeTag(s, m.textEnd + 7, m.closeTag, ResultClose);
    }
  }

  /** The pattern has matched `<result>\s*<uri>` at `start`. */
  predicate UriOpened(s: string, start: nat, uriTag: nat) {
    && TagAt(s, start, ResultOpen)
    && uriTag == SkipWhiteSpace(s, start + 8)
    && TagAt(s, uriTag, UriOpen)
  }

  /** ... and further `(.*?)</uri>\s*<text>`, with the uri ending at `uriEnd`. */
  predicate TextOpened(s: string, start: nat, uriTag: nat, uriEnd: nat, textTag: nat) {
    && UriOpened(s, start, uriTag)
    && uriTag + 5 <= uriEnd && TagAt(s, uriEnd, UriClose)
    && NoLineTerminator(s, uriTag + 5, uriEnd)
    && textTag == SkipWhiteSpace(s, uriEnd + 6)
    && TagAt(s, textTag, TextOpen)
  }

  /** A `</text>\s*</result>` at `textEnd` completes a match. */
  lemma TextCloseCompletes(s: string, start: nat, uriTag: nat, uriEnd: nat, textTag: nat, textEnd: nat)
    requires TextOpened(s, start, uriTag, uriEnd, textTag)
    requires textTag + 6 <= textEnd && TagAt(s, textEnd, TextClose)
    requires TagAt(s, SkipWhiteSpace(s, textEnd + 7), ResultClose)
    ensures IsMatch(s, Match(start, uriTag, uriEnd, textTag, textEnd, SkipWhiteSpace(s, textEnd + 7)))
  {
  }

  /** Without `</text>\s*</result>` at `textEnd`, no match has its text end there. */
  lemma NoTextCloseAt(s: string, textEnd: nat)
    requires !(textEnd + 7 <= |s| && TagAt(s, textEnd, TextClose) && TagAt(s, SkipWhiteSpace(s, textEnd + 7), ResultClose))
    ensures forall m :: IsMatch(s, m) ==> m.textEnd != textEnd
  {
    CloseTagDetermined(s, textEnd);
  }

  /** The lazy text group: tries text ends `textEnd`, `textEnd + 1`, ... and
      returns the first for which `</text>\s*</result>` follows. */
  function MatchText(s: string, start: nat, uriTag: nat, uriEnd: nat, textTag: nat, textEnd: nat): (r: Option<Match>)
    requires TextOpened(s, start, uriTag, uriEnd, textTag)
    requires textTag + 6 <= textEnd <= |s|
    ensures r.Some? ==> IsMatch(s, r.value) && r.value.start == start && r.value.uriEnd == uriEnd
    ensures r.Some? ==> textEnd <= r.value.textEnd
    ensures r.Some? ==> forall m :: IsMatch(s, m) && m.start == start && m.uriEnd == uriEnd && textEnd <= m.textEnd ==>
      r.value.textEnd <= m.textEnd
    ensures r.None? ==> forall m :: IsMatch(s, m) && m.start == start && m.uriEnd == uriEnd ==> m.textEnd < textEnd
    decreases |s| - textEnd
  {
    if textEnd + 7 <= |s| && TagAt(s, textEnd, TextClose) && TagAt(s, SkipWhiteSpace(s, textEnd + 7), ResultClose) then
      TextCloseCompletes(s, start, uriTag, uriEnd, textTag, textEnd);
      Some(Match(start, uriTag, uriEnd, textTag, textEnd, SkipWhiteSpace(s, textEnd + 7)))
    else
      NoTextCloseAt(s, textEnd);
      if textEnd < |s| then MatchText(s, start, uriTag, uriEnd, textTag, textEnd + 1) else None
  }

  /** After a candidate uri end: `</uri>\s*<text>` and then the lazy text group. */
  function MatchAfterUri(s: string, start: nat, uriTag: nat, uriEnd: nat): (r: Option<Match>)
    requires UriOpened(s, start, uriTag)
    requires uriTag + 5 <= uriEnd && TagAt(s, uriEnd, UriClose)
    requires NoLineTerminator(s, uriTag + 5, uriEnd)
    ensures r.Some? ==> IsMatch(s, r.value) && r.value.start == start && r.value.uriEnd == uriEnd
    ensures r.Some? ==> forall m :: IsMatch(s, m) && m.start == start && m.uriEnd == uriEnd ==>
      r.value.textEnd <= m.textEnd
    ensures r.None? ==> forall m :: IsMatch(s, m) && m.start == start ==> m.uriEnd != uriEnd
  {
    TextTagDetermined(s, uriEnd);
    var textTag := SkipWhiteSpace(s, uriEnd + 6);
    if TagAt(s, textTag, TextOpen) then MatchText(s, start, uriTag, uriEnd, textTag, textTag + 6) else None
  }

  /** The lazy uri group: tries uri ends `uriEnd`, `uriEnd + 1`, ..., never
      past a line terminator, and returns the first that lets the rest match. */
  function MatchUri(s: string, start: nat, uriTag: nat, uriEnd: nat): (r: Option<Match>)
    requires UriOpened(s, start, uriTag)
    requires uriTag + 5 <= uriEnd <= |s| && NoLineTerminator(s, uriTag + 5, uriEnd)
    ensures r.Some? ==> IsMatch(s, r.value) && r.value.start == start && uriEnd <= r.value.uriEnd
    ensures r.Some? ==> forall m :: IsMatch(s, m) && m.start == start && uriEnd <= m.uriEnd ==> !Precedes(m, r.value)
    ensures r.None? ==> forall m :: IsMatch(s, m) && m.start == start ==> m.uriEnd < uriEnd
    decreases |s| - uriEnd
  {
    var here := if TagAt(s, uriEnd, UriClose) then MatchAfterUri(s, start, uriTag, uriEnd) else None;
    if here.Some? then here
    else if uriEnd < |s| && !IsLineTerminator(s[uriEnd]) then MatchUri(s, start, uriTag, uriEnd + 1)
    else
      UriTagDetermined(s, start);
      None
  }

  /** The first match that starts exactly at `start`. */
  function MatchAt(s: string, start: nat): (r: Option<Match>)
    requires start <= |s|
    ensures r.Some? ==> IsMatch(s, r.value) && r.value.start == start
    ensures r.Some? ==> forall m :: IsMatch(s, m) && m.start == start ==> !Precedes(m, r.value)
    ensures r.None? ==> forall m :: IsMatch(s, m) ==> m.start != start
  {
    UriTagDetermined(s, start);
    if TagAt(s, start, ResultOpen) then
      var uriTag := SkipWhiteSpace(s, start + 8);
      if TagAt(s, uriTag, UriOpen) then MatchUri(s, start, uriTag, uriTag + 5) else None
    else
      None
  }

  /** The first match that starts at `from` or later. */
  function MatchFrom(s: string, from: nat): (r: Option<Match>)
    requires from <= |s|
    ensures r.Some? ==> IsMatch(s, r.value) && from <= r.value.start
    ensures r.Some? ==> forall m :: IsMatch(s, m) && from <= m.start ==> !Precedes(m, r.value)
    ensures r.None? ==> forall m :: IsMatch(s, m) ==> m.start < from
    decreases |s| - from
  {
    var here := MatchAt(s, from);
    if here.Some? then here
    else if from < |s| then MatchFrom(s, from + 1)
    else None
  }

  /** `msg.match(regex)`: the first match, or none when there is no match at all. */
  function FirstMatch(s: string): (r: Option<Match>)
    ensures r.Some? ==> IsFirstMatch(s, r.value)
    ensures r.None? <==> forall m :: !IsMatch(s, m)
  {
    MatchFrom(s, 0)
  }

  /** There is only one first match. */
  lemma FirstMatchUnique(s: string, a: Match, b: Match)
    requires IsFirstMatch(s, a) && IsFirstMatch(s, b)
    ensures a == b
  {
    assert !Precedes(a, b) && !Precedes(b, a);
    MatchesDetermined(s);
  }

  /** What `parseResultXml` returns on success. */
  datatype ResultLink = ResultLink(uri: string, text: string)

  /** The uri capture holds no line terminator. */
  lemma UriCaptureOnOneLine(s: string, m: Match)
    requires IsMatch(s, m)
    ensures forall c :: c in UriCapture(s, m) ==> !IsLineTerminator(c)
  {
    var uri := UriCapture(s, m);
    forall c | c in uri ensures !IsLineTerminator(c) {
      var k :| 0 <= k < |uri| && uri[k] == c;
      assert uri[k] == s[m.uriTag + 5 + k];
    }
  }

  /** `parseResultXml`: the trimmed captures of the first match, or none
      when the message holds no block of the required shape. */
  function ParseResultXml(msg: string): (r: Option<ResultLink>)
    ensures r.None? <==> forall m :: !IsMatch(msg, m)
    ensures r.Some? ==> IsTrimmed(r.value.uri) && IsTrimmed(r.value.text)
    ensures r.Some? ==> forall c :: c in r.value.uri ==> !IsLineTerminator(c)
  {
    match FirstMatch(msg)
    case None => None
    case Some(m) =>
      var uri := UriCapture(msg, m);
      UriCaptureOnOneLine(msg, m);
      assert forall c :: c in Trim(uri) ==> !IsLineTerminator(c) by {
        forall c | c in Trim(uri) ensures !IsLineTerminator(c) {
          TrimKeeps(uri, c);
        }
      }
      Some(ResultLink(Trim(uri), Trim(TextCapture(msg, m))))
  }

  /** On a match, the result is the two captures of THE first match, trimmed. */
  lemma ParseResultXmlOfFirstMatch(msg: string, m: Match)
    requires IsFirstMatch(msg, m)
    ensures ParseResultXml(msg) == Some(ResultLink(Trim(UriCapture(msg, m)), Trim(TextCapture(msg, m))))
  {
    var f := FirstMatch(msg);
    assert f.Some?;
    FirstMatchUnique(msg, f.value, m);
  }

  /** A block as a producer would write it: the six tags in any ASCII case,
      the three gaps, the uri and the text. */
  datatype Block = Block(
    resultOpen: string, gap1: string, uriOpen: string, uri: string, uriClose: string,
    gap2: string, textOpen: string, text: string, textClose: string, gap3: string, resultClose: string)

  function Render(b: Block): string {
    b.resultOpen + b.gap1 + b.uriOpen + b.uri + b.uriClose + b.gap2 + b.textOpen + b.text + b.textClose + b.gap3 + b.resultClose
  }

  /** `x` is a spelling of `tag` in some mix of upper and lower case. */
  predicate SpellsTag(x: string, tag: string) {
    |x| == |tag| && forall k :: 0 <= k < |x| ==> FoldAscii(x[k]) == tag[k]
  }

  /** The gaps are white space (or empty), the uri is one line, and neither
      the uri nor the text contains a `<` that could start an earlier tag. */
  predicate WellFormed(b: Block) {
    && SpellsTag(b.resultOpen, ResultOpen) && IsBlank(b.gap1) && SpellsTag(b.uriOpen, UriOpen)
    && '<' !in b.uri && (forall c :: c in b.uri ==> !IsLineTerminator(c))
    && SpellsTag(b.uriClose, UriClose) && IsBlank(b.gap2) && SpellsTag(b.textOpen, TextOpen)
    && '<' !in b.text && SpellsTag(b.textClose, TextClose) && IsBlank(b.gap3)
    && SpellsTag(b.resultClose, ResultClose)
  }

  /** `piece` sits in `s` right after `before`. */
  lemma PieceAt(s: string, before: string, piece: string)
    requires before + piece <= s
    ensures forall j :: 0 <= j < |piece| ==> s[|before| + j] == piece[j]
  {
    forall j | 0 <= j < |piece| ensures s[|before| + j] == piece[j] {
      assert s[|before| + j] == (before + piece)[|before| + j];
    }
  }

  /** A stretch without `<`, read back at its position. */
  lemma PlainPieceAt(s: string, before: string, piece: string)
    requires before + piece <= s && '<' !in piece
    ensures forall i :: |before| <= i < |before| + |piece| ==> s[i] != '<'
  {
    PieceAt(s, before, piece);
    forall i | |before| <= i < |before| + |piece| ensures s[i] != '<' {
      assert s[i] == piece[i - |before|];
    }
  }

  /** Every tag starts with a `<`, so a match starts only where `s` has one. */
  lemma TagStartsWithLess(s: string, i: nat, tag: string)
    requires TagAt(s, i, tag) && |tag| > 0 && tag[0] == '<'
    ensures s[i] == '<'
  {
    assert FoldAscii(s[i + 0]) == tag[0];
  }

  /** A match with no `<` before it and none inside its two captures is
      the first match: nothing earlier can start, and neither lazy group can
      stop sooner. */
  lemma FirstMatchWithoutEarlierTag(s: string, m: Match)
    requires IsMatch(s, m)
    requires forall i :: 0 <= i < m.start ==> s[i] != '<'
    requires forall i :: m.uriTag + 5 <= i < m.uriEnd ==> s[i] != '<'
    requires forall i :: m.textTag + 6 <= i < m.textEnd ==> s[i] != '<'
    ensures IsFirstMatch(s, m)
  {
    MatchesDetermined(s);
    forall m' | IsMatch(s, m') ensures !Precedes(m', m) {
      TagStartsWithLess(s, m'.start, ResultOpen);
      TagStartsWithLess(s, m'.uriEnd, UriClose);
      TagStartsWithLess(s, m'.textEnd, TextClose);
    }
  }

  /** Where the pieces of a rendered block lie, after a prefix. */
  function BlockMatch(prefix: string, b: Block): Match {
    var uriTag := |prefix| + |b.resultOpen| + |b.gap1|;
    var uriEnd := uriTag + |b.uriOpen| + |b.uri|;
    var textTag := uriEnd + |b.uriClose| + |b.gap2|;
    var textEnd := textTag + |b.textOpen| + |b.text|;
    Match(|prefix|, uriTag, uriEnd, textTag, textEnd, textEnd + |b.textClose| + |b.gap3|)
  }

  /** A prefix stays a prefix without its last piece. */
  lemma Shorten(a: string, x: string, s: string)
    requires a + x <= s
    ensures a <= s
  {
    assert forall j :: 0 <= j < |a| ==> (a + x)[j] == a[j];
  }

  /** A spelling of `tag` right after `before` is that tag at `|before|`. */
  lemma TagPieceAt(s: string, before: string, x: string, tag: string)
    requires before + x <= s && SpellsTag(x, tag)
    ensures TagAt(s, |before|, tag)
  {
    PieceAt(s, before, x);
    forall j | |before| <= j < |before| + |tag| ensures FoldAscii(s[j]) == tag[j - |before|] {
      assert s[|before| + (j - |before|)] == x[j - |before|];
    }
  }

  /** A blank piece right after `before` is matched by `\s*` there. */
  lemma BlankPieceAt(s: string, before: string, x: string)
    requires before + x <= s && IsBlank(x)
    ensures |before| + |x| <= |s| && AllWhiteSpace(s, |before|, |before| + |x|)
  {
    PieceAt(s, before, x);
    forall k | |before| <= k < |before| + |x| ensures IsStrWhiteSpaceChar(s[k]) {
      assert s[|before| + (k - |before|)] == x[k - |before|];
    }
  }

  /** A piece without line terminators right after `before` is matched by
      `.*` there. */
  lemma OneLinePieceAt(s: string, before: string, x: string)
    requires before + x <= s && forall c :: c in x ==> !IsLineTerminator(c)
    ensures |before| + |x| <= |s| && NoLineTerminator(s, |before|, |before| + |x|)
  {
    PieceAt(s, before, x);
    forall k | |before| <= k < |before| + |x| ensures !IsLineTerminator(s[k]) {
      assert s[|before| + (k - |before|)] == x[k - |before|];
    }
  }

  /** A piece right after `before` is read back as the slice at its place. */
  lemma SlicePieceAt(s: string, before: string, x: string)
    requires before + x <= s
    ensures |before| + |x| <= |s| && s[|before|..|before| + |x|] == x
  {
    PieceAt(s, before, x);
  }

  /** The first half of a rendered block: `<result>\s*<uri>(.*?)</uri>`. */
  lemma RenderedUriPart(b: Block)
    requires WellFormed(b)
    ensures var s, m := Render(b), BlockMatch([], b);
      && TagAt(s, m.start, ResultOpen) && m.start + 8 <= m.uriTag && TagAt(s, m.uriTag, UriOpen)
      && AllWhiteSpace(s, m.start + 8, m.uriTag)
      && m.uriTag + 5 <= m.uriEnd && TagAt(s, m.uriEnd, UriClose)
      && NoLineTerminator(s, m.uriTag + 5, m.uriEnd)
      && s[m.uriTag + 5..m.uriEnd] == b.uri
  {
    var s := Render(b);
    var c1 := b.resultOpen;
    var c2 := c1 + b.gap1;
    var c3 := c2 + b.uriOpen;
    var c4 := c3 + b.uri;
    var c5 := c4 + b.uriClose;
    var c6 := c5 + b.gap2;
    var c7 := c6 + b.textOpen;
    var c8 := c7 + b.text;
    var c9 := c8 + b.textClose;
    var c10 := c9 + b.gap3;
    Shorten(c10, b.resultClose, s);
    Shorten(c9, b.gap3, s);
    Shorten(c8, b.textClose, s);
    Shorten(c7, b.text, s);
    Shorten(c6, b.textOpen, s);
    Shorten(c5, b.gap2, s);
    var m := BlockMatch([], b);
    assert m.start == 0 && m.start + 8 == |c1| && m.uriTag == |c2| && m.uriTag + 5 == |c3| && m.uriEnd == |c4|;
    TagPieceAt(s, [], b.resultOpen, ResultOpen);
    BlankPieceAt(s, c1, b.gap1);
    TagPieceAt(s, c2, b.uriOpen, UriOpen);
    SlicePieceAt(s, c3, b.uri);
    TagPieceAt(s, c4, b.uriClose, UriClose);
    OneLinePieceAt(s, c3, b.uri);
  }

  /** The second half of a rendered block: `\s*<text>([\s\S]*?)</text>\s*</result>`. */
  lemma RenderedTextPart(b: Block)
    requires WellFormed(b)
    ensures var s, m := Render(b), BlockMatch([], b);
      && m.uriEnd + 6 <= m.textTag && TagAt(s, m.textTag, TextOpen)
      && AllWhiteSpace(s, m.uriEnd + 6, m.textTag)
      && m.textTag + 6 <= m.textEnd && TagAt(s, m.textEnd, TextClose)
      && m.textEnd + 7 <= m.closeTag && TagAt(s, m.closeTag, ResultClose)
      && AllWhiteSpace(s, m.textEnd + 7, m.closeTag)
      && s[m.textTag + 6..m.textEnd] == b.text
  {
    var s := Render(b);
    var c5 := b.resultOpen + b.gap1 + b.uriOpen + b.uri + b.uriClose;
    var c6 := c5 + b.gap2;
    var c7 := c6 + b.textOpen;
    var c8 := c7 + b.text;
    var c9 := c8 + b.textClose;
    var c10 := c9 + b.gap3;
    Shorten(c10, b.resultClose, s);
    Shorten(c9, b.gap3, s);
    Shorten(c8, b.textClose, s);
    Shorten(c7, b.text, s);
    Shorten(c6, b.textOpen, s);
    var m := BlockMatch([], b);
    assert m.uriEnd + 6 == |c5| && m.textTag == |c6| && m.textTag + 6 == |c7| && m.textEnd == |c8|;
    assert m.textEnd + 7 == |c9| && m.closeTag == |c10|;
    BlankPieceAt(s, c5, b.gap2);
    TagPieceAt(s, c6, b.textOpen, TextOpen);
    SlicePieceAt(s, c7, b.text);
    TagPieceAt(s, c8, b.textClose, TextClose);
    BlankPieceAt(s, c9, b.gap3);
    TagPieceAt(s, c10, b.resultClose, ResultClose);
  }

  /** The same match, `n` characters further right. */
  function ShiftMatch(m: Match, n: nat): Match {
    Match(m.start + n, m.uriTag + n, m.uriEnd + n, m.textTag + n, m.textEnd + n, m.closeTag + n)
  }

  /** A tag of `t` at `i` is a tag of `prefix + t + suffix` at `at`, which is
      `i` moved past the prefix. */
  lemma TagInContext(prefix: string, t: string, suffix: string, i: nat, at: nat, tag: string)
    requires TagAt(t, i, tag) && at == |prefix| + i
    ensures TagAt(prefix + t + suffix, at, tag)
  {
    var s := prefix + t + suffix;
    forall k | 0 <= k < |tag| ensures FoldAscii(s[at + k]) == tag[k] {
      assert s[at + k] == t[i + k];
    }
  }

  /** The same for a stretch `t[i..j]`, moved to `[from..to]`. */
  lemma GapInContext(prefix: string, t: string, suffix: string, i: nat, j: nat, from: nat, to: nat)
    requires i <= j <= |t| && from == |prefix| + i && to == |prefix| + j
    ensures to <= |prefix + t + suffix|
    ensures AllWhiteSpace(t, i, j) ==> AllWhiteSpace(prefix + t + suffix, from, to)
    ensures NoLineTerminator(t, i, j) ==> NoLineTerminator(prefix + t + suffix, from, to)
    ensures (prefix + t + suffix)[from..to] == t[i..j]
  {
    var s := prefix + t + suffix;
    assert forall k :: from <= k < to ==> s[k] == t[k - |prefix|];
  }

  /** Text around a match does not disturb its first half... */
  lemma UriHalfInContext(prefix: string, t: string, suffix: string, m: Match)
    requires IsMatch(t, m)
    ensures var s, m' := prefix + t + suffix, ShiftMatch(m, |prefix|);
      && TagAt(s, m'.start, ResultOpen) && TagAt(s, m'.uriTag, UriOpen) && TagAt(s, m'.uriEnd, UriClose)
      && AllWhiteSpace(s, m'.start + 8, m'.uriTag) && NoLineTerminator(s, m'.uriTag + 5, m'.uriEnd)
      && s[m'.uriTag + 5..m'.uriEnd] == t[m.uriTag + 5..m.uriEnd]
  {
    var m' := ShiftMatch(m, |prefix|);
    TagInContext(prefix, t, suffix, m.start, m'.start, ResultOpen);
    TagInContext(prefix, t, suffix, m.uriTag, m'.uriTag, UriOpen);
    TagInContext(prefix, t, suffix, m.uriEnd, m'.uriEnd, UriClose);
    GapInContext(prefix, t, suffix, m.start + 8, m.uriTag, m'.start + 8, m'.uriTag);
    GapInContext(prefix, t, suffix, m.uriTag + 5, m.uriEnd, m'.uriTag + 5, m'.uriEnd);
  }

  /** ... nor its second half ... */
  lemma TextHalfInContext(prefix: string, t: string, suffix: string, m: Match)
    requires IsMatch(t, m)
    ensures var s, m' := prefix + t + suffix, ShiftMatch(m, |prefix|);
      && TagAt(s, m'.textTag, TextOpen) && TagAt(s, m'.textEnd, TextClose) && TagAt(s, m'.closeTag, ResultClose)
      && AllWhiteSpace(s, m'.uriEnd + 6, m'.textTag) && AllWhiteSpace(s, m'.textEnd + 7, m'.closeTag)
      && s[m'.textTag + 6..m'.textEnd] == t[m.textTag + 6..m.textEnd]
  {
    var m' := ShiftMatch(m, |prefix|);
    TagInContext(prefix, t, suffix, m.textTag, m'.textTag, TextOpen);
    TagInContext(prefix, t, suffix, m.textEnd, m'.textEnd, TextClose);
    TagInContext(prefix, t, suffix, m.closeTag, m'.closeTag, ResultClose);
    GapInContext(prefix, t, suffix, m.uriEnd + 6, m.textTag, m'.uriEnd + 6, m'.textTag);
    GapInContext(prefix, t, suffix, m.textTag + 6, m.textEnd, m'.textTag + 6, m'.textEnd);
    GapInContext(prefix, t, suffix, m.textEnd + 7, m.closeTag, m'.textEnd + 7, m'.closeTag);
  }

  /** ... so it stays a match, with the same captures. */
  lemma MatchInContext(prefix: string, t: string, suffix: string, m: Match)
    requires IsMatch(t, m)
    ensures IsMatch(prefix + t + suffix, ShiftMatch(m, |prefix|))
    ensures UriCapture(prefix + t + suffix, ShiftMatch(m, |prefix|)) == UriCapture(t, m)
    ensures TextCapture(prefix + t + suffix, ShiftMatch(m, |prefix|)) == TextCapture(t, m)
  {
    UriHalfInContext(prefix, t, suffix, m);
    TextHalfInContext(prefix, t, suffix, m);
  }

  /** A rendered block is a match at the end of the prefix, and its
      captures are the block's uri and text. */
  lemma RenderedBlockMatches(prefix: string, b: Block, suffix: string)
    requires WellFormed(b)
    ensures IsMatch(prefix + Render(b) + suffix, BlockMatch(prefix, b))
    ensures UriCapture(prefix + Render(b) + suffix, BlockMatch(prefix, b)) == b.uri
    ensures TextCapture(prefix + Render(b) + suffix, BlockMatch(prefix, b)) == b.text
  {
    RenderedUriPart(b);
    RenderedTextPart(b);
    assert IsMatch(Render(b), BlockMatch([], b));
    assert ShiftMatch(BlockMatch([], b), |prefix|) == BlockMatch(prefix, b);
    MatchInContext(prefix, Render(b), suffix, BlockMatch([], b));
  }

  /** No `<` before a rendered block's start, nor inside its uri and text. */
  lemma RenderedBlockHasNoEarlierTag(prefix: string, b: Block, suffix: string)
    requires '<' !in prefix && '<' !in b.uri && '<' !in b.text
    requires |b.uriOpen| == |UriOpen| && |b.textOpen| == |TextOpen|
    ensures var s, m := prefix + Render(b) + suffix, BlockMatch(prefix, b);
      && m.textEnd <= |s|
      && (forall i :: 0 <= i < m.start ==> s[i] != '<')
      && (forall i :: m.uriTag + 5 <= i < m.uriEnd ==> s[i] != '<')
      && (forall i :: m.textTag + 6 <= i < m.textEnd ==> s[i] != '<')
  {
    var r := Render(b);
    var s, m := prefix + r + suffix, BlockMatch(prefix, b);
    var p3 := b.resultOpen + b.gap1 + b.uriOpen;
    var p7 := p3 + b.uri + b.uriClose + b.gap2 + b.textOpen;
    PlainPieceAt(r, p3, b.uri);
    PlainPieceAt(r, p7, b.text);
    forall i | 0 <= i < m.start ensures s[i] != '<' {
      assert s[i] == prefix[i];
    }
    forall i | m.uriTag + 5 <= i < m.uriEnd ensures s[i] != '<' {
      assert s[i] == r[i - |prefix|];
    }
    forall i | m.textTag + 6 <= i < m.textEnd ensures s[i] != '<' {
      assert s[i] == r[i - |prefix|];
    }
  }

  /** Round trip: a well-formed block, preceded by text without a `<` and
      followed by anything, is parsed back to its trimmed uri and text; the
      surrounding text is dropped. */
  lemma ParseRenderedBlock(prefix: string, b: Block, suffix: string)
    requires '<' !in prefix && WellFormed(b)
    ensures ParseResultXml(prefix + Render(b) + suffix) == Some(ResultLink(Trim(b.uri), Trim(b.text)))
  {
    var s, m := prefix + Render(b) + suffix, BlockMatch(prefix, b);
    RenderedBlockMatches(prefix, b, suffix);
    RenderedBlockHasNoEarlierTag(prefix, b, suffix);
    FirstMatchWithoutEarlierTag(s, m);
    ParseResultXmlOfFirstMatch(s, m);
  }

  /** `s` and `s'` differ at most in the case of ASCII letters. */
  predicate SameUpToCase(s: string, s': string) {
    |s| == |s'| && forall i :: 0 <= i < |s| ==> FoldAscii(s[i]) == FoldAscii(s'[i])
  }

  /** Folding only touches letters, so white space and line terminators
      survive it unchanged in both directions. */
  lemma FoldKeepsClasses(c: char, d: char)
    requires FoldAscii(c) == FoldAscii(d)
    ensures IsStrWhiteSpaceChar(c) <==> IsStrWhiteSpaceChar(d)
    ensures IsLineTerminator(c) <==> IsLineTerminator(d)
  {
  }

  /** One direction of case blindness: a match of `s` is a match of `s'`. */
  lemma MatchSurvivesCase(s: string, s': string, m: Match)
    requires SameUpToCase(s, s') && IsMatch(s, m)
    ensures IsMatch(s', m)
  {
    forall j | 0 <= j < |s| ensures FoldAscii(s'[j]) == FoldAscii(s[j]) && (IsStrWhiteSpaceChar(s'[j]) <==> IsStrWhiteSpaceChar(s[j]))
      && (IsLineTerminator(s'[j]) <==> IsLineTerminator(s[j]))
    {
      FoldKeepsClasses(s[j], s'[j]);
    }
  }

  /** Case blindness: two messages that differ only in the case of ASCII
      letters have exactly the same matches (at the same positions). */
  lemma MatchesIgnoreCase(s: string, s': string, m: Match)
    requires SameUpToCase(s, s')
    ensures IsMatch(s, m) <==> IsMatch(s', m)
  {
    if IsMatch(s, m) {
      MatchSurvivesCase(s, s', m);
    }
    if IsMatch(s', m) {
      MatchSurvivesCase(s', s, m);
    }
  }

  /** What the bubble shows. */
  datatype Body =
    | LoadingDots                        // the pulsing "..." placeholder
    | LinkAndText(uri: string, text: string)  // the uri as a link, the text as markdown below it
    | WholeMarkdown(source: string)      // the raw message as markdown

  /** The three-way render choice: the placeholder while loading, otherwise
      the parsed link and text when the message holds a block, otherwise
      the whole message as markdown. */
  function RenderBody(message: string, isLoading: bool): (b: Body)
    ensures b.LoadingDots? <==> isLoading
    ensures b.LinkAndText? <==> !isLoading && exists m :: IsMatch(message, m)
    ensures b.LinkAndText? ==> ParseResultXml(message) == Some(ResultLink(b.uri, b.text))
    ensures b.WholeMarkdown? ==> b.source == message && forall m :: !IsMatch(message, m)
  {
    if isLoading then LoadingDots
    else match ParseResultXml(message)
      case Some(link) => LinkAndText(link.uri, link.text)
      case None => WholeMarkdown(message)
  }

  /** The buttons under a bubble. */
  datatype Control = ThumbsUp | ThumbsDown | CopyMessage

  /** Feedback buttons only under the bot's messages; copy under every message. */
  function Controls(isUser: bool): (c: set<Control>)
    ensures CopyMessage in c
    ensures ThumbsUp in c <==> !isUser
    ensures ThumbsDown in c <==> !isUser
  {
    if isUser then {CopyMessage} else {ThumbsUp, ThumbsDown, CopyMessage}
  }
}
