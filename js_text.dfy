/**
 * The ECMAScript (ECMA-262) string primitives the chat client relies on:
 * the white-space set that both String.prototype.trim and the RegExp class
 * `\s` use, the line terminators that the RegExp `.` refuses, and trim.
 * Characters are Unicode scalar values; every character named here lies in
 * the Basic Multilingual Plane, so UTF-16 code units and scalar values agree
 * on them. In the comments below, "white space" means StrWhiteSpaceChar.
 */
module JsText {

  /** LineTerminator (section 12.3 of ECMA-262): LF, CR, LS and PS. */
  predicate IsLineTerminator(c: char) {
    c == '\n' || c == '\r' || c == '\U{2028}' || c == '\U{2029}'
  }

  /** WhiteSpace (section 12.2 of ECMA-262): TAB, VT, FF, ZWNBSP and the
      Space_Separator (Zs) code points. */
  predicate IsWhiteSpace(c: char) {
    || c == '\t' || c == '\U{000B}' || c == '\U{000C}' || c == '\U{FEFF}'
    || c == ' ' || c == '\U{00A0}' || c == '\U{1680}'
    || ('\U{2000}' <= c <= '\U{200A}')
    || c == '\U{202F}' || c == '\U{205F}' || c == '\U{3000}'
  }

  /** StrWhiteSpaceChar (section 7.1.4.1 of ECMA-262), WhiteSpace or
      LineTerminator: the set matched by `\s` and stripped by trim. */
  predicate IsStrWhiteSpaceChar(c: char) {
    IsWhiteSpace(c) || IsLineTerminator(c)
  }

  /** Every character of `s` is a StrWhiteSpaceChar (the empty string included). */
  predicate IsBlank(s: string) {
    forall i :: 0 <= i < |s| ==> IsStrWhiteSpaceChar(s[i])
  }

  /** No white space at either end. */
  predicate IsTrimmed(t: string) {
    t == [] || (!IsStrWhiteSpaceChar(t[0]) && !IsStrWhiteSpaceChar(t[|t| - 1]))
  }

  /** Removes the leading white space. */
  function TrimStart(s: string): (r: string)
    ensures |r| <= |s| && r == s[|s| - |r|..]
    ensures forall i :: 0 <= i < |s| - |r| ==> IsStrWhiteSpaceChar(s[i])
    ensures r == [] || !IsStrWhiteSpaceChar(r[0])
    decreases |s|
  {
    if s != [] && IsStrWhiteSpaceChar(s[0]) then
      var r := TrimStart(s[1..]);
      assert s[1..][|s| - 1 - |r|..] == s[|s| - |r|..];
      assert forall i :: 1 <= i < |s| - |r| ==> s[i] == s[1..][i - 1];
      r
    else s
  }

  /** Removes the trailing white space. */
  function TrimEnd(s: string): (r: string)
    ensures |r| <= |s| && r == s[..|r|]
    ensures forall i :: |r| <= i < |s| ==> IsStrWhiteSpaceChar(s[i])
    ensures r == [] || !IsStrWhiteSpaceChar(r[|r| - 1])
    decreases |s|
  {
    if s != [] && IsStrWhiteSpaceChar(s[|s| - 1]) then
      var r := TrimEnd(s[..|s| - 1]);
      assert s[..|s| - 1][..|r|] == s[..|r|];
      assert forall i :: |r| <= i < |s| - 1 ==> s[i] == s[..|s| - 1][i];
      r
    else s
  }

  /** Only a blank string loses everything to TrimStart. */
  lemma TrimStartEmpty(s: string)
    ensures TrimStart(s) == [] <==> IsBlank(s)
  {
    var t := TrimStart(s);
    if t == [] {
      assert s[..|s|] == s;
    } else {
      assert t[0] == s[|s| - |t|];
    }
  }

  /** Only a blank string loses everything to TrimEnd. */
  lemma TrimEndEmpty(s: string)
    ensures TrimEnd(s) == [] <==> IsBlank(s)
  {
    var t := TrimEnd(s);
    if t == [] {
      assert s[0..] == s;
    } else {
      assert t[|t| - 1] == s[|t| - 1];
    }
  }

  /** Every character TrimStart keeps comes from its input. */
  lemma TrimStartKeeps(s: string, c: char)
    requires c in TrimStart(s)
    ensures c in s
  {
    var t := TrimStart(s);
    var k :| 0 <= k < |t| && t[k] == c;
    assert t[k] == s[|s| - |t| + k];
  }

  /** Every character TrimEnd keeps comes from its input. */
  lemma TrimEndKeeps(s: string, c: char)
    requires c in TrimEnd(s)
    ensures c in s
  {
    var t := TrimEnd(s);
    var k :| 0 <= k < |t| && t[k] == c;
    assert t[k] == s[k];
  }

  /** `r` is what is left of `s` once a blank run is cut off each end. */
  predicate IsMiddle(s: string, r: string) {
    exists i :: 0 <= i <= |s| - |r| && r == s[i..i + |r|]
      && IsBlank(s[..i]) && IsBlank(s[i + |r|..])
  }

  /** A string `r` taken out of `s` between two blank runs: what `s` is once
      leading white space down to `t` and then trailing white space down to `r`
      have been dropped. */
  lemma MiddleOfBlanks(s: string, t: string, r: string)
    requires |t| <= |s| && t == s[|s| - |t|..]
    requires forall i :: 0 <= i < |s| - |t| ==> IsStrWhiteSpaceChar(s[i])
    requires |r| <= |t| && r == t[..|r|]
    requires forall i :: |r| <= i < |t| ==> IsStrWhiteSpaceChar(t[i])
    ensures IsMiddle(s, r)
  {
    var i := |s| - |t|;
    var j := i + |r|;
    assert r == s[i..j];
    var u := s[j..];
    forall k | 0 <= k < |u| ensures IsStrWhiteSpaceChar(u[k]) {
      assert u[k] == t[|r| + k];
    }
    assert IsBlank(s[..i]);
  }

  /** String.prototype.trim (section 22.1.3.32 of ECMA-262): the string with
      its leading and then its trailing white space removed. */
  function Trim(s: string): (r: string)
    ensures r == [] <==> IsBlank(s)
    ensures IsTrimmed(r)
    ensures IsMiddle(s, r)
  {
    var t := TrimStart(s);
    TrimStartEmpty(s);
    TrimEndEmpty(t);
    assert IsBlank(t) <==> t == [];
    var r := TrimEnd(t);
    assert r != [] ==> r[0] == t[0];
    MiddleOfBlanks(s, t, r);
    r
  }

  /** Trim only removes characters: whatever it keeps comes from its input. */
  lemma TrimKeeps(s: string, c: char)
    requires c in Trim(s)
    ensures c in s
  {
    TrimEndKeeps(TrimStart(s), c);
    TrimStartKeeps(s, c);
  }

  /** A string with no white space at either end is its own trim. */
  lemma TrimOfTrimmed(s: string)
    requires IsTrimmed(s)
    ensures Trim(s) == s
  {
    if s != [] {
      assert TrimStart(s) == s;
      assert TrimEnd(s) == s;
    }
  }

  /** Trimming a trimmed string changes nothing. */
  lemma TrimIdempotent(s: string)
    ensures Trim(Trim(s)) == Trim(s)
  {
    TrimOfTrimmed(Trim(s));
  }
}
