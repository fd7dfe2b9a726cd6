/**
  The part of JavaScript's string semantics the chat input relies on:
  `String.prototype.trim` and the truthiness of its result.  A string is
  truthy exactly when it is non-empty, so `if (inputMessage.trim())` takes
  its branch exactly when the trimmed input is not the empty string.
 */
module JsText {

  /** The code points ECMAScript classes as WhiteSpace (TAB, VT, FF, ZWNBSP and
      every space separator) or LineTerminator (LF, CR, LS, PS); `trim` strips
      exactly these from both ends. */
  predicate IsWhiteSpace(c: char) {
    || c == '\t' || c == '\U{B}' || c == '\U{C}' || c == '\U{FEFF}'
    || c == ' ' || c == '\U{A0}' || c == '\U{1680}'
    || ('\U{2000}' <= c <= '\U{200A}')
    || c == '\U{202F}' || c == '\U{205F}' || c == '\U{3000}'
    || c == '\n' || c == '\r' || c == '\U{2028}' || c == '\U{2029}'
  }

  /** Drops the leading white space: the result is a suffix of `s`, everything
      dropped is white space, and the result does not start with white space. */
  function TrimStart(s: string): (r: string)
    ensures |r| <= |s| && r == s[|s| - |r|..]
    ensures forall i :: 0 <= i < |s| - |r| ==> IsWhiteSpace(s[i])
    ensures r != [] ==> !IsWhiteSpace(r[0])
  {
    if s != [] && IsWhiteSpace(s[0]) then
      var r := TrimStart(s[1..]);
      assert s[1..][|s| - 1 - |r|..] == s[|s| - |r|..];
      assert forall i :: 1 <= i < |s| - |r| ==> s[i] == s[1..][i - 1];
      r
    else s
  }

  /** Drops the trailing white space: the result is a prefix of `s`, everything
      dropped is white space, and the result does not end with white space. */
  function TrimEnd(s: string): (r: string)
    ensures |r| <= |s| && r == s[..|r|]
    ensures forall i :: |r| <= i < |s| ==> IsWhiteSpace(s[i])
    ensures r != [] ==> !IsWhiteSpace(r[|r| - 1])
  {
    if s != [] && IsWhiteSpace(s[|s| - 1]) then
      var r := TrimEnd(s[..|s| - 1]);
      assert s[..|s| - 1][..|r|] == s[..|r|];
      assert forall i :: |r| <= i < |s| - 1 ==> s[i] == s[..|s| - 1][i];
      r
    else s
  }

  /** `s.trim()`: the leading white space dropped, then the trailing;
      TrimIsSlice states what is left. */
  function Trim(s: string): string {
    TrimEnd(TrimStart(s))
  }

  /** Where `s.trim()` starts in `s`: the number of leading white-space
      characters. */
  function TrimFrom(s: string): nat {
    |s| - |TrimStart(s)|
  }

  /** Where `s.trim()` ends in `s`. */
  function TrimTo(s: string): nat {
    TrimFrom(s) + |Trim(s)|
  }

  /** `s.trim()` is the slice `s[TrimFrom(s)..TrimTo(s)]`; everything before
      and after it is white space, and it neither starts nor ends with white
      space. */
  lemma TrimIsSlice(s: string)
    ensures TrimTo(s) <= |s| && Trim(s) == s[TrimFrom(s)..TrimTo(s)]
    ensures forall i :: 0 <= i < TrimFrom(s) ==> IsWhiteSpace(s[i])
    ensures forall i :: TrimTo(s) <= i < |s| ==> IsWhiteSpace(s[i])
    ensures Trim(s) != [] ==> !IsWhiteSpace(Trim(s)[0]) && !IsWhiteSpace(Trim(s)[|Trim(s)| - 1])
  {
    var t := TrimStart(s);
    var k, e := TrimFrom(s), TrimTo(s);
    assert k == |s| - |t| && e == k + |TrimEnd(t)|;
    PieceOfSuffix(s, t, TrimEnd(t), k, e);
  }

  /** A prefix `r` of the suffix `t` of `s` that starts at `k` is the slice
      of `s` from `k` to `e`, and what follows it in `t` follows it in `s`. */
  lemma PieceOfSuffix(s: string, t: string, r: string, k: nat, e: nat)
    requires k == |s| - |t| && t == s[k..]
    requires |r| <= |t| && r == t[..|r|] && e == k + |r|
    requires forall i :: |r| <= i < |t| ==> IsWhiteSpace(t[i])
    ensures e <= |s| && r == s[k..e]
    ensures forall i :: e <= i < |s| ==> IsWhiteSpace(s[i])
    ensures r != [] ==> r[0] == t[0]
  {
    assert s[k..][..|r|] == s[k..e];
    forall i | e <= i < |s|
      ensures IsWhiteSpace(s[i])
    {
      assert s[i] == t[i - k];
    }
  }

  /** The guard `!s.trim()`: the trimmed string is empty, hence falsy. */
  predicate IsBlank(s: string) {
    Trim(s) == []
  }

  /** A string is blank exactly when every one of its characters is white space. */
  lemma BlankIffAllWhiteSpace(s: string)
    ensures IsBlank(s) <==> forall i :: 0 <= i < |s| ==> IsWhiteSpace(s[i])
  {
    TrimIsSlice(s);
    var t := TrimStart(s);
    if t != [] {
      // the first kept character is not white space, so neither the input
      // nor its trimmed form is blank
      assert t[0] == s[|s| - |t|] && !IsWhiteSpace(t[0]);
    }
  }
}
