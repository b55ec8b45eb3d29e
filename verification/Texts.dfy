/** The few string operations the records rely on: trimming, lower case and hex digests. */
module Texts {
  /** White space as `str.strip` and `str.isspace` read it. */
  predicate IsSpace(c: char) {
    || '\t' <= c <= '\r'
    || '\U{1c}' <= c <= ' '
    || c == '\U{85}' || c == '\U{a0}' || c == '\U{1680}'
    || '\U{2000}' <= c <= '\U{200a}'
    || c == '\U{2028}' || c == '\U{2029}' || c == '\U{202f}' || c == '\U{205f}' || c == '\U{3000}'
  }

  predicate Blank(s: string) { forall i | 0 <= i < |s| :: IsSpace(s[i]) }

  function TrimLeft(s: string): string { if s != [] && IsSpace(s[0]) then TrimLeft(s[1..]) else s }

  function TrimRight(s: string): string { if s != [] && IsSpace(s[|s| - 1]) then TrimRight(s[..|s| - 1]) else s }

  function Strip(s: string): string { TrimRight(TrimLeft(s)) }

  /** A text with no white space at either end. */
  predicate Trimmed(s: string) { s == [] || (!IsSpace(s[0]) && !IsSpace(s[|s| - 1])) }

  lemma {:induction false} TrimmedLeft(s: string)
    ensures TrimLeft(s) == [] || !IsSpace(TrimLeft(s)[0])
    ensures TrimLeft(s) == [] <==> Blank(s)
  {
    if s != [] && IsSpace(s[0]) {
      TrimmedLeft(s[1..]);
      assert forall i | 1 <= i < |s| :: s[i] == s[1..][i - 1];
    }
  }

  lemma {:induction false} TrimmedRight(s: string)
    ensures TrimRight(s) == [] || !IsSpace(TrimRight(s)[|TrimRight(s)| - 1])
    ensures TrimRight(s) <= s && (TrimRight(s) == [] <==> Blank(s))
  {
    if s != [] && IsSpace(s[|s| - 1]) { TrimmedRight(s[..|s| - 1]); }
  }

  /** Stripping leaves nothing of a blank text, no white space at an end, and a trimmed text as it is. */
  lemma Stripped(s: string)
    ensures Trimmed(Strip(s)) && (Strip(s) == [] <==> Blank(s)) && (Trimmed(s) ==> Strip(s) == s)
  {
    var l := TrimLeft(s);
    TrimmedLeft(s);
    TrimmedRight(l);
    assert l != [] ==> !Blank(l);
  }

  function LowerChar(c: char): char {
    if 'A' <= c <= 'Z' then (c as int + 32) as char else c
  }

  function Lower(s: string): (r: string)
    ensures |r| == |s| && forall i | 0 <= i < |s| :: r[i] == LowerChar(s[i])
  {
    seq(|s|, i requires 0 <= i < |s| => LowerChar(s[i]))
  }

  predicate IsHex(c: char) { '0' <= c <= '9' || 'a' <= c <= 'f' }

  /** Sixty-four lower-case hex digits: the canonical spelling of a SHA-256 digest. */
  predicate IsDigest(s: string) { |s| == 64 && forall i | 0 <= i < |s| :: IsHex(s[i]) }

  /** A digest is already trimmed and in lower case, so reading it again changes nothing. */
  lemma DigestIsCanonical(s: string)
    requires IsDigest(s)
    ensures Strip(s) == s && Lower(s) == s && !Blank(s)
  {
    assert !IsSpace(s[0]) && !IsSpace(s[63]);
    Stripped(s);
    forall i | 0 <= i < |s| ensures Lower(s)[i] == s[i] {}
  }
}
