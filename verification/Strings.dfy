/**
 White space and trimming.
 */
module Strings {

  /** The characters with the Unicode property White_Space, as Go's unicode.IsSpace has them. */
  predicate IsSpace(c: char) {
    c in "\t\n\U{B}\U{C}\r \U{85}\U{A0}\U{1680}\U{2000}\U{2001}\U{2002}\U{2003}\U{2004}\U{2005}\U{2006}\U{2007}\U{2008}\U{2009}\U{200A}\U{2028}\U{2029}\U{202F}\U{205F}\U{3000}"
  }

  function TrimStart(s: string, space: char -> bool): string {
    if s != "" && space(s[0]) then TrimStart(s[1..], space) else s
  }

  function TrimEnd(s: string, space: char -> bool): string {
    if s != "" && space(s[|s| - 1]) then TrimEnd(s[..|s| - 1], space) else s
  }

  /** strings.TrimSpace */
  function TrimSpace(s: string): string { TrimEnd(TrimStart(s, IsSpace), IsSpace) }

  /** Nothing but white space goes, and what is left neither starts nor ends with it. */
  lemma TrimSpaceIs(s: string) returns (i: nat, j: nat)
    ensures i <= j <= |s| && TrimSpace(s) == s[i..j]
    ensures forall k :: 0 <= k < i || j <= k < |s| ==> IsSpace(s[k])
    ensures i < j ==> !IsSpace(s[i]) && !IsSpace(s[j - 1])
  {
    hide IsSpace, TrimStart, TrimEnd;
    i := TrimStartIs(s, IsSpace);
    var n := TrimEndIs(s[i..], IsSpace);
    j := i + n;
    assert s[i..][..n] == s[i..j];
    forall k | 0 <= k < i || j <= k < |s| ensures IsSpace(s[k]) {
      if j <= k {
        assert s[i..][k - i] == s[k];
      }
    }
  }

  lemma {:induction false} TrimStartIs(s: string, space: char -> bool) returns (i: nat)
    ensures i <= |s| && TrimStart(s, space) == s[i..]
    ensures (forall k :: 0 <= k < i ==> space(s[k])) && (i < |s| ==> !space(s[i]))
  {
    i := 0;
    if s != "" && space(s[0]) {
      i := TrimStartIs(s[1..], space);
      assert forall k :: 0 < k <= i ==> s[k] == s[1..][k - 1];
      i := i + 1;
    }
  }

  lemma {:induction false} TrimEndIs(s: string, space: char -> bool) returns (j: nat)
    ensures j <= |s| && TrimEnd(s, space) == s[..j]
    ensures (forall k :: j <= k < |s| ==> space(s[k])) && (j > 0 ==> !space(s[j - 1]))
  {
    j := |s|;
    if s != "" && space(s[|s| - 1]) {
      j := TrimEndIs(s[..|s| - 1], space);
    }
  }
}
