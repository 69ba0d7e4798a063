/** strings.TrimSpace. */
module Text {

  predicate IsSpace(c: char) {
    c == ' ' || c == '\t' || c == '\n' || c == '\r' || c as int == 0x0B || c as int == 0x0C
  }

  function TrimLeft(s: string): (r: string)
    ensures r == "" || !IsSpace(r[0])
    ensures |r| <= |s| && s[|s| - |r|..] == r
  {
    if s != "" && IsSpace(s[0]) then TrimLeft(s[1..]) else s
  }

  function TrimRight(s: string): (r: string)
    ensures r == "" || !IsSpace(r[|r| - 1])
    ensures r <= s
  {
    if s != "" && IsSpace(s[|s| - 1]) then TrimRight(s[..|s| - 1]) else s
  }

  function TrimSpace(s: string): string {
    TrimRight(TrimLeft(s))
  }

  lemma TrimSpaceKeeps(s: string)
    requires forall i :: 0 <= i < |s| ==> !IsSpace(s[i])
    ensures TrimSpace(s) == s
  {
  }

  lemma WhatSpacesAre(c: char)
    ensures IsSpace(c) <==> c in {' ', '\t', '\n', '\r', 0x0B as char, 0x0C as char}
  {
  }

  /** The text from the first to the last character that is no space. */
  lemma TrimMeaning(s: string) returns (k: nat)
    ensures var r := TrimSpace(s);
            && k + |r| <= |s| && (forall i :: 0 <= i < |r| ==> r[i] == s[k + i])
            && (forall i :: 0 <= i < k || k + |r| <= i < |s| ==> IsSpace(s[i]))
            && (r != "" ==> !IsSpace(r[0]) && !IsSpace(r[|r| - 1]))
  {
    hide IsSpace, TrimLeft, TrimRight;
    k := |s| - |TrimLeft(s)|;
    TrimmedLeft(s);
    TrimmedRight(TrimLeft(s));
    forall i | k + |TrimSpace(s)| <= i < |s| ensures IsSpace(s[i]) {
      assert s[i] == TrimLeft(s)[i - k];
    }
  }

  lemma {:induction false} TrimmedLeft(s: string)
    ensures var k := |s| - |TrimLeft(s)|;
            && (forall i :: 0 <= i < k ==> IsSpace(s[i]))
            && (forall i :: k <= i < |s| ==> s[i] == TrimLeft(s)[i - k])
  {
    hide IsSpace;
    if s != "" && IsSpace(s[0]) {
      TrimmedLeft(s[1..]);
      assert forall i :: 1 <= i < |s| ==> s[i] == s[1..][i - 1];
    }
  }

  lemma {:induction false} TrimmedRight(s: string)
    ensures forall i :: |TrimRight(s)| <= i < |s| ==> IsSpace(s[i])
  {
    hide IsSpace;
    if s != "" && IsSpace(s[|s| - 1]) {
      TrimmedRight(s[..|s| - 1]);
    }
  }
}
