/** Text helpers: Go's strings.TrimSpace and SQL's NULLIF. */
module Strings {
  import opened Wrappers

  /** NULLIF(text, ''). */
  function NullIfEmpty(text: string): Option<string> {
    if text == "" then None else Some(text)
  }

  predicate IsSpace(c: char) {
    || '\t' <= c <= '\r' || c == ' ' || c == '\U{85}' || c == '\U{A0}' || c == '\U{1680}'
    || '\U{2000}' <= c <= '\U{200A}' || c == '\U{2028}' || c == '\U{2029}' || c == '\U{202F}'
    || c == '\U{205F}' || c == '\U{3000}'
  }

  function TrimLeft(s: string): string {
    if s != [] && IsSpace(s[0]) then TrimLeft(s[1..]) else s
  }

  function TrimRight(s: string): string {
    if s != [] && IsSpace(s[|s| - 1]) then TrimRight(s[..|s| - 1]) else s
  }

  /** strings.TrimSpace. */
  function TrimSpace(s: string): string {
    TrimRight(TrimLeft(s))
  }

  lemma {:induction false} TrimRightCuts(s: string)
    ensures TrimRight(s) <= s
    ensures TrimRight(s) != "" ==> !IsSpace(TrimRight(s)[|TrimRight(s)| - 1])
    ensures forall i :: |TrimRight(s)| <= i < |s| ==> IsSpace(s[i])
  {
    if s != [] && IsSpace(s[|s| - 1]) {
      TrimRightCuts(s[..|s| - 1]);
    }
  }

  lemma {:induction false} TrimLeftCuts(s: string) returns (n: nat)
    ensures n <= |s| && TrimLeft(s) == s[n..] && forall i :: 0 <= i < n ==> IsSpace(s[i])
    ensures TrimLeft(s) != "" ==> !IsSpace(TrimLeft(s)[0])
  {
    n := 0;
    if s != [] && IsSpace(s[0]) {
      var rest := TrimLeftCuts(s[1..]);
      n := rest + 1;
    }
  }

  /** Nothing is left exactly of a text of blanks. */
  lemma TrimSpaceLeavesNothing(s: string)
    ensures TrimSpace(s) == "" <==> forall i :: 0 <= i < |s| ==> IsSpace(s[i])
  {
    var start, end := TrimSpaceCuts(s);
    if TrimSpace(s) == "" {
      assert start == end;
    }
  }

  /** Trimming cuts blanks and nothing else off both ends. */
  lemma TrimSpaceCuts(s: string) returns (start: nat, end: nat)
    ensures start <= end <= |s| && TrimSpace(s) == s[start..end]
    ensures forall i :: 0 <= i < start || end <= i < |s| ==> IsSpace(s[i])
    ensures TrimSpace(s) != "" ==> !IsSpace(s[start]) && !IsSpace(s[end - 1])
  {
    start := TrimLeftCuts(s);
    var left := s[start..];
    TrimRightCuts(left);
    end := start + |TrimSpace(s)|;
    forall i | end <= i < |s| ensures IsSpace(s[i]) {
      assert left[i - start] == s[i];
    }
  }
}
