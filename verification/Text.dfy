/** Strings as the source's string methods see them; whitespace and letter case are those of ASCII. */
module Text {

  // ---- includes ----

  predicate OccursAt(text: string, part: string, k: nat) {
    k + |part| <= |text| && text[k..k + |part|] == part
  }

  /** String.prototype.includes. */
  predicate Includes(text: string, part: string) {
    exists k :: 0 <= k <= |text| && OccursAt(text, part, k)
  }

  // ---- trim and toUpperCase ----

  predicate IsSpace(c: char) { c == ' ' || '\t' <= c <= '\r' }

  function TrimLeft(s: string): string {
    if |s| > 0 && IsSpace(s[0]) then TrimLeft(s[1..]) else s
  }

  function TrimRight(s: string): string {
    if |s| > 0 && IsSpace(s[|s| - 1]) then TrimRight(s[..|s| - 1]) else s
  }

  function Trim(s: string): string { TrimRight(TrimLeft(s)) }

  function UpperChar(c: char): char { if 'a' <= c <= 'z' then (c as int - 32) as char else c }

  function Upper(s: string): (r: string)
    ensures |r| == |s|
  {
    seq(|s|, i requires 0 <= i < |s| => UpperChar(s[i]))
  }

  predicate Trimmed(s: string) { |s| > 0 ==> !IsSpace(s[0]) && !IsSpace(s[|s| - 1]) }

  lemma {:induction false} TrimLeftDone(s: string)
    ensures |TrimLeft(s)| > 0 ==> !IsSpace(TrimLeft(s)[0])
    decreases |s|
  {
    if |s| > 0 && IsSpace(s[0]) { TrimLeftDone(s[1..]); }
  }

  lemma {:induction false} TrimRightDone(s: string)
    ensures |TrimRight(s)| > 0 ==> !IsSpace(TrimRight(s)[|TrimRight(s)| - 1]) && TrimRight(s)[0] == s[0]
    ensures |TrimRight(s)| <= |s|
    decreases |s|
  {
    if |s| > 0 && IsSpace(s[|s| - 1]) { TrimRightDone(s[..|s| - 1]); }
  }

  lemma TrimDone(s: string)
    ensures Trimmed(Trim(s))
  {
    TrimLeftDone(s);
    TrimRightDone(TrimLeft(s));
    if |Trim(s)| > 0 { assert Trim(s)[0] == TrimLeft(s)[0]; }
  }

  lemma TrimNothing(s: string)
    requires Trimmed(s)
    ensures Trim(s) == s
  {
  }
}
