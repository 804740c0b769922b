/** Strings: searching, trimming and joining, shared by several components. */
module Text {

  /** `p` occurs in `s` at offset `k`. */
  predicate StartsAt(s: string, p: string, k: nat) {
    k + |p| <= |s| && s[k..k + |p|] == p
  }

  /** The leftmost occurrence of `p` in `s` is at offset `k`. */
  predicate FirstAt(s: string, p: string, k: nat) {
    && StartsAt(s, p, k)
    && forall j :: 0 <= j < k ==> !StartsAt(s, p, j)
  }

  predicate Contains(s: string, p: string) {
    exists k :: 0 <= k <= |s| && StartsAt(s, p, k)
  }

  function Join(parts: seq<string>, sep: string): string {
    if |parts| == 0 then ""
    else if |parts| == 1 then parts[0]
    else parts[0] + sep + Join(parts[1..], sep)
  }

  /** Every string that contains `p` has a leftmost occurrence of it. */
  lemma {:induction false} LeftmostOccurrence(s: string, p: string, bound: nat) returns (k: nat)
    requires StartsAt(s, p, bound)
    ensures k <= bound && FirstAt(s, p, k)
    decreases bound
  {
    if j :| 0 <= j < bound && StartsAt(s, p, j) {
      k := LeftmostOccurrence(s, p, j);
    } else {
      k := bound;
    }
  }

  /** Occurrences that fit into `s` do not depend on what follows `s`. */
  lemma StartsAtExtends(s: string, tail: string, p: string, k: nat)
    requires k + |p| <= |s|
    ensures StartsAt(s + tail, p, k) <==> StartsAt(s, p, k)
  {
    assert (s + tail)[k..k + |p|] == s[k..k + |p|];
  }

  lemma StartsAtShift(s: string, n: nat, p: string, k: nat)
    requires n + k + |p| <= |s|
    ensures StartsAt(s[n..], p, k) <==> StartsAt(s, p, n + k)
  {
    assert s[n..][k..k + |p|] == s[n + k..n + k + |p|];
  }

  /** The same, wherever the occurrence would end. */
  lemma StartsAtSuffix(s: string, n: nat, p: string, k: nat)
    requires n <= |s|
    ensures StartsAt(s[n..], p, k) <==> StartsAt(s, p, n + k)
  {
    if n + k + |p| <= |s| { StartsAtShift(s, n, p, k); }
  }

  lemma StartsAtConcat(s: string, a: string, b: string, k: nat)
    ensures StartsAt(s, a + b, k) <==> StartsAt(s, a, k) && StartsAt(s, b, k + |a|)
  {
    if k + |a| + |b| <= |s| {
      assert s[k..k + |a + b|] == s[k..k + |a|] + s[k + |a|..k + |a| + |b|];
      if StartsAt(s, a + b, k) {
        assert (a + b)[..|a|] == a && (a + b)[|a|..] == b;
      }
    }
  }

  lemma PrefixOfConcat(a: string, b: string)
    ensures StartsAt(a + b, a, 0) && (a + b)[|a|..] == b && (a + b)[..|a|] == a
  {
  }

  predicate IsSpace(c: char) {
    || c in " \t\n\r\U{000B}\U{000C}\U{0085}\U{00A0}\U{1680}\U{2028}\U{2029}\U{202F}\U{205F}\U{3000}"
    || '\U{2000}' <= c <= '\U{200A}'
  }

  /** strings.TrimSpace(value) == "" */
  predicate Blank(value: string) {
    forall i :: 0 <= i < |value| ==> IsSpace(value[i])
  }

  function TrimSpace(value: string): string {
    if value == "" then ""
    else if IsSpace(value[0]) then TrimSpace(value[1..])
    else TrimRight(value)
  }

  function TrimRight(value: string): string
    decreases |value|
  {
    if value != "" && IsSpace(value[|value| - 1]) then TrimRight(value[..|value| - 1]) else value
  }

  function ToLower(value: string): string {
    seq(|value|, i requires 0 <= i < |value| => if 'A' <= value[i] <= 'Z' then (value[i] as int + 32) as char
      else value[i])
  }

  function FirstNonEmpty(values: seq<string>): string {
    if values == [] then "" else if !Blank(values[0]) then values[0] else FirstNonEmpty(values[1..])
  }
}
