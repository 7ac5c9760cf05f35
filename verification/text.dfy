/**
 Strings as the source uses them: case-insensitive search (`String.contains(…, ignoreCase = true)`),
 `joinToString` and `lastOrNull` on lists of lines. Case folding covers ASCII letters only.
 */
module Text {

  /** ASCII lower-casing of one character. */
  function LowerChar(c: char): char {
    if 'A' <= c <= 'Z' then (c as int + 32) as char else c
  }

  /** Two characters are equal when case is ignored. */
  predicate CharEqualsIgnoreCase(a: char, b: char) {
    LowerChar(a) == LowerChar(b)
  }

  /** `sub` occurs in `s` at position `at`, ignoring case. */
  predicate RegionMatches(s: string, at: nat, sub: string)
    requires at + |sub| <= |s|
  {
    forall k :: 0 <= k < |sub| ==> CharEqualsIgnoreCase(s[at + k], sub[k])
  }

  /** `s.contains(sub, ignoreCase = true)`. */
  predicate ContainsIgnoreCase(s: string, sub: string) {
    exists at: nat :: at + |sub| <= |s| && RegionMatches(s, at, sub)
  }

  /** `sub` occurs in `s` at position `at`, exactly. */
  predicate OccursAt(s: string, sub: string, at: nat) {
    at + |sub| <= |s| && s[at..at + |sub|] == sub
  }

  /** `s.contains(sub)`, case-sensitive. */
  predicate Contains(s: string, sub: string) {
    exists at: nat :: at <= |s| && OccursAt(s, sub, at)
  }

  /** Whole-string equality ignoring case (`String.equals(…, ignoreCase = true)`). */
  predicate EqualsIgnoreCase(a: string, b: string) {
    |a| == |b| && RegionMatches(a, 0, b)
  }

  /** `parts.joinToString(sep)`: the parts with `sep` between consecutive ones. */
  function Join(parts: seq<string>, sep: string): (r: string)
    ensures |parts| == 0 ==> r == ""
    ensures |parts| >= 1 ==> parts[0] <= r
    ensures |parts| >= 2 ==> r == parts[0] + sep + Join(parts[1..], sep)
  {
    if |parts| == 0 then ""
    else if |parts| == 1 then parts[0]
    else parts[0] + sep + Join(parts[1..], sep)
  }

  /** No part of the list contains the character `c`. */
  predicate NoneContains(parts: seq<string>, c: char) {
    forall i :: 0 <= i < |parts| ==> c !in parts[i]
  }

  /** Index of the first occurrence of `c` in `s`. */
  function IndexOf(s: string, c: char): (i: nat)
    requires c in s
    ensures i < |s| && s[i] == c && c !in s[..i]
  {
    if s[0] == c then 0 else 1 + IndexOf(s[1..], c)
  }

  /**
   With comma-free parts, the rendering `joinToString()` produces (separator ", ") loses
   nothing: two non-empty lists that join to the same text are the same list.
   */
  lemma {:induction false} JoinInjective(a: seq<string>, b: seq<string>)
    requires |a| >= 1 && |b| >= 1
    requires NoneContains(a, ',') && NoneContains(b, ',')
    requires Join(a, ", ") == Join(b, ", ")
    ensures a == b
    decreases |a|
  {
    JoinFirstComma(a);
    JoinFirstComma(b);
    if |a| == 1 || |b| == 1 {
      assert |a| == 1 && |b| == 1;
      assert a == [a[0]] && b == [b[0]];
    } else {
      JoinSplit(a);
      JoinSplit(b);
      JoinInjective(a[1..], b[1..]);
      assert a == [a[0]] + a[1..] && b == [b[0]] + b[1..];
    }
  }

  /** A join of two or more comma-free parts splits at its first comma into the first part and the join of the rest. */
  lemma JoinSplit(parts: seq<string>)
    requires |parts| >= 2 && NoneContains(parts, ',')
    ensures var s := Join(parts, ", ");
      && ',' in s && IndexOf(s, ',') + 2 <= |s|
      && parts[0] == s[..IndexOf(s, ',')]
      && Join(parts[1..], ", ") == s[IndexOf(s, ',') + 2..]
  {
    JoinFirstComma(parts);
    var s := Join(parts, ", ");
    assert s == parts[0] + ", " + Join(parts[1..], ", ");
  }

  /** In a join of comma-free parts, a comma appears iff there are two parts, first right after part one. */
  lemma {:induction false} JoinFirstComma(parts: seq<string>)
    requires |parts| >= 1 && NoneContains(parts, ',')
    ensures var s := Join(parts, ", ");
      && (',' in s <==> |parts| >= 2)
      && (|parts| >= 2 ==> IndexOf(s, ',') == |parts[0]|)
    decreases |parts|
  {
    var s := Join(parts, ", ");
    if |parts| == 1 {
      assert s == parts[0];
    } else {
      var rest := Join(parts[1..], ", ");
      assert s == parts[0] + (", " + rest);
      IndexOfAfterPrefix(parts[0], ", " + rest, ',');
    }
  }

  lemma IndexOfAfterPrefix(a: string, b: string, c: char)
    requires c !in a && c in b
    ensures c in a + b && IndexOf(a + b, c) == |a| + IndexOf(b, c)
    decreases |a|
  {
    assert (a + b)[|a| + IndexOf(b, c)] == c;
    if |a| > 0 {
      assert (a + b)[1..] == a[1..] + b;
      IndexOfAfterPrefix(a[1..], b, c);
    }
  }
}
