/**
 * The few Python string and sequence operations the bot's formatting relies
 * on, each given the meaning Python gives it for `str` values (a `str` is a
 * sequence of Unicode scalar values, as a Dafny `string` is).
 */
module PyStr {

  function Min(a: int, b: int): int { if a <= b then a else b }

  function Max(a: int, b: int): int { if a <= b then b else a }

  /**
   * `s[:m]`: a non-negative bound is clamped to the length of `s`; a
   * negative bound counts back from the end and is clamped at zero.
   */
  function Prefix(s: string, m: int): string
  {
    if m >= 0 then s[..Min(m, |s|)] else s[..Max(0, |s| + m)]
  }

  /**
   * The slicing laws `s[:m]` obeys: it is a prefix that the rest of `s`
   * completes; a bound at or past the end keeps everything; a bound inside
   * keeps exactly that many characters; a negative bound is the same as
   * the non-negative bound `len(s) + m`, clamped at zero.
   */
  lemma PrefixLaws(s: string, m: int)
    ensures |Prefix(s, m)| <= |s|
    ensures Prefix(s, m) + s[|Prefix(s, m)|..] == s
    ensures m >= |s| ==> Prefix(s, m) == s
    ensures 0 <= m <= |s| ==> Prefix(s, m) == s[..m] && |Prefix(s, m)| == m
    ensures m < 0 ==> Prefix(s, m) == Prefix(s, Max(0, |s| + m))
  {
    var r := Prefix(s, m);
    assert r + s[|r|..] == s[..|r|] + s[|r|..];
    assert s[..|r|] + s[|r|..] == s;
  }

  /** `s.replace(c, '')` for a one-character `c`: every occurrence of `c` is dropped. */
  function RemoveAll(s: string, c: char): (r: string)
    ensures |r| <= |s|
    ensures forall x :: x in r <==> x in s && x != c
    ensures forall x :: multiset(r)[x] == if x == c then 0 else multiset(s)[x]
  {
    if s == [] then []
    else
      var rest := RemoveAll(s[1..], c);
      assert s == [s[0]] + s[1..];
      if s[0] == c then rest else [s[0]] + rest
  }

  /** Removing a character distributes over concatenation, so the kept characters stay in order. */
  lemma {:induction false} RemoveAllAppend(a: string, b: string, c: char)
    ensures RemoveAll(a + b, c) == RemoveAll(a, c) + RemoveAll(b, c)
  {
    if a == [] {
      assert a + b == b;
    } else {
      assert (a + b)[0] == a[0] && (a + b)[1..] == a[1..] + b;
      RemoveAllAppend(a[1..], b, c);
    }
  }

  /** Removing a character that does not occur changes nothing. */
  lemma {:induction false} RemoveAllAbsent(s: string, c: char)
    requires c !in s
    ensures RemoveAll(s, c) == s
  {
    if s != [] {
      RemoveAllAbsent(s[1..], c);
    }
  }

  predicate IsLetter(ch: char)
  {
    'a' <= ch <= 'z' || 'A' <= ch <= 'Z'
  }

  function ToUpper(ch: char): char
  {
    if 'a' <= ch <= 'z' then (ch as int - 32) as char else ch
  }

  function ToLower(ch: char): char
  {
    if 'A' <= ch <= 'Z' then (ch as int + 32) as char else ch
  }

  /**
   * `s.capitalize()` restricted to ASCII letters: the first character is
   * upper-cased and every later one lower-cased; other characters are kept.
   */
  function Capitalize(s: string): (r: string)
    ensures |r| == |s|
    ensures forall k :: 0 <= k < |r| ==> ToLower(r[k]) == ToLower(s[k])
    ensures forall k :: 0 <= k < |r| ==> (IsLetter(r[k]) <==> IsLetter(s[k]))
    ensures |r| > 0 ==> !('a' <= r[0] <= 'z')
    ensures forall k :: 0 < k < |r| ==> !('A' <= r[k] <= 'Z')
  {
    seq(|s|, k requires 0 <= k < |s| => if k == 0 then ToUpper(s[k]) else ToLower(s[k]))
  }

  /**
   * `random.choice(xs)`, with the random draw passed in as `pick`: any draw
   * is reduced modulo the length, so every element can be drawn.
   */
  function Choice<T>(xs: seq<T>, pick: nat): (x: T)
    requires |xs| > 0
    ensures x in xs
  {
    xs[pick % |xs|]
  }

  /** A sanity fact about the modulo reduction: every position of the list is the outcome of some draw. */
  lemma ChoiceReachesEvery<T>(xs: seq<T>, i: nat)
    requires i < |xs|
    ensures Choice(xs, i) == xs[i]
  {
  }
}
