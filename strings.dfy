/** The few `String.prototype` operations the application relies on:
    `startsWith`, `split` and `join` with a one-character separator,
    and `toLowerCase` restricted to ASCII. */
module Strings {

  /** Position of the first `c` in `s`, or `|s|` when `s` has none. */
  function Find(s: string, c: char): (k: nat)
    ensures k <= |s|
    ensures k < |s| ==> s[k] == c
    ensures forall i :: 0 <= i < k ==> s[i] != c
  {
    if |s| == 0 then 0
    else if s[0] == c then 0
    else 1 + Find(s[1..], c)
  }

  /** The class `[0-9]` of JavaScript regular expressions. */
  predicate IsAsciiDigit(c: char)
  {
    '0' <= c <= '9'
  }

  predicate StartsWith(s: string, prefix: string)
  {
    |prefix| <= |s| && s[..|prefix|] == prefix
  }

  /** The text before the first `sep`, or all of `s`. */
  function Word(s: string, sep: char): (w: string)
    ensures sep !in w
    ensures w <= s
  {
    s[..Find(s, sep)]
  }

  /** `s.split(sep)` for a one-character separator: the maximal pieces
      between occurrences of `sep`, empty pieces included. */
  function Split(s: string, sep: char): (parts: seq<string>)
    ensures |parts| >= 1
    ensures parts[0] == Word(s, sep)
    ensures forall i :: 0 <= i < |parts| ==> sep !in parts[i]
    decreases |s|
  {
    var k := Find(s, sep);
    if k == |s| then [s] else [s[..k]] + Split(s[k + 1..], sep)
  }

  /** `parts.join(sep)`. */
  function Join(parts: seq<string>, sep: string): string
  {
    if |parts| == 0 then ""
    else if |parts| == 1 then parts[0]
    else parts[0] + sep + Join(parts[1..], sep)
  }

  /** `s` with every `c` removed. */
  function Without(s: string, c: char): (r: string)
    ensures c !in r
    ensures |r| <= |s|
  {
    if |s| == 0 then ""
    else (if s[0] == c then "" else [s[0]]) + Without(s[1..], c)
  }

  /** A split at a string that has the separator: the first piece, then
      the split of the rest. */
  lemma SplitCons(s: string, sep: char)
    requires Find(s, sep) < |s|
    ensures Split(s, sep) == [s[..Find(s, sep)]] + Split(s[Find(s, sep) + 1..], sep)
  {
  }

  lemma JoinCons(p: string, rest: seq<string>, sep: string)
    requires |rest| >= 1
    ensures Join([p] + rest, sep) == p + sep + Join(rest, sep)
  {
    assert ([p] + rest)[1..] == rest;
  }

  /** Joining the pieces of a split with the separator gives back the string. */
  lemma {:induction false} JoinSplit(s: string, sep: char)
    ensures Join(Split(s, sep), [sep]) == s
    decreases |s|
  {
    var k := Find(s, sep);
    if k < |s| {
      var post := s[k + 1..];
      SplitCons(s, sep);
      JoinCons(s[..k], Split(post, sep), [sep]);
      JoinSplit(post, sep);
      Around(s, k);
    }
  }

  lemma Around(s: string, k: nat)
    requires k < |s|
    ensures s == s[..k] + [s[k]] + s[k + 1..]
    ensures s == s[..k] + ([s[k]] + s[k + 1..])
  {
    assert s[k..] == [s[k]] + s[k + 1..];
    assert s == s[..k] + s[k..];
  }

  lemma {:induction false} WithoutAbsent(s: string, c: char)
    requires c !in s
    ensures Without(s, c) == s
  {
    if |s| > 0 {
      assert c !in s[1..] by {
        forall i | 0 <= i < |s[1..]| ensures s[1..][i] != c {
          assert s[1..][i] == s[i + 1];
        }
      }
      WithoutAbsent(s[1..], c);
    }
  }

  lemma {:induction false} WithoutAppend(a: string, b: string, c: char)
    ensures Without(a + b, c) == Without(a, c) + Without(b, c)
  {
    if |a| > 0 {
      assert (a + b)[0] == a[0];
      assert (a + b)[1..] == a[1..] + b;
      WithoutAppend(a[1..], b, c);
    } else {
      assert a + b == b;
    }
  }

  /** Removing `c` from a string whose first `c` is at `k`. */
  lemma WithoutFirst(s: string, c: char, k: nat)
    requires k < |s| && s[k] == c && c !in s[..k]
    ensures Without(s, c) == s[..k] + Without(s[k + 1..], c)
  {
    var tail := [c] + s[k + 1..];
    assert tail[0] == c && tail[1..] == s[k + 1..];
    Around(s, k);
    WithoutAppend(s[..k], tail, c);
    WithoutAbsent(s[..k], c);
  }

  /** The text before the first `c` has no `c` in it. */
  lemma BeforeFind(s: string, c: char)
    ensures c !in s[..Find(s, c)]
  {
    var k := Find(s, c);
    forall i | 0 <= i < k ensures s[..k][i] != c {
      assert s[..k][i] == s[i];
    }
  }

  /** Joining the pieces of a split with nothing removes the separator:
      `s.split(' ').join('')` drops every space of `s`. */
  lemma {:induction false} JoinSplitEmpty(s: string, c: char)
    ensures Join(Split(s, c), "") == Without(s, c)
    decreases |s|
  {
    var k := Find(s, c);
    BeforeFind(s, c);
    if k == |s| {
      assert s[..k] == s;
      WithoutAbsent(s, c);
    } else {
      var post := s[k + 1..];
      SplitCons(s, c);
      JoinCons(s[..k], Split(post, c), "");
      assert s[..k] + "" == s[..k];
      JoinSplitEmpty(post, c);
      WithoutFirst(s, c, k);
    }
  }

  function LowerChar(c: char): char
  {
    if 'A' <= c <= 'Z' then (c as int + 32) as char else c
  }

  /** `s.toLowerCase()` on ASCII letters; every other character is kept. */
  function LowerAscii(s: string): (r: string)
    ensures |r| == |s|
    ensures forall i :: 0 <= i < |s| ==> r[i] == LowerChar(s[i])
  {
    seq(|s|, i requires 0 <= i < |s| => LowerChar(s[i]))
  }
}
