/** The string operations the swap page relies on: `split('/')`, pair keys
    built as `${a}/${b}`, `startsWith`, `toLowerCase` and `includes`. */
module Text {

  const Slash: char := '/'

  predicate NoSlash(s: string)
  {
    Slash !in s
  }

  /** JavaScript `s.split(sep)` for a one-character separator: the pieces
      between separators, empty pieces included, always at least one. */
  function Split(s: string, sep: char): (parts: seq<string>)
    ensures |parts| >= 1
    ensures sep !in s ==> parts == [s]
    decreases |s|
  {
    if s == [] then [""]
    else if s[0] == sep then [""] + Split(s[1..], sep)
    else
      var rest := Split(s[1..], sep);
      assert sep !in s ==> [s[0]] + s[1..] == s;
      [[s[0]] + rest[0]] + rest[1..]
  }

  /** Splitting at the first separator: the part before it comes off whole. */
  lemma {:induction false} SplitAtFirst(a: string, sep: char, b: string)
    requires sep !in a
    ensures Split(a + [sep] + b, sep) == [a] + Split(b, sep)
    decreases |a|
  {
    if a == [] {
      assert a + [sep] + b == [sep] + b;
      assert ([sep] + b)[1..] == b;
    } else {
      SplitAtFirst(a[1..], sep, b);
      assert (a + [sep] + b)[1..] == a[1..] + [sep] + b;
      assert [a[0]] + a[1..] == a;
    }
  }

  /** The key under which a pair of symbols is registered: `${a}/${b}`. */
  function PairKey(a: string, b: string): string
  {
    a + "/" + b
  }

  /** Splitting a pair key of slash-free symbols gives the two symbols back. */
  lemma SplitPairKey(a: string, b: string)
    requires NoSlash(a) && NoSlash(b)
    ensures Split(PairKey(a, b), Slash) == [a, b]
  {
    assert PairKey(a, b) == a + [Slash] + b;
    SplitAtFirst(a, Slash, b);
  }

  /** Pair keys of slash-free symbols determine their symbols. */
  lemma PairKeyInjective(a: string, b: string, c: string, d: string)
    requires NoSlash(a) && NoSlash(b) && NoSlash(c) && NoSlash(d)
    requires PairKey(a, b) == PairKey(c, d)
    ensures a == c && b == d
  {
    SplitPairKey(a, b);
    SplitPairKey(c, d);
  }

  /** `const [a, b] = k.split('/'); `${b}/${a}``: the pair key read the other
      way round (a missing second piece reads as `undefined`). */
  function Inverted(k: string): string
  {
    var parts := Split(k, Slash);
    if |parts| >= 2 then PairKey(parts[1], parts[0]) else PairKey("undefined", parts[0])
  }

  lemma InvertedPairKey(a: string, b: string)
    requires NoSlash(a) && NoSlash(b)
    ensures Inverted(PairKey(a, b)) == PairKey(b, a)
  {
    SplitPairKey(a, b);
  }

  /** A key of three slash-separated parts reads the same however it is split into two. */
  lemma PairKeyRegroup(x: string, y: string, z: string)
    ensures PairKey(x, PairKey(y, z)) == PairKey(PairKey(x, y), z)
  {
    assert x + "/" + (y + "/" + z) == x + "/" + y + "/" + z;
  }

  /** JavaScript `s.startsWith(prefix)`. */
  predicate StartsWith(s: string, prefix: string)
  {
    |prefix| <= |s| && s[..|prefix|] == prefix
  }

  /** A key joining two slash-free symbols starts with `s/` only for its first symbol. */
  lemma PairKeyPrefix(a: string, b: string, s: string)
    requires NoSlash(a) && NoSlash(b) && StartsWith(PairKey(a, b), s + "/")
    ensures s == a
  {
    var k := PairKey(a, b);
    assert k == a + [Slash] + b;
    assert forall i :: 0 <= i < |k| && i != |a| ==> k[i] != Slash by {
      forall i | 0 <= i < |k| && i != |a|
        ensures k[i] != Slash
      {
        if i < |a| {
          assert k[i] == a[i];
        } else {
          assert k[i] == b[i - |a| - 1];
        }
      }
    }
    assert k[|s|] == (s + "/")[|s|] == Slash;
    assert s == (s + "/")[..|s|] == k[..|a|] == a;
  }

  lemma StartsWithPairKey(a: string, b: string)
    ensures StartsWith(PairKey(a, b), a + "/")
  {
    assert PairKey(a, b)[..|a + "/"|] == a + "/";
  }

  /** JavaScript `s.includes(t)`: `t` occurs at some position of `s`. */
  predicate Includes(s: string, t: string)
  {
    exists i :: 0 <= i <= |s| - |t| && OccursAt(s, t, i)
  }

  predicate OccursAt(s: string, t: string, i: int)
  {
    0 <= i <= |s| - |t| && s[i..i + |t|] == t
  }

  /** `toLowerCase` on ASCII letters; other characters are left as they are. */
  function LowerAscii(s: string): (r: string)
    ensures |r| == |s|
    ensures forall i :: 0 <= i < |s| && !('A' <= s[i] <= 'Z') ==> r[i] == s[i]
    ensures forall i :: 0 <= i < |s| && 'A' <= s[i] <= 'Z' ==> r[i] == (s[i] as int + 32) as char
  {
    seq(|s|, i requires 0 <= i < |s| =>
      if 'A' <= s[i] <= 'Z' then (s[i] as int - 'A' as int + 'a' as int) as char else s[i])
  }
}
