/**
  Splitting a string at the first occurrence of a separator character.

  Both view types of the decoder locate a separator with `str::find` and
  slice around the index it returns. Because the separators are ASCII, the
  byte index `find` returns is the position of the separator in the string
  read as a sequence of characters, which is what `Find` returns here.
 */
module FirstSplit {
  import opened Wrappers

  /** The position of the first `c` in `s` at or after `from`, if any: the
      scan `str::find` performs, one character at a time. */
  function FindFrom(s: string, c: char, from: nat): (r: Option<nat>)
    requires from <= |s|
    ensures r.None? <==> c !in s[from..]
    ensures r.Some? ==> from <= r.value < |s| && s[r.value] == c && c !in s[from..r.value]
    decreases |s| - from
  {
    if from == |s| then None
    else if s[from] == c then Some(from)
    else
      assert s[from..] == [s[from]] + s[from + 1..];
      var r := FindFrom(s, c, from + 1);
      assert r.Some? ==> s[from..r.value] == [s[from]] + s[from + 1..r.value];
      r
  }

  /** The position of the first `c` in `s`, or `None` when `s` has no `c`. */
  function Find(s: string, c: char): (r: Option<nat>)
    ensures r.None? <==> c !in s
    ensures r.Some? ==> r.value < |s| && s[r.value] == c && c !in s[..r.value]
  {
    assert s[0..] == s;
    FindFrom(s, c, 0)
  }

  /** `p` is the text of `s` strictly before its first `c`. */
  ghost predicate IsPrefixBeforeFirst(s: string, c: char, p: string) {
    |p| < |s| && s[..|p|] == p && s[|p|] == c && c !in p
  }

  /** `q` is the text of `s` strictly after its first `c`. */
  ghost predicate IsSuffixAfterFirst(s: string, c: char, q: string) {
    |q| < |s| && s[|s| - |q|..] == q && s[|s| - |q| - 1] == c && c !in s[..|s| - |q| - 1]
  }

  /** A string built as `p`, the separator, then `q` splits back into `p`
      and `q` as long as `p` holds no separator; `q` may hold any number. */
  lemma {:induction false} FindAfterPrefix(p: string, c: char, q: string)
    requires c !in p
    ensures Find(p + [c] + q, c) == Some(|p|)
  {
    var s := p + [c] + q;
    assert s[|p|] == c;
  }

  /** The two specifications pin down a single string each. */
  lemma PrefixBeforeFirstUnique(s: string, c: char, p1: string, p2: string)
    requires IsPrefixBeforeFirst(s, c, p1) && IsPrefixBeforeFirst(s, c, p2)
    ensures p1 == p2
  {
  }

  lemma SuffixAfterFirstUnique(s: string, c: char, q1: string, q2: string)
    requires IsSuffixAfterFirst(s, c, q1) && IsSuffixAfterFirst(s, c, q2)
    ensures q1 == q2
  {
  }
}
