/** The Python string operations the service's core is built from:
    `str.partition`, `str.rpartition`, `str.casefold` and the `in` substring test. */
module Strings {

  /** `s.partition(sep)[0]`: the part of `s` before the first `sep`,
      or the whole of `s` when `sep` does not occur in it. */
  function Before(s: string, sep: char): (r: string)
    ensures r <= s
    ensures sep !in r
    ensures |r| < |s| ==> s[|r|] == sep
  {
    if s == [] || s[0] == sep then [] else [s[0]] + Before(s[1..], sep)
  }

  /** Whatever follows the first `sep` does not reach the prefix:
      `"varchar(10)"` and `"varchar(50)"` both give `"varchar"`. */
  lemma BeforeIgnoresSuffix(b: string, sep: char, rest: string)
    requires sep !in b
    ensures Before(b + [sep] + rest, sep) == b
  {
    var s := b + [sep] + rest;
    var r := Before(s, sep);
    assert s[|b|] == sep;
    assert forall k :: 0 <= k < |b| ==> s[k] == b[k] != sep;
    assert r == s[..|r|];
    assert r == s[..|r|] == b;
  }

  /** Without `sep`, `s.partition(sep)[0]` is the whole of `s`. */
  lemma BeforeAbsent(s: string, sep: char)
    requires sep !in s
    ensures Before(s, sep) == s
  {
  }

  /** The three parts `(head, sep, tail)` of `s.rpartition(sep)`. */
  datatype Parts = Parts(head: string, sep: string, tail: string)

  /** `s.rpartition(sep)`: split at the LAST `sep`; when `sep` does not occur,
      the head and separator are empty and the tail is the whole of `s`. */
  function RPartition(s: string, sep: char): (p: Parts)
    ensures p.head + p.sep + p.tail == s
    ensures sep !in p.tail
    ensures sep in s ==> p.sep == [sep]
    ensures sep !in s ==> p == Parts([], [], s)
  {
    if s == [] then Parts([], [], [])
    else if s[|s| - 1] == sep then
      assert s == s[..|s| - 1] + [sep];
      Parts(s[..|s| - 1], [sep], [])
    else
      var p := RPartition(s[..|s| - 1], sep);
      assert s == s[..|s| - 1] + [s[|s| - 1]];
      Parts(p.head, p.sep, p.tail + [s[|s| - 1]])
  }

  /** Splitting `head + sep + tail` at its last `sep` gives back `head` and `tail`
      whenever `tail` has no `sep`, however many `sep`s `head` holds. */
  lemma {:induction false} RPartitionOfJoin(head: string, sep: char, tail: string)
    requires sep !in tail
    ensures RPartition(head + [sep] + tail, sep) == Parts(head, [sep], tail)
  {
    var s := head + [sep] + tail;
    if tail == [] {
      assert s[..|s| - 1] == head;
    } else {
      var last := |tail| - 1;
      assert s[..|s| - 1] == head + [sep] + tail[..last];
      assert tail == tail[..last] + [tail[last]];
      RPartitionOfJoin(head, sep, tail[..last]);
    }
  }

  /** `str.casefold` on a single character, restricted to ASCII letters. */
  function FoldChar(c: char): char
  {
    if 'A' <= c <= 'Z' then (c as int - 'A' as int + 'a' as int) as char else c
  }

  /** `s.casefold()`, restricted to ASCII letters. */
  function CaseFold(s: string): (r: string)
    ensures |r| == |s|
    ensures forall i :: 0 <= i < |r| ==> !('A' <= r[i] <= 'Z')
    ensures forall i :: 0 <= i < |s| && !('A' <= s[i] <= 'Z') ==> r[i] == s[i]
  {
    seq(|s|, i requires 0 <= i < |s| => FoldChar(s[i]))
  }

  /** Folding an already folded string changes nothing. */
  lemma CaseFoldIdempotent(s: string)
    ensures CaseFold(CaseFold(s)) == CaseFold(s)
  {
  }

  /** A string without upper-case letters is its own folding. */
  lemma CaseFoldNoUpper(s: string)
    requires forall i :: 0 <= i < |s| ==> !('A' <= s[i] <= 'Z')
    ensures CaseFold(s) == s
  {
  }

  /** Folding and cutting at a non-letter commute: `s.partition(c)[0].casefold()`
      equals `s.casefold().partition(c)[0]`. */
  lemma {:induction false} CaseFoldBefore(s: string, sep: char)
    requires !('A' <= sep <= 'Z') && !('a' <= sep <= 'z')
    ensures CaseFold(Before(s, sep)) == Before(CaseFold(s), sep)
  {
    if s != [] {
      var f := CaseFold(s);
      assert f[0] == FoldChar(s[0]);
      assert f[1..] == CaseFold(s[1..]);
      if s[0] != sep {
        assert f[0] != sep;
        CaseFoldBefore(s[1..], sep);
        CaseFoldCons(s[0], Before(s[1..], sep));
      }
    }
  }

  /** Folding a string folds its first character and then the rest. */
  lemma CaseFoldCons(c: char, t: string)
    ensures CaseFold([c] + t) == [FoldChar(c)] + CaseFold(t)
  {
    assert forall i :: 0 < i <= |t| ==> ([c] + t)[i] == t[i - 1];
  }

  /** `sub` occurs in `s` starting at index `i`. */
  predicate OccursAt(s: string, sub: string, i: int)
  {
    0 <= i && i + |sub| <= |s| && s[i..i + |sub|] == sub
  }

  /** `sub in s`: Python's substring test. */
  predicate Contains(s: string, sub: string)
  {
    exists i | 0 <= i <= |s| - |sub| :: OccursAt(s, sub, i)
  }

  /** `sub` cannot occur in `s` when its `j`th character is absent from `s`. */
  lemma NotContainedWithout(s: string, sub: string, j: int)
    requires 0 <= j < |sub| && sub[j] !in s
    ensures !Contains(s, sub)
  {
  }

  /** A substring of a substring of `s` is a substring of `s`. */
  lemma ContainsTransitive(s: string, mid: string, sub: string)
    requires Contains(s, mid) && Contains(mid, sub)
    ensures Contains(s, sub)
  {
    var i: int :| OccursAt(s, mid, i);
    var j: int :| OccursAt(mid, sub, j);
    assert OccursAt(s, mid, i) && OccursAt(mid, sub, j);
    forall k | 0 <= k < |sub|
      ensures s[i + j + k] == sub[k]
    {
      assert mid[j + k] == sub[k];
      assert s[i..i + |mid|][j + k] == s[i + j + k];
    }
    assert s[i + j..i + j + |sub|] == sub;
    assert OccursAt(s, sub, i + j);
  }
}
