/** Sequence and string operations the tool takes from Python's library:
    filtering a string character by character (`re.sub` with a negated
    character class, `str.replace` with an empty replacement) and
    `str.split` with a one-character separator, and the regular-expression
    class `0-9` both the phone cleaning and the email test use. */
module Sequences {

  /** The regular-expression range `0-9`: an ASCII digit. */
  predicate IsAsciiDigit(c: char)
  {
    '0' <= c <= '9'
  }

  /** The elements of `s` that satisfy `p`, in their original order. */
  function Keep<T>(s: seq<T>, p: T -> bool): (r: seq<T>)
    ensures |r| <= |s|
    ensures forall i :: 0 <= i < |r| ==> p(r[i])
  {
    if s == [] then [] else (if p(s[0]) then [s[0]] else []) + Keep(s[1..], p)
  }

  /** `t` can be obtained from `s` by deleting elements (order kept). */
  predicate IsSubsequence<T(==)>(t: seq<T>, s: seq<T>)
  {
    if t == [] then true
    else if s == [] then false
    else (t[0] == s[0] && IsSubsequence(t[1..], s[1..])) || IsSubsequence(t, s[1..])
  }

  /** Filtering distributes over concatenation: it decides element by element. */
  lemma {:induction false} KeepConcat<T>(a: seq<T>, b: seq<T>, p: T -> bool)
    ensures Keep(a + b, p) == Keep(a, p) + Keep(b, p)
  {
    if a == [] {
      assert a + b == b;
    } else {
      assert (a + b)[0] == a[0];
      assert (a + b)[1..] == a[1..] + b;
      KeepConcat(a[1..], b, p);
    }
  }

  /** A sequence all of whose elements pass the filter is left unchanged. */
  lemma {:induction false} KeepAll<T>(s: seq<T>, p: T -> bool)
    requires forall i :: 0 <= i < |s| ==> p(s[i])
    ensures Keep(s, p) == s
  {
    if s != [] {
      assert p(s[0]);
      KeepAll(s[1..], p);
    }
  }

  /** Filtering twice is filtering once. */
  lemma KeepIdempotent<T>(s: seq<T>, p: T -> bool)
    ensures Keep(Keep(s, p), p) == Keep(s, p)
  {
    KeepAll(Keep(s, p), p);
  }

  /** Every occurrence of an element that passes the filter survives it. */
  lemma {:induction false} KeepCount<T>(s: seq<T>, p: T -> bool, x: T)
    requires p(x)
    ensures multiset(Keep(s, p))[x] == multiset(s)[x]
  {
    if s != [] {
      assert s == [s[0]] + s[1..];
      KeepCount(s[1..], p, x);
    }
  }

  /** The filtered sequence is a subsequence of the original one. */
  lemma {:induction false} KeepIsSubsequence<T>(s: seq<T>, p: T -> bool)
    ensures IsSubsequence(Keep(s, p), s)
  {
    if s != [] {
      var rest := Keep(s[1..], p);
      KeepIsSubsequence(s[1..], p);
      if p(s[0]) {
        var k := Keep(s, p);
        assert k == [s[0]] + rest;
        assert k[0] == s[0] && k[1..] == rest;
      } else if rest != [] {
        assert Keep(s, p) == rest;
      }
    }
  }

  /** Python's `sep.join(parts)` for a one-element separator. */
  function Join<T>(parts: seq<seq<T>>, sep: T): (joined: seq<T>)
  {
    if parts == [] then []
    else if |parts| == 1 then parts[0]
    else parts[0] + [sep] + Join(parts[1..], sep)
  }

  /** Python's `s.split(sep)` for a one-element separator: the pieces
      between separators, including empty ones. */
  function Split<T(==)>(s: seq<T>, sep: T): (parts: seq<seq<T>>)
    ensures parts != []
  {
    if s == [] then [[]]
    else
      var rest := Split(s[1..], sep);
      if s[0] == sep then [[]] + rest
      else [[s[0]] + rest[0]] + rest[1..]
  }

  /** There is one more piece than there are separators, and no piece
      holds a separator. */
  lemma {:induction false} SplitPieces<T>(s: seq<T>, sep: T)
    ensures |Split(s, sep)| == multiset(s)[sep] + 1
    ensures forall k :: 0 <= k < |Split(s, sep)| ==> sep !in Split(s, sep)[k]
  {
    if s != [] {
      assert s == [s[0]] + s[1..];
      SplitPieces(s[1..], sep);
    }
  }

  /** Joining the pieces with the separator gives back the input. */
  lemma {:induction false} SplitJoin<T>(s: seq<T>, sep: T)
    ensures Join(Split(s, sep), sep) == s
  {
    if s != [] {
      var rest := Split(s[1..], sep);
      SplitJoin(s[1..], sep);
      var parts := Split(s, sep);
      if s[0] == sep {
        assert parts[1..] == rest;
      } else if |rest| > 1 {
        assert parts[1..] == rest[1..];
      }
    }
  }

  /** A sequence without the separator is a single piece. */
  lemma {:induction false} SplitNone<T>(s: seq<T>, sep: T)
    requires sep !in s
    ensures Split(s, sep) == [s]
  {
    if s != [] {
      SplitNone(s[1..], sep);
      assert [s[0]] + s[1..] == s;
    }
  }

  /** A sequence with exactly one separator, at index `i`, splits into the
      part before it and the part after it. */
  lemma {:induction false} SplitAtOnly<T>(s: seq<T>, sep: T, i: nat)
    requires i < |s| && s[i] == sep
    requires sep !in s[..i] && sep !in s[i + 1..]
    ensures Split(s, sep) == [s[..i], s[i + 1..]]
  {
    if i == 0 {
      assert s[1..] == s[i + 1..];
      SplitNone(s[1..], sep);
    } else {
      assert s[0] in s[..i];
      assert s[1..][..i - 1] == s[1..i];
      assert s[1..][i - 1 + 1..] == s[i + 1..];
      SplitAtOnly(s[1..], sep, i - 1);
      assert [s[0]] + s[1..i] == s[..i];
    }
  }
}
