/** Vocabulary shared by every component: optional values (the scripts'
    nullable references), absolute value and maximum on reals, and
    order-preserving sub-sequences. */
module Common {

  /** A reference that may be null. */
  datatype Option<+T> = None | Some(value: T)

  function Abs(r: real): real
  {
    if r < 0.0 then -r else r
  }

  function Max(a: real, b: real): real
  {
    if a < b then b else a
  }

  function Min(a: real, b: real): real
  {
    if a < b then a else b
  }

  function MinInt(a: int, b: int): int
  {
    if a < b then a else b
  }

  /** `sub` is `s` with some elements left out and the others kept in their
      original relative order. */
  ghost predicate Subsequence<T>(sub: seq<T>, s: seq<T>)
    decreases |s|
  {
    if |sub| == 0 then true
    else if |s| == 0 then false
    else (sub[0] == s[0] && Subsequence(sub[1..], s[1..])) || Subsequence(sub, s[1..])
  }

  /** Every element of a sub-sequence occurs in the sequence it was taken from. */
  lemma {:induction false} SubsequenceMembers<T>(sub: seq<T>, s: seq<T>)
    requires Subsequence(sub, s)
    ensures forall x :: x in sub ==> x in s
    ensures |sub| <= |s|
    decreases |s|
  {
    if |sub| != 0 {
      if sub[0] == s[0] && Subsequence(sub[1..], s[1..]) {
        SubsequenceMembers(sub[1..], s[1..]);
        assert sub == [sub[0]] + sub[1..];
        assert s == [s[0]] + s[1..];
      } else {
        SubsequenceMembers(sub, s[1..]);
        assert s == [s[0]] + s[1..];
      }
    }
  }

  /** No element occurs twice. */
  ghost predicate Distinct<T>(s: seq<T>)
  {
    forall i, j :: 0 <= i < j < |s| ==> s[i] != s[j]
  }

  /** A sub-sequence of a sequence without repetitions has none either. */
  lemma {:induction false} SubsequenceOfDistinct<T>(sub: seq<T>, s: seq<T>)
    requires Subsequence(sub, s) && Distinct(s)
    ensures Distinct(sub)
    decreases |s|
  {
    if |sub| != 0 {
      assert Distinct(s[1..]);
      if sub[0] == s[0] && Subsequence(sub[1..], s[1..]) {
        SubsequenceOfDistinct(sub[1..], s[1..]);
        SubsequenceMembers(sub[1..], s[1..]);
        assert s[0] !in s[1..];
        forall i, j | 0 <= i < j < |sub| ensures sub[i] != sub[j] {
          if i == 0 {
            assert sub[j] == sub[1..][j - 1];
          } else {
            assert sub[i] == sub[1..][i - 1] && sub[j] == sub[1..][j - 1];
          }
        }
      } else {
        SubsequenceOfDistinct(sub, s[1..]);
      }
    }
  }
}
