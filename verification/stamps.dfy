/**
  Shared vocabulary. An instant is an integer number of microseconds since the Unix
  epoch in UTC, which is the resolution of the backend's timestamps. A nullable
  timestamp column is a `Stamp`.
 */
module Stamps {
  const SECOND := 1_000_000
  const MINUTE := 60 * SECOND
  const HOUR := 60 * MINUTE
  const DAY := 24 * HOUR

  datatype Option<+T> = None | Some(value: T)

  type Stamp = Option<int>

  /** The WHERE clause every claim in the backend shares: `IS NULL OR column < cutoff`. */
  predicate OlderThan(stamp: Stamp, cutoff: int) {
    stamp.None? || stamp.value < cutoff
  }

  /** `stamp` is at or after `instant`. */
  predicate AtLeast(stamp: Stamp, instant: int) {
    stamp.Some? && instant <= stamp.value
  }

  /** Rows of `s` satisfying `p`, in order: a SELECT ... WHERE over an ordered table. */
  function Filter<T>(s: seq<T>, p: T -> bool): (r: seq<T>)
    ensures forall x | x in r :: x in s && p(x)
    ensures forall x | x in s && p(x) :: x in r
  {
    if s == [] then []
    else (if p(s[0]) then [s[0]] else []) + Filter(s[1..], p)
  }

  /** `f` applied to every row, in order. */
  function Map<T, U>(s: seq<T>, f: T -> U): (r: seq<U>)
    ensures |r| == |s| && forall i | 0 <= i < |s| :: r[i] == f(s[i])
  {
    seq(|s|, i requires 0 <= i < |s| => f(s[i]))
  }

  /** Filtering a concatenation filters both halves. */
  lemma {:induction false} FilterConcat<T>(a: seq<T>, b: seq<T>, p: T -> bool)
    ensures Filter(a + b, p) == Filter(a, p) + Filter(b, p)
  {
    if a == [] {
      assert a + b == b;
    } else {
      assert (a + b)[1..] == a[1..] + b;
      FilterConcat(a[1..], b, p);
    }
  }

  lemma FilterOne<T>(x: T, p: T -> bool)
    ensures Filter([x], p) == if p(x) then [x] else []
  {
    assert [x][1..] == [];
  }

  /** Two optional rows, filtered. */
  lemma FilterPair<T>(x: T, hasX: bool, y: T, hasY: bool, p: T -> bool)
    ensures Filter((if hasX then [x] else []) + (if hasY then [y] else []), p)
            == (if hasX && p(x) then [x] else []) + (if hasY && p(y) then [y] else [])
  {
    FilterConcat(if hasX then [x] else [], if hasY then [y] else [], p);
    FilterOne(x, p);
    FilterOne(y, p);
  }

  lemma FilterThree<T>(x: T, y: T, z: T, p: T -> bool)
    ensures Filter([x, y, z], p)
            == (if p(x) then [x] else []) + (if p(y) then [y] else []) + (if p(z) then [z] else [])
  {
    assert [x, y, z] == [x] + [y] + [z];
    FilterConcat([x] + [y], [z], p);
    FilterConcat([x], [y], p);
    FilterOne(x, p);
    FilterOne(y, p);
    FilterOne(z, p);
  }

  lemma MapConcat<T, U>(a: seq<T>, b: seq<T>, f: T -> U)
    ensures Map(a + b, f) == Map(a, f) + Map(b, f)
  {
  }

  lemma ConcatAssociates<T>(a: seq<T>, b: seq<T>, c: seq<T>)
    ensures a + b + c == a + (b + c)
  {
  }

  /** Filtering one row more. */
  lemma FilterSnoc<T>(s: seq<T>, i: nat, p: T -> bool)
    requires i < |s|
    ensures Filter(s[..i + 1], p) == Filter(s[..i], p) + if p(s[i]) then [s[i]] else []
  {
    assert s[..i + 1] == s[..i] + [s[i]];
    FilterConcat(s[..i], [s[i]], p);
  }
}
