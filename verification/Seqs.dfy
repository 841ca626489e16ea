/** Sequence vocabulary shared by the models: optional values, flattening, filtering, counting, numerals. */
module Seqs {

  datatype Option<+T> = None | Some(value: T)

  function Flatten<T>(parts: seq<seq<T>>): seq<T> {
    if parts == [] then [] else parts[0] + Flatten(parts[1..])
  }

  lemma {:induction false} FlattenConcat<T>(a: seq<seq<T>>, b: seq<seq<T>>)
    ensures Flatten(a + b) == Flatten(a) + Flatten(b)
  {
    if a == [] {
      assert a + b == b;
    } else {
      assert (a + b)[1..] == a[1..] + b;
      FlattenConcat(a[1..], b);
    }
  }

  function Filter<T>(keep: T -> bool, s: seq<T>): seq<T> {
    if s == [] then []
    else if keep(s[0]) then [s[0]] + Filter(keep, s[1..])
    else Filter(keep, s[1..])
  }

  lemma {:induction false} FilterConcat<T>(keep: T -> bool, a: seq<T>, b: seq<T>)
    ensures Filter(keep, a + b) == Filter(keep, a) + Filter(keep, b)
  {
    if a == [] {
      assert a + b == b;
    } else {
      assert (a + b)[1..] == a[1..] + b;
      FilterConcat(keep, a[1..], b);
      assert [a[0]] + (Filter(keep, a[1..]) + Filter(keep, b)) == ([a[0]] + Filter(keep, a[1..])) + Filter(keep, b);
    }
  }

  lemma FilterOne<T>(keep: T -> bool, x: T)
    ensures Filter(keep, [x]) == if keep(x) then [x] else []
  {
    assert [x][1..] == [];
  }

  function Apply<A, B>(f: A -> B, s: seq<A>): (r: seq<B>)
    ensures |r| == |s|
    ensures forall i :: 0 <= i < |s| ==> r[i] == f(s[i])
  {
    seq(|s|, i requires 0 <= i < |s| => f(s[i]))
  }

  function Count<T>(s: seq<T>, which: T -> bool): nat {
    if s == [] then 0 else Count(s[..|s| - 1], which) + (if which(s[|s| - 1]) then 1 else 0)
  }

  lemma {:induction false} CountConcat<T>(a: seq<T>, b: seq<T>, which: T -> bool)
    ensures Count(a + b, which) == Count(a, which) + Count(b, which)
  {
    if b == [] {
      assert a + b == a;
    } else {
      assert (a + b)[..|a + b| - 1] == a + b[..|b| - 1];
      CountConcat(a, b[..|b| - 1], which);
    }
  }

  ghost predicate Distinct<T>(s: seq<T>) {
    forall i, j :: 0 <= i < j < |s| ==> s[i] != s[j]
  }

  /** `part` occurs in `whole` at offset `at`. */
  predicate OccursAt<T(==)>(part: seq<T>, whole: seq<T>, at: nat) {
    at + |part| <= |whole| && whole[at..at + |part|] == part
  }

  ghost predicate Occurs<T>(part: seq<T>, whole: seq<T>) {
    exists at: nat :: OccursAt(part, whole, at)
  }

  lemma OccursInside<T>(part: seq<T>, before: seq<T>, middle: seq<T>, after: seq<T>)
    requires Occurs(part, middle)
    ensures Occurs(part, before + middle + after)
  {
    var at: nat :| OccursAt(part, middle, at);
    var whole := before + middle + after;
    SliceOfSlice(whole, |before|, |before| + |middle|, at, at + |part|);
    assert whole[|before|..|before| + |middle|] == middle;
    assert OccursAt(part, whole, |before| + at);
  }

  lemma SliceOfSlice<T>(s: seq<T>, from: nat, to: nat, i: nat, j: nat)
    requires from <= to <= |s| && i <= j <= to - from
    ensures s[from..to][i..j] == s[from + i..from + j]
  {
    var a, b := s[from..to][i..j], s[from + i..from + j];
    forall k | 0 <= k < j - i ensures a[k] == b[k] {
      assert a[k] == s[from..to][i + k] == s[from + i + k];
    }
    assert a == b;
  }

  lemma OccursSelf<T>(part: seq<T>)
    ensures Occurs(part, part)
  {
    assert OccursAt(part, part, 0);
  }

  lemma {:induction false} InFlatten<T>(parts: seq<seq<T>>, x: T)
    ensures x in Flatten(parts) <==> exists part :: part in parts && x in part
  {
    if parts != [] {
      InFlatten(parts[1..], x);
      assert forall part :: part in parts <==> part == parts[0] || part in parts[1..];
    }
  }

  /** The decimal numeral of a number. */
  function Decimal(n: nat): string {
    if n < 10 then [DIGITS[n]] else Decimal(n / 10) + [DIGITS[n % 10]]
  }

  const DIGITS := "0123456789"
}
