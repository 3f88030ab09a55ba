/** Mapping, filtering and summing over sequences. */
module Seqs {

  function Map<T, U>(f: T -> U, s: seq<T>): (r: seq<U>)
    ensures |r| == |s|
  {
    seq(|s|, i requires 0 <= i < |s| => f(s[i]))
  }

  /** The elements that satisfy `p`, in order. */
  function Filter<T>(p: T -> bool, s: seq<T>): seq<T> {
    if s == [] then []
    else Filter(p, s[..|s| - 1]) + (if p(s[|s| - 1]) then [s[|s| - 1]] else [])
  }

  lemma {:induction false} FilterAppend<T>(p: T -> bool, a: seq<T>, b: seq<T>)
    ensures Filter(p, a + b) == Filter(p, a) + Filter(p, b)
  {
    if b == [] {
      assert a + b == a;
    } else {
      FilterAppend(p, a, b[..|b| - 1]);
      assert (a + b)[..|a + b| - 1] == a + b[..|b| - 1];
    }
  }

  lemma {:induction false} FilterAll<T>(p: T -> bool, s: seq<T>)
    requires forall i :: 0 <= i < |s| ==> p(s[i])
    ensures Filter(p, s) == s
  {
    if s == [] {
    } else {
      FilterAll(p, s[..|s| - 1]);
    }
  }

  lemma {:induction false} FilterNone<T>(p: T -> bool, s: seq<T>)
    requires forall i :: 0 <= i < |s| ==> !p(s[i])
    ensures Filter(p, s) == []
  {
    if s == [] {
    } else {
      FilterNone(p, s[..|s| - 1]);
    }
  }

  lemma {:induction false} FilterKeeps<T>(p: T -> bool, s: seq<T>)
    ensures forall i :: 0 <= i < |Filter(p, s)| ==> p(Filter(p, s)[i])
  {
    if s == [] {
    } else {
      FilterKeeps(p, s[..|s| - 1]);
    }
  }

  lemma {:induction false} FilterMap<T, U>(f: T -> U, p: U -> bool, q: T -> bool, s: seq<T>)
    requires forall i :: 0 <= i < |s| ==> (p(f(s[i])) <==> q(s[i]))
    ensures Filter(p, Map(f, s)) == Map(f, Filter(q, s))
  {
    if s == [] {
    } else {
      var front := s[..|s| - 1];
      FilterMap(f, p, q, front);
      assert Map(f, s)[..|s| - 1] == Map(f, front);
    }
  }

  /** Two complementary filters share the elements out, losing none. */
  lemma {:induction false} FilterSplits<T>(p: T -> bool, q: T -> bool, s: seq<T>)
    requires forall i :: 0 <= i < |s| ==> (p(s[i]) <==> !q(s[i]))
    ensures multiset(Filter(p, s)) + multiset(Filter(q, s)) == multiset(s)
    ensures |Filter(p, s)| + |Filter(q, s)| == |s|
  {
    if s == [] {
    } else {
      var front, last := s[..|s| - 1], s[|s| - 1];
      FilterSplits(p, q, front);
      assert s == front + [last];
      if p(last) {
        assert Filter(q, s) == Filter(q, front);
      } else {
        assert Filter(p, s) == Filter(p, front);
      }
    }
  }

  /** The parts one after the other. */
  function Concat<T>(parts: seq<seq<T>>): seq<T> {
    if parts == [] then [] else parts[0] + Concat(parts[1..])
  }

  lemma {:induction false} ConcatAppend<T>(parts: seq<seq<T>>, part: seq<T>)
    ensures Concat(parts + [part]) == Concat(parts) + part
  {
    if parts == [] {
      assert Concat([part]) == part + Concat([]) == part;
      assert parts + [part] == [part];
    } else {
      ConcatAppend(parts[1..], part);
      assert (parts + [part])[1..] == parts[1..] + [part];
    }
  }

  lemma {:induction false} ConcatNothing<T>(parts: seq<seq<T>>)
    ensures Concat(parts) == [] <==> forall k :: 0 <= k < |parts| ==> parts[k] == []
  {
    if parts == [] {
    } else {
      ConcatNothing(parts[1..]);
    }
  }

  /** The part at `i`, with what comes before it and after it. */
  lemma {:induction false} ConcatAround<T>(parts: seq<seq<T>>, i: nat)
    requires i < |parts|
    ensures Concat(parts) == Concat(parts[..i]) + parts[i] + Concat(parts[i + 1..])
  {
    if i == 0 {
      assert Concat(parts[..0]) == [];
    } else {
      var rest := parts[1..];
      ConcatAround(rest, i - 1);
      assert parts[..i][1..] == rest[..i - 1] && rest[i..] == parts[i + 1..];
      Regrouped(parts[0], Concat(rest[..i - 1]), rest[i - 1], Concat(rest[i..]));
    }
  }

  lemma Regrouped<T>(a: seq<T>, b: seq<T>, c: seq<T>, d: seq<T>)
    ensures a + (b + c + d) == (a + b) + c + d
  {
  }

  // ----- sums

  function Sum<T>(f: T -> int, s: seq<T>): int {
    if s == [] then 0 else Sum(f, s[..|s| - 1]) + f(s[|s| - 1])
  }

  lemma SumPush<T>(f: T -> int, s: seq<T>, x: T)
    ensures Sum(f, s + [x]) == Sum(f, s) + f(x)
  {
    assert (s + [x])[..|s + [x]| - 1] == s;
  }

  lemma {:induction false} SumUpdate<T>(f: T -> int, s: seq<T>, i: nat, x: T)
    requires i < |s|
    ensures Sum(f, s[i := x]) == Sum(f, s) - f(s[i]) + f(x)
  {
    var n := |s| - 1;
    var updated := s[i := x];
    if i == n {
      assert updated[..n] == s[..n];
    } else {
      SumUpdate(f, s[..n], i, x);
      assert updated[..n] == s[..n][i := x];
    }
  }

  function Remove<T>(s: seq<T>, i: nat): (r: seq<T>)
    requires i < |s|
    ensures |r| == |s| - 1
    ensures forall k :: 0 <= k < |r| ==> r[k] == if k < i then s[k] else s[k + 1]
  {
    s[..i] + s[i + 1..]
  }

  lemma {:induction false} SumRemove<T>(f: T -> int, s: seq<T>, i: nat)
    requires i < |s|
    ensures Sum(f, Remove(s, i)) == Sum(f, s) - f(s[i])
  {
    var n := |s| - 1;
    if i == n {
      assert Remove(s, i) == s[..n];
    } else {
      SumRemove(f, s[..n], i);
      assert Remove(s, i) == Remove(s[..n], i) + [s[n]];
      SumPush(f, Remove(s[..n], i), s[n]);
    }
  }

  lemma {:induction false} SumZero<T>(f: T -> int, s: seq<T>)
    requires forall i :: 0 <= i < |s| ==> f(s[i]) == 0
    ensures Sum(f, s) == 0
  {
    if s == [] {
    } else {
      SumZero(f, s[..|s| - 1]);
    }
  }

  /** A sum of zeros and ones is at most the length, and reaches it only with ones everywhere. */
  lemma {:induction false} SumOfFlags<T>(f: T -> int, s: seq<T>)
    requires forall i :: 0 <= i < |s| ==> 0 <= f(s[i]) <= 1
    ensures 0 <= Sum(f, s) <= |s|
    ensures Sum(f, s) == |s| <==> forall i :: 0 <= i < |s| ==> f(s[i]) == 1
    ensures Sum(f, s) == 0 <==> forall i :: 0 <= i < |s| ==> f(s[i]) == 0
  {
    if s == [] {
    } else {
      SumOfFlags(f, s[..|s| - 1]);
    }
  }

  lemma {:induction false} SumConcat<T>(f: T -> int, a: seq<T>, b: seq<T>)
    ensures Sum(f, a + b) == Sum(f, a) + Sum(f, b)
  {
    if b == [] {
      assert a + b == a;
    } else {
      SumConcat(f, a, b[..|b| - 1]);
      assert (a + b)[..|a + b| - 1] == a + b[..|b| - 1];
    }
  }

  lemma {:induction false} SumMap<T, U>(g: T -> U, f: U -> int, h: T -> int, s: seq<T>)
    requires forall i :: 0 <= i < |s| ==> f(g(s[i])) == h(s[i])
    ensures Sum(f, Map(g, s)) == Sum(h, s)
  {
    if s == [] {
    } else {
      SumMap(g, f, h, s[..|s| - 1]);
      assert Map(g, s)[..|s| - 1] == Map(g, s[..|s| - 1]);
    }
  }

  /** Of non-negative terms, any one and any two different ones are at most the sum. */
  lemma {:induction false} SumCovers<T>(f: T -> int, s: seq<T>, i: nat, j: nat)
    requires forall k :: 0 <= k < |s| ==> f(s[k]) >= 0
    requires i < |s| && j < |s|
    ensures Sum(f, s) >= if i == j then f(s[i]) else f(s[i]) + f(s[j])
  {
    var front := s[..|s| - 1];
    SumNonNegative(f, front);
    if i < |front| && j < |front| {
      SumCovers(f, front, i, j);
    } else if i < |front| {
      SumCovers(f, front, i, i);
    } else if j < |front| {
      SumCovers(f, front, j, j);
    }
  }

  lemma {:induction false} SumNonNegative<T>(f: T -> int, s: seq<T>)
    requires forall k :: 0 <= k < |s| ==> f(s[k]) >= 0
    ensures Sum(f, s) >= 0
  {
    if s == [] {
    } else {
      SumNonNegative(f, s[..|s| - 1]);
    }
  }

  lemma {:induction false} SumWitness<T>(f: T -> int, s: seq<T>) returns (i: nat)
    requires Sum(f, s) > 0
    ensures i < |s| && f(s[i]) > 0
  {
    if f(s[|s| - 1]) > 0 {
      i := |s| - 1;
    } else {
      i := SumWitness(f, s[..|s| - 1]);
    }
  }
}
