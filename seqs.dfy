/**
 * Sequence vocabulary shared by the scripts: Python's list idioms
 * (`if x in t: out.append(x)`, `if x not in out: out.append(x)`,
 * `zip(s[::2], s[1::2])`) as recursive specification functions, with the
 * lemmas that say what they mean.
 *
 * Every list-building function is defined "from the right" (the value for
 * `s` is the value for `s[..|s|-1]` plus what the last element adds), which
 * is exactly the shape of a Python loop that appends as it goes.
 */
module Seqs {

  datatype Option<+T> = None | Some(value: T)

  /** No element occurs twice. */
  predicate NoDup<T(==)>(s: seq<T>) {
    forall i, j :: 0 <= i < j < |s| ==> s[i] != s[j]
  }

  /** Index of the first occurrence of `x` in `s`. */
  function FirstIndex<T(==)>(s: seq<T>, x: T): (k: nat)
    requires x in s
    ensures k < |s| && s[k] == x
    ensures forall j :: 0 <= j < k ==> s[j] != x
  {
    if s[0] == x then 0 else 1 + FirstIndex(s[1..], x)
  }

  /** The members of `s` that also occur in `t`, in the order of `s`,
      repeats kept: `[x for x in s if x in t]`. */
  function FilterIn<T(==)>(s: seq<T>, t: seq<T>): (r: seq<T>)
    ensures |r| <= |s|
  {
    if s == [] then []
    else FilterIn(s[..|s| - 1], t) + (if s[|s| - 1] in t then [s[|s| - 1]] else [])
  }

  lemma {:induction false} FilterInMembers<T>(s: seq<T>, t: seq<T>, x: T)
    ensures x in FilterIn(s, t) <==> x in s && x in t
  {
    if s != [] {
      FilterInMembers(s[..|s| - 1], t, x);
      assert s == s[..|s| - 1] + [s[|s| - 1]];
    }
  }

  /** FilterIn keeps every occurrence of a member of `t` and drops every
      occurrence of anything else. */
  lemma {:induction false} FilterInMultiplicity<T>(s: seq<T>, t: seq<T>, x: T)
    ensures multiset(FilterIn(s, t))[x] == if x in t then multiset(s)[x] else 0
  {
    if s != [] {
      FilterInMultiplicity(s[..|s| - 1], t, x);
      assert s == s[..|s| - 1] + [s[|s| - 1]];
    }
  }

  /** `s` without repeats, keeping the first occurrence of each element:
      the Python loop `if x not in out: out.append(x)`. */
  function Dedup<T(==)>(s: seq<T>): (r: seq<T>)
    ensures NoDup(r)
  {
    if s == [] then []
    else
      var d := Dedup(s[..|s| - 1]);
      if s[|s| - 1] in d then d else d + [s[|s| - 1]]
  }

  /** One more element for the `if x not in out: out.append(x)` loop. */
  lemma DedupSnoc<T>(s: seq<T>, x: T)
    ensures Dedup(s + [x]) == if x in Dedup(s) then Dedup(s) else Dedup(s) + [x]
  {
    assert (s + [x])[..|s|] == s;
  }

  /** One more element for the `if x in t: out.append(x)` loop. */
  lemma FilterInSnoc<T>(s: seq<T>, x: T, t: seq<T>)
    ensures FilterIn(s + [x], t) == FilterIn(s, t) + if x in t then [x] else []
  {
    assert (s + [x])[..|s|] == s;
  }

  /** Dedup loses no element and invents none. */
  lemma {:induction false} DedupMembers<T>(s: seq<T>, x: T)
    ensures x in Dedup(s) <==> x in s
  {
    if s != [] {
      DedupMembers(s[..|s| - 1], x);
      assert s == s[..|s| - 1] + [s[|s| - 1]];
    }
  }

  /** Further copies of an element already appended change nothing. */
  lemma {:induction false} DedupRepeatTail<T>(s: seq<T>, x: T, n: nat)
    requires n >= 1
    ensures Dedup(s + Repeat(x, n)) == Dedup(s + [x])
  {
    if n > 1 {
      DedupRepeatTail(s, x, n - 1);
      assert s + Repeat(x, n) == (s + Repeat(x, n - 1)) + [x];
      DedupSnoc(s + Repeat(x, n - 1), x);
      DedupMembers(s + [x], x);
    } else {
      assert Repeat(x, n) == [x];
    }
  }

  /** Dedup of a sequence with one more element depends on the earlier
      elements only through their Dedup. */
  lemma DedupSameSnoc<T>(s: seq<T>, t: seq<T>, x: T)
    requires Dedup(s) == Dedup(t)
    ensures Dedup(s + [x]) == Dedup(t + [x])
  {
    DedupSnoc(s, x);
    DedupSnoc(t, x);
  }

  /** Dedup keeps the order in which elements are first seen in `s`. */
  lemma {:induction false} DedupFirstSeenOrder<T>(s: seq<T>, i: nat, j: nat)
    requires i < j < |Dedup(s)|
    ensures Dedup(s)[i] in s && Dedup(s)[j] in s
    ensures FirstIndex(s, Dedup(s)[i]) < FirstIndex(s, Dedup(s)[j])
  {
    var init := s[..|s| - 1];
    var d := Dedup(init);
    var x, y := Dedup(s)[i], Dedup(s)[j];
    DedupMembers(s, x);
    DedupMembers(s, y);
    DedupMembers(init, x);
    DedupMembers(init, y);
    if s[|s| - 1] in d || j < |d| {
      assert x == d[i] && y == d[j];
      FirstIndexOfPrefix(s, init, x);
      FirstIndexOfPrefix(s, init, y);
      DedupFirstSeenOrder(init, i, j);
    } else {
      assert x == d[i];
      FirstIndexOfPrefix(s, init, x);
      assert y == s[|s| - 1] && y !in init;
      assert FirstIndex(s, y) == |s| - 1;
    }
  }

  /** An element of a prefix is first found in the whole sequence where it
      is first found in the prefix. */
  lemma FirstIndexOfPrefix<T>(s: seq<T>, p: seq<T>, x: T)
    requires p <= s && x in p
    ensures FirstIndex(s, x) == FirstIndex(p, x)
  {
    assert forall j :: 0 <= j < |p| ==> s[j] == p[j];
  }

  /** `[f(x) for x in s]`: `f` applied to every element, in order. */
  function Map<A, B>(f: A -> B, s: seq<A>): (r: seq<B>)
    ensures |r| == |s|
    ensures forall i :: 0 <= i < |s| ==> r[i] == f(s[i])
  {
    if s == [] then [] else Map(f, s[..|s| - 1]) + [f(s[|s| - 1])]
  }

  /** A prefix grows by the next element. */
  lemma TakeSnoc<T>(s: seq<T>, i: nat)
    requires i < |s|
    ensures s[..i + 1] == s[..i] + [s[i]]
  {
  }

  /** `list(zip(s[::2], s[1::2]))`: consecutive elements paired up; an odd
      trailing element is dropped. */
  function PairAdjacent<T>(s: seq<T>): (r: seq<(T, T)>)
    ensures |r| == |s| / 2
    ensures forall i :: 0 <= i < |r| ==> r[i] == (s[2 * i], s[2 * i + 1])
  {
    if |s| < 2 then []
    else
      var rest := PairAdjacent(s[2..]);
      assert forall i :: 1 <= i < |rest| + 1 ==> rest[i - 1] == (s[2 * i], s[2 * i + 1]);
      [(s[0], s[1])] + rest
  }

  /** The first components of a sequence of pairs. */
  function Firsts<T, U>(ps: seq<(T, U)>): (r: seq<T>)
    ensures |r| == |ps|
    ensures forall i :: 0 <= i < |ps| ==> r[i] == ps[i].0
  {
    if ps == [] then [] else Firsts(ps[..|ps| - 1]) + [ps[|ps| - 1].0]
  }

  /** Concatenation of a sequence of sequences. */
  function Flatten<T>(ss: seq<seq<T>>): seq<T> {
    if ss == [] then [] else Flatten(ss[..|ss| - 1]) + ss[|ss| - 1]
  }

  lemma {:induction false} FlattenAppend<T>(a: seq<seq<T>>, b: seq<seq<T>>)
    ensures Flatten(a + b) == Flatten(a) + Flatten(b)
  {
    if b != [] {
      assert (a + b)[..|a + b| - 1] == a + b[..|b| - 1];
      assert (a + b)[|a + b| - 1] == b[|b| - 1];
      FlattenAppend(a, b[..|b| - 1]);
    } else {
      assert a + b == a;
    }
  }

  lemma FlattenSnoc<T>(ss: seq<seq<T>>, s: seq<T>)
    ensures Flatten(ss + [s]) == Flatten(ss) + s
  {
    assert (ss + [s])[..|ss|] == ss;
  }

  lemma {:induction false} FlattenMembers<T>(ss: seq<seq<T>>, i: nat, x: T)
    requires i < |ss| && x in ss[i]
    ensures x in Flatten(ss)
  {
    if i < |ss| - 1 {
      FlattenMembers(ss[..|ss| - 1], i, x);
    }
  }

  /** `n` copies of `x`: the `[x] * n` of Python and `np.zeros(n)`/`np.ones(n)`. */
  function Repeat<T>(x: T, n: nat): (r: seq<T>)
    ensures |r| == n
    ensures forall i :: 0 <= i < n ==> r[i] == x
  {
    if n == 0 then [] else Repeat(x, n - 1) + [x]
  }

  lemma {:induction false} RepeatAppend<T>(x: T, a: nat, b: nat)
    ensures Repeat(x, a) + Repeat(x, b) == Repeat(x, a + b)
  {
    if b > 0 {
      RepeatAppend(x, a, b - 1);
      AppendAssoc(Repeat(x, a), Repeat(x, b - 1), [x]);
    }
  }

  lemma AppendAssoc<T>(a: seq<T>, b: seq<T>, c: seq<T>)
    ensures a + b + c == a + (b + c)
  {
  }

  lemma MulSucc(c: int, t: int)
    ensures (c + 1) * t == c * t + t
  {
  }

  /** How many times `x` occurs in `s`. */
  function Count<T(==)>(s: seq<T>, x: T): (n: nat)
    ensures n <= |s|
  {
    if s == [] then 0 else Count(s[..|s| - 1], x) + (if s[|s| - 1] == x then 1 else 0)
  }

  lemma CountSnoc<T>(s: seq<T>, x: T)
    ensures forall y :: Count(s + [x], y) == Count(s, y) + if x == y then 1 else 0
  {
    assert (s + [x])[..|s|] == s;
  }

  lemma {:induction false} CountPositive<T>(s: seq<T>, x: T)
    ensures Count(s, x) > 0 <==> x in s
  {
    if s != [] {
      CountPositive(s[..|s| - 1], x);
      assert s == s[..|s| - 1] + [s[|s| - 1]];
    }
  }

  /** `s` without the occurrences of `x`, the rest kept in order. */
  function Without<T(==)>(s: seq<T>, x: T): (r: seq<T>)
    ensures |r| == |s| - Count(s, x)
  {
    if s == [] then [] else Without(s[..|s| - 1], x) + (if s[|s| - 1] == x then [] else [s[|s| - 1]])
  }

  lemma {:induction false} WithoutMembers<T>(s: seq<T>, x: T, y: T)
    ensures y in Without(s, x) <==> y in s && y != x
  {
    if s != [] {
      WithoutMembers(s[..|s| - 1], x, y);
      assert s == s[..|s| - 1] + [s[|s| - 1]];
    }
  }

  lemma {:induction false} WithoutKeepsOthers<T>(s: seq<T>, x: T, y: T)
    requires y != x
    ensures Count(Without(s, x), y) == Count(s, y)
  {
    if s != [] {
      var w := Without(s[..|s| - 1], x);
      WithoutKeepsOthers(s[..|s| - 1], x, y);
      if s[|s| - 1] != x {
        assert (w + [s[|s| - 1]])[..|w|] == w;
      } else {
        assert Without(s, x) == w + [] == w;
      }
    }
  }
}
