/**
 * The array methods the scripts lean on, as functions on `seq`:
 * `find`, `findIndex`, `filter`, `includes`, counting, and the order-keeping
 * de-duplication `[...new Set(xs)]`.
 */
module Lists {
  import opened Str

  /** `xs.findIndex(p)`, with `None` for -1. */
  function FindIndex<T>(xs: seq<T>, p: T -> bool): (r: Option<nat>)
    ensures r.Some? ==> r.value < |xs| && p(xs[r.value])
    ensures r.Some? ==> forall j :: 0 <= j < r.value ==> !p(xs[j])
    ensures r.None? ==> forall j :: 0 <= j < |xs| ==> !p(xs[j])
  {
    if xs == [] then None
    else if p(xs[0]) then Some(0)
    else match FindIndex(xs[1..], p)
      case None => None
      case Some(k) => Some(k + 1)
  }

  /** `xs.find(p)`: the first element satisfying `p`. */
  function Find<T>(xs: seq<T>, p: T -> bool): (r: Option<T>)
    ensures r.Some? <==> exists j :: 0 <= j < |xs| && p(xs[j])
    ensures r.Some? ==> r.value in xs && p(r.value)
    ensures r.Some? ==> exists k :: 0 <= k < |xs| && xs[k] == r.value && forall j :: 0 <= j < k ==> !p(xs[j])
  {
    match FindIndex(xs, p)
    case None => None
    case Some(k) => Some(xs[k])
  }

  /** `Find` returns the element at the first index satisfying `p`. */
  lemma FindFirst<T>(xs: seq<T>, p: T -> bool, i: nat)
    requires i < |xs| && p(xs[i]) && forall j :: 0 <= j < i ==> !p(xs[j])
    ensures Find(xs, p) == Some(xs[i])
  {
  }

  /** `xs.map(f)`. */
  function Map<T, U>(xs: seq<T>, f: T -> U): (r: seq<U>)
    ensures |r| == |xs|
    ensures forall k :: 0 <= k < |xs| ==> r[k] == f(xs[k])
  {
    seq(|xs|, k requires 0 <= k < |xs| => f(xs[k]))
  }

  /** `xs.filter(p)`: the elements satisfying `p`, in order. */
  function Filter<T>(xs: seq<T>, p: T -> bool): (r: seq<T>)
    ensures |r| <= |xs|
    ensures forall i :: 0 <= i < |r| ==> r[i] in xs && p(r[i])
    ensures forall i :: 0 <= i < |xs| && p(xs[i]) ==> xs[i] in r
  {
    if xs == [] then [] else (if p(xs[0]) then [xs[0]] else []) + Filter(xs[1..], p)
  }

  lemma {:induction false} FilterConcat<T>(a: seq<T>, b: seq<T>, p: T -> bool)
    ensures Filter(a + b, p) == Filter(a, p) + Filter(b, p)
  {
    if a != [] {
      assert (a + b)[0] == a[0];
      assert (a + b)[1..] == a[1..] + b;
      FilterConcat(a[1..], b, p);
    } else {
      assert a + b == b;
    }
  }

  /** Filtering twice is filtering once by both predicates. */
  lemma {:induction false} FilterFilter<T>(xs: seq<T>, p: T -> bool, q: T -> bool)
    ensures Filter(Filter(xs, p), q) == Filter(xs, x => p(x) && q(x))
  {
    if xs != [] {
      FilterFilter(xs[1..], p, q);
      var head := if p(xs[0]) then [xs[0]] else [];
      FilterConcat(head, Filter(xs[1..], p), q);
    }
  }

  /** Filtering by `p` then by `q` keeps what the conjunction `pq` keeps. */
  lemma {:induction false} FilterCompose<T>(xs: seq<T>, p: T -> bool, q: T -> bool, pq: T -> bool)
    requires forall x :: pq(x) == (p(x) && q(x))
    ensures Filter(Filter(xs, p), q) == Filter(xs, pq)
  {
    if xs != [] {
      FilterCompose(xs[1..], p, q, pq);
      var head := if p(xs[0]) then [xs[0]] else [];
      FilterConcat(head, Filter(xs[1..], p), q);
    }
  }

  lemma {:induction false} FilterAll<T>(xs: seq<T>, p: T -> bool)
    requires forall x :: p(x)
    ensures Filter(xs, p) == xs
  {
    if xs != [] { FilterAll(xs[1..], p); }
  }

  /** Filtering a list whose every element passes changes nothing. */
  lemma {:induction false} FilterAllOf<T>(xs: seq<T>, p: T -> bool)
    requires forall i :: 0 <= i < |xs| ==> p(xs[i])
    ensures Filter(xs, p) == xs
  {
    if xs != [] { FilterAllOf(xs[1..], p); }
  }

  /** A filter drops elements, so it cannot introduce a duplicate. */
  lemma {:induction false} FilterNoDuplicates<T>(xs: seq<T>, p: T -> bool)
    requires NoDuplicates(xs)
    ensures NoDuplicates(Filter(xs, p))
  {
    if xs != [] {
      var rest := Filter(xs[1..], p);
      assert NoDuplicates(xs[1..]) by {
        forall i, j | 0 <= i < j < |xs[1..]| ensures xs[1..][i] != xs[1..][j] {
          assert xs[1..][i] == xs[i + 1] && xs[1..][j] == xs[j + 1];
        }
      }
      FilterNoDuplicates(xs[1..], p);
      if p(xs[0]) {
        assert xs[0] !in rest by {
          forall k | 0 <= k < |rest| ensures rest[k] != xs[0] {
            var m :| 0 <= m < |xs[1..]| && xs[1..][m] == rest[k];
            assert xs[m + 1] == rest[k];
          }
        }
      }
    }
  }

  lemma {:induction false} FilterExt<T>(xs: seq<T>, p: T -> bool, q: T -> bool)
    requires forall x :: p(x) == q(x)
    ensures Filter(xs, p) == Filter(xs, q)
  {
    if xs != [] { FilterExt(xs[1..], p, q); }
  }

  /**
   * A chain of `if (applies) xs = xs.filter(keep);` statements, as one
   * filter: `x` passes the first `n` rules when every rule among them that
   * applies keeps it.
   */
  predicate Passes<T>(rules: seq<(bool, T -> bool)>, n: nat, x: T)
    requires n <= |rules|
  {
    n == 0 || (Passes(rules, n - 1, x) && (rules[n - 1].0 ==> rules[n - 1].1(x)))
  }

  function PassesAt<T>(rules: seq<(bool, T -> bool)>, n: nat): T -> bool
    requires n <= |rules|
  {
    (x: T) => Passes(rules, n, x)
  }

  /** What survives the first `n` filters of the chain. */
  function Sieve<T>(xs: seq<T>, rules: seq<(bool, T -> bool)>, n: nat): seq<T>
    requires n <= |rules|
  {
    Filter(xs, PassesAt(rules, n))
  }

  lemma {:induction false} PassesIff<T>(rules: seq<(bool, T -> bool)>, n: nat, x: T)
    requires n <= |rules|
    ensures Passes(rules, n, x) <==> forall k :: 0 <= k < n ==> (rules[k].0 ==> rules[k].1(x))
  {
    if n > 0 {
      PassesIff(rules, n - 1, x);
    }
  }

  lemma SieveStart<T>(xs: seq<T>, rules: seq<(bool, T -> bool)>)
    ensures Sieve(xs, rules, 0) == xs
  {
    FilterAll(xs, PassesAt(rules, 0));
  }

  /** Running the `k`-th filter, when it applies, takes the chain one rule further. */
  lemma SieveStep<T>(xs: seq<T>, rules: seq<(bool, T -> bool)>, k: nat, keep: T -> bool)
    requires k < |rules| && rules[k].0
    requires forall x :: keep(x) == rules[k].1(x)
    ensures Filter(Sieve(xs, rules, k), keep) == Sieve(xs, rules, k + 1)
  {
    FilterCompose(xs, PassesAt(rules, k), keep, PassesAt(rules, k + 1));
  }

  /** Skipping the `k`-th filter, when it does not apply, also does. */
  lemma SieveSkip<T>(xs: seq<T>, rules: seq<(bool, T -> bool)>, k: nat)
    requires k < |rules| && !rules[k].0
    ensures Sieve(xs, rules, k) == Sieve(xs, rules, k + 1)
  {
    FilterExt(xs, PassesAt(rules, k), PassesAt(rules, k + 1));
  }

  /**
   * A sequence of `if (cond) v = value;` statements: the value of the last
   * rule whose condition holds, or `default` when none does.
   */
  function LastWins<T>(rules: seq<(bool, T)>, default: T): (r: T)
    ensures (forall k :: 0 <= k < |rules| ==> !rules[k].0) ==> r == default
    ensures forall k :: 0 <= k < |rules| && rules[k].0 && (forall j :: k < j < |rules| ==> !rules[j].0) ==> r == rules[k].1
    ensures r == default || exists k :: 0 <= k < |rules| && r == rules[k].1
  {
    if rules == [] then default
    else if rules[|rules| - 1].0 then rules[|rules| - 1].1
    else LastWins(rules[..|rules| - 1], default)
  }

  /** `a || b || ...` on possibly-missing objects: the first present one. */
  function FirstSome<T>(xs: seq<Option<T>>): (r: Option<T>)
    ensures r.None? <==> forall k :: 0 <= k < |xs| ==> xs[k].None?
    ensures r.Some? ==> exists k :: 0 <= k < |xs| && xs[k] == r && forall j :: 0 <= j < k ==> xs[j].None?
  {
    if xs == [] then None
    else if xs[0].Some? then xs[0]
    else
      var r := FirstSome(xs[1..]);
      assert forall k :: 1 <= k < |xs| ==> xs[k] == xs[1..][k - 1];
      r
  }
  /** The first present element is the result of the `||` chain. */
  lemma FirstSomeFirst<T>(xs: seq<Option<T>>, k: nat)
    requires k < |xs| && xs[k].Some?
    requires forall j :: 0 <= j < k ==> xs[j].None?
    ensures FirstSome(xs) == xs[k]
  {
    var r := FirstSome(xs);
    var i :| 0 <= i < |xs| && xs[i] == r && forall j :: 0 <= j < i ==> xs[j].None?;
    assert !(i < k) && !(k < i);
  }



  /**
   * `xs.reduce((a, b) => (b > a ? b : a))` on indices: the first index whose
   * value is maximal.
   */
  function FirstMax(xs: seq<nat>): (i: nat)
    requires |xs| > 0
    ensures i < |xs|
    ensures forall j :: 0 <= j < |xs| ==> xs[j] <= xs[i]
    ensures forall j :: 0 <= j < i ==> xs[j] < xs[i]
  {
    if |xs| == 1 then 0
    else
      var i := FirstMax(xs[..|xs| - 1]);
      if xs[|xs| - 1] > xs[i] then |xs| - 1 else i
  }

  /** The number of elements satisfying `p`. */
  function CountWhere<T>(xs: seq<T>, p: T -> bool): nat
  {
    |Filter(xs, p)|
  }

  /** How often `y` occurs among the first `k` elements. */
  function CountUpTo<T(==)>(xs: seq<T>, k: nat, y: T): (n: nat)
    requires k <= |xs|
    ensures n <= k
    ensures n > 0 <==> exists j :: 0 <= j < k && xs[j] == y
  {
    if k == 0 then 0 else CountUpTo(xs, k - 1, y) + (if xs[k - 1] == y then 1 else 0)
  }

  lemma {:induction false} CountMonotone<T>(xs: seq<T>, i: nat, j: nat, y: T)
    requires i <= j <= |xs|
    ensures CountUpTo(xs, i, y) <= CountUpTo(xs, j, y)
    decreases j - i
  {
    if i < j {
      CountMonotone(xs, i, j - 1, y);
    }
  }

  /** No element occurs twice. */
  predicate NoDuplicates<T(==)>(xs: seq<T>)
  {
    forall i, j :: 0 <= i < j < |xs| ==> xs[i] != xs[j]
  }

  /** `[...new Set(xs)]`: the first occurrence of each element, in order. */
  function Dedup<T(==)>(xs: seq<T>): (r: seq<T>)
    ensures forall i :: 0 <= i < |r| ==> r[i] in xs
    ensures forall i :: 0 <= i < |xs| ==> xs[i] in r
    ensures NoDuplicates(r)
    ensures |r| <= |xs|
    decreases |xs|
  {
    if xs == [] then []
    else
      var init := Dedup(xs[..|xs| - 1]);
      var last := xs[|xs| - 1];
      assert xs == xs[..|xs| - 1] + [last];
      if last in init then init else init + [last]
  }

  /** An element listed twice is kept once. */
  lemma DedupRepeat<T>(x: T)
    ensures Dedup([x, x]) == [x]
  {
    var one := [x];
    assert one[..0] == [];
    assert Dedup(one) == [x];
    assert [x, x][..1] == one;
  }

  /** A list without duplicates is its own de-duplication. */
  lemma {:induction false} DedupNoDuplicates<T>(xs: seq<T>)
    requires NoDuplicates(xs)
    ensures Dedup(xs) == xs
    decreases |xs|
  {
    if xs != [] {
      var init := xs[..|xs| - 1];
      assert NoDuplicates(init);
      DedupNoDuplicates(init);
      assert xs[|xs| - 1] !in init by {
        forall i | 0 <= i < |init| ensures init[i] != xs[|xs| - 1] {
          assert xs[i] == init[i];
        }
      }
      assert init + [xs[|xs| - 1]] == xs;
    }
  }

  /** Appending what is already present changes nothing. */
  lemma {:induction false} DedupAppendPresent<T>(xs: seq<T>, ys: seq<T>)
    requires forall y :: y in ys ==> y in xs
    ensures Dedup(xs + ys) == Dedup(xs)
    decreases |ys|
  {
    if ys != [] {
      var init := ys[..|ys| - 1];
      var y := ys[|ys| - 1];
      assert (xs + ys)[..|xs + ys| - 1] == xs + init;
      assert (xs + ys)[|xs + ys| - 1] == y;
      DedupAppendPresent(xs, init);
      assert y in ys;
      var k :| 0 <= k < |xs| && xs[k] == y;
      assert xs[k] in Dedup(xs);
    } else {
      assert xs + ys == xs;
    }
  }
}
