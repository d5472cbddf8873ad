/**
 * Small vocabulary shared by the models: options, unsigned 64-bit arithmetic, integer ranges, letter case, lists without
 * duplicates, multisets, and sums over lists that do not depend on their order.
 */
module Common {

  datatype Option<+T> = None | Some(value: T)

  /** Go's uint64: values below 2^64, with sums and differences that wrap around. */
  const TWO_64: int := 0x1_0000_0000_0000_0000

  type uint64 = x: int | 0 <= x < TWO_64

  function AddU64(a: int, b: int): uint64 {
    (a + b) % TWO_64
  }

  function SubU64(a: int, b: int): uint64 {
    (a - b) % TWO_64
  }

  /** The integers lo, lo+1, ..., hi-1. */
  function Range(lo: int, hi: int): (r: seq<int>)
    ensures |r| == if lo < hi then hi - lo else 0
    ensures forall i :: 0 <= i < |r| ==> r[i] == lo + i
  {
    seq(if lo < hi then hi - lo else 0, i => lo + i)
  }

  lemma RangeConcat(lo: int, mid: int, hi: int)
    requires lo <= mid <= hi
    ensures Range(lo, mid) + Range(mid, hi) == Range(lo, hi)
  {
  }

  lemma RangeGoesOn(a: seq<int>, b: seq<int>, c: seq<int>, lo: int, mid: int, hi: int)
    requires lo <= mid <= hi && b == a + Range(lo, mid) && c == b + Range(mid, hi)
    ensures c == a + Range(lo, hi)
  {
    RangeConcat(lo, mid, hi);
  }

  lemma RangeMembers(lo: int, hi: int)
    ensures forall h :: h in Range(lo, hi) <==> lo <= h < hi
  {
    forall h | lo <= h < hi ensures h in Range(lo, hi) {
      assert Range(lo, hi)[h - lo] == h;
    }
  }

  /** strings.ToLower on ASCII text (addresses, chain symbols). */
  function LowerChar(c: char): char {
    if 'A' <= c <= 'Z' then (c as int + 32) as char else c
  }

  function Lower(s: string): (r: string)
    ensures |r| == |s|
    ensures forall i :: 0 <= i < |s| ==> r[i] == LowerChar(s[i])
  {
    seq(|s|, i requires 0 <= i < |s| => LowerChar(s[i]))
  }

  predicate IsLower(s: string) {
    Lower(s) == s
  }

  lemma LowerIdempotent(s: string)
    ensures Lower(Lower(s)) == Lower(s)
  {
    assert forall i :: 0 <= i < |s| ==> LowerChar(LowerChar(s[i])) == LowerChar(s[i]);
  }

  ghost predicate Distinct<T>(xs: seq<T>) {
    forall i, j :: 0 <= i < j < |xs| ==> xs[i] != xs[j]
  }

  lemma CountSnoc<T>(xs: seq<T>, y: T, x: T)
    ensures multiset(xs + [y])[x] == multiset(xs)[x] + (if x == y then 1 else 0)
  {
  }

  lemma LastIsNew<T>(init: seq<T>, x: T)
    ensures Distinct(init + [x]) <==> Distinct(init) && x !in init
  {
    var xs := init + [x];
    if x in init {
      var i :| 0 <= i < |init| && init[i] == x;
      assert xs[i] == xs[|init|];
    } else if !Distinct(init) {
      var i, j :| 0 <= i < j < |init| && init[i] == init[j];
      assert xs[i] == xs[j];
    }
  }

  lemma {:induction false} DistinctCounts<T>(xs: seq<T>)
    ensures Distinct(xs) <==> forall x :: x in xs ==> multiset(xs)[x] == 1
  {
    if xs != [] {
      var (init, x) := (xs[..|xs| - 1], xs[|xs| - 1]);
      assert xs == init + [x];
      DistinctCounts(init);
      LastIsNew(init, x);
      forall y ensures multiset(xs)[y] == multiset(init)[y] + (if y == x then 1 else 0) {
        CountSnoc(init, x, y);
      }
      if x in init {
        assert multiset(xs)[x] >= 2;
      }
    }
  }

  lemma ConcatDistinct<T>(xs: seq<T>, ys: seq<T>)
    ensures Distinct(xs + ys) <==> Distinct(xs) && Distinct(ys) && forall x :: x in xs ==> x !in ys
  {
    var zs := xs + ys;
    if Distinct(zs) {
      forall i, j | 0 <= i < j < |xs| ensures xs[i] != xs[j] {
        assert zs[i] == xs[i] && zs[j] == xs[j];
      }
      forall i, j | 0 <= i < j < |ys| ensures ys[i] != ys[j] {
        assert zs[|xs| + i] == ys[i] && zs[|xs| + j] == ys[j];
      }
      forall x | x in xs ensures x !in ys {
        var i :| 0 <= i < |xs| && xs[i] == x;
        forall j | 0 <= j < |ys| ensures ys[j] != x {
          assert zs[i] == x && zs[|xs| + j] == ys[j];
        }
      }
    } else if Distinct(xs) && Distinct(ys) {
      var i, j :| 0 <= i < j < |zs| && zs[i] == zs[j];
      assert i < |xs| <= j;
      assert xs[i] in xs && ys[j - |xs|] == xs[i];
    }
  }

  lemma CountIsMembership<T>(xs: seq<T>, x: T)
    requires Distinct(xs)
    ensures multiset(xs)[x] == if x in xs then 1 else 0
  {
    DistinctCounts(xs);
    assert x in xs <==> x in multiset(xs);
  }

  lemma CountConcat<T>(xs: seq<T>, ys: seq<T>, x: T)
    ensures multiset(xs + ys)[x] == multiset(xs)[x] + multiset(ys)[x]
  {
  }

  lemma Cancel<T>(a: multiset<T>, b: multiset<T>, x: multiset<T>)
    requires a + x == b + x
    ensures a == b
  {
    forall e: T ensures a[e] == b[e] {
      assert (a + x)[e] == (b + x)[e];
    }
  }

  /** The last element of xs sits somewhere in its permutation ys; dropping both leaves permutations. */
  lemma SameElsewhere<T>(xs: seq<T>, ys: seq<T>) returns (k: nat)
    requires xs != [] && multiset(xs) == multiset(ys)
    ensures k < |ys| && ys[k] == xs[|xs| - 1]
    ensures multiset(xs[..|xs| - 1]) == multiset(ys[..k] + ys[k + 1..])
  {
    var x := xs[|xs| - 1];
    assert xs == xs[..|xs| - 1] + [x];
    assert x in multiset(ys);
    k :| 0 <= k < |ys| && ys[k] == x;
    assert ys == ys[..k] + [x] + ys[k + 1..];
    Cancel(multiset(xs[..|xs| - 1]), multiset(ys[..k] + ys[k + 1..]), multiset{x});
  }

  lemma AddAssoc<T>(a: multiset<T>, b: multiset<T>, c: multiset<T>)
    ensures (a + b) + c == a + (b + c)
  {
  }

  ghost function AddBags<T>(a: multiset<T>, b: multiset<T>): multiset<T> {
    a + b
  }

  lemma BagsSwap<T(!new)>()
    ensures Swaps<multiset<T>>(AddBags)
  {
    forall a: multiset<T>, b: multiset<T>, c: multiset<T> ensures AddBags(AddBags(a, b), c) == AddBags(AddBags(a, c), b) {
      assert (a + b) + c == (a + c) + b;
    }
  }

  /** What the elements of a list contribute, added up from left to right. */
  function Fold<K, V>(f: K -> V, zero: V, add: (V, V) -> V, xs: seq<K>): V {
    if xs == [] then zero else add(Fold(f, zero, add, xs[..|xs| - 1]), f(xs[|xs| - 1]))
  }

  /** Two contributions may be added in either order. */
  ghost predicate Swaps<V(!new)>(add: (V, V) -> V) {
    forall a, b, c :: add(add(a, b), c) == add(add(a, c), b)
  }

  lemma {:induction false} FoldSplit<K, V(!new)>(f: K -> V, zero: V, add: (V, V) -> V, xs: seq<K>, k: nat)
    requires k < |xs| && Swaps(add)
    ensures Fold(f, zero, add, xs) == add(Fold(f, zero, add, xs[..k] + xs[k + 1..]), f(xs[k]))
  {
    var n := |xs|;
    var rest := xs[..k] + xs[k + 1..];
    if k == n - 1 {
      assert rest == xs[..n - 1];
    } else {
      FoldSplit(f, zero, add, xs[..n - 1], k);
      assert xs[..n - 1][..k] + xs[..n - 1][k + 1..] == rest[..n - 2];
      var all := Fold(f, zero, add, rest[..n - 2]);
      assert add(add(all, f(xs[k])), f(xs[n - 1])) == add(add(all, f(xs[n - 1])), f(xs[k]));
    }
  }

  /** The sum does not depend on the order of the list. */
  lemma {:induction false} FoldIgnoresOrder<K, V(!new)>(f: K -> V, zero: V, add: (V, V) -> V, xs: seq<K>, ys: seq<K>)
    requires multiset(xs) == multiset(ys) && Swaps(add)
    ensures Fold(f, zero, add, xs) == Fold(f, zero, add, ys)
    decreases |xs|
  {
    if xs == [] {
      assert |multiset(ys)| == 0;
    } else {
      var k := SameElsewhere(xs, ys);
      FoldIgnoresOrder(f, zero, add, xs[..|xs| - 1], ys[..k] + ys[k + 1..]);
      FoldSplit(f, zero, add, ys, k);
    }
  }

  /** Replacing one element exchanges its contribution. */
  lemma FoldUpdate<K, V(!new)>(f: K -> V, zero: V, add: (V, V) -> V, xs: seq<K>, k: nat, x: K)
    requires k < |xs| && Swaps(add)
    ensures add(Fold(f, zero, add, xs[k := x]), f(xs[k])) == add(Fold(f, zero, add, xs), f(x))
  {
    FoldSplit(f, zero, add, xs, k);
    FoldSplit(f, zero, add, xs[k := x], k);
    assert xs[k := x][..k] + xs[k := x][k + 1..] == xs[..k] + xs[k + 1..];
    var rest := Fold(f, zero, add, xs[..k] + xs[k + 1..]);
    assert add(add(rest, f(x)), f(xs[k])) == add(add(rest, f(xs[k])), f(x));
  }
}
