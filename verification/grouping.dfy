/** Insertion-ordered `dict[str, list]` and `dict[str, int]` as filled by
    `for x in xs: d.setdefault(k(x), []).append(v(x))` and by
    `d[k(x)] = d.get(k(x), 0) + 1`: keys in order of first occurrence,
    values in the order the elements come. */
module Grouping {
  import opened Seqs

  /** `[f(x) for x in s]` */
  function Apply<T, V>(s: seq<T>, f: T -> V): (r: seq<V>)
    ensures |r| == |s|
  {
    if s == [] then [] else [f(s[0])] + Apply(s[1..], f)
  }

  lemma {:induction false} ApplyConcat<T, V>(a: seq<T>, b: seq<T>, f: T -> V)
    ensures Apply(a + b, f) == Apply(a, f) + Apply(b, f)
  {
    if a == [] {
      assert a + b == b;
    } else {
      assert (a + b)[1..] == a[1..] + b;
      ApplyConcat(a[1..], b, f);
    }
  }

  /** The test "the element's key is `k`". */
  function KeyIs<T>(key: T -> string, k: string): T -> bool
  {
    x => key(x) == k
  }

  // ---------------------------------------------------------------- lists per key

  /** One entry of the dictionary: a key and the values stored under it. */
  datatype Group<V> = Group(key: string, items: seq<V>)

  function GroupKey<V>(g: Group<V>): string
  {
    g.key
  }

  /** Position of the first entry whose key (read by `keyOf`) is `k`, or the
      number of entries when there is none: the lookup of `k` in an
      insertion-ordered dictionary, for lists and counts alike. */
  function FindKey<E>(es: seq<E>, keyOf: E -> string, k: string): (i: nat)
    ensures i <= |es|
    ensures i < |es| ==> keyOf(es[i]) == k
  {
    if es == [] then 0 else if keyOf(es[0]) == k then 0 else 1 + FindKey(es[1..], keyOf, k)
  }

  /** A scan that passed `i` entries without meeting `k`, and stops at one
      with key `k` or at the end, has found `FindKey`. */
  lemma {:induction false} FindKeyAt<E>(es: seq<E>, keyOf: E -> string, k: string, i: nat)
    requires i <= |es|
    requires forall j :: 0 <= j < i ==> keyOf(es[j]) != k
    requires i < |es| ==> keyOf(es[i]) == k
    ensures FindKey(es, keyOf, k) == i
  {
    if i > 0 {
      FindKeyAt(es[1..], keyOf, k, i - 1);
    }
  }

  lemma {:induction false} FindKeyMissing<E>(es: seq<E>, keyOf: E -> string, k: string)
    ensures FindKey(es, keyOf, k) == |es| <==> forall j :: 0 <= j < |es| ==> keyOf(es[j]) != k
  {
    if es != [] && keyOf(es[0]) != k {
      FindKeyMissing(es[1..], keyOf, k);
    }
  }

  /** `d.setdefault(k, []).append(v)` */
  function AddTo<V>(gs: seq<Group<V>>, k: string, v: V): (r: seq<Group<V>>)
    ensures |r| == |gs| || |r| == |gs| + 1
  {
    var i := FindKey(gs, GroupKey, k);
    if i < |gs| then gs[i := Group(k, gs[i].items + [v])] else gs + [Group(k, [v])]
  }

  /** The dictionary the loop builds from `xs`, keyed by `key`, storing `val`. */
  function GroupBy<T, V>(xs: seq<T>, key: T -> string, val: T -> V): seq<Group<V>>
  {
    if xs == [] then []
    else AddTo(GroupBy(xs[..|xs| - 1], key, val), key(xs[|xs| - 1]), val(xs[|xs| - 1]))
  }

  /** No key occurs twice. */
  ghost predicate DistinctKeys<V>(gs: seq<Group<V>>)
  {
    forall i, j :: 0 <= i < j < |gs| ==> gs[i].key != gs[j].key
  }

  /** The entry for each key holds, in order, the values of exactly the elements with that key. */
  ghost predicate ItemsMatch<T(!new), V>(gs: seq<Group<V>>, xs: seq<T>, key: T -> string, val: T -> V)
  {
    forall i :: 0 <= i < |gs| ==> gs[i].items == Apply(Filter(xs, KeyIs(key, gs[i].key)), val)
  }

  /** Every element's key has an entry. */
  ghost predicate AllPresent<T, V>(gs: seq<Group<V>>, xs: seq<T>, key: T -> string)
  {
    forall x :: x in xs ==> FindKey(gs, GroupKey, key(x)) < |gs|
  }

  lemma AddToDistinct<V>(gs: seq<Group<V>>, k: string, v: V)
    requires DistinctKeys(gs)
    ensures DistinctKeys(AddTo(gs, k, v))
  {
    if FindKey(gs, GroupKey, k) == |gs| {
      FindKeyMissing(gs, GroupKey, k);
    }
  }

  lemma AddToPresent<T, V>(gs: seq<Group<V>>, xs: seq<T>, x: T, key: T -> string, v: V)
    requires AllPresent(gs, xs, key)
    ensures AllPresent(AddTo(gs, key(x), v), xs + [x], key)
  {
    var k := key(x);
    var i := FindKey(gs, GroupKey, k);
    var r := AddTo(gs, k, v);
    forall y | y in xs + [x] ensures FindKey(r, GroupKey, key(y)) < |r| {
      FindKeyMissing(r, GroupKey, key(y));
      if y in xs && key(y) != k {
        assert r[FindKey(gs, GroupKey, key(y))].key == key(y);
      } else {
        assert r[if i < |gs| then i else |gs|].key == k;
      }
    }
  }

  /** No element has a key without an entry. */
  lemma NewKeyUnused<T(!new), V>(gs: seq<Group<V>>, xs: seq<T>, key: T -> string, k: string)
    requires AllPresent(gs, xs, key) && FindKey(gs, GroupKey, k) == |gs|
    ensures Filter(xs, KeyIs(key, k)) == []
  {
    forall y | y in xs ensures !KeyIs(key, k)(y) {
      assert FindKey(gs, GroupKey, key(y)) < |gs|;
    }
    FilterNone(xs, KeyIs(key, k));
  }

  /** Adding `x` to its key's list matches filtering with `x` appended. */
  lemma ItemsAfterAdd<T(!new), V>(items: seq<V>, xs: seq<T>, x: T, key: T -> string, val: T -> V)
    requires items == Apply(Filter(xs, KeyIs(key, key(x))), val)
    ensures items + [val(x)] == Apply(Filter(xs + [x], KeyIs(key, key(x))), val)
  {
    var p := KeyIs(key, key(x));
    FilterConcat(xs, [x], p);
    assert Filter([x], p) == [x];
    ApplyConcat(Filter(xs, p), [x], val);
  }

  /** Another key's list is not affected by `x`. */
  lemma ItemsOtherKey<T(!new), V>(items: seq<V>, k: string, xs: seq<T>, x: T, key: T -> string, val: T -> V)
    requires k != key(x)
    requires items == Apply(Filter(xs, KeyIs(key, k)), val)
    ensures items == Apply(Filter(xs + [x], KeyIs(key, k)), val)
  {
    var p := KeyIs(key, k);
    FilterConcat(xs, [x], p);
    assert Filter([x], p) == [];
    assert Filter(xs, p) + [] == Filter(xs, p);
  }

  /** The entry at `j` after adding `x` holds the values of the elements with its key. */
  lemma AddToItemAt<T(!new), V>(gs: seq<Group<V>>, xs: seq<T>, x: T, key: T -> string, val: T -> V, j: nat)
    requires DistinctKeys(gs) && AllPresent(gs, xs, key) && ItemsMatch(gs, xs, key, val)
    requires j < |AddTo(gs, key(x), val(x))|
    ensures AddTo(gs, key(x), val(x))[j].items
         == Apply(Filter(xs + [x], KeyIs(key, AddTo(gs, key(x), val(x))[j].key)), val)
  {
    var k := key(x);
    var i := FindKey(gs, GroupKey, k);
    if i == |gs| {
      if j == |gs| {
        NewKeyUnused(gs, xs, key, k);
        ItemsAfterAdd([], xs, x, key, val);
      } else {
        FindKeyMissing(gs, GroupKey, k);
        ItemsOtherKey(gs[j].items, gs[j].key, xs, x, key, val);
      }
    } else if j == i {
      ItemsAfterAdd(gs[i].items, xs, x, key, val);
    } else {
      ItemsOtherKey(gs[j].items, gs[j].key, xs, x, key, val);
    }
  }

  lemma AddToItems<T(!new), V>(gs: seq<Group<V>>, xs: seq<T>, x: T, key: T -> string, val: T -> V)
    requires DistinctKeys(gs) && AllPresent(gs, xs, key) && ItemsMatch(gs, xs, key, val)
    ensures ItemsMatch(AddTo(gs, key(x), val(x)), xs + [x], key, val)
  {
    forall j | 0 <= j < |AddTo(gs, key(x), val(x))| {
      AddToItemAt(gs, xs, x, key, val, j);
    }
  }

  /** The dictionary is faithful to the elements it was filled from: keys
      are distinct, every element's key has an entry, and the entry for a
      key holds the values of exactly the elements with that key, in order. */
  lemma {:induction false} GroupByFaithful<T(!new), V>(xs: seq<T>, key: T -> string, val: T -> V)
    ensures DistinctKeys(GroupBy(xs, key, val))
    ensures AllPresent(GroupBy(xs, key, val), xs, key)
    ensures ItemsMatch(GroupBy(xs, key, val), xs, key, val)
  {
    if xs != [] {
      var init := xs[..|xs| - 1];
      var x := xs[|xs| - 1];
      var gs := GroupBy(init, key, val);
      GroupByFaithful(init, key, val);
      assert init + [x] == xs;
      AddToDistinct(gs, key(x), val(x));
      AddToPresent(gs, init, x, key, val(x));
      AddToItems(gs, init, x, key, val);
    }
  }

  /** Total number of values stored. */
  function SizeSum<V>(gs: seq<Group<V>>): nat
  {
    if gs == [] then 0 else |gs[0].items| + SizeSum(gs[1..])
  }

  lemma {:induction false} SizeSumAppend<V>(gs: seq<Group<V>>, g: Group<V>)
    ensures SizeSum(gs + [g]) == SizeSum(gs) + |g.items|
  {
    if gs != [] {
      assert (gs + [g])[1..] == gs[1..] + [g];
      SizeSumAppend(gs[1..], g);
    }
  }

  lemma {:induction false} SizeSumUpdate<V>(gs: seq<Group<V>>, i: nat, g: Group<V>)
    requires i < |gs|
    ensures SizeSum(gs[i := g]) == SizeSum(gs) - |gs[i].items| + |g.items|
  {
    if i > 0 {
      assert gs[i := g][1..] == gs[1..][i - 1 := g];
      SizeSumUpdate(gs[1..], i - 1, g);
    }
  }

  /** The lists' sizes add up to the number of elements: nothing is lost or counted twice. */
  lemma {:induction false} GroupBySizes<T, V>(xs: seq<T>, key: T -> string, val: T -> V)
    ensures SizeSum(GroupBy(xs, key, val)) == |xs|
  {
    if xs != [] {
      var init := xs[..|xs| - 1];
      var gs := GroupBy(init, key, val);
      var k := key(xs[|xs| - 1]);
      var i := FindKey(gs, GroupKey, k);
      GroupBySizes(init, key, val);
      if i < |gs| {
        SizeSumUpdate(gs, i, Group(k, gs[i].items + [val(xs[|xs| - 1])]));
      } else {
        SizeSumAppend(gs, Group(k, [val(xs[|xs| - 1])]));
      }
    }
  }

  /** The loop that fills the dictionary. */
  method FillGroups<T, V>(xs: seq<T>, key: T -> string, val: T -> V) returns (gs: seq<Group<V>>)
    ensures gs == GroupBy(xs, key, val)
  {
    gs := [];
    var n := 0;
    while n < |xs|
      invariant 0 <= n <= |xs|
      invariant gs == GroupBy(xs[..n], key, val)
    {
      var x := xs[n];
      var k := key(x);
      var i := 0;
      while i < |gs| && gs[i].key != k
        invariant 0 <= i <= |gs|
        invariant forall j :: 0 <= j < i ==> gs[j].key != k
      {
        i := i + 1;
      }
      FindKeyAt(gs, GroupKey, k, i);
      if i < |gs| {
        gs := gs[i := Group(k, gs[i].items + [val(x)])];
      } else {
        gs := gs + [Group(k, [val(x)])];
      }
      assert xs[..n + 1][..n] == xs[..n];
      n := n + 1;
    }
    assert xs[..|xs|] == xs;
  }

  // ---------------------------------------------------------------- reading the lists back

  /** The values stored under key `k`, each rebuilt together with its key. */
  function Expand<V, W>(k: string, items: seq<V>, mk: (string, V) -> W): (r: seq<W>)
    ensures |r| == |items|
  {
    if items == [] then [] else Expand(k, items[..|items| - 1], mk) + [mk(k, items[|items| - 1])]
  }

  /** What one entry contributes when read back: its rebuilt values when its key is picked, else nothing. */
  function Part<V, W>(g: Group<V>, pick: string -> bool, mk: (string, V) -> W): seq<W>
  {
    if pick(g.key) then Expand(g.key, g.items, mk) else []
  }

  /** `for k, vs in d.items(): if pick(k): for v in vs: out.append(mk(k, v))` */
  function Unfold<V, W>(gs: seq<Group<V>>, pick: string -> bool, mk: (string, V) -> W): seq<W>
  {
    if gs == [] then [] else Unfold(gs[..|gs| - 1], pick, mk) + Part(gs[|gs| - 1], pick, mk)
  }

  /** Replacing one entry changes what is read back by what that entry contributes. */
  lemma {:induction false} UnfoldUpdate<V, W>(gs: seq<Group<V>>, i: nat, g: Group<V>, pick: string -> bool,
                                              mk: (string, V) -> W, extra: multiset<W>)
    requires i < |gs|
    requires multiset(Part(g, pick, mk)) == multiset(Part(gs[i], pick, mk)) + extra
    ensures multiset(Unfold(gs[i := g], pick, mk)) == multiset(Unfold(gs, pick, mk)) + extra
  {
    var n := |gs| - 1;
    var r := gs[i := g];
    var front := Unfold(gs[..n], pick, mk);
    var tail := Part(gs[n], pick, mk);
    assert Unfold(gs, pick, mk) == front + tail;
    if i == n {
      assert r[..n] == gs[..n];
      assert Unfold(r, pick, mk) == front + Part(g, pick, mk);
      MultisetShift(front, Part(g, pick, mk), tail, extra);
    } else {
      assert r[..n] == gs[..n][i := g];
      UnfoldUpdate(gs[..n], i, g, pick, mk, extra);
      assert Unfold(r, pick, mk) == Unfold(gs[..n][i := g], pick, mk) + tail;
      MultisetShift(tail, Unfold(gs[..n][i := g], pick, mk), front, extra);
    }
  }

  /** If `b` holds what `c` holds plus `extra`, so does `a + b` compared with `a + c`. */
  lemma MultisetShift<W>(a: seq<W>, b: seq<W>, c: seq<W>, extra: multiset<W>)
    requires multiset(b) == multiset(c) + extra
    ensures multiset(a + b) == multiset(a + c) + extra
    ensures multiset(b + a) == multiset(c + a) + extra
  {
    calc {
      multiset(a + b);
      multiset(a) + multiset(b);
      multiset(a) + (multiset(c) + extra);
      (multiset(a) + multiset(c)) + extra;
      multiset(a + c) + extra;
    }
    assert multiset(b + a) == multiset(a + b);
    assert multiset(c + a) == multiset(a + c);
  }

  /** Reading back what `x` adds: its rebuilt value when its key is picked. */
  lemma AddToUnfold<V, W>(gs: seq<Group<V>>, k: string, v: V, pick: string -> bool, mk: (string, V) -> W)
    ensures multiset(Unfold(AddTo(gs, k, v), pick, mk))
         == multiset(Unfold(gs, pick, mk)) + (if pick(k) then multiset{mk(k, v)} else multiset{})
  {
    var i := FindKey(gs, GroupKey, k);
    if i < |gs| {
      var items := gs[i].items;
      assert (items + [v])[..|items|] == items;
      UnfoldUpdate(gs, i, Group(k, items + [v]), pick, mk, if pick(k) then multiset{mk(k, v)} else multiset{});
    } else {
      var r := gs + [Group(k, [v])];
      assert r[..|gs|] == gs;
      assert [v][..0] == [];
    }
  }

  /** The test "the element's key is picked". */
  function KeyPicked<T>(key: T -> string, pick: string -> bool): T -> bool
  {
    x => pick(key(x))
  }

  /** An element rebuilt from its key and value. */
  function Rebuilt<T, V, W>(key: T -> string, val: T -> V, mk: (string, V) -> W): T -> W
  {
    x => mk(key(x), val(x))
  }

  /** What the last element contributes to the expected read-back. */
  lemma {:induction false} SingleContribution<T(!new), V, W>(x: T, key: T -> string, val: T -> V,
                                                             pick: string -> bool, mk: (string, V) -> W)
    ensures multiset(Apply(Filter([x], KeyPicked(key, pick)), Rebuilt(key, val, mk)))
         == if pick(key(x)) then multiset{mk(key(x), val(x))} else multiset{}
  {
    assert [x][1..] == [];
  }

  /** Filtering and rebuilding a non-empty list gives, up to order, what its
      front gives plus what its last element gives. */
  lemma PickedLast<T(!new), V, W>(xs: seq<T>, key: T -> string, val: T -> V,
                                  pick: string -> bool, mk: (string, V) -> W)
    requires xs != []
    ensures var x := xs[|xs| - 1];
      multiset(Apply(Filter(xs, KeyPicked(key, pick)), Rebuilt(key, val, mk)))
      == multiset(Apply(Filter(xs[..|xs| - 1], KeyPicked(key, pick)), Rebuilt(key, val, mk)))
         + (if pick(key(x)) then multiset{mk(key(x), val(x))} else multiset{})
  {
    var p := KeyPicked(key, pick);
    var rebuild := Rebuilt(key, val, mk);
    var init := xs[..|xs| - 1];
    var x := xs[|xs| - 1];
    var front := Filter(init, p);
    var back := Filter([x], p);
    assert init + [x] == xs;
    FilterConcat(init, [x], p);
    assert Filter(xs, p) == front + back;
    ApplyConcat(front, back, rebuild);
    var all := Apply(front + back, rebuild);
    assert all == Apply(front, rebuild) + Apply(back, rebuild);
    assert multiset(all) == multiset(Apply(front, rebuild)) + multiset(Apply(back, rebuild));
    SingleContribution(x, key, val, pick, mk);
  }

  /** Reading back a dictionary filled from `xs` gives, up to order, the
      elements whose key is picked, each rebuilt from its key and value:
      nothing is lost and nothing is read twice. */
  lemma {:induction false} UnfoldGroupBy<T(!new), V, W>(xs: seq<T>, key: T -> string, val: T -> V,
                                                        pick: string -> bool, mk: (string, V) -> W)
    ensures multiset(Unfold(GroupBy(xs, key, val), pick, mk))
         == multiset(Apply(Filter(xs, KeyPicked(key, pick)), Rebuilt(key, val, mk)))
  {
    if xs != [] {
      var init := xs[..|xs| - 1];
      var x := xs[|xs| - 1];
      var gs := GroupBy(init, key, val);
      assert GroupBy(xs, key, val) == AddTo(gs, key(x), val(x));
      UnfoldGroupBy(init, key, val, pick, mk);
      AddToUnfold(gs, key(x), val(x), pick, mk);
      PickedLast(xs, key, val, pick, mk);
    }
  }

  /** Reading back one more entry whose key is picked appends its rebuilt values. */
  lemma UnfoldStep<V, W>(gs: seq<Group<V>>, i: nat, pick: string -> bool, mk: (string, V) -> W)
    requires i < |gs|
    ensures Unfold(gs[..i + 1], pick, mk) == Unfold(gs[..i], pick, mk) + Part(gs[i], pick, mk)
  {
    assert gs[..i + 1][..i] == gs[..i];
  }

  // ---------------------------------------------------------------- counts per key

  /** One entry of a `dict[str, int]` of counts. */
  datatype KeyCount = KeyCount(key: string, count: nat)

  function CountKey(c: KeyCount): string
  {
    c.key
  }

  /** `d[k] = d.get(k, 0) + 1` */
  function AddOne(cs: seq<KeyCount>, k: string): seq<KeyCount>
  {
    var i := FindKey(cs, CountKey, k);
    if i < |cs| then cs[i := KeyCount(k, cs[i].count + 1)] else cs + [KeyCount(k, 1)]
  }

  /** The counts the loop builds from `xs`, keyed by `key`. */
  function CountBy<T>(xs: seq<T>, key: T -> string): seq<KeyCount>
  {
    if xs == [] then [] else AddOne(CountBy(xs[..|xs| - 1], key), key(xs[|xs| - 1]))
  }

  /** The size of each list of a dictionary of lists. */
  function Sizes<V>(gs: seq<Group<V>>): (r: seq<KeyCount>)
    ensures |r| == |gs|
  {
    if gs == [] then [] else [KeyCount(gs[0].key, |gs[0].items|)] + Sizes(gs[1..])
  }

  lemma {:induction false} SizesAt<V>(gs: seq<Group<V>>, i: nat)
    requires i < |gs|
    ensures Sizes(gs)[i] == KeyCount(gs[i].key, |gs[i].items|)
  {
    if i > 0 {
      SizesAt(gs[1..], i - 1);
    }
  }

  lemma {:induction false} SizesFind<V>(gs: seq<Group<V>>, k: string)
    ensures FindKey(Sizes(gs), CountKey, k) == FindKey(gs, GroupKey, k)
  {
    if gs != [] {
      SizesFind(gs[1..], k);
    }
  }

  lemma {:induction false} SizesAppend<V>(gs: seq<Group<V>>, g: Group<V>)
    ensures Sizes(gs + [g]) == Sizes(gs) + [KeyCount(g.key, |g.items|)]
  {
    if gs != [] {
      assert (gs + [g])[1..] == gs[1..] + [g];
      SizesAppend(gs[1..], g);
    }
  }

  lemma {:induction false} SizesUpdate<V>(gs: seq<Group<V>>, i: nat, g: Group<V>)
    requires i < |gs|
    ensures Sizes(gs[i := g]) == Sizes(gs)[i := KeyCount(g.key, |g.items|)]
  {
    if i > 0 {
      assert gs[i := g][1..] == gs[1..][i - 1 := g];
      SizesUpdate(gs[1..], i - 1, g);
    }
  }

  /** Counting is grouping and taking sizes: the counts have the keys of the
      dictionary of lists, in the same order, and each count is the size of
      the list under that key. */
  lemma {:induction false} CountByIsSizes<T, V>(xs: seq<T>, key: T -> string, val: T -> V)
    ensures CountBy(xs, key) == Sizes(GroupBy(xs, key, val))
  {
    if xs != [] {
      var init := xs[..|xs| - 1];
      var x := xs[|xs| - 1];
      var gs := GroupBy(init, key, val);
      CountByIsSizes(init, key, val);
      SizesFind(gs, key(x));
      var i := FindKey(gs, GroupKey, key(x));
      if i < |gs| {
        SizesAt(gs, i);
        SizesUpdate(gs, i, Group(key(x), gs[i].items + [val(x)]));
      } else {
        SizesAppend(gs, Group(key(x), [val(x)]));
      }
    }
  }

  function SumCounts(cs: seq<KeyCount>): nat
  {
    if cs == [] then 0 else cs[0].count + SumCounts(cs[1..])
  }

  lemma {:induction false} SumCountsSizes<V>(gs: seq<Group<V>>)
    ensures SumCounts(Sizes(gs)) == SizeSum(gs)
  {
    if gs != [] {
      SumCountsSizes(gs[1..]);
    }
  }

  /** The counts have distinct keys, one per key of the elements; each
      count is the number of elements with that key; and they add up to the
      number of elements. */
  lemma CountByFacts<T(!new)>(xs: seq<T>, key: T -> string)
    ensures forall i, j :: 0 <= i < j < |CountBy(xs, key)| ==> CountBy(xs, key)[i].key != CountBy(xs, key)[j].key
    ensures forall i :: 0 <= i < |CountBy(xs, key)| ==>
      CountBy(xs, key)[i].count == Count(xs, KeyIs(key, CountBy(xs, key)[i].key)) > 0
    ensures forall x :: x in xs ==> FindKey(CountBy(xs, key), CountKey, key(x)) < |CountBy(xs, key)|
    ensures SumCounts(CountBy(xs, key)) == |xs|
  {
    var id := (x: T) => x;
    var gs := GroupBy(xs, key, id);
    CountByIsSizes(xs, key, id);
    GroupByFaithful(xs, key, id);
    GroupBySizes(xs, key, id);
    SumCountsSizes(gs);
    forall i | 0 <= i < |gs|
      ensures Sizes(gs)[i].key == gs[i].key && Sizes(gs)[i].count == Count(xs, KeyIs(key, gs[i].key)) > 0
    {
      SizesAt(gs, i);
      assert |gs[i].items| == |Filter(xs, KeyIs(key, gs[i].key))|;
      if |gs[i].items| == 0 {
        GroupKeyUsed(xs, key, id, i);
      }
    }
    forall x | x in xs ensures FindKey(Sizes(gs), CountKey, key(x)) < |gs| {
      SizesFind(gs, key(x));
    }
  }

  /** Every key of the dictionary is the key of some element. */
  lemma {:induction false} GroupKeyUsed<T(!new), V>(xs: seq<T>, key: T -> string, val: T -> V, i: nat)
    requires i < |GroupBy(xs, key, val)|
    ensures GroupBy(xs, key, val)[i].items != []
  {
    var init := xs[..|xs| - 1];
    var x := xs[|xs| - 1];
    var gs := GroupBy(init, key, val);
    var j := FindKey(gs, GroupKey, key(x));
    if i < |gs| && i != j {
      GroupKeyUsed(init, key, val, i);
    }
  }

  /** The loop that counts. */
  method FillCounts<T>(xs: seq<T>, key: T -> string) returns (cs: seq<KeyCount>)
    ensures cs == CountBy(xs, key)
  {
    cs := [];
    var n := 0;
    while n < |xs|
      invariant 0 <= n <= |xs|
      invariant cs == CountBy(xs[..n], key)
    {
      var k := key(xs[n]);
      var i := 0;
      while i < |cs| && cs[i].key != k
        invariant 0 <= i <= |cs|
        invariant forall j :: 0 <= j < i ==> cs[j].key != k
      {
        i := i + 1;
      }
      FindKeyAt(cs, CountKey, k, i);
      if i < |cs| {
        cs := cs[i := KeyCount(k, cs[i].count + 1)];
      } else {
        cs := cs + [KeyCount(k, 1)];
      }
      assert xs[..n + 1][..n] == xs[..n];
      n := n + 1;
    }
    assert xs[..|xs|] == xs;
  }

  lemma {:induction false} SumCountsConcat(a: seq<KeyCount>, b: seq<KeyCount>)
    ensures SumCounts(a + b) == SumCounts(a) + SumCounts(b)
  {
    if a == [] {
      assert a + b == b;
    } else {
      assert (a + b)[1..] == a[1..] + b;
      SumCountsConcat(a[1..], b);
    }
  }

  /** Taking one count out of a list takes its count off the total. */
  lemma {:induction false} SumCountsRemove(b: seq<KeyCount>, k: nat)
    requires k < |b|
    ensures SumCounts(b) == b[k].count + SumCounts(b[..k] + b[k + 1..])
  {
    if k == 0 {
      assert b[..0] + b[1..] == b[1..];
    } else {
      var rest := b[..k] + b[k + 1..];
      assert rest[0] == b[0];
      var tail := b[1..];
      assert rest[1..] == tail[..k - 1] + tail[k..];
      assert tail[k - 1] == b[k];
      SumCountsRemove(tail, k - 1);
      assert SumCounts(rest) == b[0].count + SumCounts(rest[1..]);
      assert SumCounts(b) == b[0].count + SumCounts(tail);
    }
  }

  /** Removing one element of a sequence removes one occurrence from its multiset. */
  lemma MultisetRemove<T>(b: seq<T>, k: nat)
    requires k < |b|
    ensures multiset(b) == multiset(b[..k] + b[k + 1..]) + multiset{b[k]}
  {
    assert b == b[..k] + [b[k]] + b[k + 1..];
  }

  /** Multisets that agree once the same element is added agree before. */
  lemma MultisetCancel<T>(m1: multiset<T>, m2: multiset<T>, x: T)
    requires m1 + multiset{x} == m2 + multiset{x}
    ensures m1 == m2
  {
    assert forall y :: m1[y] == (m1 + multiset{x})[y] - multiset{x}[y];
  }

  /** A permutation of `a` with `a[0]` at `k` stays one without them. */
  lemma PermutationRest<T>(a: seq<T>, b: seq<T>, k: nat)
    requires multiset(a) == multiset(b) && a != [] && k < |b| && b[k] == a[0]
    ensures multiset(a[1..]) == multiset(b[..k] + b[k + 1..])
  {
    MultisetRemove(b, k);
    MultisetRemove(a, 0);
    assert a[..0] + a[1..] == a[1..];
    MultisetCancel(multiset(a[1..]), multiset(b[..k] + b[k + 1..]), a[0]);
  }

  /** Reordering the counts does not change their total. */
  lemma {:induction false} SumCountsPermutation(a: seq<KeyCount>, b: seq<KeyCount>)
    requires multiset(a) == multiset(b)
    ensures SumCounts(a) == SumCounts(b)
    decreases |a|
  {
    if a == [] {
      assert |b| == |multiset(b)| == 0;
    } else {
      assert a[0] in b by {
        assert a[0] in multiset(b);
      }
      var k :| 0 <= k < |b| && b[k] == a[0];
      PermutationRest(a, b, k);
      SumCountsPermutation(a[1..], b[..k] + b[k + 1..]);
      SumCountsRemove(b, k);
    }
  }
}
