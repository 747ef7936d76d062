/** JavaScript's `Map` and plain objects: lookups by key, and the keys in the order they came. */
module Ordered {
  import opened Wrappers
  import opened Lists

  type Record<+V> = seq<(string, V)>

  function Get<V>(m: Record<V>, k: string): Option<V> {
    if m == [] then None
    else if m[0].0 == k then Some(m[0].1)
    else Get(m[1..], k)
  }

  /** A known key keeps its place, a new one goes to the end. */
  function Put<V>(m: Record<V>, k: string, v: V): Record<V> {
    if m == [] then [(k, v)]
    else if m[0].0 == k then [(k, v)] + m[1..]
    else [m[0]] + Put(m[1..], k, v)
  }

  /** `m.delete(k)`. */
  function Delete<V>(m: Record<V>, k: string): Record<V> {
    if m == [] then [] else if m[0].0 == k then Delete(m[1..], k) else [m[0]] + Delete(m[1..], k)
  }

  function Keys<V>(m: Record<V>): (keys: seq<string>)
    ensures |keys| == |m|
    ensures forall i :: 0 <= i < |m| ==> keys[i] == m[i].0
  {
    seq(|m|, i requires 0 <= i < |m| => m[i].0)
  }

  ghost predicate Unique<T>(xs: seq<T>) {
    forall i, j :: 0 <= i < j < |xs| ==> xs[i] != xs[j]
  }

  lemma {:induction false} GetPut<V>(m: Record<V>, k: string, v: V, q: string)
    ensures Get(Put(m, k, v), q) == if q == k then Some(v) else Get(m, q)
  {
    if m == [] || m[0].0 == k {
    } else {
      GetPut(m[1..], k, v, q);
    }
  }

  lemma {:induction false} GetDelete<V>(m: Record<V>, k: string, q: string)
    ensures Get(Delete(m, k), q) == if q == k then None else Get(m, q)
  {
    if m == [] {
    } else {
      GetDelete(m[1..], k, q);
    }
  }

  lemma {:induction false} GetIsMember<V>(m: Record<V>, k: string)
    ensures Get(m, k).Some? ==> (k, Get(m, k).value) in m
    ensures Get(m, k).Some? <==> k in Keys(m)
  {
    if m == [] {
    } else {
      GetIsMember(m[1..], k);
      KeysCons(m);
      HeadOrTail(Keys(m), k);
      if m[0].0 != k && Get(m, k).Some? {
        HeadOrTail(m, (k, Get(m, k).value));
      }
    }
  }

  lemma KeysCons<V>(m: Record<V>)
    requires m != []
    ensures Keys(m)[0] == m[0].0 && Keys(m)[1..] == Keys(m[1..]) && Keys(m) == [m[0].0] + Keys(m[1..])
  {
  }

  /** Putting under a known key changes no key. */
  lemma {:induction false} PutKeepsKeys<V>(m: Record<V>, k: string, v: V)
    requires k in Keys(m)
    ensures Keys(Put(m, k, v)) == Keys(m)
  {
    KeysCons(m);
    KeysCons(Put(m, k, v));
    if m[0].0 == k {
    } else {
      HeadOrTail(Keys(m), k);
      PutKeepsKeys(m[1..], k, v);
    }
  }

  /** Putting under a new key adds at the end. */
  lemma {:induction false} PutNewKey<V>(m: Record<V>, k: string, v: V)
    requires k !in Keys(m)
    ensures Put(m, k, v) == m + [(k, v)]
  {
    if m == [] {
      assert m + [(k, v)] == [(k, v)];
    } else {
      KeysCons(m);
      HeadOrTail(Keys(m), k);
      PutNewKey(m[1..], k, v);
      Regroup([m[0]], m[1..], [(k, v)]);
      assert [m[0]] + m[1..] == m;
    }
  }

  lemma {:induction false} MemberIsGet<V>(m: Record<V>, i: nat)
    requires i < |m| && Unique(Keys(m))
    ensures Get(m, m[i].0) == Some(m[i].1)
  {
    if i == 0 {
    } else {
      assert Keys(m)[0] != Keys(m)[i];
      assert Keys(m)[1..] == Keys(m[1..]);
      MemberIsGet(m[1..], i - 1);
    }
  }

  // ---- Grouping

  function With<T>(xs: seq<T>, key: T -> string, k: string): (r: seq<T>)
    ensures |r| <= |xs|
  {
    if xs == [] then []
    else if key(xs[0]) == k then [xs[0]] + With(xs[1..], key, k)
    else With(xs[1..], key, k)
  }

  function Without<T>(xs: seq<T>, key: T -> string, k: string): (r: seq<T>)
    ensures |r| <= |xs|
    ensures xs != [] && key(xs[0]) == k ==> |r| < |xs|
  {
    if xs == [] then []
    else if key(xs[0]) == k then Without(xs[1..], key, k)
    else [xs[0]] + Without(xs[1..], key, k)
  }

  /** Stable grouping: the keys by first occurrence, each with its elements in their order. */
  function GroupBy<T>(xs: seq<T>, key: T -> string): Record<seq<T>>
    decreases |xs|
  {
    if xs == [] then []
    else [(key(xs[0]), With(xs, key, key(xs[0])))] + GroupBy(Without(xs, key, key(xs[0])), key)
  }

  function GetOrEmpty<T>(m: Record<seq<T>>, k: string): seq<T> {
    match Get(m, k)
    case Some(v) => v
    case None => []
  }

  /** `m.set(k, [...(m.get(k) ?? []), x])`. */
  function Add<T>(m: Record<seq<T>>, k: string, x: T): Record<seq<T>> {
    Put(m, k, GetOrEmpty(m, k) + [x])
  }

  lemma {:induction false} WithAppend<T>(xs: seq<T>, x: T, key: T -> string, k: string)
    ensures With(xs + [x], key, k) == if key(x) == k then With(xs, key, k) + [x] else With(xs, key, k)
    ensures Without(xs + [x], key, k) == if key(x) == k then Without(xs, key, k) else Without(xs, key, k) + [x]
  {
    if xs == [] {
      assert xs + [x] == [x];
    } else {
      WithAppend(xs[1..], x, key, k);
      assert (xs + [x])[1..] == xs[1..] + [x];
    }
  }

  /** Adding one element to the map at a time arrives at the stable grouping. */
  lemma {:induction false} GroupByAppend<T>(xs: seq<T>, x: T, key: T -> string)
    ensures GroupBy(xs + [x], key) == Add(GroupBy(xs, key), key(x), x)
    decreases |xs|
  {
    if xs == [] {
      assert xs + [x] == [x];
      assert With([x], key, key(x)) == [x] && Without([x], key, key(x)) == [];
    } else {
      var k := key(xs[0]);
      assert (xs + [x])[0] == xs[0];
      WithAppend(xs, x, key, k);
      if key(x) != k {
        GroupByAppend(Without(xs, key, k), x, key);
      }
    }
  }

  function Flatten<T>(m: Record<seq<T>>): seq<T> {
    if m == [] then [] else m[0].1 + Flatten(m[1..])
  }

  lemma {:induction false} SplitByKey<T>(xs: seq<T>, key: T -> string, k: string)
    ensures multiset(With(xs, key, k)) + multiset(Without(xs, key, k)) == multiset(xs)
  {
    if xs == [] {
    } else {
      SplitByKey(xs[1..], key, k);
      assert xs == [xs[0]] + xs[1..];
    }
  }

  lemma {:induction false} SplitKeys<T>(xs: seq<T>, key: T -> string, k: string)
    ensures forall x <- With(xs, key, k) :: key(x) == k
    ensures forall x <- Without(xs, key, k) :: key(x) != k
  {
    if xs == [] {
    } else {
      SplitKeys(xs[1..], key, k);
    }
  }

  lemma WithAndWithout<T>(xs: seq<T>, key: T -> string, k: string)
    ensures multiset(With(xs, key, k)) + multiset(Without(xs, key, k)) == multiset(xs)
    ensures forall x <- With(xs, key, k) :: key(x) == k && x in xs
    ensures forall x <- Without(xs, key, k) :: key(x) != k && x in xs
  {
    SplitByKey(xs, key, k);
    SplitKeys(xs, key, k);
    forall x | x in With(xs, key, k) || x in Without(xs, key, k) ensures x in xs {
      assert x in multiset(xs);
    }
  }

  /** Grouping loses nothing and adds nothing. */
  lemma {:induction false} FlattenGroups<T>(xs: seq<T>, key: T -> string)
    ensures multiset(Flatten(GroupBy(xs, key))) == multiset(xs)
    decreases |xs|
  {
    if xs == [] {
    } else {
      var k := key(xs[0]);
      WithAndWithout(xs, key, k);
      FlattenGroups(Without(xs, key, k), key);
    }
  }

  // ---- Grouping twice

  type Nested<T> = Record<Record<seq<T>>>

  function GroupEach<T>(m: Record<seq<T>>, key: T -> string): Nested<T> {
    if m == [] then [] else [(m[0].0, GroupBy(m[0].1, key))] + GroupEach(m[1..], key)
  }

  function GroupByTwo<T>(xs: seq<T>, outer: T -> string, inner: T -> string): Nested<T> {
    GroupEach(GroupBy(xs, outer), inner)
  }

  function GetOrNone<T>(m: Nested<T>, k: string): Record<seq<T>> {
    match Get(m, k)
    case Some(v) => v
    case None => []
  }

  function AddTwo<T>(m: Nested<T>, ko: string, ki: string, x: T): Nested<T> {
    Put(m, ko, Add(GetOrNone(m, ko), ki, x))
  }

  lemma {:induction false} GroupEachPut<T>(m: Record<seq<T>>, key: T -> string, k: string, v: seq<T>)
    ensures GroupEach(Put(m, k, v), key) == Put(GroupEach(m, key), k, GroupBy(v, key))
    ensures GetOrNone(GroupEach(m, key), k) == GroupBy(GetOrEmpty(m, k), key)
  {
    if m == [] {
    } else {
      GroupEachPut(m[1..], key, k, v);
    }
  }

  lemma GroupByTwoAppend<T>(xs: seq<T>, x: T, outer: T -> string, inner: T -> string)
    ensures GroupByTwo(xs + [x], outer, inner) == AddTwo(GroupByTwo(xs, outer, inner), outer(x), inner(x), x)
  {
    var groups := GroupBy(xs, outer);
    var mine := GetOrEmpty(groups, outer(x));
    GroupByAppend(xs, x, outer);
    GroupEachPut(groups, inner, outer(x), mine + [x]);
    GroupByAppend(mine, x, inner);
  }

  function FlattenTwo<T>(m: Nested<T>): seq<T> {
    if m == [] then [] else Flatten(m[0].1) + FlattenTwo(m[1..])
  }

  lemma {:induction false} FlattenEach<T>(m: Record<seq<T>>, key: T -> string)
    ensures multiset(FlattenTwo(GroupEach(m, key))) == multiset(Flatten(m))
  {
    if m == [] {
    } else {
      FlattenGroups(m[0].1, key);
      FlattenEach(m[1..], key);
    }
  }

  lemma FlattenGroupsTwo<T>(xs: seq<T>, outer: T -> string, inner: T -> string)
    ensures multiset(FlattenTwo(GroupByTwo(xs, outer, inner))) == multiset(xs)
  {
    FlattenGroups(xs, outer);
    FlattenEach(GroupBy(xs, outer), inner);
  }

  /** Every group's key is the key of each of its elements. */
  ghost predicate Grouped<T>(m: Nested<T>, outer: T -> string, inner: T -> string) {
    forall i, j :: 0 <= i < |m| && 0 <= j < |m[i].1| ==> KeyedBy(m[i].1[j], m[i].0, outer, inner)
  }

  ghost predicate KeyedBy<T>(g: (string, seq<T>), ko: string, outer: T -> string, inner: T -> string) {
    g.1 != [] && forall x <- g.1 :: outer(x) == ko && inner(x) == g.0
  }

  lemma {:induction false} GroupsAreKeyed<T>(xs: seq<T>, key: T -> string, i: nat)
    requires i < |GroupBy(xs, key)|
    ensures GroupBy(xs, key)[i].1 != []
    ensures forall x <- GroupBy(xs, key)[i].1 :: key(x) == GroupBy(xs, key)[i].0 && x in xs
    decreases |xs|
  {
    var k := key(xs[0]);
    WithAndWithout(xs, key, k);
    if i == 0 {
      assert GroupBy(xs, key)[0] == (k, With(xs, key, k));
    } else {
      assert GroupBy(xs, key)[i] == GroupBy(Without(xs, key, k), key)[i - 1];
      GroupsAreKeyed(Without(xs, key, k), key, i - 1);
    }
  }

  lemma {:induction false} GroupEachAt<T>(m: Record<seq<T>>, key: T -> string, i: nat)
    requires i < |m|
    ensures |GroupEach(m, key)| == |m|
    ensures GroupEach(m, key)[i] == (m[i].0, GroupBy(m[i].1, key))
  {
    if |m| == 1 {
    } else {
      GroupEachAt(m[1..], key, if i == 0 then 0 else i - 1);
    }
  }

  lemma {:induction false} GroupEachLength<T>(m: Record<seq<T>>, key: T -> string)
    ensures |GroupEach(m, key)| == |m|
  {
    if m == [] {
    } else {
      GroupEachLength(m[1..], key);
    }
  }

  lemma GroupByTwoIsKeyed<T>(xs: seq<T>, outer: T -> string, inner: T -> string)
    ensures Grouped(GroupByTwo(xs, outer, inner), outer, inner)
  {
    var groups := GroupBy(xs, outer);
    var m := GroupByTwo(xs, outer, inner);
    GroupEachLength(groups, inner);
    forall i, j | 0 <= i < |m| && 0 <= j < |m[i].1| ensures KeyedBy(m[i].1[j], m[i].0, outer, inner) {
      GroupEachAt(groups, inner, i);
      GroupsAreKeyed(xs, outer, i);
      GroupsAreKeyed(groups[i].1, inner, j);
    }
  }
}
