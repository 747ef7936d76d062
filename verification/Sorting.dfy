/** `Array.prototype.sort` under the order of a key: stable, so insertion sort says what it leaves. */
module Sorting {
  import opened Lists
  import opened Texts

  ghost predicate Sorted<T(!new)>(xs: seq<T>, key: T -> string) {
    forall i, j :: 0 <= i < j < |xs| ==> !Less(key(xs[j]), key(xs[i]))
  }

  /** Behind the last element that is not greater, which keeps equals in their order. */
  function Insert<T>(xs: seq<T>, x: T, key: T -> string): (r: seq<T>)
    ensures multiset(r) == multiset(xs) + multiset{x}
  {
    if xs == [] then [x]
    else if Less(key(x), key(xs[|xs| - 1])) then
      assert xs == xs[..|xs| - 1] + [xs[|xs| - 1]];
      Insert(xs[..|xs| - 1], x, key) + [xs[|xs| - 1]]
    else xs + [x]
  }

  function Sort<T>(xs: seq<T>, key: T -> string): (r: seq<T>)
    ensures multiset(r) == multiset(xs)
  {
    if xs == [] then [] else
      assert xs == xs[..|xs| - 1] + [xs[|xs| - 1]];
      Insert(Sort(xs[..|xs| - 1], key), xs[|xs| - 1], key)
  }

  lemma SameElements<T>(xs: seq<T>, ys: seq<T>)
    requires multiset(xs) == multiset(ys)
    ensures |xs| == |ys|
    ensures forall x :: x in xs <==> x in ys
  {
    assert |multiset(xs)| == |xs| && |multiset(ys)| == |ys|;
    forall x ensures x in xs <==> x in ys {
      assert x in multiset(xs) <==> x in multiset(ys);
    }
  }

  lemma {:induction false} InsertSorts<T(!new)>(xs: seq<T>, x: T, key: T -> string)
    requires Sorted(xs, key)
    ensures Sorted(Insert(xs, x, key), key)
  {
    if xs == [] {
    } else {
      var last := xs[|xs| - 1];
      if Less(key(x), key(last)) {
        var front := xs[..|xs| - 1];
        InsertSorts(front, x, key);
        var r := Insert(front, x, key);
        forall i | 0 <= i < |r| ensures !Less(key(last), key(r[i])) {
          assert r[i] in multiset(r);
          LessIsStrict(key(x), key(last));
          if r[i] != x {
            assert r[i] in front;
          }
        }
      } else {
        forall i | 0 <= i < |xs| ensures !Less(key(x), key(xs[i])) {
          LessIsStrict(key(last), key(last));
          LessIsTransitive(key(xs[i]), key(last), key(x));
        }
      }
    }
  }

  lemma {:induction false} SortSorts<T(!new)>(xs: seq<T>, key: T -> string)
    ensures Sorted(Sort(xs, key), key)
  {
    if xs == [] {
    } else {
      SortSorts(xs[..|xs| - 1], key);
      InsertSorts(Sort(xs[..|xs| - 1], key), xs[|xs| - 1], key);
    }
  }

  ghost predicate KeyIsInjective<T(!new)>(xs: seq<T>, key: T -> string) {
    forall x, y :: x in xs && y in xs && key(x) == key(y) ==> x == y
  }

  /** There is only one sorted arrangement when the key tells the elements apart. */
  lemma {:induction false} SortedIsUnique<T(!new)>(xs: seq<T>, ys: seq<T>, key: T -> string)
    requires Sorted(xs, key) && Sorted(ys, key)
    requires multiset(xs) == multiset(ys)
    requires KeyIsInjective(xs, key)
    ensures xs == ys
  {
    SameElements(xs, ys);
    if xs == [] {
    } else {
      HeadIsLeast(xs, ys, key);
      TailTaken(xs);
      TailTaken(ys);
      assert xs == [xs[0]] + xs[1..] && ys == [ys[0]] + ys[1..];
      SortedIsUnique(xs[1..], ys[1..], key);
    }
  }

  lemma HeadIsLeast<T(!new)>(xs: seq<T>, ys: seq<T>, key: T -> string)
    requires Sorted(xs, key) && Sorted(ys, key)
    requires xs != [] && |xs| == |ys|
    requires forall x :: x in xs <==> x in ys
    requires KeyIsInjective(xs, key)
    ensures xs[0] == ys[0]
  {
    assert ys[0] in xs && xs[0] in ys;
    var i :| 0 <= i < |xs| && xs[i] == ys[0];
    var j :| 0 <= j < |ys| && ys[j] == xs[0];
    LessIsTotal(key(xs[0]), key(ys[0]));
  }

  /** Sorting forgets the order it was given. */
  lemma SortIsCanonical<T(!new)>(xs: seq<T>, ys: seq<T>, key: T -> string)
    requires multiset(xs) == multiset(ys)
    requires KeyIsInjective(xs, key)
    ensures Sort(xs, key) == Sort(ys, key)
  {
    SortSorts(xs, key);
    SortSorts(ys, key);
    SameElements(Sort(xs, key), xs);
    SortedIsUnique(Sort(xs, key), Sort(ys, key), key);
  }

  /** `strings.sort()`. */
  function SortTexts(xs: seq<string>): (r: seq<string>)
    ensures multiset(r) == multiset(xs)
  {
    Sort(xs, (x: string) => x)
  }

  lemma SortTextsIsCanonical(xs: seq<string>, ys: seq<string>)
    ensures multiset(xs) == multiset(ys) <==> SortTexts(xs) == SortTexts(ys)
  {
    if multiset(xs) == multiset(ys) {
      SortIsCanonical(xs, ys, (x: string) => x);
    }
  }
}
