/** Exactly when each timer fires, and when advancing comes to an end. */
module ClockRepeats {
  import opened Numbers
  import opened Wrappers
  import opened Clock
  import opened ClockComposes
  import opened ClockSafety

  /** The due times at which this handle fired, in order. */
  function Dues<L>(firings: seq<Firing<L>>, id: nat): seq<int> {
    if firings == [] then []
    else if firings[0].id == id then [firings[0].due] + Dues(firings[1..], id)
    else Dues(firings[1..], id)
  }

  /** The due times up to `t` of a timer nobody cancels: its own, and every interval after it for a repeat. */
  function Expected(due: int, interval: Option<int>, t: int): seq<int>
    requires interval.Some? ==> interval.value >= 1
    decreases Max(t - due + 1, 0)
  {
    if due > t then []
    else
      match interval
      case None => [due]
      case Some(i) => [due] + Expected(due + i, interval, t)
  }

  /** A repeat due at `a + i` comes up floor((t - a) / i) times by `t`, at a + i, a + 2i and so on. */
  lemma ExpectedIsGrid(a: int, i: int, t: int)
    requires i >= 1 && t >= a
    ensures Expected(a + i, Some(i), t) == seq((t - a) / i, k requires 0 <= k => a + i + k * i)
  {
    ExpectedCount(a, i, t);
    var expected := Expected(a + i, Some(i), t);
    forall k | 0 <= k < |expected| ensures expected[k] == a + i + k * i {
      ExpectedAt(a + i, i, t, k);
    }
  }

  lemma {:induction false} ExpectedAt(due: int, i: int, t: int, k: nat)
    requires i >= 1 && k < |Expected(due, Some(i), t)|
    ensures Expected(due, Some(i), t)[k] == due + k * i
    decreases k
  {
    if k == 0 {
    } else {
      ExpectedAt(due + i, i, t, k - 1);
    }
  }

  lemma {:induction false} ExpectedCount(a: int, i: int, t: int)
    requires i >= 1 && t >= a
    ensures |Expected(a + i, Some(i), t)| == (t - a) / i
    decreases t - a
  {
    if a + i <= t {
      ExpectedCount(a + i, i, t);
      OneLess(t - a, i);
    } else {
      LessIsNone(t - a, i);
    }
  }

  lemma OneLess(n: int, i: int)
    requires 1 <= i <= n
    ensures n / i == 1 + (n - i) / i
  {
    var p, q := n / i, 1 + (n - i) / i;
    Division(n, i);
    Division(n - i, i);
    assert (p - q) * i == p * i - q * i;
    if p < q {
      AtLeast(q - p, i);
    } else if q < p {
      AtLeast(p - q, i);
    }
  }

  lemma Division(n: int, i: int)
    requires i >= 1
    ensures n == (n / i) * i + n % i && 0 <= n % i < i
  {
  }

  lemma AtLeast(d: int, i: int)
    requires d >= 1 && i >= 1
    ensures d * i >= i
  {
  }

  lemma LessIsNone(n: int, i: int)
    requires 0 <= n < i
    ensures n / i == 0
  {
  }

  // ---- A timer nobody cancels stays

  lemma {:induction false} StaysDoAll<L>(b: Book<L>, ops: seq<Op<L>>, x: Timer<L>)
    requires x in b.timers && x.id < b.issued && !Cancels(ops, b.issued, x.id)
    ensures x in DoAll(b, ops).timers
    decreases |ops|
  {
    if ops == [] {
    } else {
      if ops[0].Cancel? {
        IntoCancel(b.timers, ops[0].id, x);
      }
      StaysDoAll(Do(b, ops[0]), ops[1..], x);
    }
  }

  ghost predicate LeftAlone<L>(firings: seq<Firing<L>>, id: nat) {
    forall f <- firings :: !Cancels(f.ops, f.issued, id)
  }

  lemma {:induction false} GoneIsSilent<L>(firings: seq<Firing<L>>, id: nat)
    requires forall f <- firings :: f.id != id
    ensures Dues(firings, id) == []
  {
    if firings == [] {
    } else {
      GoneIsSilent(firings[1..], id);
    }
  }

  /** Once a handle is gone, it is silent for the rest of the run. */
  lemma GoneFromHere<S, L>(react: Callbacks<S, L>, w: World<S, L>, e: Timer<L>, t: int, fuel: nat, id: nat)
    requires Gone(Struck(w.book, e), id) || Cancels(Said(react, w, e).ops, w.book.issued, id)
    requires AdvanceTo(react, Fired(react, w, e), t, fuel).Some?
    ensures Dues(AdvanceTo(react, Fired(react, w, e), t, fuel).value.firings, id) == []
  {
    GoneDoAll(Struck(w.book, e), Said(react, w, e).ops, id);
    GoneStaysGone(react, Fired(react, w, e), t, fuel, id);
    GoneIsSilent(AdvanceTo(react, Fired(react, w, e), t, fuel).value.firings, id);
  }

  /** Where `x` stands once `e` has been picked, if it still stands anywhere. */
  function Next<L>(b: Book<L>, e: Timer<L>, x: Timer<L>): Timer<L> {
    if e.id == x.id && e.interval.Some? then x.(due := e.due + e.interval.value, order := b.order) else x
  }

  lemma StandsStruck<L>(b: Book<L>, e: Timer<L>, x: Timer<L>)
    requires x in b.timers && (e.id == x.id ==> e.interval.Some?)
    ensures Next(b, e, x) in Struck(b, e).timers
  {
    match e.interval
    case Some(i) => IntoRearm(b.timers, e.id, e.due + i, b.order, x);
    case None => OfDrop(b.timers, e.id, x);
  }

  lemma OnceStruck<L>(b: Book<L>, e: Timer<L>)
    requires e in b.timers && e.interval.None? && e.id < b.issued
    ensures Gone(Struck(b, e), e.id)
  {
    forall x | x in Live(Struck(b, e).timers) ensures x.id != e.id {
      OfLive(Struck(b, e).timers, x);
      OfDrop(b.timers, e.id, x);
    }
  }

  /** A timer that fires at the due times it was armed for and at no others: all of them up to `t`, or the first few. */
  ghost predicate KeepsTime<L>(firings: seq<Firing<L>>, x: Timer<L>, t: int)
    requires x.interval.Some? ==> x.interval.value >= 1
  {
    && Dues(firings, x.id) <= Expected(x.due, x.interval, t)
    && (LeftAlone(firings, x.id) ==> Dues(firings, x.id) == Expected(x.due, x.interval, t))
  }

  /** Another timer's firing in front, which lets this one be. */
  lemma KeepsTimeBehind<L>(f: Firing<L>, rest: seq<Firing<L>>, x: Timer<L>, t: int)
    requires (x.interval.Some? ==> x.interval.value >= 1) && f.id != x.id && KeepsTime(rest, x, t)
    ensures KeepsTime([f] + rest, x, t)
  {
    assert ([f] + rest)[1..] == rest;
    assert forall g <- rest :: g in [f] + rest;
  }

  /** A repeat's own firing in front of the rest of its grid. */
  lemma KeepsTimeOnwards<L>(f: Firing<L>, rest: seq<Firing<L>>, x: Timer<L>, t: int, order: int)
    requires x.interval.Some? && x.interval.value >= 1 && f.id == x.id && f.due == x.due <= t
    requires KeepsTime(rest, x.(due := x.due + x.interval.value, order := order), t)
    ensures KeepsTime([f] + rest, x, t)
  {
    assert ([f] + rest)[1..] == rest;
    assert forall g <- rest :: g in [f] + rest;
  }

  /** A last firing, or none, and silence from there on: because it was cancelled, or because once was all. */
  lemma KeepsTimeToTheEnd<L>(f: Firing<L>, rest: seq<Firing<L>>, x: Timer<L>, t: int)
    requires (x.interval.Some? ==> x.interval.value >= 1) && Dues(rest, x.id) == []
    requires f.id == x.id ==> f.due == x.due <= t
    requires Cancels(f.ops, f.issued, x.id) || (f.id == x.id && x.interval.None?)
    ensures KeepsTime([f] + rest, x, t)
  {
    assert ([f] + rest)[1..] == rest;
    assert f in [f] + rest;
  }

  /** Every live timer of every sane state keeps time, through every advance that ends. */
  lemma {:induction false} FiresOnItsGrid<S, L>(react: Callbacks<S, L>, w: World<S, L>, t: int, fuel: nat, x: Timer<L>)
    requires Sane(w.book) && x in w.book.timers && !x.cancelled && AdvanceTo(react, w, t, fuel).Some?
    ensures x.interval.Some? ==> x.interval.value >= 1
    ensures KeepsTime(AdvanceTo(react, w, t, fuel).value.firings, x, t)
    decreases fuel, 1
  {
    assert Fits(w.book, x);
    OfLive(w.book.timers, x);
    NoneDue(w.book.timers, t);
    if Earliest(w.book.timers, t).None? {
    } else {
      var e := Earliest(w.book.timers, t).value;
      EarliestIsMember(w.book.timers, t);
      SaneFired(react, w, t);
      if e.id == x.id {
        SameTimer(w.book.timers, e, x);
      }
      FiresThenOnItsGrid(react, w, t, fuel, x, e);
    }
  }

  lemma FiresThenOnItsGrid<S, L>(react: Callbacks<S, L>, w: World<S, L>, t: int, fuel: nat, x: Timer<L>, e: Timer<L>)
    requires Sane(w.book) && x in w.book.timers && Fits(w.book, x) && !x.cancelled && fuel > 0
    requires e in w.book.timers && e.due <= t && (e.id == x.id ==> e == x) && Sane(Fired(react, w, e).book)
    requires AdvanceTo(react, Fired(react, w, e), t, fuel - 1).Some?
    ensures KeepsTime([Record(react, w, e)] + AdvanceTo(react, Fired(react, w, e), t, fuel - 1).value.firings, x, t)
    decreases fuel, 0
  {
    var f, rest := Record(react, w, e), AdvanceTo(react, Fired(react, w, e), t, fuel - 1).value.firings;
    if (e.id == x.id && e.interval.None?) || Cancels(f.ops, f.issued, x.id) {
      SilentFromHere(react, w, t, fuel, x, e);
      KeepsTimeToTheEnd(f, rest, x, t);
    } else {
      StillThere(react, w, x, e);
      FiresOnItsGrid(react, Fired(react, w, e), t, fuel - 1, Next(w.book, e, x));
      if e.id == x.id {
        KeepsTimeOnwards(f, rest, x, t, w.book.order);
      } else {
        KeepsTimeBehind(f, rest, x, t);
      }
    }
  }

  lemma SilentFromHere<S, L>(react: Callbacks<S, L>, w: World<S, L>, t: int, fuel: nat, x: Timer<L>, e: Timer<L>)
    requires x in w.book.timers && Fits(w.book, x) && fuel > 0 && (e.id == x.id ==> e == x)
    requires AdvanceTo(react, Fired(react, w, e), t, fuel - 1).Some?
    requires (e.id == x.id && e.interval.None?) || Cancels(Said(react, w, e).ops, w.book.issued, x.id)
    ensures Dues(AdvanceTo(react, Fired(react, w, e), t, fuel - 1).value.firings, x.id) == []
  {
    if e.id == x.id && e.interval.None? {
      OnceStruck(w.book, e);
    }
    GoneFromHere(react, w, e, t, fuel - 1, x.id);
  }

  lemma StillThere<S, L>(react: Callbacks<S, L>, w: World<S, L>, x: Timer<L>, e: Timer<L>)
    requires x in w.book.timers && Fits(w.book, x) && (e.id == x.id ==> e.interval.Some?)
    requires !Cancels(Said(react, w, e).ops, w.book.issued, x.id)
    ensures Next(w.book, e, x) in Fired(react, w, e).book.timers
  {
    StandsStruck(w.book, e, x);
    StaysDoAll(Struck(w.book, e), Said(react, w, e).ops, Next(w.book, e, x));
  }

  // ---- Coming to an end

  /** How many callbacks the live timers owe by `t`. */
  ghost function Owed<L>(timers: seq<Timer<L>>, t: int): nat
    requires forall x <- timers :: x.interval.Some? ==> x.interval.value >= 1
  {
    if timers == [] then 0
    else
      (if timers[0].cancelled then 0 else |Expected(timers[0].due, timers[0].interval, t)|) + Owed(timers[1..], t)
  }

  ghost predicate OnlyCancels<L>(ops: seq<Op<L>>) {
    forall op <- ops :: op.Cancel?
  }

  /** Callbacks that arm nothing. */
  ghost predicate Quiet<S(!new), L(!new)>(react: Callbacks<S, L>) {
    forall env, name, view :: OnlyCancels(react(env, name, view).ops)
  }

  ghost predicate Repeating<L>(timers: seq<Timer<L>>) {
    forall x <- timers :: x.interval.Some? ==> x.interval.value >= 1
  }

  lemma {:induction false} OwedCancel<L>(timers: seq<Timer<L>>, id: nat, t: int)
    requires Repeating(timers)
    ensures Repeating(CancelIn(timers, id)) && Owed(CancelIn(timers, id), t) <= Owed(timers, t)
  {
    if timers == [] {
    } else {
      OwedCancel(timers[1..], id, t);
    }
  }

  lemma {:induction false} OwedDoAll<L>(b: Book<L>, ops: seq<Op<L>>, t: int)
    requires Repeating(b.timers) && OnlyCancels(ops)
    ensures Repeating(DoAll(b, ops).timers) && Owed(DoAll(b, ops).timers, t) <= Owed(b.timers, t)
    decreases |ops|
  {
    if ops == [] {
    } else {
      OwedCancel(b.timers, ops[0].id, t);
      OwedDoAll(Do(b, ops[0]), ops[1..], t);
    }
  }

  lemma {:induction false} OwedDrop<L>(timers: seq<Timer<L>>, e: Timer<L>, t: int)
    requires Repeating(timers) && Distinct(timers) && e in timers && IsDue(e, t) && e.interval.None?
    ensures Repeating(Drop(timers, e.id)) && Owed(Drop(timers, e.id), t) == Owed(timers, t) - 1
  {
    if e == timers[0] {
      NotThere(timers[1..], e.id, 0, 0);
    } else {
      OwedDrop(timers[1..], e, t);
    }
  }

  lemma {:induction false} OwedRearm<L>(timers: seq<Timer<L>>, e: Timer<L>, order: int, t: int)
    requires Repeating(timers) && Distinct(timers) && e in timers && IsDue(e, t) && e.interval.Some?
    ensures var rearmed := Rearm(timers, e.id, e.due + e.interval.value, order);
      Repeating(rearmed) && Owed(rearmed, t) == Owed(timers, t) - 1
  {
    if e == timers[0] {
      NotThere(timers[1..], e.id, e.due + e.interval.value, order);
    } else {
      OwedRearm(timers[1..], e, order, t);
    }
  }

  lemma {:induction false} NotThere<L>(timers: seq<Timer<L>>, id: nat, due: int, order: int)
    requires forall x <- timers :: x.id != id
    ensures Drop(timers, id) == timers && Rearm(timers, id, due, order) == timers
  {
    if timers == [] {
    } else {
      NotThere(timers[1..], id, due, order);
    }
  }

  /** With callbacks that arm nothing, an advance ends after the callbacks that were owed, at the latest. */
  lemma {:induction false} QuietEnds<S(!new), L(!new)>(react: Callbacks<S, L>, w: World<S, L>, t: int, fuel: nat)
    requires Sane(w.book) && Repeating(w.book.timers) && Quiet(react) && Owed(w.book.timers, t) <= fuel
    ensures AdvanceTo(react, w, t, fuel).Some?
    ensures |AdvanceTo(react, w, t, fuel).value.firings| <= Owed(w.book.timers, t)
    decreases fuel
  {
    if Earliest(w.book.timers, t).None? {
    } else {
      var e := Earliest(w.book.timers, t).value;
      EarliestIsMember(w.book.timers, t);
      SaneFired(react, w, t);
      if e.interval.Some? {
        OwedRearm(w.book.timers, e, w.book.order, t);
      } else {
        OwedDrop(w.book.timers, e, t);
      }
      OwedDoAll(Struck(w.book, e), Said(react, w, e).ops, t);
      QuietEnds(react, Fired(react, w, e), t, fuel - 1);
    }
  }

  /** A callback that arms itself with no delay. */
  function Again(env: (), name: (), view: View): Turn<(), ()> { Turn(env, [After(0, name)]) }

  /** Why it takes quiet callbacks, or some other reason to end: one that arms itself at once is never done. */
  lemma {:induction false} AgainNeverEnds(w: World<(), ()>, t: int, fuel: nat)
    requires w.book.now <= t && Earliest(w.book.timers, t).Some?
    ensures AdvanceTo(Again, w, t, fuel) == None
    decreases fuel
  {
    var e := Earliest(w.book.timers, t).value;
    EarliestIsMember(w.book.timers, t);
    var b := Struck(w.book, e);
    var x := Timer(b.issued, b.now, b.order, None, e.name, false);
    var ops := Said(Again, w, e).ops;
    assert ops[0] == After(0, e.name) && ops[1..] == [];
    assert Fired(Again, w, e).book == DoAll(Do(b, ops[0]), ops[1..]);
    assert x in Fired(Again, w, e).book.timers;
    OfLive(Fired(Again, w, e).book.timers, x);
    NoneDue(Fired(Again, w, e).book.timers, t);
    if fuel == 0 {
    } else {
      AgainNeverEnds(Fired(Again, w, e), t, fuel - 1);
    }
  }
}
