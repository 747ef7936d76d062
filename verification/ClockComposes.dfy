/** Advancing in two steps is advancing in one, whatever the callbacks arm and cancel. */
module ClockComposes {
  import opened Numbers
  import opened Wrappers
  import opened Clock
  import opened Lists

  // ---- Cancelled timers still on the book change nothing

  /** The same book but for cancelled timers nobody has cleared away, and but for the time. */
  ghost predicate SameTimers<L>(a: Book<L>, b: Book<L>) {
    Live(a.timers) == Live(b.timers) && a.order == b.order && a.issued == b.issued
  }

  lemma {:induction false} LiveOfLive<L>(timers: seq<Timer<L>>)
    ensures Live(Live(timers)) == Live(timers)
  {
    if timers == [] {
    } else {
      LiveOfLive(timers[1..]);
    }
  }

  lemma {:induction false} EarliestIsLive<L>(timers: seq<Timer<L>>, t: int)
    ensures Earliest(Live(timers), t) == Earliest(timers, t)
  {
    if timers == [] {
    } else {
      EarliestIsLive(timers[1..], t);
    }
  }

  lemma {:induction false} LiveRearm<L>(timers: seq<Timer<L>>, id: nat, due: int, order: int)
    ensures Live(Rearm(timers, id, due, order)) == Rearm(Live(timers), id, due, order)
  {
    if timers == [] {
    } else {
      LiveRearm(timers[1..], id, due, order);
    }
  }

  lemma {:induction false} LiveDrop<L>(timers: seq<Timer<L>>, id: nat)
    ensures Live(Drop(timers, id)) == Drop(Live(timers), id)
  {
    if timers == [] {
    } else {
      LiveDrop(timers[1..], id);
    }
  }

  lemma {:induction false} LiveCancel<L>(timers: seq<Timer<L>>, id: nat)
    ensures Live(CancelIn(timers, id)) == Live(CancelIn(Live(timers), id)) == Drop(Live(timers), id)
  {
    if timers == [] {
    } else {
      LiveCancel(timers[1..], id);
    }
  }

  lemma {:induction false} LiveArmed<L>(timers: seq<Timer<L>>, x: Timer<L>)
    ensures Live(timers + [x]) == Live(timers) + Live([x])
  {
    if timers == [] {
      assert timers + [x] == [x];
    } else {
      LiveArmed(timers[1..], x);
      assert (timers + [x])[1..] == timers[1..] + [x];
    }
  }

  lemma SameDo<L>(a: Book<L>, b: Book<L>, op: Op<L>)
    requires SameTimers(a, b) && a.now == b.now
    ensures SameTimers(Do(a, op), Do(b, op)) && Do(a, op).now == Do(b, op).now
  {
    match op
    case Cancel(id) =>
      LiveCancel(a.timers, id);
      LiveCancel(b.timers, id);
    case After(delay, name) =>
      var x := Timer(a.issued, a.now + Max(delay, 0), a.order, None, name, false);
      LiveArmed(a.timers, x);
      LiveArmed(b.timers, x);
    case Every(period, name) =>
      var x := Timer(a.issued, a.now + Max(period, 1), a.order, Some(Max(period, 1)), name, false);
      LiveArmed(a.timers, x);
      LiveArmed(b.timers, x);
  }

  lemma {:induction false} SameDoAll<L>(a: Book<L>, b: Book<L>, ops: seq<Op<L>>)
    requires SameTimers(a, b) && a.now == b.now
    ensures SameTimers(DoAll(a, ops), DoAll(b, ops)) && DoAll(a, ops).now == DoAll(b, ops).now
    decreases |ops|
  {
    if ops == [] {
    } else {
      SameDo(a, b, ops[0]);
      SameDoAll(Do(a, ops[0]), Do(b, ops[0]), ops[1..]);
    }
  }

  lemma SameStruck<L>(a: Book<L>, b: Book<L>, e: Timer<L>)
    requires SameTimers(a, b)
    ensures SameTimers(Struck(a, e), Struck(b, e))
  {
    match e.interval
    case Some(i) =>
      LiveRearm(a.timers, e.id, e.due + i, a.order);
      LiveRearm(b.timers, e.id, e.due + i, a.order);
    case None =>
      LiveDrop(a.timers, e.id);
      LiveDrop(b.timers, e.id);
  }

  lemma SameFired<S, L>(react: Callbacks<S, L>, a: World<S, L>, b: World<S, L>, e: Timer<L>)
    requires SameTimers(a.book, b.book) && a.env == b.env && Max(a.book.now, e.due) == Max(b.book.now, e.due)
    ensures Record(react, a, e) == Record(react, b, e)
    ensures SameTimers(Fired(react, a, e).book, Fired(react, b, e).book)
    ensures Fired(react, a, e).book.now == Fired(react, b, e).book.now
    ensures Fired(react, a, e).env == Fired(react, b, e).env
  {
    SameStruck(a.book, b.book, e);
    SameDoAll(Struck(a.book, e), Struck(b.book, e), Said(react, a, e).ops);
  }

  // ---- Which times the clock may show without a callback noticing

  /** What is due by `t` comes no earlier than both clocks show, and neither shows more than `t`. */
  ghost predicate Unseen<L>(a: Book<L>, b: Book<L>, t: int) {
    || a.now == b.now
    || (a.now <= t && b.now <= t && forall x <- Live(a.timers) :: x.due >= a.now && x.due >= b.now)
  }

  lemma {:induction false} EarliestIsMember<L>(timers: seq<Timer<L>>, t: int)
    requires Earliest(timers, t).Some?
    ensures Earliest(timers, t).value in timers && IsDue(Earliest(timers, t).value, t)
    ensures Earliest(timers, t).value in Live(timers)
  {
    if Earliest(timers[1..], t).None? {
    } else {
      EarliestIsMember(timers[1..], t);
    }
  }

  lemma {:induction false} SameRun<S, L>(react: Callbacks<S, L>, a: World<S, L>, b: World<S, L>, t: int, fuel: nat)
    requires SameTimers(a.book, b.book) && a.env == b.env && Unseen(a.book, b.book, t)
    ensures AdvanceTo(react, a, t, fuel) == AdvanceTo(react, b, t, fuel)
    decreases fuel
  {
    EarliestIsLive(a.book.timers, t);
    EarliestIsLive(b.book.timers, t);
    var pick := Earliest(a.book.timers, t);
    if pick.None? || fuel == 0 {
    } else {
      EarliestIsMember(a.book.timers, t);
      SameFired(react, a, b, pick.value);
      SameRun(react, Fired(react, a, pick.value), Fired(react, b, pick.value), t, fuel - 1);
    }
  }

  // ---- The law

  lemma {:induction false} NoneDue<L>(timers: seq<Timer<L>>, t: int)
    ensures Earliest(timers, t).None? <==> forall x <- Live(timers) :: x.due > t
  {
    if timers == [] {
    } else {
      NoneDue(timers[1..], t);
    }
  }

  lemma {:induction false} EarliestOfMore<L>(timers: seq<Timer<L>>, a: int, b: int)
    requires a <= b && Earliest(timers, a).Some?
    ensures Earliest(timers, b) == Earliest(timers, a)
  {
    if timers == [] {
    } else {
      EarliestOfHead(timers, a, b);
      if Earliest(timers[1..], a).Some? {
        EarliestOfMore(timers[1..], a, b);
        EarliestIsMember(timers[1..], a);
      }
    }
  }

  lemma EarliestOfHead<L>(timers: seq<Timer<L>>, a: int, b: int)
    requires timers != [] && a <= b
    ensures Earliest(timers[1..], b).Some? ==> Earliest(timers[1..], a).Some? || Earliest(timers[1..], b).value.due > a
  {
    if Earliest(timers[1..], b).Some? && Earliest(timers[1..], a).None? {
      EarliestIsMember(timers[1..], b);
      NoneDue(timers[1..], a);
    }
  }

  /** What two advances leave behind, the first to `a` and the second on to `b`; None when either does not end. */
  function InTwo<S, L>(react: Callbacks<S, L>, w: World<S, L>, a: int, b: int, fuelA: nat, fuelB: nat)
    : Option<Run<S, L>>
  {
    match AdvanceTo(react, w, a, fuelA)
    case None => None
    case Some(first) =>
      match AdvanceTo(react, first.end, b, fuelB)
      case None => None
      case Some(second) => Some(Run(second.end, first.firings + second.firings))
  }

  /** Two advances that end fire what one advance fires, and leave exactly what it leaves. */
  lemma {:induction false} TwoAreOne<S, L>(react: Callbacks<S, L>, w: World<S, L>, a: int, b: int, fuelA: nat,
                                           fuelB: nat)
    requires a <= b
    requires InTwo(react, w, a, b, fuelA, fuelB).Some?
    ensures AdvanceTo(react, w, b, fuelA + fuelB) == InTwo(react, w, a, b, fuelA, fuelB)
    decreases fuelA
  {
    var pick := Earliest(w.book.timers, a);
    if pick.None? {
      Rests(react, w, a, b, fuelB);
      MoreFuel(react, w, b, fuelB, fuelA + fuelB);
      var second := AdvanceTo(react, World(Settled(w.book, a), w.env), b, fuelB);
      assert [] + second.value.firings == second.value.firings;
    } else {
      var e := pick.value;
      EarliestOfMore(w.book.timers, a, b);
      TwoAreOne(react, Fired(react, w, e), a, b, fuelA - 1, fuelB);
      var first := AdvanceTo(react, Fired(react, w, e), a, fuelA - 1).value;
      var second := AdvanceTo(react, first.end, b, fuelB).value;
      Regroup([Record(react, w, e)], first.firings, second.firings);
    }
  }

  /** Standing still at `a` first is not noticed. */
  lemma Rests<S, L>(react: Callbacks<S, L>, w: World<S, L>, a: int, b: int, fuel: nat)
    requires a <= b && Earliest(w.book.timers, a).None?
    ensures AdvanceTo(react, World(Settled(w.book, a), w.env), b, fuel) == AdvanceTo(react, w, b, fuel)
  {
    var rested := World(Settled(w.book, a), w.env);
    LiveOfLive(w.book.timers);
    NoneDue(w.book.timers, a);
    SameRun(react, rested, w, b, fuel);
  }

  lemma {:induction false} MoreFuel<S, L>(react: Callbacks<S, L>, w: World<S, L>, t: int, fuel: nat, more: nat)
    requires fuel <= more && AdvanceTo(react, w, t, fuel).Some?
    ensures AdvanceTo(react, w, t, more) == AdvanceTo(react, w, t, fuel)
    decreases fuel
  {
    var pick := Earliest(w.book.timers, t);
    if pick.None? {
    } else {
      MoreFuel(react, Fired(react, w, pick.value), t, fuel - 1, more - 1);
    }
  }

  /** An advance that ends can be cut in two anywhere: both halves end. */
  lemma {:induction false} OneIsTwo<S, L>(react: Callbacks<S, L>, w: World<S, L>, a: int, b: int, fuel: nat)
    requires a <= b && AdvanceTo(react, w, b, fuel).Some?
    ensures InTwo(react, w, a, b, fuel, fuel) == AdvanceTo(react, w, b, fuel)
    decreases fuel
  {
    var pick := Earliest(w.book.timers, a);
    if pick.None? {
      Rests(react, w, a, b, fuel);
      var run := AdvanceTo(react, w, b, fuel).value;
      assert [] + run.firings == run.firings;
    } else {
      var e := pick.value;
      EarliestOfMore(w.book.timers, a, b);
      OneIsTwo(react, Fired(react, w, e), a, b, fuel - 1);
      var first := AdvanceTo(react, Fired(react, w, e), a, fuel - 1).value;
      var second := AdvanceTo(react, first.end, b, fuel - 1).value;
      MoreFuel(react, first.end, b, fuel - 1, fuel);
      Regroup([Record(react, w, e)], first.firings, second.firings);
    }
  }
}
