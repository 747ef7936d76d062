/** What holds of the clock in every state it can reach, and of everything it fires. */
module ClockSafety {
  import opened Numbers
  import opened Wrappers
  import opened Clock
  import opened ClockComposes

  // ---- What every book keeps

  ghost predicate Fits<L>(b: Book<L>, x: Timer<L>) {
    && x.id < b.issued && x.order < b.order
    && (x.interval.Some? ==> x.interval.value >= 1)
    && (x.cancelled || x.due >= b.now)
  }

  ghost predicate Distinct<L>(timers: seq<Timer<L>>) {
    timers != [] ==>
      && (forall x <- timers[1..] :: x.id != timers[0].id && x.order != timers[0].order)
      && Distinct(timers[1..])
  }

  /** Handles and order numbers are used once, and no live timer is due before now. */
  ghost predicate Sane<L>(b: Book<L>) {
    (forall x <- b.timers :: Fits(b, x)) && Distinct(b.timers)
  }

  // ---- Where a timer of the changed book comes from

  lemma {:induction false} OfDrop<L>(timers: seq<Timer<L>>, id: nat, x: Timer<L>)
    ensures x in Drop(timers, id) <==> x in timers && x.id != id
  {
    if timers == [] {
    } else {
      OfDrop(timers[1..], id, x);
    }
  }

  lemma {:induction false} OfLive<L>(timers: seq<Timer<L>>, x: Timer<L>)
    ensures x in Live(timers) <==> x in timers && !x.cancelled
  {
    if timers == [] {
    } else {
      OfLive(timers[1..], x);
    }
  }

  lemma {:induction false} OfRearm<L>(timers: seq<Timer<L>>, id: nat, due: int, order: int, x: Timer<L>)
    returns (y: Timer<L>)
    requires x in Rearm(timers, id, due, order)
    ensures y in timers && x == if y.id == id then y.(due := due, order := order) else y
  {
    y := timers[0];
    var head := if y.id == id then y.(due := due, order := order) else y;
    if x == head {
    } else {
      y := OfRearm(timers[1..], id, due, order, x);
    }
  }

  lemma {:induction false} IntoRearm<L>(timers: seq<Timer<L>>, id: nat, due: int, order: int, y: Timer<L>)
    requires y in timers
    ensures (if y.id == id then y.(due := due, order := order) else y) in Rearm(timers, id, due, order)
  {
    if y == timers[0] {
    } else {
      IntoRearm(timers[1..], id, due, order, y);
    }
  }

  lemma {:induction false} OfCancel<L>(timers: seq<Timer<L>>, id: nat, x: Timer<L>) returns (y: Timer<L>)
    requires x in CancelIn(timers, id)
    ensures y in timers && x == if y.id == id then y.(cancelled := true) else y
  {
    y := timers[0];
    var head := if y.id == id then y.(cancelled := true) else y;
    if x == head {
    } else {
      y := OfCancel(timers[1..], id, x);
    }
  }

  lemma {:induction false} IntoCancel<L>(timers: seq<Timer<L>>, id: nat, y: Timer<L>)
    requires y in timers && y.id != id
    ensures y in CancelIn(timers, id)
  {
    if y == timers[0] {
    } else {
      IntoCancel(timers[1..], id, y);
    }
  }

  lemma {:induction false} SameTimer<L>(timers: seq<Timer<L>>, x: Timer<L>, y: Timer<L>)
    requires Distinct(timers) && x in timers && y in timers && x.id == y.id
    ensures x == y
  {
    if x == timers[0] || y == timers[0] {
    } else {
      SameTimer(timers[1..], x, y);
    }
  }

  // ---- Distinct stays distinct

  lemma {:induction false} DistinctDrop<L>(timers: seq<Timer<L>>, id: nat)
    requires Distinct(timers)
    ensures Distinct(Drop(timers, id))
  {
    if timers == [] {
    } else {
      DistinctDrop(timers[1..], id);
      forall x | x in Drop(timers[1..], id) ensures x in timers[1..] {
        OfDrop(timers[1..], id, x);
      }
    }
  }

  lemma {:induction false} DistinctLive<L>(timers: seq<Timer<L>>)
    requires Distinct(timers)
    ensures Distinct(Live(timers))
  {
    if timers == [] {
    } else {
      DistinctLive(timers[1..]);
      forall x | x in Live(timers[1..]) ensures x in timers[1..] {
        OfLive(timers[1..], x);
      }
    }
  }

  lemma {:induction false} DistinctCancel<L>(timers: seq<Timer<L>>, id: nat)
    requires Distinct(timers)
    ensures Distinct(CancelIn(timers, id))
  {
    if timers == [] {
    } else {
      DistinctCancel(timers[1..], id);
      forall x | x in CancelIn(timers[1..], id) ensures x.id != timers[0].id && x.order != timers[0].order {
        var y := OfCancel(timers[1..], id, x);
      }
    }
  }

  lemma {:induction false} DistinctRearm<L>(timers: seq<Timer<L>>, id: nat, due: int, order: int)
    requires Distinct(timers) && forall x <- timers :: x.order < order
    ensures Distinct(Rearm(timers, id, due, order))
  {
    if timers == [] {
    } else {
      DistinctRearm(timers[1..], id, due, order);
      var head := Rearm(timers, id, due, order)[0];
      forall x | x in Rearm(timers[1..], id, due, order) ensures x.id != head.id && x.order != head.order {
        var y := OfRearm(timers[1..], id, due, order, x);
        assert y in timers;
      }
    }
  }

  lemma {:induction false} DistinctArmed<L>(timers: seq<Timer<L>>, x: Timer<L>)
    requires Distinct(timers) && forall y <- timers :: y.id < x.id && y.order < x.order
    ensures Distinct(timers + [x])
  {
    if timers == [] {
    } else {
      DistinctArmed(timers[1..], x);
      assert (timers + [x])[1..] == timers[1..] + [x];
    }
  }

  // ---- Every step keeps the book sane

  lemma SaneArmed<L>(b: Book<L>, delay: int, interval: Option<int>, name: L)
    requires Sane(b) && delay >= 0 && (interval.Some? ==> interval.value >= 1)
    ensures Sane(Armed(b, delay, interval, name))
  {
    DistinctArmed(b.timers, Timer(b.issued, b.now + delay, b.order, interval, name, false));
  }

  lemma SaneDo<L>(b: Book<L>, op: Op<L>)
    requires Sane(b)
    ensures Sane(Do(b, op)) && Do(b, op).now == b.now && Do(b, op).order >= b.order && Do(b, op).issued >= b.issued
  {
    match op
    case After(delay, name) => SaneArmed(b, Max(delay, 0), None, name);
    case Every(period, name) => SaneArmed(b, Max(period, 1), Some(Max(period, 1)), name);
    case Cancel(id) =>
      DistinctCancel(b.timers, id);
      forall x | x in CancelIn(b.timers, id) ensures Fits(Do(b, op), x) {
        var y := OfCancel(b.timers, id, x);
      }
  }

  lemma {:induction false} SaneDoAll<L>(b: Book<L>, ops: seq<Op<L>>)
    requires Sane(b)
    ensures Sane(DoAll(b, ops))
    ensures DoAll(b, ops).now == b.now && DoAll(b, ops).order >= b.order && DoAll(b, ops).issued >= b.issued
    decreases |ops|
  {
    if ops == [] {
    } else {
      SaneDo(b, ops[0]);
      SaneDoAll(Do(b, ops[0]), ops[1..]);
    }
  }

  lemma {:induction false} EarliestIsFirst<L>(timers: seq<Timer<L>>, t: int, x: Timer<L>)
    requires Earliest(timers, t).Some? && x in timers && !x.cancelled
    ensures !Before(x, Earliest(timers, t).value)
  {
    EarliestIsMember(timers, t);
    if x == timers[0] {
      if Earliest(timers[1..], t).Some? {
        EarliestIsMember(timers[1..], t);
      }
    } else if IsDue(x, t) {
      NoneDue(timers[1..], t);
      OfLive(timers[1..], x);
      EarliestIsFirst(timers[1..], t, x);
    }
  }

  lemma SaneStruck<L>(b: Book<L>, t: int)
    requires Sane(b) && Earliest(b.timers, t).Some?
    ensures Sane(Struck(b, Earliest(b.timers, t).value))
  {
    EarliestIsMember(b.timers, t);
    var e := Earliest(b.timers, t).value;
    assert Fits(b, e);
    match e.interval
    case Some(i) =>
      DistinctRearm(b.timers, e.id, e.due + i, b.order);
      forall x | x in Rearm(b.timers, e.id, e.due + i, b.order) ensures Fits(Struck(b, e), x) {
        var y := OfRearm(b.timers, e.id, e.due + i, b.order, x);
        RestFits(b, t, y);
        if y.id == e.id {
          SameTimer(b.timers, y, e);
        }
      }
    case None =>
      DistinctDrop(b.timers, e.id);
      forall x | x in Drop(b.timers, e.id) ensures Fits(Struck(b, e), x) {
        OfDrop(b.timers, e.id, x);
        RestFits(b, t, x);
      }
  }

  lemma RestFits<L>(b: Book<L>, t: int, y: Timer<L>)
    requires Sane(b) && Earliest(b.timers, t).Some? && y in b.timers
    ensures Fits(b.(now := Earliest(b.timers, t).value.due), y)
    ensures b.now <= Earliest(b.timers, t).value.due
  {
    EarliestIsMember(b.timers, t);
    if !y.cancelled {
      EarliestIsFirst(b.timers, t, y);
    }
  }

  /** Picking the earliest timer moves the clock to its due time, never back; what the callback asks does not. */
  lemma SaneFired<S, L>(react: Callbacks<S, L>, w: World<S, L>, t: int)
    requires Sane(w.book) && Earliest(w.book.timers, t).Some?
    ensures var e := Earliest(w.book.timers, t).value;
      && Sane(Fired(react, w, e).book)
      && w.book.now <= e.due == Fired(react, w, e).book.now <= t
  {
    var e := Earliest(w.book.timers, t).value;
    EarliestIsMember(w.book.timers, t);
    RestFits(w.book, t, e);
    SaneStruck(w.book, t);
    SaneDoAll(Struck(w.book, e), Said(react, w, e).ops);
  }

  // ---- In what order things fire

  predicate Follows(due: int, order: int, thenDue: int, thenOrder: int) {
    due < thenDue || (due == thenDue && order < thenOrder)
  }

  ghost predicate Beyond<L>(b: Book<L>, due: int, order: int) {
    b.now >= due && b.order > order && forall x <- Live(b.timers) :: Follows(due, order, x.due, x.order)
  }

  lemma BeyondDo<L>(b: Book<L>, op: Op<L>, due: int, order: int)
    requires Beyond(b, due, order)
    ensures Beyond(Do(b, op), due, order)
  {
    match op
    case Cancel(id) =>
      LiveCancel(b.timers, id);
      forall x | x in Drop(Live(b.timers), id) ensures x in Live(b.timers) {
        OfDrop(Live(b.timers), id, x);
      }
    case After(delay, name) =>
      LiveArmed(b.timers, Timer(b.issued, b.now + Max(delay, 0), b.order, None, name, false));
    case Every(period, name) =>
      LiveArmed(b.timers, Timer(b.issued, b.now + Max(period, 1), b.order, Some(Max(period, 1)), name, false));
  }

  lemma {:induction false} BeyondDoAll<L>(b: Book<L>, ops: seq<Op<L>>, due: int, order: int)
    requires Beyond(b, due, order)
    ensures Beyond(DoAll(b, ops), due, order)
    decreases |ops|
  {
    if ops == [] {
    } else {
      BeyondDo(b, ops[0], due, order);
      BeyondDoAll(Do(b, ops[0]), ops[1..], due, order);
    }
  }

  lemma {:induction false} OrdersDiffer<L>(timers: seq<Timer<L>>, x: Timer<L>, y: Timer<L>)
    requires Distinct(timers) && x in timers && y in timers && x.id != y.id
    ensures x.order != y.order
  {
    if x == timers[0] || y == timers[0] {
    } else {
      OrdersDiffer(timers[1..], x, y);
    }
  }

  lemma RestFollows<L>(b: Book<L>, t: int, y: Timer<L>)
    requires Sane(b) && Earliest(b.timers, t).Some? && y in b.timers && !y.cancelled
    requires y.id != Earliest(b.timers, t).value.id
    ensures Follows(Earliest(b.timers, t).value.due, Earliest(b.timers, t).value.order, y.due, y.order)
  {
    EarliestIsMember(b.timers, t);
    EarliestIsFirst(b.timers, t, y);
    OrdersDiffer(b.timers, y, Earliest(b.timers, t).value);
  }

  lemma BeyondStruck<L>(b: Book<L>, t: int)
    requires Sane(b) && Earliest(b.timers, t).Some?
    ensures var e := Earliest(b.timers, t).value; Beyond(Struck(b, e), e.due, e.order)
  {
    EarliestIsMember(b.timers, t);
    var e := Earliest(b.timers, t).value;
    assert Fits(b, e);
    forall x | x in Live(Struck(b, e).timers) ensures Follows(e.due, e.order, x.due, x.order) {
      OfLive(Struck(b, e).timers, x);
      match e.interval
      case Some(i) =>
        var y := OfRearm(b.timers, e.id, e.due + i, b.order, x);
        if y.id != e.id {
          RestFollows(b, t, y);
        }
      case None =>
        OfDrop(b.timers, e.id, x);
        RestFollows(b, t, x);
    }
  }

  ghost predicate InOrder<L>(firings: seq<Firing<L>>) {
    forall i, j :: 0 <= i < j < |firings| ==>
      Follows(firings[i].due, firings[i].order, firings[j].due, firings[j].order)
  }

  ghost predicate OnTime<L>(firings: seq<Firing<L>>, from: int, t: int) {
    forall f <- firings :: from <= f.due <= t && f.now == f.due
  }

  lemma {:induction false} AllBeyond<S, L>(react: Callbacks<S, L>, w: World<S, L>, t: int, fuel: nat, due: int,
                                           order: int)
    requires Sane(w.book) && Beyond(w.book, due, order) && AdvanceTo(react, w, t, fuel).Some?
    ensures forall f <- AdvanceTo(react, w, t, fuel).value.firings :: Follows(due, order, f.due, f.order)
    decreases fuel
  {
    if Earliest(w.book.timers, t).None? {
    } else {
      var e := Earliest(w.book.timers, t).value;
      EarliestIsMember(w.book.timers, t);
      assert Follows(due, order, e.due, e.order);
      SaneFired(react, w, t);
      BeyondFired(react, w, t, due, order);
      AllBeyond(react, Fired(react, w, e), t, fuel - 1, due, order);
    }
  }

  lemma BeyondFired<S, L>(react: Callbacks<S, L>, w: World<S, L>, t: int, due: int, order: int)
    requires Sane(w.book) && Earliest(w.book.timers, t).Some? && order < w.book.order
    requires var e := Earliest(w.book.timers, t).value;
      Follows(due, order, e.due, e.order) || (due == e.due && order == e.order)
    ensures Beyond(Fired(react, w, Earliest(w.book.timers, t).value).book, due, order)
  {
    var e := Earliest(w.book.timers, t).value;
    BeyondStruck(w.book, t);
    BeyondDoAll(Struck(w.book, e), Said(react, w, e).ops, e.due, e.order);
    SaneStruck(w.book, t);
    SaneDoAll(Struck(w.book, e), Said(react, w, e).ops);
  }

  /**
   * Every advance that ends, from every sane state: each callback runs when it is due and sees the clock say so,
   * earlier due times go first, equal ones in the order they were armed, and afterwards nothing live is due.
   */
  lemma {:induction false} AdvanceIsSafe<S, L>(react: Callbacks<S, L>, w: World<S, L>, t: int, fuel: nat)
    requires Sane(w.book) && AdvanceTo(react, w, t, fuel).Some?
    ensures var run := AdvanceTo(react, w, t, fuel).value;
      && OnTime(run.firings, w.book.now, t) && InOrder(run.firings)
      && Sane(run.end.book) && run.end.book.now == Max(w.book.now, t)
      && forall x <- run.end.book.timers :: !x.cancelled && x.due > t
    decreases fuel
  {
    if Earliest(w.book.timers, t).None? {
      SettledIsSane(w.book, t);
    } else {
      var e := Earliest(w.book.timers, t).value;
      EarliestIsMember(w.book.timers, t);
      SaneFired(react, w, t);
      AdvanceIsSafe(react, Fired(react, w, e), t, fuel - 1);
      BeyondFired(react, w, t, e.due, e.order);
      AllBeyond(react, Fired(react, w, e), t, fuel - 1, e.due, e.order);
      var rest := AdvanceTo(react, Fired(react, w, e), t, fuel - 1).value;
      FirstThenRest(Record(react, w, e), rest.firings, w.book.now, t);
    }
  }

  lemma FirstThenRest<L>(f: Firing<L>, rest: seq<Firing<L>>, from: int, t: int)
    requires from <= f.due <= t && f.now == f.due && OnTime(rest, f.due, t) && InOrder(rest)
    requires forall g <- rest :: Follows(f.due, f.order, g.due, g.order)
    ensures OnTime([f] + rest, from, t) && InOrder([f] + rest)
  {
    var all := [f] + rest;
    assert forall i :: 1 <= i < |all| ==> all[i] == rest[i - 1];
  }

  lemma SettledIsSane<L>(b: Book<L>, t: int)
    requires Sane(b) && Earliest(b.timers, t).None?
    ensures Sane(Settled(b, t)) && forall x <- Settled(b, t).timers :: !x.cancelled && x.due > t
  {
    NoneDue(b.timers, t);
    DistinctLive(b.timers);
    forall x | x in Live(b.timers) ensures !x.cancelled && x in b.timers {
      OfLive(b.timers, x);
    }
  }

  // ---- Cancel means cancel

  /** The handle has been given out, and nothing on the book answers to it any more. */
  ghost predicate Gone<L>(b: Book<L>, id: nat) {
    id < b.issued && forall x <- Live(b.timers) :: x.id != id
  }

  /** Whether these requests, made when so many handles were out, cancel this one once it is out. */
  predicate Cancels<L>(ops: seq<Op<L>>, issued: nat, id: nat) {
    ops != [] &&
    match ops[0]
    case Cancel(i) => (i == id && id < issued) || Cancels(ops[1..], issued, id)
    case _ => Cancels(ops[1..], issued + 1, id)
  }

  lemma GoneDo<L>(b: Book<L>, op: Op<L>, id: nat)
    requires Gone(b, id) || (op == Cancel(id) && id < b.issued)
    ensures Gone(Do(b, op), id)
  {
    match op
    case Cancel(other) =>
      LiveCancel(b.timers, other);
      forall x | x in Drop(Live(b.timers), other) ensures x in Live(b.timers) && x.id != other {
        OfDrop(Live(b.timers), other, x);
      }
    case After(delay, name) =>
      LiveArmed(b.timers, Timer(b.issued, b.now + Max(delay, 0), b.order, None, name, false));
    case Every(period, name) =>
      LiveArmed(b.timers, Timer(b.issued, b.now + Max(period, 1), b.order, Some(Max(period, 1)), name, false));
  }

  lemma {:induction false} GoneDoAll<L>(b: Book<L>, ops: seq<Op<L>>, id: nat)
    requires Gone(b, id) || Cancels(ops, b.issued, id)
    ensures Gone(DoAll(b, ops), id)
    decreases |ops|
  {
    if ops == [] {
    } else {
      if Gone(b, id) || (ops[0] == Cancel(id) && id < b.issued) {
        GoneDo(b, ops[0], id);
      }
      GoneDoAll(Do(b, ops[0]), ops[1..], id);
    }
  }

  lemma GoneStruck<L>(b: Book<L>, e: Timer<L>, id: nat)
    requires Gone(b, id)
    ensures Gone(Struck(b, e), id)
  {
    match e.interval
    case Some(i) =>
      LiveRearm(b.timers, e.id, e.due + i, b.order);
      forall x | x in Rearm(Live(b.timers), e.id, e.due + i, b.order) ensures x.id != id {
        var y := OfRearm(Live(b.timers), e.id, e.due + i, b.order, x);
      }
    case None =>
      LiveDrop(b.timers, e.id);
      forall x | x in Drop(Live(b.timers), e.id) ensures x.id != id {
        OfDrop(Live(b.timers), e.id, x);
      }
  }

  lemma {:induction false} GoneStaysGone<S, L>(react: Callbacks<S, L>, w: World<S, L>, t: int, fuel: nat, id: nat)
    requires Gone(w.book, id) && AdvanceTo(react, w, t, fuel).Some?
    ensures var run := AdvanceTo(react, w, t, fuel).value;
      Gone(run.end.book, id) && forall f <- run.firings :: f.id != id
    decreases fuel
  {
    if Earliest(w.book.timers, t).None? {
      LiveOfLive(w.book.timers);
    } else {
      var e := Earliest(w.book.timers, t).value;
      EarliestIsMember(w.book.timers, t);
      GoneStruck(w.book, e, id);
      GoneDoAll(Struck(w.book, e), Said(react, w, e).ops, id);
      GoneStaysGone(react, Fired(react, w, e), t, fuel - 1, id);
    }
  }

  /** A timer one callback cancels is not fired by a later one, not even at the same instant. */
  lemma {:induction false} CancelMeansCancel<S, L>(react: Callbacks<S, L>, w: World<S, L>, t: int, fuel: nat, i: nat,
                                                   j: nat, id: nat)
    requires AdvanceTo(react, w, t, fuel).Some?
    requires var firings := AdvanceTo(react, w, t, fuel).value.firings;
      i < j < |firings| && Cancels(firings[i].ops, firings[i].issued, id)
    ensures AdvanceTo(react, w, t, fuel).value.firings[j].id != id
    decreases fuel
  {
    var e := Earliest(w.book.timers, t).value;
    var after := Fired(react, w, e);
    var rest := AdvanceTo(react, after, t, fuel - 1).value.firings;
    if i == 0 {
      GoneDoAll(Struck(w.book, e), Said(react, w, e).ops, id);
      GoneStaysGone(react, after, t, fuel - 1, id);
      assert rest[j - 1] in rest;
    } else {
      CancelMeansCancel(react, after, t, fuel - 1, i - 1, j - 1, id);
    }
  }

  // ---- Every state a clock can reach

  /** What its owner does to it from outside: ask something, or move it forward with so many callbacks to spare. */
  datatype Move<L> = Ask(op: Op<L>) | Go(t: int, fuel: nat)

  function Start<S, L>(now: int, env: S): World<S, L> { World(Book(now, [], 0, 0), env) }

  function Play<S, L>(react: Callbacks<S, L>, w: World<S, L>, moves: seq<Move<L>>): Option<World<S, L>>
    decreases |moves|
  {
    if moves == [] then Some(w)
    else
      match moves[0]
      case Ask(op) => Play(react, World(Do(w.book, op), w.env), moves[1..])
      case Go(t, fuel) =>
        match AdvanceTo(react, w, t, fuel)
        case None => None
        case Some(run) => Play(react, run.end, moves[1..])
  }

  lemma {:induction false} PlayIsSane<S, L>(react: Callbacks<S, L>, w: World<S, L>, moves: seq<Move<L>>)
    requires Sane(w.book) && Play(react, w, moves).Some?
    ensures Sane(Play(react, w, moves).value.book) && Play(react, w, moves).value.book.now >= w.book.now
    decreases |moves|
  {
    if moves == [] {
    } else {
      match moves[0]
      case Ask(op) =>
        SaneDo(w.book, op);
        PlayIsSane(react, World(Do(w.book, op), w.env), moves[1..]);
      case Go(t, fuel) =>
        AdvanceIsSafe(react, w, t, fuel);
        PlayIsSane(react, AdvanceTo(react, w, t, fuel).value.end, moves[1..]);
    }
  }

  /** Whatever is asked of a new clock and however far it goes, no live timer is ever due before now. */
  lemma EveryStateIsSane<S, L>(react: Callbacks<S, L>, now: int, env: S, moves: seq<Move<L>>, more: seq<Move<L>>)
    requires Play(react, Start(now, env), moves).Some?
    requires Play(react, Play(react, Start(now, env), moves).value, more).Some?
    ensures var soon := Play(react, Start(now, env), moves).value;
      && Sane(soon.book) && (forall x <- Live(soon.book.timers) :: x.due >= soon.book.now)
      && now <= soon.book.now <= Play(react, soon, more).value.book.now
  {
    PlayIsSane(react, Start(now, env), moves);
    var soon := Play(react, Start(now, env), moves).value;
    PlayIsSane(react, soon, more);
    forall x | x in Live(soon.book.timers) ensures x.due >= soon.book.now {
      OfLive(soon.book.timers, x);
    }
  }
}
