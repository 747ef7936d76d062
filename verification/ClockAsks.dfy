/** What is asked of the clock, and when it comes: the due times, the names and what a callback sees. */
module ClockAsks {
  import opened Numbers
  import Lists
  import opened Wrappers
  import opened Clock
  import opened ClockComposes
  import opened ClockSafety
  import opened ClockRepeats

  // ---- A timer just asked for

  lemma AskedIsThere<L>(b: Book<L>, op: Op<L>) returns (x: Timer<L>)
    requires !op.Cancel?
    ensures x in Do(b, op).timers && x.id == b.issued && x.name == op.name && !x.cancelled
    ensures op.After? ==> x.interval.None? && x.due == b.now + if op.delay > 0 then op.delay else 0
    ensures op.Every? ==>
      var i := if op.period > 1 then op.period else 1; x.interval == Some(i) && x.due == b.now + i
  {
    x := match op
      case After(delay, name) => Timer(b.issued, b.now + Max(delay, 0), b.order, None, name, false)
      case Every(period, name) =>
        Timer(b.issued, b.now + Max(period, 1), b.order, Some(Max(period, 1)), name, false);
  }

  /** When a one-shot asked for at `now` is due, and how often it has fired by `t` if nobody cancels it. */
  function OneShot(now: int, delay: int, t: int): seq<int> {
    var due := now + if delay > 0 then delay else 0;
    if due <= t then [due] else []
  }

  /** The same of a repeat: at every whole multiple of its interval from `now`, `now` itself not included. */
  function Grid(now: int, period: int, t: int): (dues: seq<int>)
    ensures var i := if period > 1 then period else 1;
      && (forall k :: 0 <= k < |dues| ==> dues[k] == now + (k + 1) * i)
      && |dues| == if t < now then 0 else (t - now) / i
  {
    var i := if period > 1 then period else 1;
    seq(if t < now then 0 else (t - now) / i, k requires 0 <= k => now + (k + 1) * i)
  }

  /** What fires under this handle fires at these times: at all of them, or the first few if a callback cancels it. */
  ghost predicate FiresAt<L>(firings: seq<Firing<L>>, id: nat, name: L, dues: seq<int>) {
    && Dues(firings, id) <= dues
    && (LeftAlone(firings, id) ==> Dues(firings, id) == dues)
    && (forall f <- firings :: f.id == id ==> f.name == name)
  }

  function AskedDues<L>(now: int, op: Op<L>, t: int): seq<int>
    requires !op.Cancel?
  {
    match op
    case After(delay, _) => OneShot(now, delay, t)
    case Every(period, _) => Grid(now, period, t)
  }

  lemma ExpectedDues(now: int, due: int, interval: Option<int>, delay: int, t: int)
    requires interval.None? ==> due == now + if delay > 0 then delay else 0
    requires interval.Some? ==> interval.value == (if delay > 1 then delay else 1) && due == now + interval.value
    ensures Expected(due, interval, t) == if interval.Some? then Grid(now, delay, t) else OneShot(now, delay, t)
  {
    if interval.Some? && t >= now {
      ExpectedIsGrid(now, interval.value, t);
      var grid := Grid(now, delay, t);
      forall k | 0 <= k < |grid| ensures grid[k] == now + interval.value + k * interval.value {
        OneMoreStep(k, interval.value);
      }
    }
  }

  lemma OneMoreStep(k: int, i: int)
    ensures (k + 1) * i == i + k * i
  {
  }

  lemma AskedTimerKeepsTime<S, L>(react: Callbacks<S, L>, w: World<S, L>, t: int, fuel: nat, now: int, op: Op<L>,
                                  x: Timer<L>)
    requires Sane(w.book) && x in w.book.timers && !x.cancelled && AdvanceTo(react, w, t, fuel).Some?
    requires !op.Cancel? && x.name == op.name
    requires op.After? ==> x.interval.None? && x.due == now + if op.delay > 0 then op.delay else 0
    requires op.Every? ==>
      var i := if op.period > 1 then op.period else 1; x.interval == Some(i) && x.due == now + i
    ensures FiresAt(AdvanceTo(react, w, t, fuel).value.firings, x.id, op.name, AskedDues(now, op, t))
  {
    FiresOnItsGrid(react, w, t, fuel, x);
    ExpectedDues(now, x.due, x.interval, if op.After? then op.delay else op.period, t);
    forall y | y in w.book.timers && y.id == x.id ensures y.name == x.name {
      SameTimer(w.book.timers, x, y);
    }
    assert Fits(w.book, x);
    NamesStay(react, w, t, fuel, x.id, x.name);
  }

  /**
   * Asked for in any sane state: `After` comes once, the delay from now and not at all before, no earlier than now
   * itself; `Every` comes at each whole multiple of its interval, a millisecond at least, and at nothing else.
   */
  lemma AsksComeWhenAsked<S, L>(react: Callbacks<S, L>, w: World<S, L>, op: Op<L>, t: int, fuel: nat)
    requires Sane(w.book) && !op.Cancel?
    requires AdvanceTo(react, World(Do(w.book, op), w.env), t, fuel).Some?
    ensures FiresAt(AdvanceTo(react, World(Do(w.book, op), w.env), t, fuel).value.firings, w.book.issued, op.name,
                    AskedDues(w.book.now, op, t))
  {
    var x := AskedIsThere(w.book, op);
    SaneDo(w.book, op);
    AskedTimerKeepsTime(react, World(Do(w.book, op), w.env), t, fuel, w.book.now, op, x);
  }

  // ---- A timer a callback asks for

  /** How many handles these requests take. */
  function Asked<L>(ops: seq<Op<L>>): nat {
    if ops == [] then 0 else (if ops[0].Cancel? then 0 else 1) + Asked(ops[1..])
  }

  lemma {:induction false} AskedInTurn<L>(b: Book<L>, ops: seq<Op<L>>, k: nat) returns (x: Timer<L>)
    requires k < |ops| && !ops[k].Cancel?
    requires var id := b.issued + Asked(ops[..k]); !Cancels(ops[k + 1..], id + 1, id)
    ensures x in DoAll(b, ops).timers && x.id == b.issued + Asked(ops[..k]) && x.name == ops[k].name && !x.cancelled
    ensures ops[k].After? ==> x.interval.None? && x.due == b.now + if ops[k].delay > 0 then ops[k].delay else 0
    ensures ops[k].Every? ==>
      var i := if ops[k].period > 1 then ops[k].period else 1; x.interval == Some(i) && x.due == b.now + i
    decreases |ops|
  {
    if k == 0 {
      x := AskedIsThere(b, ops[0]);
      StaysDoAll(Do(b, ops[0]), ops[1..], x);
    } else {
      assert ops[1..][..k - 1] == ops[..k][1..] && ops[1..][k..] == ops[k + 1..];
      x := AskedInTurn(Do(b, ops[0]), ops[1..], k - 1);
    }
  }

  /** The callback's request number `k` is for a timer, and none of its later ones cancels it. */
  predicate Meant<L>(f: Firing<L>, k: nat) {
    && k < |f.ops| && !f.ops[k].Cancel?
    && var id := f.issued + Asked(f.ops[..k]);
    !Cancels(f.ops[k + 1..], id + 1, id)
  }

  /** And it comes, counted from the moment the callback ran. */
  ghost predicate Comes<L>(f: Firing<L>, k: nat, behind: seq<Firing<L>>, t: int)
    requires Meant(f, k)
  {
    FiresAt(behind, f.issued + Asked(f.ops[..k]), f.ops[k].name, AskedDues(f.now, f.ops[k], t))
  }

  /** What a callback asks for comes in the same way. */
  lemma {:induction false} CallbackAsksCome<S, L>(react: Callbacks<S, L>, w: World<S, L>, t: int, fuel: nat, j: nat,
                                                  k: nat)
    requires Sane(w.book) && AdvanceTo(react, w, t, fuel).Some?
    requires var firings := AdvanceTo(react, w, t, fuel).value.firings; j < |firings| && Meant(firings[j], k)
    ensures var firings := AdvanceTo(react, w, t, fuel).value.firings; Comes(firings[j], k, firings[j + 1..], t)
    decreases fuel
  {
    var e := Earliest(w.book.timers, t).value;
    var rest := AdvanceTo(react, Fired(react, w, e), t, fuel - 1).value.firings;
    SaneFired(react, w, t);
    if j == 0 {
      FirstAsksCome(react, w, t, fuel, e, k);
      assert ([Record(react, w, e)] + rest)[1..] == rest;
    } else {
      CallbackAsksCome(react, Fired(react, w, e), t, fuel - 1, j - 1, k);
      assert ([Record(react, w, e)] + rest)[j + 1..] == rest[j..];
    }
  }

  lemma FirstAsksCome<S, L>(react: Callbacks<S, L>, w: World<S, L>, t: int, fuel: nat, e: Timer<L>, k: nat)
    requires Sane(Fired(react, w, e).book) && fuel > 0 && Meant(Record(react, w, e), k)
    requires AdvanceTo(react, Fired(react, w, e), t, fuel - 1).Some?
    ensures Comes(Record(react, w, e), k, AdvanceTo(react, Fired(react, w, e), t, fuel - 1).value.firings, t)
  {
    var f := Record(react, w, e);
    var x := AskedInTurn(Struck(w.book, e), f.ops, k);
    AskedTimerKeepsTime(react, Fired(react, w, e), t, fuel - 1, f.now, f.ops[k], x);
  }

  // ---- Names

  ghost predicate Called<L>(b: Book<L>, id: nat, name: L) {
    id < b.issued && forall x <- b.timers :: x.id == id ==> x.name == name
  }

  lemma {:induction false} CalledDoAll<L>(b: Book<L>, ops: seq<Op<L>>, id: nat, name: L)
    requires Called(b, id, name)
    ensures Called(DoAll(b, ops), id, name)
    decreases |ops|
  {
    if ops == [] {
    } else {
      if ops[0].Cancel? {
        forall x | x in CancelIn(b.timers, ops[0].id) && x.id == id ensures x.name == name {
          var y := OfCancel(b.timers, ops[0].id, x);
        }
      }
      CalledDoAll(Do(b, ops[0]), ops[1..], id, name);
    }
  }

  lemma CalledStruck<L>(b: Book<L>, e: Timer<L>, id: nat, name: L)
    requires Called(b, id, name)
    ensures Called(Struck(b, e), id, name)
  {
    forall x | x in Struck(b, e).timers && x.id == id ensures x.name == name {
      match e.interval
      case Some(i) =>
        var y := OfRearm(b.timers, e.id, e.due + i, b.order, x);
      case None => OfDrop(b.timers, e.id, x);
    }
  }

  lemma {:induction false} NamesStay<S, L>(react: Callbacks<S, L>, w: World<S, L>, t: int, fuel: nat, id: nat, name: L)
    requires Called(w.book, id, name) && AdvanceTo(react, w, t, fuel).Some?
    ensures forall f <- AdvanceTo(react, w, t, fuel).value.firings :: f.id == id ==> f.name == name
    decreases fuel
  {
    if Earliest(w.book.timers, t).None? {
    } else {
      var e := Earliest(w.book.timers, t).value;
      EarliestIsMember(w.book.timers, t);
      CalledStruck(w.book, e, id, name);
      CalledDoAll(Struck(w.book, e), Said(react, w, e).ops, id, name);
      NamesStay(react, Fired(react, w, e), t, fuel - 1, id, name);
    }
  }

  // ---- What a callback sees

  /** A callback that asks for nothing and writes down what it was called and what the clock showed. */
  function Watch<L>(env: seq<(L, View)>, name: L, view: View): Turn<seq<(L, View)>, L> {
    Turn(env + [(name, view)], [])
  }

  /** One entry for each firing: its name, its due time on the clock, itself off the book, and no handle given out. */
  ghost predicate Watched<L>(seen: seq<(L, View)>, firings: seq<Firing<L>>, pending: int, issued: nat) {
    && |seen| == |firings|
    && forall i :: 0 <= i < |seen| ==>
      seen[i].0 == firings[i].name && seen[i].1.now == firings[i].due
      && seen[i].1.pending == pending - 1 - i && seen[i].1.issued == issued
  }

  ghost predicate AllOnce<L>(timers: seq<Timer<L>>) {
    forall x <- timers :: x.interval.None?
  }

  /** What one watched firing leaves and what was seen in it. */
  lemma OneWatched<L>(w: World<seq<(L, View)>, L>, t: int)
    requires Sane(w.book) && AllOnce(w.book.timers) && Earliest(w.book.timers, t).Some?
    ensures var e := Earliest(w.book.timers, t).value;
      var after := Fired(Watch, w, e);
      && Sane(after.book) && AllOnce(after.book.timers)
      && |Live(after.book.timers)| == |Live(w.book.timers)| - 1 && after.book.issued == w.book.issued
      && after.env == w.env + [(e.name, View(e.due, |Live(w.book.timers)| - 1, w.book.issued))]
  {
    var e := Earliest(w.book.timers, t).value;
    EarliestIsMember(w.book.timers, t);
    SaneFired(Watch, w, t);
    StruckIsOneLess(w.book, e);
    assert Fired(Watch, w, e).book == Struck(w.book, e);
  }

  /** The callbacks run one after the other, each with the state the one before it left. */
  lemma {:induction false} CallbacksSeeTheClock<L>(w: World<seq<(L, View)>, L>, t: int, fuel: nat)
    returns (seen: seq<(L, View)>)
    requires Sane(w.book) && AllOnce(w.book.timers) && AdvanceTo(Watch, w, t, fuel).Some?
    ensures var run := AdvanceTo(Watch, w, t, fuel).value;
      run.end.env == w.env + seen && Watched(seen, run.firings, |Live(w.book.timers)|, w.book.issued)
    decreases fuel
  {
    if Earliest(w.book.timers, t).None? {
      seen := [];
    } else {
      var e := Earliest(w.book.timers, t).value;
      var after := Fired(Watch, w, e);
      OneWatched(w, t);
      var rest := CallbacksSeeTheClock(after, t, fuel - 1);
      var first := (e.name, View(e.due, |Live(w.book.timers)| - 1, w.book.issued));
      seen := [first] + rest;
      Lists.Regroup(w.env, [first], rest);
      WatchedOneMore(first, rest, Record(Watch, w, e), AdvanceTo(Watch, after, t, fuel - 1).value.firings,
                     |Live(w.book.timers)|, w.book.issued);
    }
  }

  lemma WatchedOneMore<L>(first: (L, View), rest: seq<(L, View)>, f: Firing<L>, firings: seq<Firing<L>>, pending: int,
                          issued: nat)
    requires first.0 == f.name && first.1.now == f.due && first.1.pending == pending - 1 && first.1.issued == issued
    requires Watched(rest, firings, pending - 1, issued)
    ensures Watched([first] + rest, [f] + firings, pending, issued)
  {
  }

  lemma StruckIsOneLess<L>(b: Book<L>, e: Timer<L>)
    requires Distinct(b.timers) && AllOnce(b.timers) && e in b.timers && !e.cancelled
    ensures AllOnce(Struck(b, e).timers) && |Live(Struck(b, e).timers)| == |Live(b.timers)| - 1
  {
    DroppedOne(b.timers, e);
    forall x | x in Drop(b.timers, e.id) ensures x.interval.None? {
      OfDrop(b.timers, e.id, x);
    }
  }

  lemma {:induction false} DroppedOne<L>(timers: seq<Timer<L>>, e: Timer<L>)
    requires Distinct(timers) && e in timers && !e.cancelled
    ensures |Live(Drop(timers, e.id))| == |Live(timers)| - 1
  {
    if timers[0] == e {
      NotThere(timers[1..], e.id, 0, 0);
    } else {
      DroppedOne(timers[1..], e);
    }
  }
}
