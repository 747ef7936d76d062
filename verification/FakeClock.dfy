/** The clock a test advances by hand, as it changes in place, held to the timeline of module Clock. */
module FakeClock {
  import opened Numbers
  import opened Wrappers
  import opened Clock

  class Entry<L> {
    const id: nat
    var due: int
    var order: int
    const interval: Option<int>
    const name: L
    var cancelled: bool

    constructor (id: nat, due: int, order: int, interval: Option<int>, name: L)
      ensures Value() == Timer(id, due, order, interval, name, false)
    {
      this.id, this.due, this.order, this.interval, this.name := id, due, order, interval, name;
      cancelled := false;
    }

    function Value(): Timer<L>
      reads this
    {
      Timer(id, due, order, interval, name, cancelled)
    }

    method Cancel()
      modifies this`cancelled
      ensures cancelled
    {
      cancelled := true;
    }
  }

  ghost function Values<L>(entries: seq<Entry<L>>): (r: seq<Timer<L>>)
    reads entries
    ensures |r| == |entries| && forall i :: 0 <= i < |r| ==> r[i] == entries[i].Value()
  {
    seq(|entries|, i requires 0 <= i < |entries| reads entries => entries[i].Value())
  }

  // ---- What the lists of the model look like place by place

  lemma {:induction false} CancelPlace<L>(timers: seq<Timer<L>>, id: nat, i: nat)
    requires i < |timers|
    ensures |CancelIn(timers, id)| == |timers|
    ensures CancelIn(timers, id)[i] == if timers[i].id == id then timers[i].(cancelled := true) else timers[i]
  {
    if |timers| == 1 {
    } else {
      CancelPlace(timers[1..], id, if i == 0 then 0 else i - 1);
    }
  }

  lemma {:induction false} RearmPlace<L>(timers: seq<Timer<L>>, id: nat, due: int, order: int, i: nat)
    requires i < |timers|
    ensures |Rearm(timers, id, due, order)| == |timers|
    ensures Rearm(timers, id, due, order)[i]
         == if timers[i].id == id then timers[i].(due := due, order := order) else timers[i]
  {
    if |timers| == 1 {
    } else {
      RearmPlace(timers[1..], id, due, order, if i == 0 then 0 else i - 1);
    }
  }

  /** With one timer of that handle, re-arming is changing its place. */
  lemma RearmIsUpdate<L>(timers: seq<Timer<L>>, k: nat, due: int, order: int)
    requires k < |timers| && OnlyOne(timers, k)
    ensures Rearm(timers, timers[k].id, due, order) == timers[k := timers[k].(due := due, order := order)]
  {
    var rearmed := Rearm(timers, timers[k].id, due, order);
    RearmPlace(timers, timers[k].id, due, order, k);
    forall i | 0 <= i < |timers| ensures rearmed[i] == timers[k := timers[k].(due := due, order := order)][i] {
      RearmPlace(timers, timers[k].id, due, order, i);
    }
  }

  ghost predicate OnlyOne<L>(timers: seq<Timer<L>>, k: nat)
    requires k < |timers|
  {
    forall i :: 0 <= i < |timers| && i != k ==> timers[i].id != timers[k].id
  }

  lemma {:induction false} DropPlace<L>(timers: seq<Timer<L>>, k: nat)
    requires k < |timers| && OnlyOne(timers, k)
    ensures Drop(timers, timers[k].id) == timers[..k] + timers[k + 1..]
  {
    if k == 0 {
      DropNone(timers[1..], timers[0].id);
    } else {
      DropPlace(timers[1..], k - 1);
      assert timers[..k] == [timers[0]] + timers[1..][..k - 1];
    }
  }

  lemma {:induction false} DropNone<L>(timers: seq<Timer<L>>, id: nat)
    requires forall i :: 0 <= i < |timers| ==> timers[i].id != id
    ensures Drop(timers, id) == timers
  {
    if timers == [] {
    } else {
      DropNone(timers[1..], id);
    }
  }

  // ---- Clearing away what is cancelled

  function Uncancelled<L>(entries: seq<Entry<L>>): seq<Entry<L>>
    reads entries
  {
    if entries == [] then []
    else if entries[0].cancelled then Uncancelled(entries[1..])
    else [entries[0]] + Uncancelled(entries[1..])
  }

  lemma {:induction false} UncancelledAreLive<L>(entries: seq<Entry<L>>)
    ensures Values(Uncancelled(entries)) == Live(Values(entries))
  {
    if entries == [] {
    } else {
      UncancelledAreLive(entries[1..]);
      assert Values(entries)[1..] == Values(entries[1..]);
      var rest := Uncancelled(entries[1..]);
      assert Values([entries[0]] + rest) == [entries[0].Value()] + Values(rest);
    }
  }

  lemma {:induction false} UncancelledAreThere<L>(entries: seq<Entry<L>>, e: Entry<L>)
    requires e in Uncancelled(entries)
    ensures e in entries
  {
    if e == entries[0] {
    } else {
      UncancelledAreThere(entries[1..], e);
    }
  }

  ghost predicate NoneTwice<L>(entries: seq<Entry<L>>) {
    forall i, j :: 0 <= i < j < |entries| ==> entries[i] != entries[j]
  }

  lemma {:induction false} UncancelledStayDistinct<L>(entries: seq<Entry<L>>)
    requires NoneTwice(entries)
    ensures NoneTwice(Uncancelled(entries))
  {
    if entries == [] {
    } else {
      UncancelledStayDistinct(entries[1..]);
      var rest := Uncancelled(entries[1..]);
      forall i | 0 <= i < |rest| ensures rest[i] != entries[0] {
        UncancelledAreThere(entries[1..], rest[i]);
      }
    }
  }

  // ---- Part of the way through an advance

  /** What is left to do from `w` completes what is done to `whole`. */
  ghost predicate Completes<S, L>(react: Callbacks<S, L>, done: seq<Firing<L>>, w: World<S, L>, t: int, left: nat,
                                  whole: Option<Run<S, L>>)
  {
    var rest := Clock.AdvanceTo(react, w, t, left);
    rest.Some? && whole == Some(Run(rest.value.end, done + rest.value.firings))
  }

  lemma CompletesAtFirst<S, L>(react: Callbacks<S, L>, w: World<S, L>, t: int, fuel: nat)
    requires Clock.AdvanceTo(react, w, t, fuel).Some?
    ensures Completes(react, [], w, t, fuel, Clock.AdvanceTo(react, w, t, fuel))
  {
    var run := Clock.AdvanceTo(react, w, t, fuel).value;
    assert [] + run.firings == run.firings;
  }

  lemma OneCloser<S, L>(react: Callbacks<S, L>, done: seq<Firing<L>>, w: World<S, L>, t: int, left: nat,
                        whole: Option<Run<S, L>>, e: Timer<L>)
    requires Completes(react, done, w, t, left, whole) && Earliest(w.book.timers, t) == Some(e)
    ensures left > 0 && Completes(react, done + [Record(react, w, e)], Fired(react, w, e), t, left - 1, whole)
  {
    var rest := Clock.AdvanceTo(react, Fired(react, w, e), t, left - 1).value;
    assert done + ([Record(react, w, e)] + rest.firings) == (done + [Record(react, w, e)]) + rest.firings;
  }

  lemma Arrived<S, L>(react: Callbacks<S, L>, done: seq<Firing<L>>, w: World<S, L>, t: int, left: nat,
                      whole: Option<Run<S, L>>)
    requires Completes(react, done, w, t, left, whole) && Earliest(w.book.timers, t).None?
    ensures whole == Some(Run(Clock.World(Settled(w.book, t), w.env), done))
  {
    assert done + [] == done;
  }

  // ---- The clock

  class FakeClock<S, L> {
    const react: Callbacks<S, L>
    var env: S
    var timers: seq<Entry<L>>
    /** What `After` and `Every` gave out, in order: the handles callbacks hold. */
    var handed: seq<Entry<L>>
    var now: int
    var order: int

    ghost predicate Valid()
      reads this, handed
    {
      && (forall i :: 0 <= i < |handed| ==> handed[i].id == i)
      && (forall i :: 0 <= i < |timers| ==> Handed(timers[i]))
      && NoneTwice(timers)
    }

    ghost predicate Handed(e: Entry<L>)
      reads this`handed
    {
      e.id < |handed| && handed[e.id] == e
    }

    /** Only timers the clock has handed out, old or new. */
    twostate predicate Grown()
      reads this`handed
    {
      |old(handed)| <= |handed| && (forall i :: 0 <= i < |old(handed)| ==> handed[i] == old(handed)[i])
      && forall i :: |old(handed)| <= i < |handed| ==> fresh(handed[i])
    }

    ghost function Book(): Book<L>
      reads this, timers
    {
      Clock.Book(now, Values(timers), order, |handed|)
    }

    ghost function World(): World<S, L>
      reads this, timers
    {
      Clock.World(Book(), env)
    }

    constructor (react: Callbacks<S, L>, env: S, startMs: int)
      ensures Valid() && this.react == react
      ensures World() == Clock.World(Clock.Book(startMs, [], 0, 0), env)
      ensures handed == []
    {
      this.react, this.env := react, env;
      timers, handed, now, order := [], [], startMs, 0;
    }

    method Pending() returns (n: nat)
      ensures n == |Live(Book().timers)|
    {
      n := 0;
      for i := |timers| downto 0
        invariant n == |Live(Book().timers[i..])|
      {
        if !timers[i].cancelled {
          n := n + 1;
        }
      }
    }

    method After(delayMs: int, name: L) returns (timer: Entry<L>)
      requires Valid()
      modifies this`timers, this`handed, this`order
      ensures Valid() && Book() == Do(old(Book()), Op.After(delayMs, name))
      ensures fresh(timer) && handed == old(handed) + [timer]
    {
      timer := Arm(Max(delayMs, 0), None, name);
    }

    method Every(intervalMs: int, name: L) returns (timer: Entry<L>)
      requires Valid()
      modifies this`timers, this`handed, this`order
      ensures Valid() && Book() == Do(old(Book()), Op.Every(intervalMs, name))
      ensures fresh(timer) && handed == old(handed) + [timer]
    {
      timer := Arm(Max(intervalMs, 1), Some(Max(intervalMs, 1)), name);
    }

    method Arm(delayMs: int, interval: Option<int>, name: L) returns (entry: Entry<L>)
      requires Valid()
      modifies this`timers, this`handed, this`order
      ensures Valid() && Book() == Armed(old(Book()), delayMs, interval, name)
      ensures fresh(entry) && handed == old(handed) + [entry]
    {
      entry := new Entry(|handed|, now + delayMs, order, interval, name);
      order := order + 1;
      timers := timers + [entry];
      handed := handed + [entry];
    }

    /** `Cancel` on a handle: its timer stays on the book, marked. */
    method CancelHandle(id: nat)
      requires Valid()
      modifies if id < |handed| then {handed[id]} else {}
      ensures Valid() && Book() == Do(old(Book()), Op.Cancel(id))
    {
      ghost var was := Values(timers);
      if id < |handed| {
        handed[id].Cancel();
      }
      forall i | 0 <= i < |was|
        ensures |CancelIn(was, id)| == |was| && CancelIn(was, id)[i] == Values(timers)[i]
      {
        assert Handed(timers[i]);
        CancelPlace(was, id, i);
      }
      assert was == [] ==> CancelIn(was, id) == [];
    }

    /** The requests of one callback, one after the other. */
    method Perform(ops: seq<Op<L>>)
      requires Valid()
      modifies this`timers, this`handed, this`order, handed
      ensures Valid() && Book() == DoAll(old(Book()), ops)
      ensures Grown()
    {
      for i := 0 to |ops|
        invariant Valid() && DoAll(Book(), ops[i..]) == DoAll(old(Book()), ops)
        invariant Grown()
      {
        assert ops[i..][0] == ops[i] && ops[i..][1..] == ops[i + 1..];
        match ops[i]
        case After(delay, name) => var _ := After(delay, name);
        case Every(period, name) => var _ := Every(period, name);
        case Cancel(id) => CancelHandle(id);
      }
    }

    /** The place of the live timer due by `t` that comes first. */
    method PickDue(t: int) returns (k: Option<nat>)
      ensures match k {
        case None => Earliest(Book().timers, t).None?
        case Some(i) => i < |timers| && Earliest(Book().timers, t) == Some(timers[i].Value())
      }
    {
      k := None;
      for i := |timers| downto 0
        invariant k.Some? ==> k.value < |timers|
        invariant Earliest(Book().timers[i..], t) == if k.None? then None else Some(timers[k.value].Value())
      {
        assert Book().timers[i..][1..] == Book().timers[i + 1..];
        var x := timers[i];
        if !x.cancelled && x.due <= t {
          if k.None? {
            k := Some(i);
          } else {
            var best := timers[k.value];
            if !(best.due < x.due || (best.due == x.due && best.order < x.order)) {
              k := Some(i);
            }
          }
        }
      }
    }

    /** `_timers.RemoveAll(timer => timer.Cancelled)`. */
    method Sweep()
      requires Valid()
      modifies this`timers
      ensures Valid() && Book() == old(Book()).(timers := Live(old(Book()).timers))
    {
      UncancelledAreLive(timers);
      UncancelledStayDistinct(timers);
      forall i | 0 <= i < |Uncancelled(timers)| ensures Handed(Uncancelled(timers)[i]) {
        UncancelledAreThere(timers, Uncancelled(timers)[i]);
      }
      timers := Uncancelled(timers);
    }

    /** Takes the picked timer off the book, or puts a repeat at its next due time. */
    method Strike(k: nat)
      requires Valid() && k < |timers|
      modifies this`timers, this`now, this`order, timers[k]
      ensures Valid() && Book() == Struck(old(Book()), old(timers[k].Value()))
    {
      var e := timers[k];
      ghost var was, value := Book(), e.Value();
      now := Max(now, e.due);
      assert Book() == was.(now := Max(was.now, value.due)) && e.Value() == value;
      if e.interval.Some? {
        PutForward(k, e.interval.value);
      } else {
        TakeOff(k);
      }
    }

    /** A repeat is armed again from its due time, not from now, with an order number of its own. */
    method PutForward(k: nat, interval: int)
      requires Valid() && k < |timers|
      modifies this`order, timers[k]
      ensures Valid() && order == old(order) + 1
      ensures var e := old(timers[k].Value());
        Values(timers) == Rearm(old(Values(timers)), e.id, e.due + interval, old(order))
    {
      var e := timers[k];
      ghost var was := Values(timers);
      HandlesDiffer(k);
      RearmIsUpdate(was, k, e.due + interval, order);
      e.due := e.due + interval;
      e.order := order;
      order := order + 1;
    }

    method TakeOff(k: nat)
      requires Valid() && k < |timers|
      modifies this`timers
      ensures Valid() && Values(timers) == Drop(old(Values(timers)), old(timers[k].id))
    {
      HandlesDiffer(k);
      DropPlace(Values(timers), k);
      timers := timers[..k] + timers[k + 1..];
    }

    lemma HandlesDiffer(k: nat)
      requires Valid() && k < |timers|
      ensures OnlyOne(Values(timers), k)
    {
      forall i | 0 <= i < |timers| && i != k ensures timers[i].id != timers[k].id {
        assert Handed(timers[i]) && Handed(timers[k]);
      }
    }

    /** Picks the timer at `k` and runs its callback. */
    method Fire(k: nat)
      requires Valid() && k < |timers|
      modifies this`env, this`timers, this`handed, this`now, this`order, handed
      ensures Valid() && Grown()
      ensures World() == Fired(react, old(World()), old(timers[k].Value()))
    {
      var name := timers[k].name;
      assert Handed(timers[k]);
      Strike(k);
      var pending := Pending();
      var turn := react(env, name, View(now, pending, |handed|));
      env := turn.env;
      Perform(turn.ops);
    }

    /** One turn of the loop of `AdvanceTo`: fires the first timer due by `t`, or finds none and comes to rest. */
    method Turn(t: int, ghost done: seq<Firing<L>>, ghost left: nat, ghost whole: Option<Run<S, L>>)
      returns (more: bool, ghost after: seq<Firing<L>>)
      requires Valid() && Completes(react, done, World(), t, left, whole)
      modifies this`env, this`timers, this`handed, this`now, this`order, handed
      ensures Valid() && Grown()
      ensures more ==> left > 0 && Completes(react, after, World(), t, left - 1, whole)
      ensures !more ==> whole == Some(Run(World(), after))
    {
      after := done;
      var k := PickDue(t);
      more := k.Some?;
      if more {
        ghost var w, e := World(), timers[k.value].Value();
        OneCloser(react, done, w, t, left, whole, e);
        after := done + [Record(react, w, e)];
        Fire(k.value);
      } else {
        Arrived(react, done, World(), t, left, whole);
        Sweep();
        now := Max(now, t);
      }
    }

    /** Fires every timer due by `t`, in order, until none is; the fuel is any number of callbacks that is enough. */
    method AdvanceTo(t: int, ghost fuel: nat) returns (ghost firings: seq<Firing<L>>)
      requires Valid() && Clock.AdvanceTo(react, World(), t, fuel).Some?
      modifies this`env, this`timers, this`handed, this`now, this`order, handed
      ensures Valid() && Grown()
      ensures Clock.AdvanceTo(react, old(World()), t, fuel) == Some(Run(World(), firings))
    {
      ghost var left, whole := fuel, Clock.AdvanceTo(react, World(), t, fuel);
      CompletesAtFirst(react, World(), t, fuel);
      firings := [];
      var more := true;
      while more
        invariant Valid() && Grown()
        invariant more ==> Completes(react, firings, World(), t, left, whole)
        invariant !more ==> whole == Some(Run(World(), firings))
        decreases more, left
      {
        more, firings := Turn(t, firings, left, whole);
        left := if more then left - 1 else left;
      }
    }

    /** `Advance`. */
    method Advance(byMs: int, ghost fuel: nat) returns (ghost firings: seq<Firing<L>>)
      requires Valid() && Clock.AdvanceTo(react, World(), now + byMs, fuel).Some?
      modifies this`env, this`timers, this`handed, this`now, this`order, handed
      ensures Valid() && Grown()
      ensures Clock.AdvanceTo(react, old(World()), old(now) + byMs, fuel) == Some(Run(World(), firings))
    {
      firings := AdvanceTo(now + byMs, fuel);
    }
  }
}
