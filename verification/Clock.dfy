/**
 * The virtual timeline of plugins/EZPug.Sdk.Testing/FakeClock.cs, on values.
 *
 * A callback is what a function of the caller says: given the caller's own state, the name it armed the timer with
 * and what the clock shows, it answers with its new state and what it asked of the clock, in order. A handle is the
 * number of timers armed before it.
 */
module Clock {
  import opened Numbers
  import opened Wrappers

  datatype Timer<L> = Timer(id: nat, due: int, order: int, interval: Option<int>, name: L, cancelled: bool)

  datatype Book<L> = Book(now: int, timers: seq<Timer<L>>, order: int, issued: nat)

  datatype Op<L> = After(delay: int, name: L) | Every(period: int, name: L) | Cancel(id: nat)

  /** What a callback can read: `NowMs`, `Pending`, and the handle the next timer will get. */
  datatype View = View(now: int, pending: nat, issued: nat)

  datatype Turn<S, L> = Turn(env: S, ops: seq<Op<L>>)

  type Callbacks<!S, !L> = (S, L, View) -> Turn<S, L>

  datatype World<S, L> = World(book: Book<L>, env: S)

  /** One callback run: which timer, when, how many handles there were, and what it asked for. */
  datatype Firing<L> = Firing(id: nat, name: L, due: int, order: int, now: int, issued: nat, ops: seq<Op<L>>)

  datatype Run<S, L> = Run(end: World<S, L>, firings: seq<Firing<L>>)

  // ---- The book of timers

  function Live<L>(timers: seq<Timer<L>>): seq<Timer<L>> {
    if timers == [] then []
    else if timers[0].cancelled then Live(timers[1..])
    else [timers[0]] + Live(timers[1..])
  }

  function Armed<L>(b: Book<L>, delay: int, interval: Option<int>, name: L): Book<L> {
    Book(b.now, b.timers + [Timer(b.issued, b.now + delay, b.order, interval, name, false)], b.order + 1, b.issued + 1)
  }

  function CancelIn<L>(timers: seq<Timer<L>>, id: nat): seq<Timer<L>> {
    if timers == [] then []
    else [if timers[0].id == id then timers[0].(cancelled := true) else timers[0]] + CancelIn(timers[1..], id)
  }

  function Rearm<L>(timers: seq<Timer<L>>, id: nat, due: int, order: int): seq<Timer<L>> {
    if timers == [] then []
    else
      [if timers[0].id == id then timers[0].(due := due, order := order) else timers[0]]
      + Rearm(timers[1..], id, due, order)
  }

  function Drop<L>(timers: seq<Timer<L>>, id: nat): seq<Timer<L>> {
    if timers == [] then []
    else if timers[0].id == id then Drop(timers[1..], id)
    else [timers[0]] + Drop(timers[1..], id)
  }

  function Do<L>(b: Book<L>, op: Op<L>): Book<L> {
    match op
    case After(delay, name) => Armed(b, Max(delay, 0), None, name)
    case Every(period, name) => Armed(b, Max(period, 1), Some(Max(period, 1)), name)
    case Cancel(id) => b.(timers := CancelIn(b.timers, id))
  }

  function DoAll<L>(b: Book<L>, ops: seq<Op<L>>): Book<L>
    decreases |ops|
  {
    if ops == [] then b else DoAll(Do(b, ops[0]), ops[1..])
  }

  // ---- Moving forward

  predicate Before<L>(a: Timer<L>, b: Timer<L>) {
    a.due < b.due || (a.due == b.due && a.order < b.order)
  }

  predicate IsDue<L>(a: Timer<L>, t: int) {
    !a.cancelled && a.due <= t
  }

  /** The live timer that is due by `t` and comes first. */
  function Earliest<L>(timers: seq<Timer<L>>, t: int): Option<Timer<L>> {
    if timers == [] then None
    else
      var rest := Earliest(timers[1..], t);
      if !IsDue(timers[0], t) then rest
      else if rest.Some? && Before(rest.value, timers[0]) then rest
      else Some(timers[0])
  }

  /** The book once `e` has been picked: a repeat stands at its next due time, anything else is off the book. */
  function Struck<L>(b: Book<L>, e: Timer<L>): Book<L> {
    match e.interval
    case Some(i) => Book(Max(b.now, e.due), Rearm(b.timers, e.id, e.due + i, b.order), b.order + 1, b.issued)
    case None => Book(Max(b.now, e.due), Drop(b.timers, e.id), b.order, b.issued)
  }

  function Look<L>(b: Book<L>): View {
    View(b.now, |Live(b.timers)|, b.issued)
  }

  function Said<S, L>(react: Callbacks<S, L>, w: World<S, L>, e: Timer<L>): Turn<S, L> {
    react(w.env, e.name, Look(Struck(w.book, e)))
  }

  function Fired<S, L>(react: Callbacks<S, L>, w: World<S, L>, e: Timer<L>): World<S, L> {
    World(DoAll(Struck(w.book, e), Said(react, w, e).ops), Said(react, w, e).env)
  }

  function Record<S, L>(react: Callbacks<S, L>, w: World<S, L>, e: Timer<L>): Firing<L> {
    Firing(e.id, e.name, e.due, e.order, Max(w.book.now, e.due), w.book.issued, Said(react, w, e).ops)
  }

  /** Nothing is due: what is cancelled goes, and the clock stands at `t` at least. */
  function Settled<L>(b: Book<L>, t: int): Book<L> {
    Book(Max(b.now, t), Live(b.timers), b.order, b.issued)
  }

  /** `AdvanceTo`, for at most `fuel` callbacks; None when there would have been more. */
  function AdvanceTo<S, L>(react: Callbacks<S, L>, w: World<S, L>, t: int, fuel: nat): Option<Run<S, L>>
    decreases fuel
  {
    match Earliest(w.book.timers, t)
    case None => Some(Run(World(Settled(w.book, t), w.env), []))
    case Some(e) =>
      if fuel == 0 then None
      else
        match AdvanceTo(react, Fired(react, w, e), t, fuel - 1)
        case None => None
        case Some(run) => Some(Run(run.end, [Record(react, w, e)] + run.firings))
  }
}
