/** The link's deadlines: how long a tap waits, and how long a retry does. */
module LinkTimes {
  import opened Numbers
  import opened Wrappers
  import opened Ordered
  import opened Link
  import opened LinkTaps

  // ---- Taps

  /** Timers fire on time: no moment passes the deadline of an armed one before it has fired. */
  ghost predicate OnTime(l: Link, input: Input) {
    input.Elapse? ==> forall id :: Get(l.timers, id).Some? ==> l.now + input.ms <= Get(l.timers, id).value.due
  }

  ghost predicate Prompt(c: Config, from: Link, inputs: seq<Input>) {
    inputs == [] ||
    (Prompt(c, from, inputs[..|inputs| - 1]) && OnTime(Run(c, from, inputs[..|inputs| - 1]).link, inputs[|inputs| - 1]))
  }

  ghost predicate NoneOverdue(l: Link) {
    forall id :: NotOverdue(l, id)
  }

  predicate NotOverdue(l: Link, id: string) {
    Get(l.timers, id).Some? ==> l.now <= Get(l.timers, id).value.due <= l.now + COMMAND_TIMEOUT_MS
  }

  lemma NoneOverdueNext(c: Config, l: Link, input: Input, id: string)
    requires NotOverdue(l, id) && OnTime(l, input)
    ensures NotOverdue(Next(c, l, input).link, id)
  {
    SameMoment(c, l, input);
    if input.SendTap? {
      var own := CorrelationId(c.session, input.command, l.taps + 1);
      GetPut(l.timers, own, Timer(input.command, l.now + COMMAND_TIMEOUT_MS), id);
    } else {
      OthersArmNothing(c, l, input, id);
    }
  }

  lemma SameMoment(c: Config, l: Link, input: Input)
    ensures Next(c, l, input).link.now == l.now + if input.Elapse? then input.ms else 0
  {
  }

  lemma {:induction false} NoneOverdueRun(c: Config, from: Link, inputs: seq<Input>)
    requires NoneOverdue(from) && Prompt(c, from, inputs)
    ensures NoneOverdue(Run(c, from, inputs).link)
  {
    if inputs == [] {
    } else {
      var before := inputs[..|inputs| - 1];
      NoneOverdueRun(c, from, before);
      forall id ensures NotOverdue(Run(c, from, inputs).link, id) {
        NoneOverdueNext(c, Run(c, from, before).link, inputs[|inputs| - 1], id);
      }
    }
  }

  /** What the timer of the tap `id` is due at, if it is armed. */
  ghost predicate DueAt(l: Link, id: string, due: int) {
    Get(l.timers, id).Some? ==> Get(l.timers, id).value.due == due
  }

  lemma DueStays(c: Config, l: Link, input: Input, command: string, n: nat, due: int)
    requires n <= l.taps && DueAt(l, CorrelationId(c.session, command, n), due)
    ensures DueAt(Next(c, l, input).link, CorrelationId(c.session, command, n), due)
  {
    var id := CorrelationId(c.session, command, n);
    if input.SendTap? {
      var own := CorrelationId(c.session, input.command, l.taps + 1);
      GetPut(l.timers, own, Timer(input.command, l.now + COMMAND_TIMEOUT_MS), id);
      if own == id {
        IdsAreDistinct(c.session, input.command, l.taps + 1, command, n);
      }
    } else {
      OthersArmNothing(c, l, input, id);
    }
  }

  lemma TapIsDue(c: Config, l: Link, input: Input)
    requires Numbered(c, l) && Timed(l) && input.SendTap?
    ensures var id := CorrelationId(c.session, input.command, l.taps + 1);
      DueAt(Next(c, l, input).link, id, l.now + COMMAND_TIMEOUT_MS) && Issues(Next(c, l, input).effects, id) == 1
  {
    var id := CorrelationId(c.session, input.command, l.taps + 1);
    NewIsNew(c, l, input.command);
    assert TimedAt(l, id);
    GetPut(l.timers, id, Timer(input.command, l.now + COMMAND_TIMEOUT_MS), id);
    OnlyTapsIssue(c, l, input, id);
  }

  /** As long as a tap's timer is armed it is due twenty seconds after the tap was sent. */
  lemma {:induction false} TapStaysDue(c: Config, from: Link, inputs: seq<Input>, k: nat)
    requires Numbered(c, from) && Timed(from) && k < |inputs| && inputs[k].SendTap?
    ensures var sent := Run(c, from, inputs[..k]).link;
      var id := CorrelationId(c.session, inputs[k].command, sent.taps + 1);
      && sent.taps < Run(c, from, inputs).link.taps
      && DueAt(Run(c, from, inputs).link, id, sent.now + 20000)
      && Issues(Run(c, from, inputs).effects, id) >= 1
  {
    var before, last := inputs[..|inputs| - 1], inputs[|inputs| - 1];
    var l := Run(c, from, before).link;
    var sent := Run(c, from, inputs[..k]).link;
    var id := CorrelationId(c.session, inputs[k].command, sent.taps + 1);
    NumberedRun(c, from, before);
    TimedRun(c, from, before);
    CountsAdd(Run(c, from, before).effects, Next(c, l, last).effects, id);
    if k == |inputs| - 1 {
      TapIsDue(c, l, last);
    } else {
      assert before[..k] == inputs[..k];
      TapStaysDue(c, from, before, k);
      DueStays(c, l, last, inputs[k].command, sent.taps + 1, sent.now + COMMAND_TIMEOUT_MS);
      OnlyTapsIssue(c, l, last, id);
    }
  }

  /** With timers that fire on time, a tap has had its one answer once twenty seconds have passed, come what may. */
  lemma EveryTapIsAnsweredInTime(c: Config, now: int, url: Option<string>, token: Option<string>, inputs: seq<Input>,
                                 k: nat)
    requires k < |inputs| && inputs[k].SendTap? && Prompt(c, Start(now, url, token), inputs)
    ensures var start := Start(now, url, token);
      var sent, run := Run(c, start, inputs[..k]).link, Run(c, start, inputs);
      var id := CorrelationId(c.session, inputs[k].command, sent.taps + 1);
      run.link.now > sent.now + 20000 ==> Answers(run.effects, id) == 1
  {
    var start := Start(now, url, token);
    var sent, run := Run(c, start, inputs[..k]).link, Run(c, start, inputs);
    var id := CorrelationId(c.session, inputs[k].command, sent.taps + 1);
    assert Timed(start);
    TapStaysDue(c, start, inputs, k);
    TimedRun(c, start, inputs);
    NoneOverdueRun(c, start, inputs);
    EveryTapSettlesOnce(c, now, url, token, inputs, id);
    assert TimedAt(run.link, id) && NotOverdue(run.link, id);
  }

  // ---- Retries

  /** A welcome or a change of inputs starts the count of failures again. */
  predicate StartsOver(l: Link, input: Input) {
    input.Reopen? || (input.Heard? && input.id !in l.deaf && input.frame.Hello?)
  }

  function Armings(effects: seq<Effect>): nat {
    if effects == [] then 0 else (if effects[0].Armed? then 1 else 0) + Armings(effects[1..])
  }

  /** How many retries in a row have been armed since the last welcome or change of inputs. */
  function Failures(c: Config, from: Link, inputs: seq<Input>): nat {
    if inputs == [] then 0
    else
      var before, last := inputs[..|inputs| - 1], inputs[|inputs| - 1];
      var l := Run(c, from, before).link;
      (if StartsOver(l, last) then 0 else Failures(c, from, before)) + Armings(Next(c, l, last).effects)
  }

  /** The retries these effects arm are the one failure after `n` others, and wait accordingly. */
  ghost predicate Waits(c: Config, effects: seq<Effect>, n: nat) {
    Armings(effects) <= 1 && forall e <- effects :: e.Armed? ==> e.delay == Delay(c, n)
  }

  lemma {:induction false} ArmingsAdd(a: seq<Effect>, b: seq<Effect>)
    ensures Armings(a + b) == Armings(a) + Armings(b)
  {
    if a == [] {
      assert a + b == b;
    } else {
      ArmingsAdd(a[1..], b);
      assert (a + b)[1..] == a[1..] + b;
    }
  }

  lemma {:induction false} FlushArmsNothing(pending: Record<Tap>, code: Code)
    ensures Armings(Flushed(pending, code)) == 0
    ensures forall e <- Flushed(pending, code) :: !e.Armed?
  {
    if pending == [] {
    } else {
      FlushArmsNothing(pending[1..], code);
    }
  }

  lemma WaitsDial(c: Config, l: Link, dials: bool)
    ensures Waits(c, Dial(c, l, dials).effects, l.attempt)
    ensures Dial(c, l, dials).link.attempt == l.attempt + Armings(Dial(c, l, dials).effects)
  {
    ArmingsAdd([DialFailed], ScheduleRetry(c, l).effects);
    ArmingsAdd([DialFailed], [Armed(Delay(c, l.attempt))]);
  }

  lemma WaitsReopen(c: Config, l: Link, dials: bool)
    ensures Waits(c, DoReopen(c, l, dials).effects, 0)
    ensures DoReopen(c, l, dials).link.attempt == Armings(DoReopen(c, l, dials).effects)
  {
    var hung := HangUp(l);
    var start := hung.link.(attempt := 0, closeCode := None);
    WaitsDial(c, start, dials);
    ArmingsAdd(hung.effects, Dial(c, start, dials).effects);
  }

  lemma WaitsHanged(c: Config, l: Link, id: nat, code: int)
    ensures Waits(c, OnClose(c, l, id, code).effects, l.attempt)
    ensures OnClose(c, l, id, code).link.attempt == l.attempt + Armings(OnClose(c, l, id, code).effects)
  {
    FlushArmsNothing(l.pending, Unavailable);
    FlushArmsNothing(l.pending, NotLive);
    var flushed := FlushPending(l.(socket := None, closeCode := Some(code), hello := None), Unavailable);
    ArmingsAdd(flushed.effects, ScheduleRetry(c, flushed.link).effects);
  }

  lemma WaitsClose(c: Config, l: Link)
    ensures Armings(DoClose(l).effects) == 0 && DoClose(l).link.attempt == l.attempt
    ensures forall e <- DoClose(l).effects :: !e.Armed?
  {
    var hung := HangUp(l.(closed := true));
    FlushArmsNothing(l.pending, Unavailable);
    ArmingsAdd(hung.effects, FlushPending(hung.link, Unavailable).effects);
  }

  lemma WaitsNext(c: Config, l: Link, input: Input)
    ensures var n := if StartsOver(l, input) then 0 else l.attempt;
      && Waits(c, Next(c, l, input).effects, n)
      && Next(c, l, input).link.attempt == n + Armings(Next(c, l, input).effects)
  {
    match input
    case Reopen(dials) => WaitsReopen(c, l, dials);
    case RetryFires(dials) => WaitsDial(c, l.(retry := None), dials);
    case Hanged(id, code) => WaitsHanged(c, l, id, code);
    case Close => WaitsClose(c, l);
    case SendTap(command, args, ready) =>
      var effects := DoSend(c, l, command, args, ready).effects;
      assert effects == [effects[0]] + [effects[1]];
      ArmingsAdd([effects[0]], [effects[1]]);
    case _ =>
  }

  lemma {:induction false} AttemptIsFailures(c: Config, from: Link, inputs: seq<Input>)
    requires from.attempt == 0
    ensures Run(c, from, inputs).link.attempt == Failures(c, from, inputs)
  {
    if inputs == [] {
    } else {
      var before := inputs[..|inputs| - 1];
      AttemptIsFailures(c, from, before);
      WaitsNext(c, Run(c, from, before).link, inputs[|inputs| - 1]);
    }
  }

  /**
   * The backoff, exactly: a retry armed by the last input waits min(max, initial * 2^(n - 1)), where n counts the
   * failures in a row up to and with this one.
   */
  lemma BackoffIsExact(c: Config, now: int, url: Option<string>, token: Option<string>, inputs: seq<Input>, last: Input,
                       delay: int)
    requires Armed(delay) in Next(c, Run(c, Start(now, url, token), inputs).link, last).effects
    ensures var n := Failures(c, Start(now, url, token), inputs + [last]);
      n >= 1 && delay == Delay(c, n - 1)
  {
    var start := Start(now, url, token);
    var l := Run(c, start, inputs).link;
    AttemptIsFailures(c, start, inputs);
    WaitsNext(c, l, last);
    OneWait(c, Next(c, l, last).effects, if StartsOver(l, last) then 0 else l.attempt, delay);
    OneMoreFailure(c, start, inputs, last);
  }

  lemma OneWait(c: Config, effects: seq<Effect>, n: nat, delay: int)
    requires Waits(c, effects, n) && Armed(delay) in effects
    ensures Armings(effects) == 1 && delay == Delay(c, n)
  {
    ArmedCounts(effects, Armed(delay));
  }

  lemma OneMoreFailure(c: Config, from: Link, inputs: seq<Input>, last: Input)
    ensures var l := Run(c, from, inputs).link;
      Failures(c, from, inputs + [last])
      == (if StartsOver(l, last) then 0 else Failures(c, from, inputs)) + Armings(Next(c, l, last).effects)
  {
    assert (inputs + [last])[..|inputs|] == inputs;
  }

  lemma {:induction false} ArmedCounts(effects: seq<Effect>, e: Effect)
    requires e in effects && e.Armed?
    ensures Armings(effects) >= 1
  {
    if effects[0] == e {
    } else {
      ArmedCounts(effects[1..], e);
    }
  }

  /** Each wait is at least the one before it, at least the first, and never more than the maximum. */
  lemma {:induction false} BackoffGrows(c: Config, n: nat, m: nat)
    requires 0 <= c.initialMs && n <= m
    ensures Delay(c, n) <= Delay(c, m) <= c.maxMs
    ensures Min(c.maxMs, c.initialMs) <= Delay(c, n)
    decreases m
  {
    if m == 0 {
    } else if n < m {
      BackoffGrows(c, n, m - 1);
      Doubles(c.initialMs, Pow2(m - 1));
    } else {
      BackoffGrows(c, n - 1, n - 1);
      Doubles(c.initialMs, Pow2(n - 1));
    }
  }

  /** The waits double from the first one on until the maximum stops them. */
  lemma BackoffDoubles(c: Config, n: nat)
    requires 0 <= c.initialMs && 0 <= c.maxMs
    ensures Delay(c, 0) == Min(c.maxMs, c.initialMs)
    ensures Delay(c, n + 1) == Min(c.maxMs, 2 * Delay(c, n))
  {
    Doubles(c.initialMs, Pow2(n));
  }

  lemma Doubles(a: int, p: nat)
    requires a >= 0
    ensures a * (2 * p) == a * p + a * p && a * p >= 0
  {
  }
}
