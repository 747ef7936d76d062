/** Every tap is answered, once, in time. */
module LinkTaps {
  import opened Wrappers
  import opened Ordered
  import opened Texts
  import opened Link

  // ---- Correlation ids

  lemma {:induction false} DecimalHasNoColon(n: nat)
    ensures ':' !in Decimal(n) && Decimal(n) != ""
  {
    if n < 10 {
    } else {
      DecimalHasNoColon(n / 10);
    }
  }

  lemma {:induction false} DecimalIsInjective(m: nat, n: nat)
    requires Decimal(m) == Decimal(n)
    ensures m == n
  {
    if m < 10 && n < 10 {
    } else if n < 10 {
      LastDigit(m);
      DecimalHasNoColon(m / 10);
    } else if m < 10 {
      LastDigit(n);
      DecimalHasNoColon(n / 10);
    } else {
      LastDigit(m);
      LastDigit(n);
      DecimalIsInjective(m / 10, n / 10);
    }
  }

  lemma LastDigit(n: nat)
    requires n >= 10
    ensures |Decimal(n)| >= 1
    ensures Decimal(n)[|Decimal(n)| - 1] == Digit(n % 10) && Decimal(n)[..|Decimal(n)| - 1] == Decimal(n / 10)
  {
  }

  /** What follows the last colon. */
  lemma TailAfterColon(a: string, b: string, x: string, y: string)
    requires ':' !in x && ':' !in y && a + ":" + x == b + ":" + y
    ensures a == b && x == y
  {
    var s := a + ":" + x;
    assert s[|a|] == ':' && s[|b|] == ':';
    assert s[..|a|] == a && s[..|b|] == b && s[|a| + 1..] == x && s[|b| + 1..] == y;
  }

  /** No two taps of one link share a correlation id, whatever their commands are called. */
  lemma IdsAreDistinct(session: string, command: string, n: nat, other: string, m: nat)
    requires CorrelationId(session, command, n) == CorrelationId(session, other, m)
    ensures n == m && command == other
  {
    DecimalHasNoColon(n);
    DecimalHasNoColon(m);
    TailAfterColon(session + ":" + command, session + ":" + other, Decimal(n), Decimal(m));
    DecimalIsInjective(n, m);
    assert (session + ":" + command)[|session| + 1..] == command;
    assert (session + ":" + other)[|session| + 1..] == other;
  }

  /** A flush names the command a tap was for exactly when the command has no colon in it. */
  lemma FlushNamesTheCommand(session: string, command: string, n: nat)
    requires ':' !in session
    ensures NamedIn(CorrelationId(session, command, n)) == command <==> ':' !in command
  {
    var rest := command + ":" + Decimal(n);
    assert CorrelationId(session, command, n) == session + [':'] + rest;
    SplitOnPrefix(session, rest, ':');
    if ':' !in command {
      SplitOnPrefix(command, Decimal(n), ':');
    } else {
      SplitHasNone(rest, ':');
    }
  }

  lemma {:induction false} SplitHasNone(s: string, c: char)
    ensures c !in SplitOn(s, c)[0]
  {
    if s == "" {
    } else {
      SplitHasNone(s[1..], c);
    }
  }

  // ---- Counting

  /** How many times this promise was resolved. */
  function Answers(effects: seq<Effect>, id: string): nat {
    if effects == [] then 0
    else (if effects[0].Settled? && effects[0].correlationId == id then 1 else 0) + Answers(effects[1..], id)
  }

  /** How many times it was given out. */
  function Issues(effects: seq<Effect>, id: string): nat {
    if effects == [] then 0
    else (if effects[0].Tapped? && effects[0].correlationId == id then 1 else 0) + Issues(effects[1..], id)
  }

  function Waiting(l: Link, id: string): nat {
    if Get(l.pending, id).Some? then 1 else 0
  }

  lemma {:induction false} CountsAdd(a: seq<Effect>, b: seq<Effect>, id: string)
    ensures Answers(a + b, id) == Answers(a, id) + Answers(b, id)
    ensures Issues(a + b, id) == Issues(a, id) + Issues(b, id)
  {
    if a == [] {
      assert a + b == b;
    } else {
      CountsAdd(a[1..], b, id);
      assert (a + b)[1..] == a[1..] + b;
    }
  }

  lemma TwoCounts(effects: seq<Effect>, id: string)
    requires |effects| == 2
    ensures Answers(effects, id) == Answers([effects[0]], id) + Answers([effects[1]], id)
    ensures Issues(effects, id) == Issues([effects[0]], id) + Issues([effects[1]], id)
  {
    assert effects == [effects[0]] + [effects[1]];
    CountsAdd([effects[0]], [effects[1]], id);
  }

  lemma {:induction false} NoneInRest<V>(m: Record<V>, k: string)
    requires forall i :: 0 <= i < |m| ==> m[i].0 != k
    ensures Get(m, k).None?
  {
    if m == [] {
    } else {
      NoneInRest(m[1..], k);
    }
  }

  lemma {:induction false} FlushAnswers(pending: Record<Tap>, code: Code, id: string)
    requires Unique(Keys(pending))
    ensures Answers(Flushed(pending, code), id) == (if Get(pending, id).Some? then 1 else 0)
    ensures Issues(Flushed(pending, code), id) == 0
  {
    if pending == [] {
    } else {
      assert Keys(pending)[1..] == Keys(pending[1..]);
      FlushAnswers(pending[1..], code, id);
      var own := Settled(pending[0].0, Reject(pending[0].0, NamedIn(pending[0].0), code));
      CountsAdd([own], Flushed(pending[1..], code), id);
      if pending[0].0 == id {
        assert forall i :: 0 <= i < |pending[1..]| ==> pending[1..][i].0 == Keys(pending)[i + 1];
        NoneInRest(pending[1..], id);
      }
    }
  }

  // ---- What every state keeps of its taps

  /** The pending taps are of this link, oldest first, and their numbers have been given out. */
  ghost predicate Numbered(c: Config, l: Link) {
    && (forall i :: 0 <= i < |l.pending| ==>
         var tap := l.pending[i].1;
         l.pending[i].0 == CorrelationId(c.session, tap.command, tap.number) && 0 < tap.number <= l.taps)
    && forall i, j :: 0 <= i < j < |l.pending| ==> l.pending[i].1.number < l.pending[j].1.number
  }

  lemma NumberedIsUnique(c: Config, l: Link)
    requires Numbered(c, l)
    ensures Unique(Keys(l.pending))
  {
    forall i, j | 0 <= i < j < |l.pending| ensures Keys(l.pending)[i] != Keys(l.pending)[j] {
      var a, b := l.pending[i].1, l.pending[j].1;
      if l.pending[i].0 == l.pending[j].0 {
        IdsAreDistinct(c.session, a.command, a.number, b.command, b.number);
      }
    }
  }

  lemma NewIsNew(c: Config, l: Link, command: string)
    requires Numbered(c, l)
    ensures Get(l.pending, CorrelationId(c.session, command, l.taps + 1)).None?
  {
    var id := CorrelationId(c.session, command, l.taps + 1);
    forall i | 0 <= i < |l.pending| ensures l.pending[i].0 != id {
      var tap := l.pending[i].1;
      if l.pending[i].0 == id {
        IdsAreDistinct(c.session, tap.command, tap.number, command, l.taps + 1);
      }
    }
    NoneInRest(l.pending, id);
  }

  /** The next number goes behind the smaller ones. */
  lemma NumberedAppend(c: Config, l: Link, id: string, tap: Tap)
    requires Numbered(c, l)
    requires tap.number == l.taps + 1 && id == CorrelationId(c.session, tap.command, tap.number)
    ensures Numbered(c, l.(taps := tap.number, pending := l.pending + [(id, tap)]))
    ensures Numbered(c, l.(taps := tap.number))
  {
  }

  /** A tap is put behind the others, or left out. */
  lemma SendAppends(c: Config, l: Link, command: string, args: string, ready: bool)
    requires Numbered(c, l)
    ensures var id, tap := CorrelationId(c.session, command, l.taps + 1), Tap(l.taps + 1, command);
      var after := DoSend(c, l, command, args, ready).link;
      && after.taps == tap.number
      && (after.pending == l.pending || after.pending == l.pending + [(id, tap)])
  {
    var id := CorrelationId(c.session, command, l.taps + 1);
    NewIsNew(c, l, command);
    GetIsMember(l.pending, id);
    PutNewKey(l.pending, id, Tap(l.taps + 1, command));
  }

  /** The law is about the taps alone. */
  lemma SameTaps(c: Config, l: Link, after: Link)
    requires Numbered(c, l) && after.taps == l.taps && after.pending == l.pending
    ensures Numbered(c, after)
  {
  }

  lemma NumberedSend(c: Config, l: Link, command: string, args: string, ready: bool)
    requires Numbered(c, l)
    ensures Numbered(c, DoSend(c, l, command, args, ready).link)
  {
    var id := CorrelationId(c.session, command, l.taps + 1);
    var after := DoSend(c, l, command, args, ready).link;
    SendAppends(c, l, command, args, ready);
    NumberedAppend(c, l, id, Tap(l.taps + 1, command));
    SameTaps(c, l.(taps := l.taps + 1, pending := after.pending), after);
  }

  /** Taking an entry out leaves the others in their order. */
  lemma {:induction false} DeletedKeeps(pending: Record<Tap>, k: string) returns (from: seq<nat>)
    ensures |from| == |Delete(pending, k)|
    ensures forall i :: 0 <= i < |from| ==> from[i] < |pending| && Delete(pending, k)[i] == pending[from[i]]
    ensures forall i, j :: 0 <= i < j < |from| ==> from[i] < from[j]
  {
    from := [];
    if pending == [] {
    } else {
      var rest := DeletedKeeps(pending[1..], k);
      from := seq(|rest|, i requires 0 <= i < |rest| => rest[i] + 1);
      if pending[0].0 != k {
        from := [0] + from;
      }
    }
  }

  lemma NumberedDeleted(c: Config, l: Link, k: string)
    requires Numbered(c, l)
    ensures Numbered(c, l.(pending := Delete(l.pending, k)))
  {
    var from := DeletedKeeps(l.pending, k);
  }

  /** Only a tap adds to the map; anything else leaves it, empties it or takes one entry out. */
  lemma OthersAddNothing(c: Config, l: Link, input: Input) returns (k: string)
    requires !input.SendTap?
    ensures var after := Next(c, l, input).link;
      && after.taps == l.taps
      && (|| (after.pending == l.pending && after.timers == l.timers)
          || (after.pending == [] && after.timers == Cancelled(l.timers, l.pending))
          || (after.pending == Delete(l.pending, k) && after.timers == Delete(l.timers, k)))
  {
    k := match input
      case TapTimesOut(id) => id
      case Heard(_, Result(a)) => a.correlationId
      case _ => "";
  }

  lemma NumberedNext(c: Config, l: Link, input: Input)
    requires Numbered(c, l)
    ensures Numbered(c, Next(c, l, input).link)
  {
    if input.SendTap? {
      NumberedSend(c, l, input.command, input.args, input.ready);
    } else {
      var k := OthersAddNothing(c, l, input);
      NumberedDeleted(c, l, k);
    }
  }

  lemma {:induction false} NumberedRun(c: Config, from: Link, inputs: seq<Input>)
    requires Numbered(c, from)
    ensures Numbered(c, Run(c, from, inputs).link)
  {
    if inputs == [] {
    } else {
      var before := inputs[..|inputs| - 1];
      NumberedRun(c, from, before);
      NumberedNext(c, Run(c, from, before).link, inputs[|inputs| - 1]);
    }
  }

  // ---- A tap is pending exactly while its timer is armed

  ghost predicate Timed(l: Link) {
    forall id :: TimedAt(l, id)
  }

  predicate TimedAt(l: Link, id: string) {
    match Get(l.pending, id)
    case None => Get(l.timers, id).None?
    case Some(tap) => Get(l.timers, id).Some? && Get(l.timers, id).value.command == tap.command
  }

  lemma {:induction false} GetCancelled(timers: Record<Timer>, pending: Record<Tap>, id: string)
    ensures Get(Cancelled(timers, pending), id) == if Get(pending, id).Some? then None else Get(timers, id)
    decreases |pending|
  {
    if pending == [] {
    } else {
      GetCancelled(Delete(timers, pending[0].0), pending[1..], id);
      GetDelete(timers, pending[0].0, id);
    }
  }

  /** No input but a tap arms a timer or changes one. */
  lemma OthersArmNothing(c: Config, l: Link, input: Input, id: string)
    requires !input.SendTap?
    ensures var after := Next(c, l, input).link;
      && (Get(after.timers, id).Some? ==> Get(after.timers, id) == Get(l.timers, id))
      && (TimedAt(l, id) ==> TimedAt(after, id))
  {
    var k := OthersAddNothing(c, l, input);
    GetCancelled(l.timers, l.pending, id);
    GetDelete(l.timers, k, id);
    GetDelete(l.pending, k, id);
  }

  lemma TimedNext(c: Config, l: Link, input: Input, id: string)
    requires TimedAt(l, id)
    ensures TimedAt(Next(c, l, input).link, id)
  {
    if input.SendTap? {
      var own := CorrelationId(c.session, input.command, l.taps + 1);
      GetPut(l.pending, own, Tap(l.taps + 1, input.command), id);
      GetPut(l.timers, own, Timer(input.command, l.now + COMMAND_TIMEOUT_MS), id);
    } else {
      OthersArmNothing(c, l, input, id);
    }
  }

  /** Over every run: what is answered has its timer cancelled or spent, and what is pending has it armed. */
  lemma {:induction false} TimedRun(c: Config, from: Link, inputs: seq<Input>)
    requires Timed(from)
    ensures Timed(Run(c, from, inputs).link)
  {
    if inputs == [] {
    } else {
      var before := inputs[..|inputs| - 1];
      TimedRun(c, from, before);
      forall id ensures TimedAt(Run(c, from, inputs).link, id) {
        TimedNext(c, Run(c, from, before).link, inputs[|inputs| - 1], id);
      }
    }
  }

  // ---- Conservation: given out = answered + still pending

  lemma FlushIsFair(c: Config, l: Link, code: Code, id: string)
    requires Numbered(c, l)
    ensures Answers(FlushPending(l, code).effects, id) == Waiting(l, id)
    ensures Issues(FlushPending(l, code).effects, id) == 0 && Waiting(FlushPending(l, code).link, id) == 0
  {
    NumberedIsUnique(c, l);
    FlushAnswers(l.pending, code, id);
  }

  lemma FairHanged(c: Config, l: Link, socket: nat, code: int, id: string)
    requires Numbered(c, l)
    ensures var step := OnClose(c, l, socket, code);
      Issues(step.effects, id) == 0 && Answers(step.effects, id) + Waiting(step.link, id) == Waiting(l, id)
  {
    if l.socket.Some? && l.socket.value.id == socket {
      FairLost(c, l.(socket := None, closeCode := Some(code), hello := None), code, id);
    }
  }

  lemma FairLost(c: Config, l: Link, code: int, id: string)
    requires Numbered(c, l)
    ensures var step := Lost(c, l, code);
      Issues(step.effects, id) == 0 && Answers(step.effects, id) + Waiting(step.link, id) == Waiting(l, id)
  {
    NumberedIsUnique(c, l);
    FlushAnswers(l.pending, Unavailable, id);
    FlushAnswers(l.pending, NotLive, id);
    var flushed := FlushPending(l, Unavailable);
    CountsAdd(flushed.effects, ScheduleRetry(c, flushed.link).effects, id);
  }

  lemma FairDial(c: Config, l: Link, dials: bool, id: string)
    ensures var step := Dial(c, l, dials);
      Issues(step.effects, id) == 0 && Answers(step.effects, id) == 0 && step.link.pending == l.pending
  {
    CountsAdd([DialFailed], ScheduleRetry(c, l).effects, id);
    CountsAdd([DialFailed], [Armed(Delay(c, l.attempt))], id);
  }

  lemma FairReopen(c: Config, l: Link, dials: bool, id: string)
    ensures var step := DoReopen(c, l, dials);
      Issues(step.effects, id) == 0 && Answers(step.effects, id) == 0 && step.link.pending == l.pending
  {
    var hung := HangUp(l);
    var start := hung.link.(attempt := 0, closeCode := None);
    FairDial(c, start, dials, id);
    CountsAdd(hung.effects, Dial(c, start, dials).effects, id);
  }

  lemma FairClose(c: Config, l: Link, id: string)
    requires Numbered(c, l)
    ensures var step := DoClose(l);
      Issues(step.effects, id) == 0 && Answers(step.effects, id) == Waiting(l, id) && Waiting(step.link, id) == 0
  {
    var hung := HangUp(l.(closed := true));
    FlushIsFair(c, hung.link, Unavailable, id);
    CountsAdd(hung.effects, FlushPending(hung.link, Unavailable).effects, id);
  }

  lemma FairSend(c: Config, l: Link, command: string, args: string, ready: bool, id: string)
    requires Numbered(c, l)
    ensures var step := DoSend(c, l, command, args, ready);
      Answers(step.effects, id) + Waiting(step.link, id) == Issues(step.effects, id) + Waiting(l, id)
  {
    var own := CorrelationId(c.session, command, l.taps + 1);
    NewIsNew(c, l, command);
    GetPut(l.pending, own, Tap(l.taps + 1, command), id);
    var step := DoSend(c, l, command, args, ready);
    TwoCounts(step.effects, id);
  }

  lemma FairTimeout(l: Link, tap: string, id: string)
    requires TimedAt(l, tap)
    ensures var step := Timeout(l, tap);
      Answers(step.effects, id) + Waiting(step.link, id) == Waiting(l, id) && Issues(step.effects, id) == 0
  {
    GetDelete(l.pending, tap, id);
  }

  lemma FairNext(c: Config, l: Link, input: Input, id: string)
    requires Numbered(c, l) && Timed(l)
    ensures var step := Next(c, l, input);
      Answers(step.effects, id) + Waiting(step.link, id) == Issues(step.effects, id) + Waiting(l, id)
  {
    match input
    case Reopen(dials) => FairReopen(c, l, dials, id);
    case RetryFires(dials) => FairDial(c, l.(retry := None), dials, id);
    case Hanged(socket, code) => FairHanged(c, l, socket, code, id);
    case SendTap(command, args, ready) => FairSend(c, l, command, args, ready, id);
    case Close => FairClose(c, l, id);
    case Heard(socket, Result(a)) => GetDelete(l.pending, a.correlationId, id);
    case TapTimesOut(tap) =>
      assert TimedAt(l, tap);
      FairTimeout(l, tap, id);
    case _ =>
  }

  lemma {:induction false} FairRun(c: Config, from: Link, inputs: seq<Input>, id: string)
    requires Numbered(c, from) && Timed(from)
    ensures var run := Run(c, from, inputs);
      Answers(run.effects, id) + Waiting(run.link, id) == Issues(run.effects, id) + Waiting(from, id)
  {
    if inputs == [] {
    } else {
      var before := inputs[..|inputs| - 1];
      FairRun(c, from, before, id);
      NumberedRun(c, from, before);
      TimedRun(c, from, before);
      var run, step := Run(c, from, before), Next(c, Run(c, from, before).link, inputs[|inputs| - 1]);
      FairNext(c, run.link, inputs[|inputs| - 1], id);
      CountsAdd(run.effects, step.effects, id);
    }
  }

  lemma OthersIssueNothing(c: Config, l: Link, input: Input, id: string)
    requires Numbered(c, l) && !input.SendTap?
    ensures Issues(Next(c, l, input).effects, id) == 0
  {
    match input
    case Reopen(dials) => FairReopen(c, l, dials, id);
    case RetryFires(dials) => FairDial(c, l.(retry := None), dials, id);
    case Hanged(socket, code) => FairHanged(c, l, socket, code, id);
    case Close => FairClose(c, l, id);
    case _ =>
  }

  lemma OnlyTapsIssue(c: Config, l: Link, input: Input, id: string)
    requires Numbered(c, l)
    ensures var step := Next(c, l, input);
      && l.taps <= step.link.taps
      && Issues(step.effects, id)
         == if input.SendTap? && id == CorrelationId(c.session, input.command, l.taps + 1) then 1 else 0
  {
    if input.SendTap? {
      TwoCounts(DoSend(c, l, input.command, input.args, input.ready).effects, id);
    } else {
      OthersIssueNothing(c, l, input, id);
      var k := OthersAddNothing(c, l, input);
    }
  }

  lemma {:induction false} NumbersAreFresh(c: Config, from: Link, inputs: seq<Input>, command: string, n: nat)
    requires Numbered(c, from) && n > Run(c, from, inputs).link.taps
    ensures Issues(Run(c, from, inputs).effects, CorrelationId(c.session, command, n)) == 0
  {
    if inputs == [] {
    } else {
      var before, last := inputs[..|inputs| - 1], inputs[|inputs| - 1];
      var id, l := CorrelationId(c.session, command, n), Run(c, from, before).link;
      NumberedRun(c, from, before);
      OnlyTapsIssue(c, l, last, id);
      NumbersAreFresh(c, from, before, command, n);
      CountsAdd(Run(c, from, before).effects, Next(c, l, last).effects, id);
      if last.SendTap? && id == CorrelationId(c.session, last.command, l.taps + 1) {
        IdsAreDistinct(c.session, command, n, last.command, l.taps + 1);
      }
    }
  }

  lemma {:induction false} IssuedOnce(c: Config, from: Link, inputs: seq<Input>, id: string)
    requires Numbered(c, from)
    ensures Issues(Run(c, from, inputs).effects, id) <= 1
  {
    if inputs == [] {
    } else {
      var before, last := inputs[..|inputs| - 1], inputs[|inputs| - 1];
      var l := Run(c, from, before).link;
      NumberedRun(c, from, before);
      OnlyTapsIssue(c, l, last, id);
      CountsAdd(Run(c, from, before).effects, Next(c, l, last).effects, id);
      if last.SendTap? && id == CorrelationId(c.session, last.command, l.taps + 1) {
        NumbersAreFresh(c, from, before, last.command, l.taps + 1);
      } else {
        IssuedOnce(c, from, before, id);
      }
    }
  }

  /**
   * In every run of a new link, every correlation id is given out at most once, and a tap that was given out has been
   * answered once or is pending, never both and never twice; nothing else is ever answered.
   */
  lemma EveryTapSettlesOnce(c: Config, now: int, url: Option<string>, token: Option<string>, inputs: seq<Input>,
                            id: string)
    ensures var run := Run(c, Start(now, url, token), inputs);
      && Issues(run.effects, id) <= 1
      && Answers(run.effects, id) + Waiting(run.link, id) == Issues(run.effects, id)
  {
    assert Timed(Start(now, url, token));
    IssuedOnce(c, Start(now, url, token), inputs, id);
    FairRun(c, Start(now, url, token), inputs, id);
  }
}
