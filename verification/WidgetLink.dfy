/** The link as its closures change it in place, held to the state machine of module Link. */
module WidgetLink {
  import opened Wrappers
  import opened Lists
  import opened Ordered
  import opened Spec = Link

  class WidgetLink {
    const config: Config
    var now: int
    var url: Option<string>
    var token: Option<string>
    var status: Status
    var hello: Option<seq<Verb>>
    var commands: seq<Button>
    var lastEvent: Option<string>
    var closeCode: Option<int>
    var taps: nat
    var pending: Record<Tap>
    /** The armed timers of taps, each with what its callback names. */
    var timers: Record<Timer>
    var socket: Option<Socket>
    var dialled: nat
    var deaf: set<nat>
    var gone: set<nat>
    var attempt: nat
    var retry: Option<int>
    var closed: bool
    /** What went out: to sockets, to promises, to listeners, to the clock. */
    var log: seq<Effect>

    function State(): Link
      reads this
    {
      Link.Link(now, url, token, status, hello, commands, lastEvent, closeCode, taps, pending, timers, socket,
                dialled, deaf, gone, attempt, retry, closed)
    }

    /** This step, and nothing else, has happened since. */
    twostate predicate Took(step: Step)
      reads this
    {
      State() == step.link && log == old(log) + step.effects
    }

    /** A new link opens at once: the watch on its inputs runs immediately. */
    constructor (config: Config, now: int, url: Option<string>, token: Option<string>, dials: bool)
      ensures this.config == config
      ensures State() == DoReopen(config, Start(now, url, token), dials).link
      ensures log == DoReopen(config, Start(now, url, token), dials).effects
    {
      this.config, this.now, this.url, this.token := config, now, url, token;
      status, hello, commands, lastEvent, closeCode := Watching, None, [], None, None;
      taps, pending, timers, socket, dialled, deaf, gone := 0, [], [], None, 0, {}, {};
      attempt, retry, closed := 0, None, false;
      log := [];
      new;
      Reopened(dials);
    }

    method FlushPending(code: Code)
      modifies this`pending, this`timers, this`log
      ensures Took(Spec.FlushPending(old(State()), code))
    {
      for i := 0 to |pending|
        invariant pending == old(pending)
        invariant log + Flushed(pending[i..], code) == old(log) + Flushed(pending, code)
        invariant Cancelled(timers, pending[i..]) == Cancelled(old(timers), pending)
      {
        var id := pending[i].0;
        CutAt(pending, i);
        var settled := Settled(id, Reject(id, NamedIn(id), code));
        Regroup(log, [settled], Flushed(pending[i + 1..], code));
        timers := Delete(timers, id);
        log := log + [settled];
      }
      pending := [];
    }

    method OnHello(verbs: seq<Verb>)
      modifies this`hello, this`commands, this`status, this`attempt
      ensures Took(Spec.OnFrame(old(State()), Hello(verbs)))
    {
      hello := Some(verbs);
      commands := Drawn(verbs, now);
      status := Open;
      attempt := 0;
    }

    method OnResult(answer: Answer)
      modifies this`commands, this`pending, this`timers, this`log
      ensures Took(Spec.OnFrame(old(State()), Result(answer)))
    {
      commands := SettleCommands(commands, answer, now);
      if Get(pending, answer.correlationId).Some? {
        SettleTap(answer);
      }
    }

    /** Off the map, its timer cancelled or spent, its promise resolved. */
    method SettleTap(answer: Answer)
      modifies this`pending, this`timers, this`log
      ensures var id := answer.correlationId;
        Took(Step(old(State()).(pending := Delete(old(pending), id), timers := Delete(old(timers), id)),
                  [Settled(id, answer)]))
    {
      pending := Delete(pending, answer.correlationId);
      timers := Delete(timers, answer.correlationId);
      log := log + [Settled(answer.correlationId, answer)];
    }

    method OnFrame(frame: Frame)
      modifies this`hello, this`commands, this`status, this`attempt, this`lastEvent, this`pending, this`timers, this`log
      ensures Took(Spec.OnFrame(old(State()), frame))
    {
      match frame
      case Hello(verbs) =>
        OnHello(verbs);
      case Event(envelope) =>
        lastEvent := Some(envelope);
        log := log + [Told(envelope)];
      case Push(data) =>
        log := log + [Pushed(data)];
      case Result(answer) =>
        OnResult(answer);
      case Unknown =>
    }

    method HangUp()
      modifies this`retry, this`socket, this`deaf, this`log
      ensures Took(Spec.HangUp(old(State())))
    {
      retry := None;
      if socket.Some? {
        var s := socket.value;
        socket := None;
        deaf := deaf + {s.id};
        log := log + [HungUp(s.id)];
      }
    }

    method ScheduleRetry()
      modifies this`status, this`attempt, this`retry, this`log
      ensures Took(Spec.ScheduleRetry(config, old(State())))
    {
      if closed {
        return;
      }
      status := Reconnecting;
      var delay := Delay(config, attempt);
      attempt := attempt + 1;
      retry := Some(now + delay);
      log := log + [Armed(delay)];
    }

    method Dial(dials: bool)
      modifies this`status, this`hello, this`socket, this`dialled, this`attempt, this`retry, this`log
      ensures Took(Spec.Dial(config, old(State()), dials))
    {
      if closed {
        return;
      }
      if !Given(url) || !Given(token) {
        status := Watching;
        return;
      }
      var target := config.target(url.value);
      if target.None? {
        status := Refused;
        return;
      }
      Try(token.value, target.value, dials);
    }

    method Try(token: string, target: string, dials: bool)
      modifies this`status, this`hello, this`socket, this`dialled, this`attempt, this`retry, this`log
      ensures Took(Spec.Try(config, old(State()), token, target, dials))
    {
      status := if attempt == 0 then Connecting else Reconnecting;
      hello := None;
      if !dials {
        DialFails();
        return;
      }
      HoldNew(token, target);
    }

    method DialFails()
      modifies this`status, this`attempt, this`retry, this`log
      ensures var retried := Spec.ScheduleRetry(config, old(State()));
        Took(Step(retried.link, [DialFailed] + retried.effects))
    {
      ghost var before, retried := log, Spec.ScheduleRetry(config, State());
      log := log + [DialFailed];
      ScheduleRetry();
      Regroup(before, [DialFailed], retried.effects);
    }

    /** The socket a dial that works out gives. */
    method HoldNew(token: string, target: string)
      modifies this`socket, this`dialled, this`log
      ensures var id := old(dialled);
        Took(Step(old(State()).(socket := Some(Socket(id, token)), dialled := id + 1), [Dialled(id, target)]))
    {
      socket := Some(Socket(dialled, token));
      log := log + [Dialled(dialled, target)];
      dialled := dialled + 1;
    }

    /** `reopen`: what the watch on the inputs does. */
    method Reopened(dials: bool)
      modifies this
      ensures Took(Next(config, old(State()), Reopen(dials)))
    {
      HangUp();
      attempt := 0;
      closeCode := None;
      Dial(dials);
    }

    /** `onclose` of the socket `id`, if nobody took the handler off. */
    method OnClosed(id: nat, code: int)
      requires id !in deaf
      modifies this
      ensures Took(OnClose(config, old(State()), id, code))
    {
      if socket.None? || socket.value.id != id {
        return;
      }
      socket := None;
      closeCode := Some(code);
      hello := None;
      Decide(code);
    }

    /** What a close code decides. */
    method Decide(code: int)
      modifies this
      ensures Took(Lost(config, old(State()), code))
    {
      if closed {
        status := Closed;
        FlushPending(Unavailable);
        return;
      }
      if code == MATCH_ENDED {
        status := Ended;
        FlushPending(NotLive);
        return;
      }
      if 4000 <= code < 5000 {
        status := Refused;
        FlushPending(Unavailable);
        return;
      }
      FlushPending(Unavailable);
      ScheduleRetry();
    }

    /** A tap; the promise it returns is the one its correlation id names. */
    method Send(command: string, args: string, ready: bool) returns (correlationId: string)
      modifies this`taps, this`pending, this`timers, this`log
      ensures Took(Next(config, old(State()), SendTap(command, args, ready)))
      ensures correlationId == CorrelationId(config.session, command, taps)
    {
      taps := taps + 1;
      correlationId := CorrelationId(config.session, command, taps);
      if status != Open || socket.None? || !ready {
        var code := if status == Ended then NotLive else Unavailable;
        log := log + [Tapped(correlationId), Settled(correlationId, Reject(correlationId, command, code))];
        return;
      }
      SendOver(socket.value.id, correlationId, command, args);
    }

    /** The frame of the latest tap, which waits for its answer from now on. */
    method SendOver(id: nat, correlationId: string, command: string, args: string)
      modifies this`pending, this`timers, this`log
      ensures var tap, timer := Tap(taps, command), Timer(command, now + COMMAND_TIMEOUT_MS);
        Took(Step(old(State()).(pending := Put(old(pending), correlationId, tap),
                                timers := Put(old(timers), correlationId, timer)),
                  [Tapped(correlationId), Sent(id, SayCommand(correlationId, command, args))]))
    {
      timers := Put(timers, correlationId, Timer(command, now + COMMAND_TIMEOUT_MS));
      pending := Put(pending, correlationId, Tap(taps, command));
      log := log + [Tapped(correlationId), Sent(id, SayCommand(correlationId, command, args))];
    }

    method HangUpForGood()
      modifies this
      ensures Took(Next(config, old(State()), Close))
    {
      ghost var from, before := State(), log;
      closed := true;
      HangUp();
      ghost var hung := Spec.HangUp(from.(closed := true));
      FlushPending(Unavailable);
      status := Closed;
      Regroup(before, hung.effects, Spec.FlushPending(hung.link, Unavailable).effects);
    }

    /** The timer of the tap `correlationId`. */
    method TapTimedOut(correlationId: string)
      modifies this`pending, this`timers, this`log
      ensures Took(Next(config, old(State()), TapTimesOut(correlationId)))
    {
      var timer := Get(timers, correlationId);
      if timer.Some? {
        SettleTap(Reject(correlationId, timer.value.command, Unavailable));
      }
    }

    method Elapses(ms: nat)
      modifies this`now
      ensures Took(Next(config, old(State()), Elapse(ms)))
    {
      now := now + ms;
    }

    method Supplied(newUrl: Option<string>, newToken: Option<string>)
      modifies this`url, this`token
      ensures Took(Next(config, old(State()), Supply(newUrl, newToken)))
    {
      url, token := newUrl, newToken;
    }

    /** `onopen` of the socket `id`: the greeting. */
    method OnOpen(id: nat)
      modifies this`log
      ensures Took(Next(config, old(State()), Opened(id)))
    {
      if id !in deaf && socket.Some? {
        log := log + [Sent(id, SayHello(PROTOCOL, socket.value.token))];
      }
    }

    method OnHanged(id: nat, code: int)
      modifies this
      ensures Took(Next(config, old(State()), Hanged(id, code)))
    {
      if id !in deaf {
        OnClosed(id, code);
      }
      gone := gone + {id};
    }

    /** The retry timer, which is spent before it dials. */
    method OnRetry(dials: bool)
      modifies this
      ensures Took(Next(config, old(State()), RetryFires(dials)))
    {
      retry := None;
      Dial(dials);
    }

    /** Whatever the environment does next. */
    method Take(input: Input)
      modifies this
      ensures Took(Next(config, old(State()), input))
    {
      match input
      case Elapse(ms) => Elapses(ms);
      case Supply(newUrl, newToken) => Supplied(newUrl, newToken);
      case Reopen(dials) => Reopened(dials);
      case Opened(id) => OnOpen(id);
      case Heard(id, frame) =>
        if id !in deaf {
          OnFrame(frame);
        }
      case Hanged(id, code) => OnHanged(id, code);
      case RetryFires(dials) => OnRetry(dials);
      case TapTimesOut(id) => TapTimedOut(id);
      case SendTap(command, args, ready) =>
        var _ := Send(command, args, ready);
      case Close => HangUpForGood();
    }

    /** A whole run, input by input, leaves the state and the log of the model's run. */
    method TakeAll(inputs: seq<Input>)
      modifies this
      ensures Took(Run(config, old(State()), inputs))
    {
      ghost var from, done := State(), Step(State(), []);
      for i := 0 to |inputs|
        invariant done == Run(config, from, inputs[..i]) && State() == done.link && log == old(log) + done.effects
      {
        OneMoreInput(config, from, inputs, i);
        Take(inputs[i]);
        ghost var step := Next(config, done.link, inputs[i]);
        Regroup(old(log), done.effects, step.effects);
        done := Step(step.link, done.effects + step.effects);
      }
      assert inputs[..|inputs|] == inputs;
    }
  }

  lemma OneMoreInput(c: Config, from: Link, inputs: seq<Input>, i: nat)
    requires i < |inputs|
    ensures var before := Run(c, from, inputs[..i]);
      var step := Next(c, before.link, inputs[i]);
      Run(c, from, inputs[..i + 1]) == Step(step.link, before.effects + step.effects)
  {
    assert inputs[..i + 1][..i] == inputs[..i] && inputs[..i + 1][i] == inputs[i];
  }
}
