/**
 * What the promise of a tap is resolved with: the frame itself, or a rejection that says why
 * (gamemode-kit/src/link.ts).
 */
module LinkAnswers {
  import opened Wrappers
  import opened Ordered
  import opened Link
  import opened LinkTaps

  /** A rejection made on this side. */
  function Rejection(id: string, command: string, code: Code): Answer {
    Answer(id, command, Rejected, Some(code), None, None)
  }

  /** Once closed for good, the link holds no socket. */
  ghost predicate ClosedHoldsNone(l: Link) {
    l.closed ==> l.socket.None?
  }

  lemma {:induction false} ClosedRun(c: Config, from: Link, inputs: seq<Input>)
    requires ClosedHoldsNone(from)
    ensures ClosedHoldsNone(Run(c, from, inputs).link)
  {
    if inputs == [] {
    } else {
      ClosedRun(c, from, inputs[..|inputs| - 1]);
      ClosedNext(c, Run(c, from, inputs[..|inputs| - 1]).link, inputs[|inputs| - 1]);
    }
  }

  lemma ClosedNext(c: Config, l: Link, input: Input)
    requires ClosedHoldsNone(l)
    ensures ClosedHoldsNone(Next(c, l, input).link)
  {
  }

  predicate Waits(l: Link, id: string) {
    Get(l.pending, id).Some?
  }

  /**
   * What settles a tap, and with what: a result frame of a socket with its handlers on settles the tap it names with
   * itself; the tap's own timer, a close of the held socket, `close()` and a refusal on the spot each with their code.
   */
  ghost predicate Answered(c: Config, l: Link, input: Input, id: string, answer: Answer) {
    match input
    case Heard(socket, Result(frame)) =>
      socket !in l.deaf && id == frame.correlationId && Waits(l, id) && answer == frame
    case TapTimesOut(tap) =>
      id == tap && Waits(l, id) && answer == Rejection(id, Get(l.pending, id).value.command, Unavailable)
    case Hanged(socket, code) =>
      && socket !in l.deaf && l.socket.Some? && l.socket.value.id == socket && Waits(l, id)
      && answer == Rejection(id, NamedIn(id), if code == 4000 then NotLive else Unavailable)
    case Close => Waits(l, id) && answer == Rejection(id, NamedIn(id), Unavailable)
    case SendTap(command, args, ready) =>
      && id == CorrelationId(c.session, command, l.taps + 1)
      && !(l.status == Open && l.socket.Some? && ready)
      && answer == Rejection(id, command, if l.status == Ended then NotLive else Unavailable)
    case _ => false
  }

  lemma {:induction false} FlushSays(pending: Record<Tap>, code: Code, id: string, answer: Answer)
    ensures Settled(id, answer) in Flushed(pending, code)
       <==> Get(pending, id).Some? && answer == Rejection(id, NamedIn(id), code)
  {
    if pending == [] {
    } else {
      FlushSays(pending[1..], code, id, answer);
    }
  }

  lemma DialSettlesNothing(c: Config, l: Link, dials: bool)
    ensures forall e <- Dial(c, l, dials).effects :: !e.Settled?
  {
  }

  lemma LostSays(c: Config, l: Link, code: int, id: string, answer: Answer)
    requires !l.closed
    ensures Settled(id, answer) in Lost(c, l, code).effects
       <==> Get(l.pending, id).Some?
            && answer == Rejection(id, NamedIn(id), if code == 4000 then NotLive else Unavailable)
  {
    FlushSays(l.pending, Unavailable, id, answer);
    FlushSays(l.pending, NotLive, id, answer);
  }

  lemma HangedSays(c: Config, l: Link, socket: nat, code: int, id: string, answer: Answer)
    requires ClosedHoldsNone(l)
    ensures Settled(id, answer) in Next(c, l, Hanged(socket, code)).effects
       <==> Answered(c, l, Hanged(socket, code), id, answer)
  {
    if l.socket.Some? && l.socket.value.id == socket {
      LostSays(c, l.(socket := None, closeCode := Some(code), hello := None), code, id, answer);
    }
  }

  lemma CloseSays(c: Config, l: Link, id: string, answer: Answer)
    ensures Settled(id, answer) in Next(c, l, Close).effects <==> Answered(c, l, Close, id, answer)
  {
    FlushSays(l.pending, Unavailable, id, answer);
  }

  lemma NextSays(c: Config, l: Link, input: Input, id: string, answer: Answer)
    requires ClosedHoldsNone(l) && TimedAt(l, id)
    ensures Settled(id, answer) in Next(c, l, input).effects <==> Answered(c, l, input, id, answer)
  {
    match input
    case Reopen(dials) =>
      var hung := HangUp(l);
      DialSettlesNothing(c, hung.link.(attempt := 0, closeCode := None), dials);
    case RetryFires(dials) => DialSettlesNothing(c, l.(retry := None), dials);
    case Hanged(socket, code) => HangedSays(c, l, socket, code, id, answer);
    case Close => CloseSays(c, l, id, answer);
    case _ =>
  }

  /** Over every run of a new link, the next input settles exactly these promises with exactly these answers. */
  lemma EveryAnswerIsMeant(c: Config, now: int, url: Option<string>, token: Option<string>, inputs: seq<Input>,
                           input: Input, id: string, answer: Answer)
    ensures var l := Run(c, Start(now, url, token), inputs).link;
      Settled(id, answer) in Next(c, l, input).effects <==> Answered(c, l, input, id, answer)
  {
    var start := Start(now, url, token);
    assert Timed(start);
    ClosedRun(c, start, inputs);
    TimedRun(c, start, inputs);
    assert TimedAt(Run(c, start, inputs).link, id);
    NextSays(c, Run(c, start, inputs).link, input, id, answer);
  }

  /** A pending tap has the command it was sent with, so a timer's rejection names that. */
  lemma PendingIsTheTapSent(c: Config, now: int, url: Option<string>, token: Option<string>, inputs: seq<Input>, k: nat)
    requires k < |inputs| && inputs[k].SendTap?
    ensures var start := Start(now, url, token);
      var sent, l := Run(c, start, inputs[..k]).link, Run(c, start, inputs).link;
      var id := CorrelationId(c.session, inputs[k].command, sent.taps + 1);
      Waits(l, id) ==> Get(l.pending, id).value.command == inputs[k].command
  {
    var start := Start(now, url, token);
    var sent, l := Run(c, start, inputs[..k]).link, Run(c, start, inputs).link;
    var id := CorrelationId(c.session, inputs[k].command, sent.taps + 1);
    NumberedRun(c, start, inputs);
    if Waits(l, id) {
      GetIsMember(l.pending, id);
      var tap := Get(l.pending, id).value;
      var i :| 0 <= i < |l.pending| && l.pending[i] == (id, tap);
      IdsAreDistinct(c.session, tap.command, tap.number, inputs[k].command, sent.taps + 1);
    }
  }

  // ---- What goes out

  /** A tap on an open link goes out over the held socket as one command frame of its own id; no other input does. */
  lemma CommandsAreTheTaps(c: Config, l: Link, input: Input, socket: nat, id: string, command: string, args: string)
    ensures Sent(socket, SayCommand(id, command, args)) in Next(c, l, input).effects
       <==> && input.SendTap? && input.ready && input.command == command && input.args == args
            && l.status == Open && l.socket.Some? && l.socket.value.id == socket
            && id == CorrelationId(c.session, command, l.taps + 1)
  {
    FlushSendsNothing(l.pending, Unavailable);
    FlushSendsNothing(l.pending, NotLive);
    match input
    case Hanged(gone, code) => LostSendsNothing(c, l, gone, code);
    case Close =>
    case _ =>
  }

  /** A socket that opens is greeted with the token it was dialled with, and nothing else greets. */
  lemma GreetingsAreOfSocketsThatOpen(c: Config, l: Link, input: Input, socket: nat, protocol: int, token: string)
    ensures Sent(socket, SayHello(protocol, token)) in Next(c, l, input).effects
       <==> && input == Opened(socket) && socket !in l.deaf
            && l.socket.Some? && l.socket.value.token == token && protocol == 1
  {
    FlushSendsNothing(l.pending, Unavailable);
    FlushSendsNothing(l.pending, NotLive);
  }

  /** A push is passed on as it came, from a socket with its handlers on, and from nowhere else. */
  lemma PushesArePassedOn(c: Config, l: Link, input: Input, data: string)
    ensures Pushed(data) in Next(c, l, input).effects
       <==> input.Heard? && input.frame == Push(data) && input.id !in l.deaf
  {
    FlushSendsNothing(l.pending, Unavailable);
    FlushSendsNothing(l.pending, NotLive);
  }

  /** A socket is hung up by a reopen or a close, when it is held. */
  lemma HangUpsAreOfTheHeld(c: Config, l: Link, input: Input, id: nat)
    ensures HungUp(id) in Next(c, l, input).effects
       <==> (input.Reopen? || input.Close?) && l.socket.Some? && l.socket.value.id == id
  {
    FlushSendsNothing(l.pending, Unavailable);
    FlushSendsNothing(l.pending, NotLive);
  }

  /** What is dialled is the target of the URL there is, when there is a token, no close, and it works out. */
  lemma DialsAreOfTheTarget(c: Config, l: Link, input: Input, id: nat, target: string)
    ensures Dialled(id, target) in Next(c, l, input).effects
       <==> && (input == Reopen(true) || input == RetryFires(true)) && !l.closed && id == l.dialled
            && l.url.Some? && l.url.value != "" && l.token.Some? && l.token.value != ""
            && c.target(l.url.value) == Some(target)
  {
    FlushSendsNothing(l.pending, Unavailable);
    FlushSendsNothing(l.pending, NotLive);
  }

  lemma {:induction false} FlushSendsNothing(pending: Record<Tap>, code: Code)
    ensures forall e <- Flushed(pending, code) :: e.Settled?
  {
    if pending == [] {
    } else {
      FlushSendsNothing(pending[1..], code);
    }
  }

  lemma LostSendsNothing(c: Config, l: Link, id: nat, code: int)
    ensures forall e <- Next(c, l, Hanged(id, code)).effects :: !e.Sent?
  {
    FlushSendsNothing(l.pending, Unavailable);
    FlushSendsNothing(l.pending, NotLive);
  }
}
