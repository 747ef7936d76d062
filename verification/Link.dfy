/**
 * The widget's own socket to the orchestrator, gamemode-kit/src/link.ts, as a state machine over what its environment
 * can do: a socket opens, says something or closes, a timer fires, the inputs change, the widget taps or hangs up.
 */
module Link {
  import opened Numbers
  import opened Wrappers
  import opened Ordered
  import opened Texts

  const COMMAND_TIMEOUT_MS := 20000
  const MATCH_ENDED := 4000
  const PROTOCOL := 1

  datatype Status = Watching | Connecting | Open | Reconnecting | Ended | Refused | Closed

  // ---- What crosses the socket

  datatype Charges = Unlimited | Left(count: int)

  datatype Verb = Verb(name: string, cooldownMs: int, charges: Charges, readyInMs: int)

  /** A declared verb as the buttons draw it. */
  datatype Button = Button(verb: Verb, readyAt: int)

  datatype Outcome = Applied | Rejected

  datatype Code = Unavailable | NotLive | RateLimited | Other(word: string)

  datatype Answer = Answer(
    correlationId: string,
    command: string,
    status: Outcome,
    code: Option<Code>,
    cooldownMs: Option<int>,
    charges: Option<Charges>)

  /** What a message parses to; Unknown is text that is no JSON object, or one of another type. */
  datatype Frame =
    | Hello(verbs: seq<Verb>)
    | Event(envelope: string)
    | Push(data: string)
    | Result(answer: Answer)
    | Unknown

  datatype Message =
    | SayHello(protocol: int, token: string)
    | SayCommand(correlationId: string, command: string, args: string)

  // ---- The state

  datatype Socket = Socket(id: nat, token: string)

  /** A tap nobody has answered, and which one it was. */
  datatype Tap = Tap(number: nat, command: string)

  /** The timer of a tap, which gives up on it: the command its callback names, and when it is due. */
  datatype Timer = Timer(command: string, due: int)

  datatype Config = Config(session: string, initialMs: int, maxMs: int, target: string -> Option<string>)

  datatype Link = Link(
    now: int,
    url: Option<string>,
    token: Option<string>,
    status: Status,
    hello: Option<seq<Verb>>,
    commands: seq<Button>,
    lastEvent: Option<string>,
    closeCode: Option<int>,
    taps: nat,
    pending: Record<Tap>,
    timers: Record<Timer>,
    socket: Option<Socket>,
    dialled: nat,
    deaf: set<nat>,
    gone: set<nat>,
    attempt: nat,
    retry: Option<int>,
    closed: bool)

  /** What the link does that the outside sees. */
  datatype Effect =
    | Dialled(id: nat, target: string)
    | DialFailed
    | HungUp(id: nat)
    | Sent(id: nat, message: Message)
    | Armed(delay: int)
    | Tapped(correlationId: string)
    | Settled(correlationId: string, answer: Answer)
    | Told(envelope: string)
    | Pushed(data: string)

  datatype Step = Step(link: Link, effects: seq<Effect>)

  /** What the environment can do. Whether a dial works out is the environment's answer when one is made. */
  datatype Input =
    | Elapse(ms: nat)
    | Supply(url: Option<string>, token: Option<string>)
    | Reopen(dials: bool)
    | Opened(id: nat)
    | Heard(id: nat, frame: Frame)
    | Hanged(id: nat, code: int)
    | RetryFires(dials: bool)
    | TapTimesOut(correlationId: string)
    | SendTap(command: string, args: string, ready: bool)
    | Close

  function Start(now: int, url: Option<string>, token: Option<string>): Link {
    Link(now, url, token, Watching, None, [], None, None, 0, [], [], None, 0, {}, {}, 0, None, false)
  }

  // ---- Words and numbers

  function Digit(n: nat): (c: char)
    requires n < 10
    ensures c != ':'
  {
    '0' + n as char
  }

  /** A number in decimal. */
  function Decimal(n: nat): string {
    if n < 10 then [Digit(n)] else Decimal(n / 10) + [Digit(n % 10)]
  }

  function CorrelationId(session: string, command: string, tap: nat): string {
    session + ":" + command + ":" + Decimal(tap)
  }

  /** `correlationId.split(':')[1] ?? ''`. */
  function NamedIn(correlationId: string): string {
    var parts := SplitOn(correlationId, ':');
    if |parts| > 1 then parts[1] else ""
  }

  function Reject(correlationId: string, command: string, code: Code): Answer {
    Answer(correlationId, command, Rejected, Some(code), None, None)
  }

  function Pow2(n: nat): nat {
    if n == 0 then 1 else 2 * Pow2(n - 1)
  }

  /** The backoff: doubled each time from the initial delay up to the maximum. */
  function Delay(c: Config, attempt: nat): int {
    Min(c.maxMs, c.initialMs * Pow2(attempt))
  }

  // ---- The closures

  function Flushed(pending: Record<Tap>, code: Code): seq<Effect> {
    if pending == [] then []
    else
      [Settled(pending[0].0, Reject(pending[0].0, NamedIn(pending[0].0), code))] + Flushed(pending[1..], code)
  }

  /** The timers left when every pending tap's is cancelled. */
  function Cancelled(timers: Record<Timer>, pending: Record<Tap>): Record<Timer>
    decreases |pending|
  {
    if pending == [] then timers else Cancelled(Delete(timers, pending[0].0), pending[1..])
  }

  function FlushPending(l: Link, code: Code): Step {
    Step(l.(pending := [], timers := Cancelled(l.timers, l.pending)), Flushed(l.pending, code))
  }

  function SettleButton(b: Button, a: Answer, now: int): Button {
    if b.verb.name != a.command then b
    else
      Button(
        match a.charges { case None => b.verb case Some(charges) => b.verb.(charges := charges) },
        if a.cooldownMs.Some? && a.code != Some(RateLimited) then now + a.cooldownMs.value
        else if a.status == Applied && b.verb.cooldownMs > 0 then now + b.verb.cooldownMs
        else b.readyAt)
  }

  function SettleCommands(buttons: seq<Button>, a: Answer, now: int): seq<Button> {
    if buttons == [] then [] else [SettleButton(buttons[0], a, now)] + SettleCommands(buttons[1..], a, now)
  }

  function Drawn(verbs: seq<Verb>, now: int): seq<Button> {
    if verbs == [] then [] else [Button(verbs[0], now + verbs[0].readyInMs)] + Drawn(verbs[1..], now)
  }

  function OnFrame(l: Link, frame: Frame): Step {
    match frame
    case Hello(verbs) =>
      Step(l.(hello := Some(verbs), commands := Drawn(verbs, l.now), status := Open, attempt := 0), [])
    case Event(envelope) => Step(l.(lastEvent := Some(envelope)), [Told(envelope)])
    case Push(data) => Step(l, [Pushed(data)])
    case Result(a) =>
      var settled := l.(commands := SettleCommands(l.commands, a, l.now));
      if Get(l.pending, a.correlationId).None? then Step(settled, [])
      else
        Step(settled.(pending := Delete(l.pending, a.correlationId), timers := Delete(l.timers, a.correlationId)),
             [Settled(a.correlationId, a)])
    case Unknown => Step(l, [])
  }

  function HangUp(l: Link): Step {
    match l.socket
    case None => Step(l.(retry := None), [])
    case Some(s) => Step(l.(retry := None, socket := None, deaf := l.deaf + {s.id}), [HungUp(s.id)])
  }

  function ScheduleRetry(c: Config, l: Link): Step {
    if l.closed then Step(l, [])
    else
      var delay := Delay(c, l.attempt);
      Step(l.(status := Reconnecting, attempt := l.attempt + 1, retry := Some(l.now + delay)), [Armed(delay)])
  }

  predicate Given(s: Option<string>) { s.Some? && s.value != "" }

  function Dial(c: Config, l: Link, dials: bool): Step {
    if l.closed then Step(l, [])
    else if !Given(l.url) || !Given(l.token) then Step(l.(status := Watching), [])
    else
      match c.target(l.url.value)
      case None => Step(l.(status := Refused), [])
      case Some(target) => Try(c, l, l.token.value, target, dials)
  }

  /** One attempt at a target; whether it works out is the environment's answer. */
  function Try(c: Config, l: Link, token: string, target: string, dials: bool): Step {
    var tried := l.(status := if l.attempt == 0 then Connecting else Reconnecting, hello := None);
    if !dials then
      var retried := ScheduleRetry(c, tried);
      Step(retried.link, [DialFailed] + retried.effects)
    else
      Step(tried.(socket := Some(Socket(l.dialled, token)), dialled := l.dialled + 1), [Dialled(l.dialled, target)])
  }

  function OnClose(c: Config, l: Link, id: nat, code: int): Step {
    if l.socket.None? || l.socket.value.id != id then Step(l, [])
    else Lost(c, l.(socket := None, closeCode := Some(code), hello := None), code)
  }

  /** What a close code decides. */
  function Lost(c: Config, lost: Link, code: int): Step {
    if lost.closed then FlushPending(lost.(status := Closed), Unavailable)
    else if code == MATCH_ENDED then FlushPending(lost.(status := Ended), NotLive)
    else if 4000 <= code < 5000 then FlushPending(lost.(status := Refused), Unavailable)
    else
      var flushed := FlushPending(lost, Unavailable);
      var retried := ScheduleRetry(c, flushed.link);
      Step(retried.link, flushed.effects + retried.effects)
  }

  function DoReopen(c: Config, l: Link, dials: bool): Step {
    var hung := HangUp(l);
    var redialled := Dial(c, hung.link.(attempt := 0, closeCode := None), dials);
    Step(redialled.link, hung.effects + redialled.effects)
  }

  function DoSend(c: Config, l: Link, command: string, args: string, ready: bool): Step {
    var tapped := l.(taps := l.taps + 1);
    var id := CorrelationId(c.session, command, l.taps + 1);
    if l.status != Open || l.socket.None? || !ready then
      Step(tapped, [Tapped(id), Settled(id, Reject(id, command, if l.status == Ended then NotLive else Unavailable))])
    else
      Step(tapped.(pending := Put(l.pending, id, Tap(l.taps + 1, command)),
                   timers := Put(l.timers, id, Timer(command, l.now + COMMAND_TIMEOUT_MS))),
           [Tapped(id), Sent(l.socket.value.id, SayCommand(id, command, args))])
  }

  function DoClose(l: Link): Step {
    var hung := HangUp(l.(closed := true));
    var flushed := FlushPending(hung.link, Unavailable);
    Step(flushed.link.(status := Closed), hung.effects + flushed.effects)
  }

  /** A timer that fires answers its tap whether anybody still waits or not; one that was cancelled does not fire. */
  function Timeout(l: Link, correlationId: string): Step {
    match Get(l.timers, correlationId)
    case None => Step(l, [])
    case Some(timer) =>
      Step(l.(pending := Delete(l.pending, correlationId), timers := Delete(l.timers, correlationId)),
           [Settled(correlationId, Reject(correlationId, timer.command, Unavailable))])
  }

  // ---- One step, and runs

  function Next(c: Config, l: Link, input: Input): Step {
    match input
    case Elapse(ms) => Step(l.(now := l.now + ms), [])
    case Supply(url, token) => Step(l.(url := url, token := token), [])
    case Reopen(dials) => DoReopen(c, l, dials)
    case Opened(id) =>
      if id in l.deaf || l.socket.None? then Step(l, [])
      else Step(l, [Sent(id, SayHello(PROTOCOL, l.socket.value.token))])
    case Heard(id, frame) => if id in l.deaf then Step(l, []) else OnFrame(l, frame)
    case Hanged(id, code) =>
      var after := if id in l.deaf then Step(l, []) else OnClose(c, l, id, code);
      Step(after.link.(gone := after.link.gone + {id}), after.effects)
    case RetryFires(dials) => Dial(c, l.(retry := None), dials)
    case TapTimesOut(id) => Timeout(l, id)
    case SendTap(command, args, ready) => DoSend(c, l, command, args, ready)
    case Close => DoClose(l)
  }

  /**
   * What the environment keeps to: a socket says nothing before it was dialled or after its close event, and a timer
   * fires only when armed, uncancelled and due.
   */
  predicate Allowed(l: Link, input: Input) {
    match input
    case Opened(id) => id < l.dialled && id !in l.gone
    case Heard(id, _) => id < l.dialled && id !in l.gone
    case Hanged(id, _) => id < l.dialled && id !in l.gone
    case RetryFires(_) => l.retry.Some? && l.retry.value <= l.now
    case TapTimesOut(id) => Get(l.timers, id).Some? && Get(l.timers, id).value.due <= l.now
    case _ => true
  }

  /** The last input last. */
  function Run(c: Config, from: Link, inputs: seq<Input>): Step {
    if inputs == [] then Step(from, [])
    else
      var before := Run(c, from, inputs[..|inputs| - 1]);
      var step := Next(c, before.link, inputs[|inputs| - 1]);
      Step(step.link, before.effects + step.effects)
  }

  predicate Possible(c: Config, from: Link, inputs: seq<Input>) {
    inputs == [] ||
    (Possible(c, from, inputs[..|inputs| - 1])
     && Allowed(Run(c, from, inputs[..|inputs| - 1]).link, inputs[|inputs| - 1]))
  }
}
