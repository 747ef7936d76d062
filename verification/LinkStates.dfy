/** What the link shows after any run: the last thing that happened decides it (gamemode-kit/src/link.ts). */
module LinkStates {
  import opened Wrappers
  import opened Link
  import opened LinkOwnership
  import LinkTimes

  // ---- The state

  ghost predicate HoldsSocket(l: Link, id: nat) {
    l.socket.Some? && l.socket.value.id == id
  }

  /** Where an attempt to dial leads, given the inputs there are. */
  function Dialling(c: Config, l: Link, first: Status): Status {
    if l.url == None || l.url == Some("") || l.token == None || l.token == Some("") then Watching
    else if c.target(l.url.value) == None then Refused
    else first
  }

  function AfterClose(code: int): Status {
    if code == 4000 then Ended else if 4000 < code <= 4999 then Refused else Reconnecting
  }

  /** What one input makes of a state; nothing moves a closed link. */
  ghost function Moved(c: Config, l: Link, was: Status, input: Input): Status {
    if was == Closed then Closed
    else
      match input
      case Close => Closed
      case Hanged(id, code) => if HoldsSocket(l, id) then AfterClose(code) else was
      case Heard(id, frame) => if HoldsSocket(l, id) && frame.Hello? then Open else was
      case Reopen(dials) => Dialling(c, l, if dials then Connecting else Reconnecting)
      case RetryFires(_) => Dialling(c, l, Reconnecting)
      case _ => was
  }

  /** The state, read off what happened last. */
  ghost function StateBy(c: Config, from: Link, inputs: seq<Input>): Status {
    if inputs == [] then from.status
    else
      var before := inputs[..|inputs| - 1];
      Moved(c, Run(c, from, before).link, StateBy(c, from, before), inputs[|inputs| - 1])
  }

  ghost predicate ClosedIsClosed(l: Link) {
    l.closed <==> l.status == Closed
  }

  lemma StateDial(c: Config, l: Link, dials: bool)
    requires !l.closed
    ensures var after := Dial(c, l, dials).link;
      && !after.closed
      && after.status == Dialling(c, l, if dials && l.attempt == 0 then Connecting else Reconnecting)
  {
  }

  lemma StateHanged(c: Config, l: Link, id: nat, code: int)
    requires Owned(l) && ClosedIsClosed(l) && Allowed(l, Hanged(id, code))
    ensures var after := Next(c, l, Hanged(id, code)).link;
      after.status == Moved(c, l, l.status, Hanged(id, code)) && after.closed == l.closed
  {
  }

  lemma StateNext(c: Config, l: Link, input: Input)
    requires Owned(l) && ClosedIsClosed(l) && Allowed(l, input)
    ensures ClosedIsClosed(Next(c, l, input).link) && Next(c, l, input).link.status == Moved(c, l, l.status, input)
  {
    match input
    case Hanged(id, code) => StateHanged(c, l, id, code);
    case Reopen(dials) =>
      if !l.closed {
        StateDial(c, HangUp(l).link.(attempt := 0, closeCode := None), dials);
      }
    case RetryFires(dials) =>
      if !l.closed {
        StateDial(c, l.(retry := None), dials);
      }
    case _ =>
  }

  lemma {:induction false} StateRun(c: Config, from: Link, inputs: seq<Input>)
    requires Owned(from) && ClosedIsClosed(from) && Possible(c, from, inputs)
    ensures var l := Run(c, from, inputs).link;
      l.status == StateBy(c, from, inputs) && ClosedIsClosed(l)
  {
    if inputs == [] {
    } else {
      var before := inputs[..|inputs| - 1];
      StateRun(c, from, before);
      OwnedRun(c, from, before);
      StateNext(c, Run(c, from, before).link, inputs[|inputs| - 1]);
    }
  }

  /** In every run the state is what the last dial, welcome, close code or hang-up made it. */
  lemma StateIsTheLastWord(c: Config, now: int, url: Option<string>, token: Option<string>, inputs: seq<Input>)
    requires Possible(c, Start(now, url, token), inputs)
    ensures Run(c, Start(now, url, token), inputs).link.status == StateBy(c, Start(now, url, token), inputs)
  {
    StateRun(c, Start(now, url, token), inputs);
  }

  // ---- The clock, the inputs and the retry

  /** The inputs last supplied, the first ones before any are. */
  function Supplied(inputs: seq<Input>, url: Option<string>, token: Option<string>): (Option<string>, Option<string>) {
    if inputs == [] then (url, token)
    else
      match inputs[|inputs| - 1]
      case Supply(u, t) => (u, t)
      case _ => Supplied(inputs[..|inputs| - 1], url, token)
  }

  function Elapsed(inputs: seq<Input>): nat {
    if inputs == [] then 0
    else
      var last := inputs[|inputs| - 1];
      Elapsed(inputs[..|inputs| - 1]) + if last.Elapse? then last.ms else 0
  }

  lemma OthersSupplyNothing(c: Config, l: Link, input: Input)
    ensures var after := Next(c, l, input).link;
      && (!input.Supply? ==> after.url == l.url && after.token == l.token)
      && after.now == l.now + if input.Elapse? then input.ms else 0
  {
  }

  /** What is dialled and greeted with is what was supplied last, and nothing but time passing passes time. */
  lemma {:induction false} InputsAreTheLastSupplied(c: Config, now: int, url: Option<string>, token: Option<string>,
                                                    inputs: seq<Input>)
    ensures var l := Run(c, Start(now, url, token), inputs).link;
      (l.url, l.token) == Supplied(inputs, url, token) && l.now == now + Elapsed(inputs)
  {
    if inputs == [] {
    } else {
      var before := inputs[..|inputs| - 1];
      InputsAreTheLastSupplied(c, now, url, token, before);
      OthersSupplyNothing(c, Run(c, Start(now, url, token), before).link, inputs[|inputs| - 1]);
    }
  }

  /** A network close of the socket the link holds, and a dial that is made and fails. */
  ghost predicate Loses(c: Config, l: Link, input: Input) {
    match input
    case Hanged(id, code) => HoldsSocket(l, id) && !(4000 <= code <= 4999)
    case Reopen(dials) => !dials && Dialling(c, l, Reconnecting) == Reconnecting
    case RetryFires(dials) => !dials && Dialling(c, l, Reconnecting) == Reconnecting
    case _ => false
  }

  ghost predicate Arms(step: Step) {
    exists delay :: Armed(delay) in step.effects
  }

  /** Armed for as long from now as it is said, left alone, or gone. */
  ghost predicate RetryTold(l: Link, step: Step) {
    && (forall delay :: Armed(delay) in step.effects ==> step.link.retry == Some(l.now + delay))
    && (step.link.retry.Some? && !Arms(step) ==> step.link.retry == l.retry)
  }

  lemma RetryDial(c: Config, l: Link, dials: bool)
    requires l.retry.None?
    ensures var step := Dial(c, l, dials);
      && RetryTold(l, step)
      && (Arms(step) <==> !l.closed && !dials && Dialling(c, l, Reconnecting) == Reconnecting)
  {
    if !l.closed && !dials && Dialling(c, l, Reconnecting) == Reconnecting {
      assert Dial(c, l, dials).effects == [DialFailed, Armed(Delay(c, l.attempt))];
      assert Armed(Delay(c, l.attempt)) in Dial(c, l, dials).effects;
    }
  }

  lemma RetryLost(c: Config, l: Link, code: int)
    requires l.retry.None?
    ensures var step := Lost(c, l, code);
      && RetryTold(l, step)
      && (Arms(step) <==> !l.closed && !(4000 <= code <= 4999))
  {
    LinkTimes.FlushArmsNothing(l.pending, Unavailable);
    LinkTimes.FlushArmsNothing(l.pending, NotLive);
    if !l.closed && !(4000 <= code <= 4999) {
      assert Armed(Delay(c, l.attempt)) in Lost(c, l, code).effects;
    }
  }

  lemma RetryReopen(c: Config, l: Link, dials: bool)
    ensures var step := Next(c, l, Reopen(dials));
      RetryTold(l, step) && (Arms(step) <==> !l.closed && Loses(c, l, Reopen(dials)))
  {
    var hung := HangUp(l);
    var ready := hung.link.(attempt := 0, closeCode := None);
    RetryDial(c, ready, dials);
    forall delay
      ensures Armed(delay) in Next(c, l, Reopen(dials)).effects <==> Armed(delay) in Dial(c, ready, dials).effects
    {
    }
  }

  lemma RetryHanged(c: Config, l: Link, id: nat, code: int)
    requires Owned(l) && Allowed(l, Hanged(id, code))
    ensures var step := Next(c, l, Hanged(id, code));
      RetryTold(l, step) && (Arms(step) <==> !l.closed && Loses(c, l, Hanged(id, code)))
  {
    if HoldsSocket(l, id) {
      RetryLost(c, l.(socket := None, closeCode := Some(code), hello := None), code);
    }
  }

  lemma RetryClose(c: Config, l: Link)
    ensures RetryTold(l, Next(c, l, Close)) && !Arms(Next(c, l, Close))
  {
    LinkTimes.FlushArmsNothing(l.pending, Unavailable);
  }

  lemma RetryNext(c: Config, l: Link, input: Input)
    requires Owned(l) && Allowed(l, input)
    ensures var step := Next(c, l, input);
      RetryTold(l, step) && (Arms(step) <==> !l.closed && Loses(c, l, input))
  {
    match input
    case Hanged(id, code) => RetryHanged(c, l, id, code);
    case Reopen(dials) => RetryReopen(c, l, dials);
    case RetryFires(dials) => RetryDial(c, l.(retry := None), dials);
    case Close => RetryClose(c, l);
    case _ =>
  }

  /** A retry is armed by a network close and by a dial that fails, and by nothing else, and due that long from then. */
  lemma RetryIsDueAfterItsDelay(c: Config, now: int, url: Option<string>, token: Option<string>, inputs: seq<Input>,
                                input: Input)
    requires Possible(c, Start(now, url, token), inputs)
    requires Allowed(Run(c, Start(now, url, token), inputs).link, input)
    ensures var l := Run(c, Start(now, url, token), inputs).link;
      var step := Next(c, l, input);
      RetryTold(l, step) && (Arms(step) <==> !l.closed && Loses(c, l, input))
  {
    OwnedRun(c, Start(now, url, token), inputs);
    RetryNext(c, Run(c, Start(now, url, token), inputs).link, input);
  }
}
