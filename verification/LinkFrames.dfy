/**
 * What the orchestrator's frames become: events told in order, buttons of the last welcome, a greeting with the right
 * token.
 */
module LinkFrames {
  import opened Wrappers
  import opened Ordered
  import opened Link
  import opened LinkOwnership

  // ---- Events

  /** The event frames a socket delivered before its handlers were taken off, in order. */
  function Delivered(c: Config, from: Link, inputs: seq<Input>): seq<string> {
    if inputs == [] then []
    else
      var before, last := inputs[..|inputs| - 1], inputs[|inputs| - 1];
      Delivered(c, from, before)
      + if last.Heard? && last.frame.Event? && last.id !in Run(c, from, before).link.deaf
        then [last.frame.envelope] else []
  }

  function Tellings(effects: seq<Effect>): seq<string> {
    if effects == [] then []
    else if effects[0].Told? then [effects[0].envelope] + Tellings(effects[1..])
    else Tellings(effects[1..])
  }

  lemma {:induction false} TellingsAdd(a: seq<Effect>, b: seq<Effect>)
    ensures Tellings(a + b) == Tellings(a) + Tellings(b)
  {
    if a == [] {
      assert a + b == b;
    } else {
      TellingsAdd(a[1..], b);
      assert (a + b)[1..] == a[1..] + b;
    }
  }

  ghost predicate Silent(effects: seq<Effect>) {
    forall e <- effects :: !e.Told?
  }

  lemma {:induction false} SilentTellsNothing(effects: seq<Effect>)
    requires Silent(effects)
    ensures Tellings(effects) == []
  {
    if effects == [] {
    } else {
      SilentTellsNothing(effects[1..]);
    }
  }

  lemma {:induction false} FlushIsSilent(pending: Record<Tap>, code: Code)
    ensures Silent(Flushed(pending, code))
  {
    if pending == [] {
    } else {
      FlushIsSilent(pending[1..], code);
    }
  }

  lemma OthersAreSilent(c: Config, l: Link, input: Input)
    requires !(input.Heard? && input.frame.Event?)
    ensures Silent(Next(c, l, input).effects)
  {
    FlushIsSilent(l.pending, Unavailable);
    FlushIsSilent(l.pending, NotLive);
  }

  lemma NextTells(c: Config, l: Link, input: Input)
    ensures var told :=
        if input.Heard? && input.frame.Event? && input.id !in l.deaf then [input.frame.envelope] else [];
      && Tellings(Next(c, l, input).effects) == told
      && Next(c, l, input).link.lastEvent == (if told == [] then l.lastEvent else Some(told[0]))
  {
    if input.Heard? && input.frame.Event? {
      if input.id !in l.deaf {
        assert [Told(input.frame.envelope)][1..] == [];
      }
    } else {
      OthersAreSilent(c, l, input);
      SilentTellsNothing(Next(c, l, input).effects);
    }
  }

  /** Every event frame is told once, in order, and the last one told is the one kept. */
  lemma {:induction false} EventsAreToldInOrder(c: Config, now: int, url: Option<string>, token: Option<string>,
                                                inputs: seq<Input>)
    ensures var start := Start(now, url, token);
      var told := Tellings(Run(c, start, inputs).effects);
      && told == Delivered(c, start, inputs)
      && Run(c, start, inputs).link.lastEvent == if told == [] then None else Some(told[|told| - 1])
  {
    if inputs == [] {
    } else {
      var before, last := inputs[..|inputs| - 1], inputs[|inputs| - 1];
      var run := Run(c, Start(now, url, token), before);
      EventsAreToldInOrder(c, now, url, token, before);
      NextTells(c, run.link, last);
      TellingsAdd(run.effects, Next(c, run.link, last).effects);
    }
  }

  // ---- Buttons

  function Names(buttons: seq<Button>): (r: seq<string>)
    ensures |r| == |buttons| && forall i :: 0 <= i < |r| ==> r[i] == buttons[i].verb.name
  {
    seq(|buttons|, i requires 0 <= i < |buttons| => buttons[i].verb.name)
  }

  function Declared(verbs: seq<Verb>): (r: seq<string>)
    ensures |r| == |verbs| && forall i :: 0 <= i < |r| ==> r[i] == verbs[i].name
  {
    seq(|verbs|, i requires 0 <= i < |verbs| => verbs[i].name)
  }

  lemma {:induction false} SettledAt(buttons: seq<Button>, a: Answer, now: int, i: nat)
    requires i < |buttons|
    ensures |SettleCommands(buttons, a, now)| == |buttons|
    ensures SettleCommands(buttons, a, now)[i] == SettleButton(buttons[i], a, now)
  {
    if |buttons| == 1 {
    } else {
      SettledAt(buttons[1..], a, now, if i == 0 then 0 else i - 1);
    }
  }

  lemma SettlingKeepsNames(buttons: seq<Button>, a: Answer, now: int)
    ensures Names(SettleCommands(buttons, a, now)) == Names(buttons)
  {
    var settled := SettleCommands(buttons, a, now);
    forall i | 0 <= i < |buttons| ensures |settled| == |buttons| && settled[i].verb.name == buttons[i].verb.name {
      SettledAt(buttons, a, now, i);
    }
  }

  lemma {:induction false} DrawnAt(verbs: seq<Verb>, now: int, i: nat)
    requires i < |verbs|
    ensures |Drawn(verbs, now)| == |verbs| && Drawn(verbs, now)[i] == Button(verbs[i], now + verbs[i].readyInMs)
  {
    if |verbs| == 1 {
    } else {
      DrawnAt(verbs[1..], now, if i == 0 then 0 else i - 1);
    }
  }

  lemma DrawingKeepsNames(verbs: seq<Verb>, now: int)
    ensures Names(Drawn(verbs, now)) == Declared(verbs)
  {
    var drawn := Drawn(verbs, now);
    forall i | 0 <= i < |verbs| ensures |drawn| == |verbs| && drawn[i].verb == verbs[i] {
      DrawnAt(verbs, now, i);
    }
  }

  /** The verbs of the last welcome a socket delivered before its handlers were taken off. */
  function LastWelcome(c: Config, from: Link, inputs: seq<Input>): Option<seq<Verb>> {
    if inputs == [] then None
    else
      var before, last := inputs[..|inputs| - 1], inputs[|inputs| - 1];
      if last.Heard? && last.frame.Hello? && last.id !in Run(c, from, before).link.deaf then Some(last.frame.verbs)
      else LastWelcome(c, from, before)
  }

  /** The buttons are that welcome's verbs, in its order, and `hello` is that welcome or nothing. */
  ghost predicate Buttoned(l: Link, welcome: Option<seq<Verb>>) {
    && Names(l.commands) == (if welcome.Some? then Declared(welcome.value) else [])
    && (l.hello.Some? ==> l.hello == welcome)
  }

  lemma ButtonedFrame(l: Link, frame: Frame, welcome: Option<seq<Verb>>)
    requires Buttoned(l, welcome)
    ensures Buttoned(OnFrame(l, frame).link, if frame.Hello? then Some(frame.verbs) else welcome)
  {
    match frame
    case Hello(verbs) => DrawingKeepsNames(verbs, l.now);
    case Result(a) => SettlingKeepsNames(l.commands, a, l.now);
    case _ =>
  }

  lemma ButtonedNext(c: Config, l: Link, input: Input, welcome: Option<seq<Verb>>)
    requires Buttoned(l, welcome)
    ensures Buttoned(Next(c, l, input).link,
                     if input.Heard? && input.frame.Hello? && input.id !in l.deaf then Some(input.frame.verbs)
                     else welcome)
  {
    if input.Heard? {
      ButtonedFrame(l, input.frame, welcome);
    }
  }

  /** In every state, whatever taps are answered and whatever closes meanwhile, the buttons are the last welcome's. */
  lemma {:induction false} ButtonsAreTheWelcomes(c: Config, now: int, url: Option<string>, token: Option<string>,
                                                 inputs: seq<Input>)
    ensures var start := Start(now, url, token); Buttoned(Run(c, start, inputs).link, LastWelcome(c, start, inputs))
  {
    if inputs == [] {
    } else {
      var start, before := Start(now, url, token), inputs[..|inputs| - 1];
      ButtonsAreTheWelcomes(c, now, url, token, before);
      ButtonedNext(c, Run(c, start, before).link, inputs[|inputs| - 1], LastWelcome(c, start, before));
    }
  }

  /** A welcome draws each verb's button, ready as many milliseconds from now as the welcome says. */
  lemma WelcomeDrawsItsVerbs(l: Link, verbs: seq<Verb>, i: nat)
    requires i < |verbs|
    ensures var drawn := OnFrame(l, Hello(verbs)).link.commands;
      |drawn| == |verbs| && drawn[i].verb == verbs[i] && drawn[i].readyAt == l.now + verbs[i].readyInMs
  {
    DrawnAt(verbs, l.now, i);
  }

  /**
   * An answer moves only its command's button: that takes the charges the answer states, and is ready the stated
   * cooldown from now unless the tap came too often, else its own cooldown from now if the tap was applied, else when
   * it was.
   */
  lemma AnswersMoveTheirOwnButton(buttons: seq<Button>, a: Answer, now: int, i: nat)
    requires i < |buttons|
    ensures |SettleCommands(buttons, a, now)| == |buttons|
    ensures var was, drawn := buttons[i], SettleCommands(buttons, a, now)[i];
      && (was.verb.name != a.command ==> drawn == was)
      && (was.verb.name == a.command ==>
           && drawn.verb.name == was.verb.name && drawn.verb.cooldownMs == was.verb.cooldownMs
           && drawn.verb.readyInMs == was.verb.readyInMs
           && drawn.verb.charges == (if a.charges.Some? then a.charges.value else was.verb.charges)
           && (a.cooldownMs.Some? && a.code != Some(RateLimited) ==> drawn.readyAt == now + a.cooldownMs.value)
           && (a.cooldownMs.None? || a.code == Some(RateLimited) ==>
                drawn.readyAt == if a.status == Applied && was.verb.cooldownMs > 0 then now + was.verb.cooldownMs
                                 else was.readyAt))
  {
    SettledAt(buttons, a, now, i);
  }

  // ---- The greeting

  /** Should this socket be the current one, it was dialled with this token. */
  ghost predicate DialledWith(l: Link, id: nat, token: string) {
    id < l.dialled && (l.socket.Some? && l.socket.value.id == id ==> l.socket.value.token == token)
  }

  lemma DialledWithStays(c: Config, l: Link, input: Input, id: nat, token: string)
    requires DialledWith(l, id, token)
    ensures DialledWith(Next(c, l, input).link, id, token)
  {
  }

  lemma {:induction false} DialledWithRun(c: Config, l: Link, inputs: seq<Input>, id: nat, token: string)
    requires DialledWith(l, id, token)
    ensures DialledWith(Run(c, l, inputs).link, id, token)
  {
    if inputs == [] {
    } else {
      var before := inputs[..|inputs| - 1];
      DialledWithRun(c, l, before, id, token);
      DialledWithStays(c, Run(c, l, before).link, inputs[|inputs| - 1], id, token);
    }
  }

  /** A socket greets with the token it was dialled with, whatever the inputs have become since, and greets itself. */
  lemma GreetsWithTheTokenItDialledWith(c: Config, from: Link, inputs: seq<Input>, dial: Input, more: seq<Input>,
                                        id: nat)
    requires Owned(from) && Possible(c, from, inputs)
    requires var l := Run(c, from, inputs).link; var after := Next(c, l, dial).link;
      && Allowed(l, dial) && id == l.dialled && after.dialled == id + 1
      && Possible(c, after, more) && Allowed(Run(c, after, more).link, Opened(id))
    ensures var l := Run(c, from, inputs).link; var later := Run(c, Next(c, l, dial).link, more).link;
      forall e <- Next(c, later, Opened(id)).effects ::
        l.token.Some? && e == Sent(id, SayHello(PROTOCOL, l.token.value))
  {
    OwnedRun(c, from, inputs);
    var l := Run(c, from, inputs).link;
    var after := Next(c, l, dial).link;
    OwnedNext(c, l, dial);
    DialTakesTheToken(c, l, dial);
    DialledWithRun(c, after, more, id, l.token.value);
    OwnedRun(c, after, more);
    OpenedGreets(c, Run(c, after, more).link, id, l.token.value);
  }

  lemma DialTakesTheToken(c: Config, l: Link, dial: Input)
    requires Owned(l) && Allowed(l, dial) && Next(c, l, dial).link.dialled == l.dialled + 1
    ensures l.token.Some? && DialledWith(Next(c, l, dial).link, l.dialled, l.token.value)
  {
  }

  lemma OpenedGreets(c: Config, l: Link, id: nat, token: string)
    requires Owned(l) && Allowed(l, Opened(id)) && DialledWith(l, id, token)
    ensures forall e <- Next(c, l, Opened(id)).effects :: e == Sent(id, SayHello(PROTOCOL, token))
  {
  }
}
