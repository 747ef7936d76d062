/** Who holds a socket and who holds a retry, in every state the link can reach, and when it stops for good. */
module LinkOwnership {
  import opened Wrappers
  import opened Link

  /** Every socket ever dialled, but the current one, has been hung up or has closed. */
  ghost predicate OneSocket(l: Link) {
    && (l.socket.Some? ==>
         l.socket.value.id < l.dialled && l.socket.value.id !in l.deaf && l.socket.value.id !in l.gone)
    && (forall id: nat :: id < l.dialled && id !in l.deaf && id !in l.gone ==>
         l.socket.Some? && l.socket.value.id == id)
    && (forall id <- l.deaf :: id < l.dialled)
    && (forall id <- l.gone :: id < l.dialled)
  }

  /** What each state holds. */
  ghost predicate Table(l: Link) {
    match l.status
    case Watching => l.socket.None? && l.retry.None?
    case Connecting => l.socket.Some? && l.retry.None? && l.attempt == 0 && l.hello.None?
    case Open => l.socket.Some? && l.retry.None? && l.attempt == 0 && l.hello.Some?
    case Reconnecting => (l.socket.Some? <==> l.retry.None?) && l.attempt >= 1 && l.hello.None?
    case Ended => l.socket.None? && l.retry.None? && l.hello.None?
    case Refused => l.socket.None? && l.retry.None?
    case Closed => l.socket.None? && l.retry.None?
  }

  ghost predicate Owned(l: Link) {
    OneSocket(l) && Table(l) && (l.closed ==> l.status == Closed)
  }

  /** Holding nothing: where dialling starts. */
  ghost predicate Idle(l: Link) {
    OneSocket(l) && l.socket.None? && l.retry.None? && (l.closed ==> l.status == Closed)
  }

  lemma OwnedDial(c: Config, l: Link, dials: bool)
    requires Idle(l)
    ensures Owned(Dial(c, l, dials).link)
  {
  }

  lemma IdleHangUp(l: Link)
    requires OneSocket(l) && (l.closed ==> l.status == Closed)
    ensures Idle(HangUp(l).link)
  {
  }

  lemma OwnedReopen(c: Config, l: Link, dials: bool)
    requires Owned(l)
    ensures Owned(DoReopen(c, l, dials).link)
  {
    IdleHangUp(l);
    OwnedDial(c, HangUp(l).link.(attempt := 0, closeCode := None), dials);
  }

  lemma OwnedClose(l: Link)
    requires Owned(l)
    ensures Owned(DoClose(l).link)
  {
    IdleHangUp(l.(closed := true, status := Closed));
  }

  lemma OwnedHanged(c: Config, l: Link, id: nat, code: int)
    requires Owned(l) && Allowed(l, Hanged(id, code))
    ensures Owned(Next(c, l, Hanged(id, code)).link)
  {
  }

  lemma OwnedNext(c: Config, l: Link, input: Input)
    requires Owned(l) && Allowed(l, input)
    ensures Owned(Next(c, l, input).link)
  {
    match input
    case Reopen(dials) => OwnedReopen(c, l, dials);
    case RetryFires(dials) => OwnedDial(c, l.(retry := None), dials);
    case Hanged(id, code) => OwnedHanged(c, l, id, code);
    case Close => OwnedClose(l);
    case _ =>
  }

  lemma {:induction false} OwnedRun(c: Config, from: Link, inputs: seq<Input>)
    requires Owned(from) && Possible(c, from, inputs)
    ensures Owned(Run(c, from, inputs).link)
  {
    if inputs == [] {
    } else {
      var before := inputs[..|inputs| - 1];
      OwnedRun(c, from, before);
      OwnedNext(c, Run(c, from, before).link, inputs[|inputs| - 1]);
    }
  }

  /**
   * The table, over every run of a new link: who holds what in which state, no two sockets, no socket beside an armed
   * retry, and a closed link that stays closed.
   */
  lemma EveryStateIsOwned(c: Config, now: int, url: Option<string>, token: Option<string>, inputs: seq<Input>)
    requires Possible(c, Start(now, url, token), inputs)
    ensures Owned(Run(c, Start(now, url, token), inputs).link)
  {
    OwnedRun(c, Start(now, url, token), inputs);
  }

  /** A socket that still speaks, by its own account, is the one the link holds: no frame of an old socket gets in. */
  lemma OnlyTheCurrentSpeaks(c: Config, from: Link, inputs: seq<Input>, id: nat, frame: Frame)
    requires Owned(from) && Possible(c, from, inputs)
    requires Allowed(Run(c, from, inputs).link, Heard(id, frame))
    ensures var l := Run(c, from, inputs).link;
      Next(c, l, Heard(id, frame)) != Step(l, []) ==> l.socket.Some? && l.socket.value.id == id
  {
    OwnedRun(c, from, inputs);
  }

  /** An armed retry is let be until it fires, or is cancelled by a change of inputs or a hang-up. */
  lemma RetryIsNeverOverwritten(c: Config, from: Link, inputs: seq<Input>, input: Input)
    requires Owned(from) && Possible(c, from, inputs) && Allowed(Run(c, from, inputs).link, input)
    ensures var l := Run(c, from, inputs).link;
      l.retry.Some? && !input.Reopen? && !input.RetryFires? && !input.Close? ==> Next(c, l, input).link.retry == l.retry
  {
    OwnedRun(c, from, inputs);
  }

  // ---- Stopping for good

  predicate Dials(e: Effect) { e.Dialled? || e.DialFailed? }

  ghost predicate NoDial(effects: seq<Effect>) {
    forall e <- effects :: !Dials(e)
  }

  ghost predicate NoReopen(inputs: seq<Input>) {
    forall i <- inputs :: !i.Reopen?
  }

  /** Nothing held and nothing armed: only a change of inputs could dial again. */
  ghost predicate AtRest(l: Link) {
    l.socket.None? && l.retry.None?
  }

  lemma {:induction false} FlushDialsNothing(pending: Ordered.Record<Tap>, code: Code)
    ensures NoDial(Flushed(pending, code))
  {
    if pending == [] {
    } else {
      FlushDialsNothing(pending[1..], code);
    }
  }

  lemma RestsOn(c: Config, l: Link, input: Input)
    requires Owned(l) && AtRest(l) && Allowed(l, input) && (input.Reopen? ==> l.closed)
    ensures AtRest(Next(c, l, input).link) && NoDial(Next(c, l, input).effects)
    ensures l.closed ==> Next(c, l, input).link.closed
  {
    FlushDialsNothing(l.pending, Unavailable);
    FlushDialsNothing(l.pending, NotLive);
  }

  lemma {:induction false} RestsForGood(c: Config, l: Link, inputs: seq<Input>)
    requires Owned(l) && AtRest(l) && Possible(c, l, inputs) && (l.closed || NoReopen(inputs))
    ensures AtRest(Run(c, l, inputs).link) && NoDial(Run(c, l, inputs).effects)
    ensures l.closed ==> Run(c, l, inputs).link.closed
  {
    if inputs == [] {
    } else {
      var before, last := inputs[..|inputs| - 1], inputs[|inputs| - 1];
      assert forall i <- before :: i in inputs;
      assert last in inputs;
      RestsForGood(c, l, before);
      OwnedRun(c, l, before);
      RestsOn(c, Run(c, l, before).link, last);
    }
  }

  /** After a close code the orchestrator decided (4000 to 4999), nothing is dialled until the inputs change. */
  lemma DecisionsAreFinal(c: Config, from: Link, inputs: seq<Input>, id: nat, code: int, more: seq<Input>)
    requires Owned(from) && Possible(c, from, inputs)
    requires var l := Run(c, from, inputs).link;
      && Allowed(l, Hanged(id, code)) && 4000 <= code < 5000 && l.socket.Some? && l.socket.value.id == id
      && Possible(c, Next(c, l, Hanged(id, code)).link, more) && NoReopen(more)
    ensures var after := Next(c, Run(c, from, inputs).link, Hanged(id, code)).link;
      && after.status == (if code == MATCH_ENDED then Ended else Refused)
      && NoDial(Run(c, after, more).effects)
  {
    OwnedRun(c, from, inputs);
    var l := Run(c, from, inputs).link;
    OwnedNext(c, l, Hanged(id, code));
    RestsForGood(c, Next(c, l, Hanged(id, code)).link, more);
  }

  /** After `close()`, nothing is dialled ever again, not even when the inputs change. */
  lemma CloseIsFinal(c: Config, from: Link, inputs: seq<Input>, more: seq<Input>)
    requires Owned(from) && Possible(c, from, inputs)
    requires Possible(c, Next(c, Run(c, from, inputs).link, Close).link, more)
    ensures var after := Next(c, Run(c, from, inputs).link, Close).link;
      && NoDial(Run(c, after, more).effects)
      && Run(c, after, more).link.status == Closed
  {
    OwnedRun(c, from, inputs);
    var l := Run(c, from, inputs).link;
    OwnedNext(c, l, Close);
    RestsForGood(c, Next(c, l, Close).link, more);
    OwnedRun(c, Next(c, l, Close).link, more);
  }

  // ---- What the documentation of `hello` promises, and where the code keeps it

  /** A welcome nobody is connected to. */
  predicate Stale(l: Link) {
    l.hello.Some? && l.status != Open
  }

  /** A reopen would find no URL, no token, or a URL it cannot use. */
  predicate NothingToDial(c: Config, l: Link) {
    !Given(l.url) || !Given(l.token) || c.target(l.url.value).None?
  }

  /** An open link leaves its welcome standing exactly when it is closed, or reopened with nothing to dial. */
  lemma HelloGoesStaleIff(c: Config, from: Link, inputs: seq<Input>, input: Input)
    requires Owned(from) && Possible(c, from, inputs) && Allowed(Run(c, from, inputs).link, input)
    requires Run(c, from, inputs).link.status == Open
    ensures var l := Run(c, from, inputs).link;
      Stale(Next(c, l, input).link) <==> input.Close? || (input.Reopen? && NothingToDial(c, l))
  {
    OwnedRun(c, from, inputs);
  }

  /** A welcome is stale on a link that is not open exactly when it was, and nothing has been dialled meanwhile. */
  lemma HelloStaysStaleIff(c: Config, from: Link, inputs: seq<Input>, input: Input)
    requires Owned(from) && Possible(c, from, inputs) && Allowed(Run(c, from, inputs).link, input)
    requires Run(c, from, inputs).link.status != Open
    ensures var l := Run(c, from, inputs).link;
      Stale(Next(c, l, input).link) <==> Stale(l) && !(input.Reopen? && !l.closed && !NothingToDial(c, l))
  {
    OwnedRun(c, from, inputs);
  }

  /** Whether these inputs leave a stale welcome: the last of them that opened, closed or reopened the link decides. */
  predicate LeavesStale(c: Config, from: Link, inputs: seq<Input>) {
    inputs != [] &&
    var before, last := inputs[..|inputs| - 1], inputs[|inputs| - 1];
    var l := Run(c, from, before).link;
    if l.status == Open then last.Close? || (last.Reopen? && NothingToDial(c, l))
    else LeavesStale(c, from, before) && !(last.Reopen? && !l.closed && !NothingToDial(c, l))
  }

  /** Over every run of a new link, a welcome is stale exactly when the inputs say so. */
  lemma {:induction false} HelloIsStaleIff(c: Config, now: int, url: Option<string>, token: Option<string>,
                                           inputs: seq<Input>)
    requires Possible(c, Start(now, url, token), inputs)
    ensures Stale(Run(c, Start(now, url, token), inputs).link) <==> LeavesStale(c, Start(now, url, token), inputs)
  {
    if inputs == [] {
    } else {
      var start, before, last := Start(now, url, token), inputs[..|inputs| - 1], inputs[|inputs| - 1];
      HelloIsStaleIff(c, now, url, token, before);
      if Run(c, start, before).link.status == Open {
        HelloGoesStaleIff(c, start, before, last);
      } else {
        HelloStaysStaleIff(c, start, before, last);
      }
    }
  }

  /** Open means a welcome is there; a stale one is found only where the link has stopped: watching, refused, closed. */
  lemma HelloIsStaleOnlyAtRest(c: Config, from: Link, inputs: seq<Input>)
    requires Owned(from) && Possible(c, from, inputs)
    ensures var l := Run(c, from, inputs).link;
      && (l.status == Open ==> l.hello.Some?)
      && (Stale(l) ==> l.status == Watching || l.status == Refused || l.status == Closed)
  {
    OwnedRun(c, from, inputs);
  }

  /** And there it can be: a token taken away leaves the last welcome standing. */
  lemma HelloCanBeStale(c: Config, now: int)
    requires c.target("u").Some?
    ensures var inputs := [Reopen(true), Heard(0, Hello([])), Supply(Some("u"), None), Reopen(true)];
      var start := Start(now, Some("u"), Some("t"));
      && Possible(c, start, inputs)
      && Run(c, start, inputs).link.status == Watching && Run(c, start, inputs).link.hello.Some?
  {
    var start := Start(now, Some("u"), Some("t"));
    var a, b, d, e := Reopen(true), Heard(0, Hello([])), Supply(Some("u"), None), Reopen(true);
    var l1 := Next(c, start, a).link;
    var l2 := Next(c, l1, b).link;
    var l3 := Next(c, l2, d).link;
    Welcomed(c, start);
    FourInputs(c, start, a, b, d, e);
  }

  /** Dialled, then welcomed. */
  lemma Welcomed(c: Config, start: Link)
    requires start.socket.None? && start.dialled == 0 && start.deaf == {} && start.gone == {} && !start.closed
    requires Given(start.url) && Given(start.token) && c.target(start.url.value).Some?
    ensures var l1 := Next(c, start, Reopen(true)).link;
      && Allowed(l1, Heard(0, Hello([])))
      && var l2 := Next(c, l1, Heard(0, Hello([]))).link;
      && l2.hello.Some? && !l2.closed
  {
  }

  lemma FourInputs(c: Config, start: Link, a: Input, b: Input, d: Input, e: Input)
    ensures var l1 := Next(c, start, a).link; var l2 := Next(c, l1, b).link; var l3 := Next(c, l2, d).link;
      && Run(c, start, [a, b, d, e]).link == Next(c, l3, e).link
      && (Possible(c, start, [a, b, d, e]) <==> Allowed(start, a) && Allowed(l1, b) && Allowed(l2, d) && Allowed(l3, e))
  {
    RunOne(c, start, [], a);
    RunOne(c, start, [a], b);
    RunOne(c, start, [a, b], d);
    RunOne(c, start, [a, b, d], e);
    assert [] + [a] == [a] && [a] + [b] == [a, b] && [a, b] + [d] == [a, b, d] && [a, b, d] + [e] == [a, b, d, e];
  }

  lemma RunOne(c: Config, from: Link, inputs: seq<Input>, last: Input)
    ensures Run(c, from, inputs + [last]).link == Next(c, Run(c, from, inputs).link, last).link
    ensures Possible(c, from, inputs + [last])
       <==> Possible(c, from, inputs) && Allowed(Run(c, from, inputs).link, last)
  {
    assert (inputs + [last])[..|inputs|] == inputs;
  }

  // ---- And what that of `closeCode` promises

  /** The code of the last close of a held socket since the inputs last changed. */
  function LastClose(c: Config, from: Link, inputs: seq<Input>): Option<int> {
    if inputs == [] then None
    else
      var before, last := inputs[..|inputs| - 1], inputs[|inputs| - 1];
      var l := Run(c, from, before).link;
      if last.Reopen? then None
      else if last.Hanged? && last.id !in l.deaf && l.socket.Some? && l.socket.value.id == last.id then Some(last.code)
      else LastClose(c, from, before)
  }

  /** Over every run of a new link: the code is that of the last close since a change of inputs, open or not. */
  lemma {:induction false} CloseCodeIsLastClose(c: Config, now: int, url: Option<string>, token: Option<string>,
                                                inputs: seq<Input>)
    ensures Run(c, Start(now, url, token), inputs).link.closeCode == LastClose(c, Start(now, url, token), inputs)
  {
    if inputs == [] {
    } else {
      var start, before := Start(now, url, token), inputs[..|inputs| - 1];
      CloseCodeIsLastClose(c, now, url, token, before);
      CloseCodeNext(c, Run(c, start, before).link, inputs[|inputs| - 1]);
    }
  }

  lemma CloseCodeNext(c: Config, l: Link, input: Input)
    ensures Next(c, l, input).link.closeCode
         == if input.Reopen? then None
            else if input.Hanged? && input.id !in l.deaf && l.socket.Some? && l.socket.value.id == input.id
            then Some(input.code)
            else l.closeCode
  {
  }

  /** An open link with a code: a network close, the retry it arms, and the next welcome. */
  lemma OpenWithACloseCode(c: Config, now: int, wait: nat)
    requires c.target("u").Some? && Delay(c, 0) <= wait
    ensures var start := Start(now, Some("u"), Some("t"));
      var inputs := [Reopen(true), Hanged(0, 1006), Elapse(wait), RetryFires(true), Heard(1, Hello([]))];
      && Possible(c, start, inputs)
      && Run(c, start, inputs).link.status == Open && Run(c, start, inputs).link.closeCode == Some(1006)
  {
    var start := Start(now, Some("u"), Some("t"));
    var a, b, d, e, f := Reopen(true), Hanged(0, 1006), Elapse(wait), RetryFires(true), Heard(1, Hello([]));
    var l4 := Retried(c, start, wait);
    FourInputs(c, start, a, b, d, e);
    RunOne(c, start, [a, b, d, e], f);
    assert [a, b, d, e] + [f] == [a, b, d, e, f];
  }

  lemma Retried(c: Config, start: Link, wait: nat) returns (after: Link)
    requires start.socket.None? && start.dialled == 0 && start.deaf == {} && start.gone == {} && !start.closed
    requires Given(start.url) && Given(start.token) && c.target(start.url.value).Some? && Delay(c, 0) <= wait
    ensures var l1 := Next(c, start, Reopen(true)).link; var l2 := Next(c, l1, Hanged(0, 1006)).link;
      var l3 := Next(c, l2, Elapse(wait)).link;
      && Allowed(l1, Hanged(0, 1006)) && Allowed(l3, RetryFires(true)) && after == Next(c, l3, RetryFires(true)).link
      && Allowed(after, Heard(1, Hello([]))) && 1 !in after.deaf && after.closeCode == Some(1006)
  {
    var l1 := Next(c, start, Reopen(true)).link;
    var l2 := Next(c, l1, Hanged(0, 1006)).link;
    var l3 := Next(c, l2, Elapse(wait)).link;
    assert l1.socket == Some(Socket(0, start.token.value)) && l1.deaf == {} && l1.attempt == 0;
    assert l2.retry == Some(l2.now + Delay(c, 0)) && l2.socket.None? && l2.dialled == 1 && l2.closeCode == Some(1006);
    after := Next(c, l3, RetryFires(true)).link;
  }
}
