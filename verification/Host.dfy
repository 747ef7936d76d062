/**
 * The widget's side of the host handshake (gamemode-kit/src/host.ts): pin the first who introduces himself, hear no one
 * else.
 */
module Host {
  import opened Wrappers

  const HOST_PROTOCOL := 1
  const MAX_HEIGHT := 10000
  const MAX_ERROR := 512
  const INIT := "ezpug.widget.init"
  const TOKENS := "ezpug.widget.tokens"

  // ---- Messages

  datatype Field = Absent | Null | Text(text: string)

  /** What arrives: anything at all, or an object of which these fields are read; None is a field of another type. */
  datatype Data =
    | NoObject
    | Object(
        kind: Field,
        protocol: Option<int>,
        orchestratorUrl: Field,
        matchId: Field,
        playerToken: Field,
        locale: Field,
        tokens: Option<string>)

  /** A message, the origin it came from and the window that sent it, if it was one. */
  datatype Message = Message(data: Data, origin: string, source: Option<nat>)

  predicate IsInit(d: Data) {
    && d.Object? && d.kind == Text(INIT) && d.protocol == Some(HOST_PROTOCOL)
    && d.orchestratorUrl.Text? && d.matchId.Text? && (d.playerToken.Text? || d.playerToken.Null?)
  }

  predicate IsTokens(d: Data) {
    d.Object? && d.kind == Text(TOKENS) && d.tokens.Some?
  }

  datatype Said = Ready(protocol: int) | Size(height: int) | Error(text: string)

  datatype Post = Post(said: Said, target: string)

  // ---- State

  datatype Status = Waiting | Settled | Orphan

  datatype View = View(
    status: Status,
    orchestratorUrl: Option<string>,
    matchId: Option<string>,
    locale: string,
    tokens: string,
    playerToken: Option<string>)

  datatype Pin = Pin(origin: string, source: Option<nat>)

  /** How a locale and the tokens of the host are read, and how patient the widget is. */
  datatype Config = Config(
    locale: Field -> string,
    tokens: Option<string> -> string,
    noTokens: string,
    readyEveryMs: int,
    orphanAfterMs: int)

  datatype Host = Host(
    now: int,
    view: View,
    pin: Option<Pin>,
    repeat: Option<int>,
    orphan: Option<int>,
    disposed: bool)

  datatype Step = Step(host: Host, posts: seq<Post>)

  datatype Input =
    | Elapse(ms: nat)
    | Arrives(message: Message)
    | RepeatFires
    | OrphanFires
    | ReportSize(height: int)
    | ReportError(text: string)
    | Dispose

  function FirstView(c: Config): View { View(Waiting, None, None, "de", c.noTokens, None) }

  // ---- The closures

  function Sent(h: Host, said: Said): seq<Post> {
    if h.disposed then [] else [Post(said, if h.pin.Some? then h.pin.value.origin else "*")]
  }

  /** `ready`: once, and again until somebody answers. */
  function SayReady(c: Config, h: Host): Step {
    if h.disposed || h.pin.Some? then Step(h, [])
    else Step(h.(repeat := Some(h.now + c.readyEveryMs)), Sent(h, Ready(HOST_PROTOCOL)))
  }

  function Connect(c: Config, now: int): Step {
    var said := SayReady(c, Host(now, FirstView(c), None, None, None, false));
    Step(said.host.(orphan := Some(now + c.orphanAfterMs)), said.posts)
  }

  /** What an accepted message makes of the view. */
  function Read(c: Config, v: View, d: Data): View {
    if IsInit(d) then
      View(Settled, Some(d.orchestratorUrl.text), Some(d.matchId.text), c.locale(d.locale), c.tokens(d.tokens),
           if d.playerToken.Text? then Some(d.playerToken.text) else None)
    else if IsTokens(d) then v.(tokens := c.tokens(d.tokens))
    else v
  }

  /** From the pinned origin, and from the pinned window if there was one. */
  predicate FromPin(p: Pin, m: Message) {
    m.origin == p.origin && (p.source.None? || m.source == p.source)
  }

  function OnMessage(c: Config, h: Host, m: Message): Host {
    if h.pin.None? then
      if !IsInit(m.data) then h
      else h.(pin := Some(Pin(m.origin, m.source)), repeat := None, orphan := None, view := Read(c, h.view, m.data))
    else if !FromPin(h.pin.value, m) then h
    else h.(view := Read(c, h.view, m.data))
  }

  function Clamp(height: int): int {
    if height < 0 then 0 else if height > MAX_HEIGHT then MAX_HEIGHT else height
  }

  function Shortened(text: string): string {
    if text == "" then "error" else if |text| > MAX_ERROR then text[..MAX_ERROR] else text
  }

  function Next(c: Config, h: Host, input: Input): Step {
    match input
    case Elapse(ms) => Step(h.(now := h.now + ms), [])
    case Arrives(m) => Step(if h.disposed then h else OnMessage(c, h, m), [])
    case RepeatFires => SayReady(c, h)
    case OrphanFires =>
      Step(if h.pin.None? then h.(orphan := None, view := h.view.(status := Orphan)) else h.(orphan := None), [])
    case ReportSize(height) => Step(h, if h.pin.None? then [] else Sent(h, Size(Clamp(height))))
    case ReportError(text) => Step(h, if h.pin.None? then [] else Sent(h, Error(Shortened(text))))
    case Dispose => Step(h.(disposed := true, repeat := None, orphan := None), [])
  }

  /** Timers fire when armed and due. */
  predicate Allowed(h: Host, input: Input) {
    match input
    case RepeatFires => h.repeat.Some? && h.repeat.value <= h.now
    case OrphanFires => h.orphan.Some? && h.orphan.value <= h.now
    case _ => true
  }

  function Run(c: Config, h: Host, inputs: seq<Input>): Step
    decreases |inputs|
  {
    if inputs == [] then Step(h, [])
    else
      var first := Next(c, h, inputs[0]);
      var rest := Run(c, first.host, inputs[1..]);
      Step(rest.host, first.posts + rest.posts)
  }

  predicate Possible(c: Config, h: Host, inputs: seq<Input>)
    decreases |inputs|
  {
    inputs == [] || (Allowed(h, inputs[0]) && Possible(c, Next(c, h, inputs[0]).host, inputs[1..]))
  }

  // ---- Filtering

  /** The messages that arrive before the shell is disposed of. */
  function Arriving(inputs: seq<Input>): seq<Message> {
    if inputs == [] || inputs[0].Dispose? then []
    else if inputs[0].Arrives? then [inputs[0].message] + Arriving(inputs[1..])
    else Arriving(inputs[1..])
  }

  function From(p: Pin, messages: seq<Message>): seq<Message> {
    if messages == [] then []
    else if FromPin(p, messages[0]) then [messages[0]] + From(p, messages[1..])
    else From(p, messages[1..])
  }

  /** The first valid init, and after it only what comes from where it came. */
  function Accepted(messages: seq<Message>): seq<Message> {
    if messages == [] then []
    else if IsInit(messages[0].data) then
      [messages[0]] + From(Pin(messages[0].origin, messages[0].source), messages[1..])
    else Accepted(messages[1..])
  }

  function ReadAll(c: Config, v: View, messages: seq<Message>): View
    decreases |messages|
  {
    if messages == [] then v else ReadAll(c, Read(c, v, messages[0].data), messages[1..])
  }

  ghost predicate Started(h: Host) {
    !h.disposed && (h.pin.Some? ==> h.repeat.None? && h.orphan.None?)
  }

  lemma {:induction false} DisposedIsDeaf(c: Config, h: Host, inputs: seq<Input>)
    requires h.disposed && h.repeat.None? && h.orphan.None? && Possible(c, h, inputs)
    ensures Run(c, h, inputs).posts == [] && Run(c, h, inputs).host == h.(now := Run(c, h, inputs).host.now)
    decreases |inputs|
  {
    if inputs == [] {
    } else {
      DisposedIsDeaf(c, Next(c, h, inputs[0]).host, inputs[1..]);
    }
  }

  lemma {:induction false} PinnedReadsItsOwn(c: Config, h: Host, inputs: seq<Input>)
    requires Started(h) && h.pin.Some? && Possible(c, h, inputs)
    ensures Run(c, h, inputs).host.view == ReadAll(c, h.view, From(h.pin.value, Arriving(inputs)))
    ensures Run(c, h, inputs).host.pin == h.pin
    decreases |inputs|
  {
    if inputs == [] {
    } else {
      if inputs[0].Dispose? {
        DisposedIsDeaf(c, Next(c, h, inputs[0]).host, inputs[1..]);
      } else {
        PinnedReadsItsOwn(c, Next(c, h, inputs[0]).host, inputs[1..]);
      }
    }
  }

  /** Before anybody is pinned only the orphan timer changes the view. */
  predicate Patient(c: Config, v: View) {
    v == FirstView(c) || v == FirstView(c).(status := Orphan)
  }

  /** Patient or orphaned, an init sets everything. */
  lemma InitSetsAll(c: Config, v: View, w: View, messages: seq<Message>)
    requires messages != [] && IsInit(messages[0].data)
    ensures ReadAll(c, v, messages) == ReadAll(c, w, messages)
  {
  }

  lemma {:induction false} WaitingAccepts(c: Config, h: Host, inputs: seq<Input>)
    requires Started(h) && h.pin.None? && Patient(c, h.view) && Possible(c, h, inputs)
    ensures var accepted, end := Accepted(Arriving(inputs)), Run(c, h, inputs).host;
      if accepted == [] then end.pin.None? && Patient(c, end.view)
      else
        && end.pin == Some(Pin(accepted[0].origin, accepted[0].source))
        && end.view == ReadAll(c, FirstView(c), accepted)
    decreases |inputs|
  {
    if inputs == [] {
    } else {
      var first := Next(c, h, inputs[0]).host;
      if inputs[0].Dispose? {
        DisposedIsDeaf(c, first, inputs[1..]);
      } else if inputs[0].Arrives? && IsInit(inputs[0].message.data) {
        var m := inputs[0].message;
        PinnedReadsItsOwn(c, first, inputs[1..]);
        var accepted := Accepted(Arriving(inputs));
        assert accepted[1..] == From(first.pin.value, Arriving(inputs[1..]));
        InitSetsAll(c, h.view, FirstView(c), accepted);
      } else {
        WaitingAccepts(c, first, inputs[1..]);
      }
    }
  }

  /**
   * Whatever arrives, from whomever, the widget ends up showing what it would if it had only ever heard the first valid
   * init and then only that init's origin and window; without one it waits, or is an orphan.
   */
  lemma OnlyTheFirstInitIsHeard(c: Config, now: int, inputs: seq<Input>)
    requires Possible(c, Connect(c, now).host, inputs)
    ensures var accepted, end := Accepted(Arriving(inputs)), Run(c, Connect(c, now).host, inputs).host;
      if accepted == [] then end.pin.None? && Patient(c, end.view)
      else
        && end.pin == Some(Pin(accepted[0].origin, accepted[0].source))
        && end.view == ReadAll(c, FirstView(c), accepted)
  {
    WaitingAccepts(c, Connect(c, now).host, inputs);
  }

  // ---- What the accepted messages set

  /** The last init among these messages. */
  function LastInit(messages: seq<Message>): (d: Option<Data>)
    ensures d.Some? ==> IsInit(d.value)
    ensures d.Some? <==> exists m <- messages :: IsInit(m.data)
  {
    if messages == [] then None
    else
      var last, before := messages[|messages| - 1], messages[..|messages| - 1];
      if IsInit(last.data) then Some(last.data) else LastInit(before)
  }

  /** The last of these messages that brings tokens, or may: an init or a tokens message. */
  function LastTokens(messages: seq<Message>): Option<Option<string>> {
    if messages == [] then None
    else
      var last, before := messages[|messages| - 1], messages[..|messages| - 1];
      if IsInit(last.data) || IsTokens(last.data) then Some(last.data.tokens) else LastTokens(before)
  }

  /** What a widget shows that has heard this init and then these tokens. */
  ghost predicate Shows(c: Config, v: View, d: Data, tokens: Option<string>)
    requires IsInit(d)
  {
    && v.status == Settled
    && v.orchestratorUrl == Some(d.orchestratorUrl.text)
    && v.matchId == Some(d.matchId.text)
    && v.locale == c.locale(d.locale)
    && v.tokens == c.tokens(tokens)
    && (v.playerToken.None? <==> d.playerToken == Null)
    && (v.playerToken.Some? ==> d.playerToken == Text(v.playerToken.value))
  }

  lemma {:induction false} ReadLast(c: Config, v: View, messages: seq<Message>, last: Message)
    ensures ReadAll(c, v, messages + [last]) == Read(c, ReadAll(c, v, messages), last.data)
    decreases |messages|
  {
    if messages == [] {
      assert messages + [last] == [last] && [last][1..] == [];
    } else {
      assert (messages + [last])[1..] == messages[1..] + [last];
      ReadLast(c, Read(c, v, messages[0].data), messages[1..], last);
    }
  }

  lemma {:induction false} ReadAllShows(c: Config, v: View, messages: seq<Message>)
    requires messages != [] && IsInit(messages[0].data)
    ensures LastInit(messages).Some? && LastTokens(messages).Some?
    ensures Shows(c, ReadAll(c, v, messages), LastInit(messages).value, LastTokens(messages).value)
    decreases |messages|
  {
    var last, before := messages[|messages| - 1], messages[..|messages| - 1];
    assert messages == before + [last];
    ReadLast(c, v, before, last);
    if before == [] {
    } else {
      ReadAllShows(c, v, before);
    }
  }

  /**
   * Whatever arrives, a pinned widget shows the fields of the last valid init it accepted, its token exactly if there
   * was one, and the tokens of the last message that brought any; one nobody has introduced himself to shows nothing.
   */
  lemma TheLastInitIsShown(c: Config, now: int, inputs: seq<Input>)
    requires Possible(c, Connect(c, now).host, inputs)
    ensures var accepted, v := Accepted(Arriving(inputs)), Run(c, Connect(c, now).host, inputs).host.view;
      if accepted == [] then
        && (v.status == Waiting || v.status == Orphan) && v.orchestratorUrl.None? && v.matchId.None?
        && v.playerToken.None? && v.locale == "de" && v.tokens == c.noTokens
      else
        && LastInit(accepted).Some? && LastTokens(accepted).Some?
        && Shows(c, v, LastInit(accepted).value, LastTokens(accepted).value)
  {
    OnlyTheFirstInitIsHeard(c, now, inputs);
    var accepted := Accepted(Arriving(inputs));
    if accepted != [] {
      AcceptedStartsWithInit(Arriving(inputs));
      ReadAllShows(c, FirstView(c), accepted);
    }
  }

  /** Of the pinned, from his window if he has one, tokens are heard and change themselves and nothing else. */
  lemma TokensChangeTokensAlone(c: Config, h: Host, m: Message)
    requires h.pin == Some(Pin(m.origin, m.source)) || h.pin == Some(Pin(m.origin, None))
    requires m.data.Object? && m.data.kind == Text("ezpug.widget.tokens") && m.data.tokens.Some? && !h.disposed
    ensures Next(c, h, Arrives(m)) == Step(h.(view := h.view.(tokens := c.tokens(m.data.tokens))), [])
  {
    assert "ezpug.widget.tokens"[13] != "ezpug.widget.init"[13];
  }

  /** Nobody else is heard, from another origin or from another window of the same one. */
  lemma StrangersAreNotHeard(c: Config, h: Host, m: Message)
    requires h.pin.Some?
    requires m.origin != h.pin.value.origin || (h.pin.value.source.Some? && m.source != h.pin.value.source)
    ensures Next(c, h, Arrives(m)) == Step(h, [])
  {
  }

  /** Who is pinned: the first who sends an object of the right kind and protocol with a URL, a match and a token or
      null. */
  lemma PinsAnInit(c: Config, h: Host, m: Message)
    requires h.pin.None? && !h.disposed
    ensures Next(c, h, Arrives(m)).host.pin
         == if && m.data.Object? && m.data.kind == Text("ezpug.widget.init") && m.data.protocol == Some(1)
               && m.data.orchestratorUrl.Text? && m.data.matchId.Text?
               && m.data.playerToken != Absent
            then Some(Pin(m.origin, m.source)) else None
  {
  }

  // ---- Posts

  ghost predicate ToOrigin(posts: seq<Post>, origin: string) {
    forall p <- posts :: p.target == origin && !p.said.Ready?
  }

  ghost predicate ToAnyone(posts: seq<Post>) {
    forall p <- posts :: p == Post(Ready(HOST_PROTOCOL), "*")
  }

  lemma {:induction false} PinnedPosts(c: Config, h: Host, inputs: seq<Input>)
    requires h.pin.Some?
    ensures ToOrigin(Run(c, h, inputs).posts, h.pin.value.origin) && Run(c, h, inputs).host.pin == h.pin
    decreases |inputs|
  {
    if inputs == [] {
    } else {
      PinnedPosts(c, Next(c, h, inputs[0]).host, inputs[1..]);
    }
  }

  /** Every run's posts: first `ready` to anybody, and from the pin on something else, to the pinned origin only. */
  lemma {:induction false} PostsGoToThePin(c: Config, h: Host, inputs: seq<Input>) returns (k: nat)
    requires h.pin.None?
    ensures var posts, end := Run(c, h, inputs).posts, Run(c, h, inputs).host;
      && k <= |posts| && ToAnyone(posts[..k])
      && (end.pin.None? ==> k == |posts|)
      && (end.pin.Some? ==> ToOrigin(posts[k..], end.pin.value.origin))
    decreases |inputs|
  {
    k := 0;
    if inputs == [] {
    } else {
      var first := Next(c, h, inputs[0]);
      if first.host.pin.Some? {
        PinnedPosts(c, first.host, inputs[1..]);
      } else {
        var rest := PostsGoToThePin(c, first.host, inputs[1..]);
        var more := Run(c, first.host, inputs[1..]).posts;
        k := |first.posts| + rest;
        assert (first.posts + more)[..k] == first.posts + more[..rest];
        assert (first.posts + more)[k..] == more[rest..];
      }
    }
  }

  /** A size is at most ten thousand pixels and not negative, an error is at least a word and at most 512 characters. */
  ghost predicate Bounded(posts: seq<Post>) {
    forall p <- posts ::
      && (p.said.Size? ==> 0 <= p.said.height <= MAX_HEIGHT)
      && (p.said.Error? ==> 1 <= |p.said.text| <= MAX_ERROR)
  }

  lemma {:induction false} PostsAreBounded(c: Config, h: Host, inputs: seq<Input>)
    ensures Bounded(Run(c, h, inputs).posts)
    decreases |inputs|
  {
    if inputs == [] {
    } else {
      PostsAreBounded(c, Next(c, h, inputs[0]).host, inputs[1..]);
    }
  }

  /** What a report posts: the height held between nothing and ten thousand, the first 512 characters of an error. */
  lemma ReportsArePosted(c: Config, h: Host, height: int, text: string)
    ensures var posts := Next(c, h, ReportSize(height)).posts;
      if h.pin.None? || h.disposed then posts == []
      else
        |posts| == 1 && posts[0].target == h.pin.value.origin && posts[0].said.Size?
        && (0 <= height <= 10000 ==> posts[0].said.height == height)
        && (height < 0 ==> posts[0].said.height == 0) && (height > 10000 ==> posts[0].said.height == 10000)
    ensures var posts := Next(c, h, ReportError(text)).posts;
      if h.pin.None? || h.disposed then posts == []
      else
        |posts| == 1 && posts[0].target == h.pin.value.origin && posts[0].said.Error?
        && (1 <= |text| <= 512 ==> posts[0].said.text == text)
        && (|text| > 512 ==> |posts[0].said.text| == 512 && posts[0].said.text <= text)
        && (text == "" ==> posts[0].said.text == "error")
  {
  }

  /** Until somebody is pinned: `ready` is due again, so long after the last one, and the orphan timer until it
      fired. */
  ghost predicate Patiently(c: Config, h: Host, readyAt: int, start: int) {
    h.pin.None? && !h.disposed ==>
      && h.repeat == Some(readyAt + c.readyEveryMs)
      && h.orphan == (if h.view.status == Orphan then None else Some(start + c.orphanAfterMs))
  }

  /** When `ready` was said last. */
  function LastReady(c: Config, h: Host, inputs: seq<Input>, at: int): int
    decreases |inputs|
  {
    if inputs == [] then at
    else
      var step := Next(c, h, inputs[0]);
      LastReady(c, step.host, inputs[1..],
                if exists p <- step.posts :: p.said == Ready(HOST_PROTOCOL) then h.now else at)
  }

  lemma {:induction false} StaysPatient(c: Config, h: Host, inputs: seq<Input>, readyAt: int, start: int)
    requires Patiently(c, h, readyAt, start) && Possible(c, h, inputs)
    requires h.pin.None? && !h.disposed ==> h.view.status != Settled
    ensures Patiently(c, Run(c, h, inputs).host, LastReady(c, h, inputs, readyAt), start)
    decreases |inputs|
  {
    if inputs == [] {
    } else {
      var step := Next(c, h, inputs[0]);
      var at := if exists p <- step.posts :: p.said == Ready(HOST_PROTOCOL) then h.now else readyAt;
      if inputs[0].RepeatFires? && h.pin.None? && !h.disposed {
        assert step.posts[0].said == Ready(HOST_PROTOCOL);
      }
      StaysPatient(c, step.host, inputs[1..], at, start);
    }
  }

  /** `ready` is said at once, and in every state nobody has answered in, it will be said again. */
  lemma ReadyIsRepeated(c: Config, now: int, inputs: seq<Input>)
    requires Possible(c, Connect(c, now).host, inputs)
    ensures Connect(c, now).posts == [Post(Ready(1), "*")]
    ensures var h := Connect(c, now).host;
      Patiently(c, Run(c, h, inputs).host, LastReady(c, h, inputs, now), now)
  {
    StaysPatient(c, Connect(c, now).host, inputs, now, now);
  }

  // ---- Orphans

  lemma {:induction false} OrphanRun(c: Config, h: Host, inputs: seq<Input>)
    requires h.pin.None? && h.view.status != Settled && Run(c, h, inputs).host.pin.None?
    ensures Run(c, h, inputs).host.view.status == (if OrphanFires in inputs then Orphan else h.view.status)
    decreases |inputs|
  {
    if inputs == [] {
    } else {
      var first := Next(c, h, inputs[0]).host;
      if first.pin.Some? {
        PinStays(c, first, inputs[1..]);
      }
      OrphanRun(c, first, inputs[1..]);
      assert inputs == [inputs[0]] + inputs[1..];
    }
  }

  lemma {:induction false} PinStays(c: Config, h: Host, inputs: seq<Input>)
    requires h.pin.Some?
    ensures Run(c, h, inputs).host.pin == h.pin
    decreases |inputs|
  {
    if inputs == [] {
    } else {
      PinStays(c, Next(c, h, inputs[0]).host, inputs[1..]);
    }
  }

  /** A widget nobody has introduced himself to is an orphan exactly when its patience has run out. */
  lemma OrphansHaveWaited(c: Config, now: int, inputs: seq<Input>)
    requires Possible(c, Connect(c, now).host, inputs) && Run(c, Connect(c, now).host, inputs).host.pin.None?
    ensures Run(c, Connect(c, now).host, inputs).host.view.status == (if OrphanFires in inputs then Orphan else Waiting)
  {
    OrphanRun(c, Connect(c, now).host, inputs);
  }

  /** An orphan is found only by an init: nothing else leaves that state, and every valid init does. */
  lemma OrphansAreFoundByInit(c: Config, now: int, inputs: seq<Input>, input: Input)
    requires Possible(c, Connect(c, now).host, inputs)
    requires var h := Run(c, Connect(c, now).host, inputs).host; Allowed(h, input) && h.view.status == Orphan
    ensures var h := Run(c, Connect(c, now).host, inputs).host;
      Next(c, h, input).host.view.status != Orphan
      <==> input.Arrives? && IsInit(input.message.data) && !h.disposed
  {
    OnlyTheFirstInitIsHeard(c, now, inputs);
    var accepted := Accepted(Arriving(inputs));
    if accepted != [] {
      AcceptedStartsWithInit(Arriving(inputs));
      AcceptedIsSettled(c, FirstView(c), accepted);
    }
  }

  lemma {:induction false} StaysSettled(c: Config, v: View, messages: seq<Message>)
    requires v.status == Settled
    ensures ReadAll(c, v, messages).status == Settled
    decreases |messages|
  {
    if messages == [] {
    } else {
      StaysSettled(c, Read(c, v, messages[0].data), messages[1..]);
    }
  }

  lemma {:induction false} AcceptedStartsWithInit(messages: seq<Message>)
    requires Accepted(messages) != []
    ensures IsInit(Accepted(messages)[0].data)
  {
    if IsInit(messages[0].data) {
    } else {
      AcceptedStartsWithInit(messages[1..]);
    }
  }

  lemma AcceptedIsSettled(c: Config, v: View, accepted: seq<Message>)
    requires accepted != [] && IsInit(accepted[0].data)
    ensures ReadAll(c, v, accepted).status == Settled
  {
    StaysSettled(c, Read(c, v, accepted[0].data), accepted[1..]);
  }
}
