/** The handshake as its closures change it in place, held to module Host. */
module HostShell {
  import opened Wrappers
  import opened Spec = Host

  class HostShell {
    const config: Config
    var now: int
    var view: View
    var pin: Option<Pin>
    var repeat: Option<int>
    var orphan: Option<int>
    var disposed: bool
    /** What was posted to the parent frame. */
    var posted: seq<Post>

    function State(): Host
      reads this
    {
      Host.Host(now, view, pin, repeat, orphan, disposed)
    }

    twostate predicate Took(step: Step)
      reads this
    {
      State() == step.host && posted == old(posted) + step.posts
    }

    constructor (config: Config, now: int)
      ensures this.config == config
      ensures State() == Connect(config, now).host && posted == Connect(config, now).posts
    {
      this.config, this.now := config, now;
      view, pin, repeat, orphan, disposed, posted := FirstView(config), None, None, None, false, [];
      new;
      SayReady();
      orphan := Some(now + config.orphanAfterMs);
    }

    method PostTo(said: Said)
      modifies this`posted
      ensures posted == old(posted) + Sent(State(), said)
    {
      if disposed {
        return;
      }
      posted := posted + [Post(said, if pin.Some? then pin.value.origin else "*")];
    }

    method SayReady()
      modifies this`posted, this`repeat
      ensures Took(Spec.SayReady(config, old(State())))
    {
      if disposed || pin.Some? {
        return;
      }
      PostTo(Ready(HOST_PROTOCOL));
      repeat := Some(now + config.readyEveryMs);
    }

    method OnMessage(m: Message)
      modifies this`view, this`pin, this`repeat, this`orphan
      ensures State() == Spec.OnMessage(config, old(State()), m)
    {
      if pin.None? {
        if !IsInit(m.data) {
          return;
        }
        pin := Some(Pin(m.origin, m.source));
        repeat := None;
        orphan := None;
      } else if m.origin != pin.value.origin || (pin.value.source.Some? && m.source != pin.value.source) {
        return;
      }
      view := Read(config, view, m.data);
    }

    method Orphaned()
      modifies this`orphan, this`view
      ensures Took(Next(config, old(State()), OrphanFires))
    {
      orphan := None;
      if pin.None? {
        view := view.(status := Orphan);
      }
    }

    method ReportSize(height: int)
      modifies this`posted
      ensures Took(Next(config, old(State()), Input.ReportSize(height)))
    {
      if pin.Some? {
        PostTo(Size(Clamp(height)));
      }
    }

    method ReportError(text: string)
      modifies this`posted
      ensures Took(Next(config, old(State()), Input.ReportError(text)))
    {
      if pin.Some? {
        PostTo(Error(Shortened(text)));
      }
    }

    method Dispose()
      modifies this`disposed, this`repeat, this`orphan
      ensures Took(Next(config, old(State()), Input.Dispose))
    {
      disposed := true;
      repeat := None;
      orphan := None;
    }

    /** Whatever the environment does next; a disposed shell has stopped listening. */
    method Take(input: Input)
      modifies this
      ensures Took(Next(config, old(State()), input))
    {
      match input
      case Elapse(ms) => now := now + ms;
      case Arrives(m) =>
        if !disposed {
          OnMessage(m);
        }
      case RepeatFires => SayReady();
      case OrphanFires => Orphaned();
      case ReportSize(height) => ReportSize(height);
      case ReportError(text) => ReportError(text);
      case Dispose => Dispose();
    }
  }
}
