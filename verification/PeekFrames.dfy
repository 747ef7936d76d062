/** What a frame of the peek shows, and which power-up a player holds (plugins/EZPug.PowerupDm/PowerupDm.cs). */
module PeekFrames {
  import opened Numbers
  import opened Wrappers
  import opened Ordered
  import opened Peek
  import opened PeekLaws

  // ---- The dots

  /** Somebody else, alive, and somewhere. */
  predicate Visible(p: Player, id: string) {
    p.id != id && p.alive && p.position.Some?
  }

  /** These points are where the visible players stand, each once, in the order of the players. */
  ghost predicate AreOf(points: seq<Point>, players: seq<Player>, id: string, from: seq<nat>) {
    && |from| == |points|
    && (forall i :: 0 <= i < |from| ==>
         from[i] < |players| && Visible(players[from[i]], id) && players[from[i]].position == Some(points[i]))
    && (forall i, j :: 0 <= i < j < |from| ==> from[i] < from[j])
    && forall k :: 0 <= k < |players| && Visible(players[k], id) ==> k in from
  }

  lemma {:induction false} ContactsAreTheOthers(players: seq<Player>, id: string) returns (from: seq<nat>)
    ensures AreOf(Contacts(players, id), players, id, from)
  {
    from := [];
    if players == [] {
    } else {
      var rest := ContactsAreTheOthers(players[1..], id);
      var shifted := Shifted(rest);
      if Visible(players[0], id) {
        from := [0] + shifted;
        FirstToo(Contacts(players[1..], id), players, id, rest);
      } else {
        from := shifted;
        FirstNot(Contacts(players[1..], id), players, id, rest);
      }
    }
  }

  function Shifted(from: seq<nat>): (r: seq<nat>)
    ensures |r| == |from| && forall i :: 0 <= i < |r| ==> r[i] == from[i] + 1
  {
    seq(|from|, i requires 0 <= i < |from| => from[i] + 1)
  }

  lemma ShiftedHas(from: seq<nat>, k: nat)
    requires k > 0 && k - 1 in from
    ensures k in Shifted(from)
  {
    var i :| 0 <= i < |from| && from[i] == k - 1;
    assert Shifted(from)[i] == k;
  }

  lemma FirstNot(points: seq<Point>, players: seq<Player>, id: string, from: seq<nat>)
    requires players != [] && !Visible(players[0], id) && AreOf(points, players[1..], id, from)
    ensures AreOf(points, players, id, Shifted(from))
  {
    forall k | 0 <= k < |players| && Visible(players[k], id) ensures k in Shifted(from) {
      assert players[1..][k - 1] == players[k];
      ShiftedHas(from, k);
    }
  }

  lemma FirstTooShown(points: seq<Point>, players: seq<Player>, id: string, from: seq<nat>)
    requires players != [] && Visible(players[0], id) && AreOf(points, players[1..], id, from)
    ensures var all, more := [0] + Shifted(from), [players[0].position.value] + points;
      forall i :: 0 <= i < |all| ==>
        all[i] < |players| && Visible(players[all[i]], id) && players[all[i]].position == Some(more[i])
  {
    var all, more := [0] + Shifted(from), [players[0].position.value] + points;
    forall i | 0 <= i < |all|
      ensures all[i] < |players| && Visible(players[all[i]], id) && players[all[i]].position == Some(more[i])
    {
      if i > 0 {
        assert all[i] == from[i - 1] + 1 && players[1..][from[i - 1]] == players[all[i]];
      }
    }
  }

  lemma FirstTooCounted(points: seq<Point>, players: seq<Player>, id: string, from: seq<nat>)
    requires players != [] && Visible(players[0], id) && AreOf(points, players[1..], id, from)
    ensures forall k :: 0 <= k < |players| && Visible(players[k], id) ==> k in [0] + Shifted(from)
  {
    forall k | 0 <= k < |players| && Visible(players[k], id) ensures k in [0] + Shifted(from) {
      if k > 0 {
        assert players[1..][k - 1] == players[k];
        ShiftedHas(from, k);
      }
    }
  }

  lemma FirstToo(points: seq<Point>, players: seq<Player>, id: string, from: seq<nat>)
    requires players != [] && Visible(players[0], id) && AreOf(points, players[1..], id, from)
    ensures AreOf([players[0].position.value] + points, players, id, [0] + Shifted(from))
  {
    FirstTooShown(points, players, id, from);
    FirstTooCounted(points, players, id, from);
  }

  /** A frame of somebody in the world, with his own place and everybody else's who is alive. */
  ghost predicate TrueTo(players: seq<Player>, f: Frame) {
    && Find(players, f.to).Some? && f.self == Find(players, f.to).value.position
    && exists from :: AreOf(f.contacts, players, f.to, from)
  }

  ghost predicate AllTrue(players: seq<Player>, frames: seq<Frame>) {
    forall f <- frames :: TrueTo(players, f)
  }

  lemma FrameIsTrue(players: seq<Player>, id: string, until: int, now: int)
    requires Find(players, id).Some?
    ensures TrueTo(players, FrameFor(players, Find(players, id).value, until, now))
  {
    FoundIsHim(players, id);
    var from := ContactsAreTheOthers(players, id);
    assert AreOf(Contacts(players, id), players, id, from);
  }

  lemma {:induction false} BeatIsTrue(players: seq<Player>, lives: Record<Life>, now: int)
    ensures AllTrue(players, BeatFrames(players, lives, now))
  {
    if lives == [] {
    } else {
      BeatIsTrue(players, lives[1..], now);
      if GoesOn(players, lives[0].0, lives[0].1.until, now) {
        FrameIsTrue(players, lives[0].0, lives[0].1.until, now);
      }
    }
  }

  lemma {:induction false} PassIsTrue(m: Mode, t: int) returns (frames: seq<Frame>)
    ensures PassTo(m, t).game.frames == m.game.frames + frames && AllTrue(m.game.players, frames)
    decreases Max(t - m.due + 1, 0)
  {
    frames := [];
    if m.due > t {
    } else {
      var now := Max(m.now, m.due);
      var beat := BeatFrames(m.game.players, m.game.lives, now);
      BeatIsTrue(m.game.players, m.game.lives, now);
      var rest := PassIsTrue(Mode(now, m.due + PEEK_INTERVAL_MS, PushPeeks(m.game, now)), t);
      frames := beat + rest;
      assert m.game.frames + frames == (m.game.frames + beat) + rest;
    }
  }

  /** Whatever happens, each frame it pushes shows where its owner is and where everybody else alive is just then. */
  lemma FramesShowTheWorld(m: Mode, e: Event) returns (frames: seq<Frame>)
    ensures Happen(m, e).game.frames == m.game.frames + frames && AllTrue(m.game.players, frames)
  {
    frames := [];
    match e
    case Claimed(id, kind) =>
      if Claim(m.game, id, kind, m.now).Some? {
        FoundIsHim(m.game.players, id);
        FrameIsTrue(m.game.players, id, m.now + PEEK_DURATION_MS, m.now);
        frames := Happen(m, e).game.frames[|m.game.frames|..];
      }
    case Pass(t) => frames := PassIsTrue(m, t);
    case _ =>
  }

  // ---- The power-up a player holds

  function Held(m: Mode, id: string): Option<string> { LifeOf(m.game.lives, id).powerup }

  lemma {:induction false} BeatKeepsPowerup(players: seq<Player>, lives: Record<Life>, now: int, id: string)
    ensures LifeOf(BeatLives(players, lives, now), id).powerup == LifeOf(lives, id).powerup
  {
    if lives == [] {
    } else {
      BeatKeepsPowerup(players, lives[1..], now, id);
    }
  }

  lemma {:induction false} PassKeepsPowerup(m: Mode, t: int, id: string)
    ensures Held(PassTo(m, t), id) == Held(m, id)
    decreases Max(t - m.due + 1, 0)
  {
    if m.due > t {
    } else {
      var now := Max(m.now, m.due);
      BeatKeepsPowerup(m.game.players, m.game.lives, now, id);
      PassKeepsPowerup(Mode(now, m.due + PEEK_INTERVAL_MS, PushPeeks(m.game, now)), t, id);
    }
  }

  /** It is the kind of his last claim while alive, speed if he named none; a new life or leaving takes it away. */
  lemma PowerupIsTheLastClaim(m: Mode, e: Event, id: string)
    ensures Held(Happen(m, e), id)
         == if e == Spawned(id) || e == Left(id) then None
            else if e.Claimed? && e.id == id && Watching(m.game.players, id) then
              Some(if e.kind.Some? then e.kind.value else "speed")
            else Held(m, id)
  {
    match e
    case Spawned(other) => GetPut(m.game.lives, other, Life(None, 0), id);
    case Died(other) => GetPut(m.game.lives, other, LifeOf(m.game.lives, other).(until := 0), id);
    case Left(other) => GetDelete(m.game.lives, other, id);
    case Claimed(other, kind) =>
      var word := match kind { case None => "speed" case Some(k) => k };
      GetPut(m.game.lives, other, Life(Some(word), m.now + PEEK_DURATION_MS), id);
      GetPut(m.game.lives, other, LifeOf(m.game.lives, other).(powerup := Some(word)), id);
    case Pass(t) => PassKeepsPowerup(m, t, id);
    case WorldIs(_) =>
  }

  // ---- Whose world it is

  lemma {:induction false} PassKeepsPlayers(m: Mode, t: int)
    ensures PassTo(m, t).game.players == m.game.players
    decreases Max(t - m.due + 1, 0)
  {
    if m.due > t {
    } else {
      var now := Max(m.now, m.due);
      PassKeepsPlayers(Mode(now, m.due + PEEK_INTERVAL_MS, PushPeeks(m.game, now)), t);
    }
  }

  /** The players told last, the first ones before any are. */
  function ToldLast(players: seq<Player>, events: seq<Event>): seq<Player> {
    if events == [] then players
    else
      match events[|events| - 1]
      case WorldIs(now) => now
      case _ => ToldLast(players, events[..|events| - 1])
  }

  lemma {:induction false} RunThenOne(m: Mode, events: seq<Event>, last: Event)
    ensures Run(m, events + [last]) == Happen(Run(m, events), last)
    decreases |events|
  {
    if events == [] {
      assert [last][1..] == [];
    } else {
      assert (events + [last])[1..] == events[1..] + [last];
      RunThenOne(Happen(m, events[0]), events[1..], last);
    }
  }

  /** The players frames are about are those the world has had since it last changed. */
  lemma {:induction false} PlayersAreTheLastTold(m: Mode, events: seq<Event>)
    ensures Run(m, events).game.players == ToldLast(m.game.players, events)
    decreases |events|
  {
    if events == [] {
    } else {
      var before, last := events[..|events| - 1], events[|events| - 1];
      assert events == before + [last];
      PlayersAreTheLastTold(m, before);
      RunThenOne(m, before, last);
      if last.Pass? {
        PassKeepsPlayers(Run(m, before), last.t);
      }
    }
  }
}
