/** The mode as its hooks change it in place, held to module Peek. */
module PowerupDm {
  import opened Numbers
  import opened Wrappers
  import opened Lists
  import opened Ordered
  import opened Peek

  class PowerupDm {
    /** What the world reports. */
    var players: seq<Player>
    var lives: Record<Life>
    /** Every frame pushed to a phone. */
    var frames: seq<Frame>

    function State(): Game
      reads this
    {
      Game(players, lives, frames)
    }

    constructor OnAssigned(players: seq<Player>)
      ensures State() == Game(players, [], [])
    {
      this.players, lives, frames := players, [], [];
    }

    method OnPlayerSpawned(id: string)
      modifies this`lives
      ensures State() == Spawn(old(State()), id)
    {
      lives := Put(lives, id, Life(None, 0));
    }

    method OnPlayerDied(id: string)
      modifies this`lives
      ensures State() == Die(old(State()), id)
    {
      lives := Put(lives, id, LifeOf(lives, id).(until := 0));
    }

    /** The claim; false is `NotAlive`. */
    method OnPlayerCommand(id: string, kind: Option<string>, now: int) returns (ok: bool)
      modifies this`lives, this`frames
      ensures match Claim(old(State()), id, kind, now) {
        case None => !ok && State() == old(State())
        case Some(game) => ok && State() == game
      }
    {
      var player := Find(players, id);
      if player.None? || !player.value.alive {
        return false;
      }
      var word := match kind { case None => "speed" case Some(k) => k };
      var life := LifeOf(lives, id);
      if word == "radar_peek" {
        life := life.(until := now + PEEK_DURATION_MS);
        PushPeek(player.value, life.until, now);
      }
      lives := Put(lives, id, life.(powerup := Some(word)));
      return true;
    }

    /** One turn of the mode's only timer. */
    method PushPeeks(now: int)
      modifies this`lives, this`frames
      ensures State() == Peek.PushPeeks(old(State()), now)
    {
      ghost var before := lives;
      for i := 0 to |lives|
        invariant |lives| == |before| && lives[i..] == before[i..]
        invariant lives[..i] + BeatLives(players, before[i..], now) == BeatLives(players, before, now)
        invariant frames + BeatFrames(players, before[i..], now) == old(frames) + BeatFrames(players, before, now)
      {
        assert lives[i..][0] == before[i..][0] && before[i..][1..] == before[i + 1..];
        OneLife(players, before[i..], now, lives[..i], frames);
        Turn(i, now);
        assert lives[..i + 1] == lives[..i] + [lives[i]];
      }
      assert before[|before|..] == [] && lives[..|lives|] + [] == lives && frames + [] == frames;
    }

    /** The turn of the life at `i`. */
    method Turn(i: nat, now: int)
      requires i < |lives|
      modifies this`lives, this`frames
      ensures lives == old(lives)[i := BeatLives(players, old(lives)[i..][..1], now)[0]]
      ensures frames == old(frames) + BeatFrames(players, old(lives)[i..][..1], now)
    {
      var (id, life) := lives[i];
      assert lives[i..][..1] == [lives[i]];
      assert BeatLives(players, [lives[i]][1..], now) == [] && BeatFrames(players, [lives[i]][1..], now) == [];
      if life.until != 0 {
        var player := Find(players, id);
        if player.None? || !player.value.alive || now >= life.until {
          lives := lives[i := (id, life.(until := 0))];
        } else {
          PushPeek(player.value, life.until, now);
        }
      }
    }

    method PushPeek(player: Player, until: int, now: int)
      modifies this`frames
      ensures frames == old(frames) + [FrameFor(players, player, until, now)]
    {
      var contacts: seq<Point> := [];
      for i := 0 to |players|
        invariant contacts + Contacts(players[i..], player.id) == Contacts(players, player.id)
      {
        var other := players[i];
        assert players[i..][0] == other && players[i..][1..] == players[i + 1..];
        if other.id != player.id && other.alive && other.position.Some? {
          contacts := contacts + [other.position.value];
        }
      }
      assert players[|players|..] == [] && contacts + [] == contacts;
      frames := frames + [Frame(player.id, now, Max(0, until - now), player.position, contacts)];
    }
  }

  lemma OneLife(players: seq<Player>, rest: Record<Life>, now: int, done: Record<Life>, frames: seq<Frame>)
    requires rest != []
    ensures (done + BeatLives(players, rest[..1], now)) + BeatLives(players, rest[1..], now)
         == done + BeatLives(players, rest, now)
    ensures (frames + BeatFrames(players, rest[..1], now)) + BeatFrames(players, rest[1..], now)
         == frames + BeatFrames(players, rest, now)
    ensures |BeatLives(players, rest[..1], now)| == 1
  {
    HeadAndRest(players, rest, now);
    Regroup(done, BeatLives(players, rest[..1], now), BeatLives(players, rest[1..], now));
    Regroup(frames, BeatFrames(players, rest[..1], now), BeatFrames(players, rest[1..], now));
  }

  lemma HeadAndRest(players: seq<Player>, rest: Record<Life>, now: int)
    requires rest != []
    ensures BeatLives(players, rest[..1], now) + BeatLives(players, rest[1..], now) == BeatLives(players, rest, now)
    ensures BeatFrames(players, rest[..1], now) + BeatFrames(players, rest[1..], now) == BeatFrames(players, rest, now)
    ensures |BeatLives(players, rest[..1], now)| == 1
  {
    assert rest[..1] == [rest[0]];
    OneBeat(players, rest[0], now);
  }

  lemma OneBeat(players: seq<Player>, one: (string, Life), now: int)
    ensures BeatLives(players, [one], now)
         == [(one.0,
              if one.1.until == 0 || GoesOn(players, one.0, one.1.until, now) then one.1 else one.1.(until := 0))]
    ensures BeatFrames(players, [one], now)
         == if one.1.until == 0 || !GoesOn(players, one.0, one.1.until, now) then []
            else [FrameFor(players, Find(players, one.0).value, one.1.until, now)]
  {
    assert [one][1..] == [];
  }
}
