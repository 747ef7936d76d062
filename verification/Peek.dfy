/**
 * The timed peek of plugins/EZPug.PowerupDm/PowerupDm.cs: every running peek gets a frame on each beat of one timer.
 */
module Peek {
  import opened Numbers
  import opened Wrappers
  import opened Ordered

  const PEEK_DURATION_MS := 5000
  const PEEK_INTERVAL_MS := 500

  datatype Point = Point(x: int, y: int, z: int)

  /** A player of the world, by SteamID64. */
  datatype Player = Player(id: string, alive: bool, position: Option<Point>)

  datatype Life = Life(powerup: Option<string>, until: int)

  datatype Frame = Frame(to: string, at: int, left: int, self: Option<Point>, contacts: seq<Point>)

  datatype Game = Game(players: seq<Player>, lives: Record<Life>, frames: seq<Frame>)

  /** The game, what the clock shows and when the one timer is next due. */
  datatype Mode = Mode(now: int, due: int, game: Game)

  function Find(players: seq<Player>, id: string): Option<Player> {
    if players == [] then None else if players[0].id == id then Some(players[0]) else Find(players[1..], id)
  }

  function LifeOf(lives: Record<Life>, id: string): Life {
    match Get(lives, id)
    case None => Life(None, 0)
    case Some(life) => life
  }

  function Contacts(players: seq<Player>, id: string): seq<Point> {
    if players == [] then []
    else if players[0].id == id || !players[0].alive || players[0].position.None? then Contacts(players[1..], id)
    else [players[0].position.value] + Contacts(players[1..], id)
  }

  /** `PushPeek`. */
  function FrameFor(players: seq<Player>, player: Player, until: int, now: int): Frame {
    Frame(player.id, now, Max(0, until - now), player.position, Contacts(players, player.id))
  }

  /** Whether a peek goes on: its owner is there and alive, and its five seconds are not up. */
  predicate GoesOn(players: seq<Player>, id: string, until: int, now: int) {
    Find(players, id).Some? && Find(players, id).value.alive && now < until
  }

  /** What one beat makes of the lives. */
  function BeatLives(players: seq<Player>, lives: Record<Life>, now: int): Record<Life> {
    if lives == [] then []
    else
      var (id, life) := lives[0];
      [(id, if life.until == 0 || GoesOn(players, id, life.until, now) then life else life.(until := 0))]
      + BeatLives(players, lives[1..], now)
  }

  /** The frames one beat pushes. */
  function BeatFrames(players: seq<Player>, lives: Record<Life>, now: int): seq<Frame> {
    if lives == [] then []
    else
      var (id, life) := lives[0];
      if life.until == 0 || !GoesOn(players, id, life.until, now) then BeatFrames(players, lives[1..], now)
      else [FrameFor(players, Find(players, id).value, life.until, now)] + BeatFrames(players, lives[1..], now)
  }

  function PushPeeks(g: Game, now: int): Game {
    Game(g.players, BeatLives(g.players, g.lives, now), g.frames + BeatFrames(g.players, g.lives, now))
  }

  /** `OnPlayerSpawned`. */
  function Spawn(g: Game, id: string): Game {
    g.(lives := Put(g.lives, id, Life(None, 0)))
  }

  /** `OnPlayerDied`. */
  function Die(g: Game, id: string): Game {
    g.(lives := Put(g.lives, id, LifeOf(g.lives, id).(until := 0)))
  }

  /** `OnPlayerCommand`: None is `NotAlive`. */
  function Claim(g: Game, id: string, kind: Option<string>, now: int): Option<Game> {
    match Find(g.players, id)
    case None => None
    case Some(player) =>
      if !player.alive then None
      else
        var word := match kind { case None => "speed" case Some(k) => k };
        if word == "radar_peek" then
          var until := now + PEEK_DURATION_MS;
          Some(Game(g.players, Put(g.lives, id, Life(Some(word), until)),
                    g.frames + [FrameFor(g.players, player, until, now)]))
        else
          Some(g.(lives := Put(g.lives, id, LifeOf(g.lives, id).(powerup := Some(word)))))
  }

  // ---- Time

  /** Time passes up to `t`, beat by beat. */
  function PassTo(m: Mode, t: int): Mode
    decreases Max(t - m.due + 1, 0)
  {
    if m.due > t then m.(now := Max(m.now, t))
    else
      var now := Max(m.now, m.due);
      PassTo(Mode(now, m.due + PEEK_INTERVAL_MS, PushPeeks(m.game, now)), t)
  }

  /** What can happen: the world changes, a hook is called, time passes. */
  datatype Event =
    | WorldIs(players: seq<Player>)
    | Spawned(id: string)
    | Died(id: string)
    | Left(id: string)
    | Claimed(id: string, kind: Option<string>)
    | Pass(t: int)

  function Happen(m: Mode, e: Event): Mode {
    match e
    case WorldIs(players) => m.(game := m.game.(players := players))
    case Spawned(id) => m.(game := Spawn(m.game, id))
    case Died(id) => m.(game := Die(m.game, id))
    case Left(id) => m.(game := m.game.(lives := Delete(m.game.lives, id)))
    case Claimed(id, kind) =>
      (match Claim(m.game, id, kind, m.now)
       case None => m
       case Some(g) => m.(game := g))
    case Pass(t) => PassTo(m, t)
  }

  function Run(m: Mode, events: seq<Event>): Mode
    decreases |events|
  {
    if events == [] then m else Run(Happen(m, events[0]), events[1..])
  }

  /** `OnAssigned` at `now`. */
  function Assigned(now: int, players: seq<Player>): Mode {
    Mode(now, now + PEEK_INTERVAL_MS, Game(players, [], []))
  }
}
