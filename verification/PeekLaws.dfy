/** How many frames a peek is, when they come, and when none do. */
module PeekLaws {
  import opened Numbers
  import opened Wrappers
  import Lists
  import opened Ordered
  import opened Peek
  import Clock
  import ClockSafety
  import ClockRepeats

  // ---- One player's share

  /** When the frames to this player were pushed, and what they said was left. */
  function Shown(frames: seq<Frame>, id: string): seq<(int, int)> {
    if frames == [] then []
    else if frames[0].to == id then [(frames[0].at, frames[0].left)] + Shown(frames[1..], id)
    else Shown(frames[1..], id)
  }

  function Until(m: Mode, id: string): int { LifeOf(m.game.lives, id).until }

  ghost predicate Once(lives: Record<Life>) {
    lives != [] ==> Get(lives[1..], lives[0].0).None? && Once(lives[1..])
  }

  lemma {:induction false} ShownAppend(a: seq<Frame>, b: seq<Frame>, id: string)
    ensures Shown(a + b, id) == Shown(a, id) + Shown(b, id)
  {
    if a == [] {
      assert a + b == b;
    } else {
      ShownAppend(a[1..], b, id);
      assert (a + b)[1..] == a[1..] + b;
    }
  }

  lemma {:induction false} OncePut(lives: Record<Life>, id: string, life: Life)
    requires Once(lives)
    ensures Once(Put(lives, id, life))
  {
    if lives == [] || lives[0].0 == id {
    } else {
      OncePut(lives[1..], id, life);
      GetPut(lives[1..], id, life, lives[0].0);
    }
  }

  lemma {:induction false} OnceDelete(lives: Record<Life>, id: string)
    requires Once(lives)
    ensures Once(Delete(lives, id))
  {
    if lives == [] {
    } else {
      OnceDelete(lives[1..], id);
      GetDelete(lives[1..], id, lives[0].0);
    }
  }

  lemma {:induction false} FoundIsHim(players: seq<Player>, id: string)
    ensures Find(players, id).Some? ==> Find(players, id).value.id == id
  {
    if players == [] {
    } else {
      FoundIsHim(players[1..], id);
    }
  }

  /** One beat, for one player: a frame if his peek goes on, its end if it does not. */
  lemma {:induction false} BeatFor(players: seq<Player>, lives: Record<Life>, now: int, id: string)
    requires Once(lives)
    ensures var until := LifeOf(lives, id).until;
      var on := until != 0 && GoesOn(players, id, until, now);
      && LifeOf(BeatLives(players, lives, now), id).until == (if on then until else 0)
      && Shown(BeatFrames(players, lives, now), id) == (if on then [(now, until - now)] else [])
      && (Get(BeatLives(players, lives, now), id).None? <==> Get(lives, id).None?)
  {
    if lives == [] {
    } else {
      BeatFor(players, lives[1..], now, id);
      FoundIsHim(players, lives[0].0);
    }
  }

  lemma {:induction false} OnceBeat(players: seq<Player>, lives: Record<Life>, now: int)
    requires Once(lives)
    ensures Once(BeatLives(players, lives, now))
  {
    if lives == [] {
    } else {
      OnceBeat(players, lives[1..], now);
      BeatFor(players, lives[1..], now, lives[0].0);
    }
  }

  // ---- The plan

  /** The frames of a peek that ends at `until`, on the beats from `due` on, up to `t`. */
  function Plan(due: int, until: int, t: int): seq<(int, int)>
    decreases Max(t - due + 1, 0)
  {
    if due > t || due >= until then [] else [(due, until - due)] + Plan(due + PEEK_INTERVAL_MS, until, t)
  }

  /** The first beat after `t`. */
  function NextDue(due: int, t: int): int
    decreases Max(t - due + 1, 0)
  {
    if due > t then due else NextDue(due + PEEK_INTERVAL_MS, t)
  }

  lemma {:induction false} PlanSplits(due: int, until: int, t: int, end: int)
    requires t <= end
    ensures Plan(due, until, end) == Plan(due, until, t) + Plan(NextDue(due, t), until, end)
    decreases Max(t - due + 1, 0)
  {
    if due > t {
    } else {
      PlanSplits(due + PEEK_INTERVAL_MS, until, t, end);
      if due >= until {
        PastPlan(due + PEEK_INTERVAL_MS, until, t, end);
      }
    }
  }

  lemma {:induction false} PastPlan(due: int, until: int, t: int, end: int)
    requires due >= until
    ensures NextDue(due, t) >= until && Plan(NextDue(due, t), until, end) == []
    decreases Max(t - due + 1, 0)
  {
    if due > t {
    } else {
      PastPlan(due + PEEK_INTERVAL_MS, until, t, end);
    }
  }

  lemma {:induction false} PlanCount(due: int, until: int, t: int)
    requires due < until && until - 1 <= t
    ensures |Plan(due, until, t)| == (until - 1 - due) / PEEK_INTERVAL_MS + 1
    decreases until - due
  {
    if due + PEEK_INTERVAL_MS >= until {
    } else {
      PlanCount(due + PEEK_INTERVAL_MS, until, t);
    }
  }

  /** Every entry says truly how much is left, and that is at least 1 and never grows. */
  lemma {:induction false} PlanIsHonest(due: int, until: int, t: int, k: nat)
    requires k < |Plan(due, until, t)|
    ensures var (at, left) := Plan(due, until, t)[k];
      at == due + k * PEEK_INTERVAL_MS && left == until - at && left >= 1
    decreases k
  {
    if k == 0 {
    } else {
      PlanIsHonest(due + PEEK_INTERVAL_MS, until, t, k - 1);
    }
  }

  // ---- Time passing

  lemma {:induction false} PassKeeps(m: Mode, t: int)
    requires Once(m.game.lives)
    ensures var after := PassTo(m, t);
      && Once(after.game.lives) && after.game.players == m.game.players
      && after.due == NextDue(m.due, t) && after.now >= m.now && (m.now <= m.due ==> after.now == Max(m.now, t))
    decreases Max(t - m.due + 1, 0)
  {
    if m.due > t {
    } else {
      var now := Max(m.now, m.due);
      OnceBeat(m.game.players, m.game.lives, now);
      PassKeeps(Mode(now, m.due + PEEK_INTERVAL_MS, PushPeeks(m.game, now)), t);
    }
  }

  /** A beat that has been waiting does not come late. */
  ghost predicate Ticking(m: Mode) {
    Once(m.game.lives) && m.now <= m.due
  }

  lemma BeatShown(m: Mode, id: string)
    requires Ticking(m)
    ensures var after := Mode(m.due, m.due + PEEK_INTERVAL_MS, PushPeeks(m.game, m.due));
      var on := Until(m, id) != 0 && GoesOn(m.game.players, id, Until(m, id), m.due);
      && Ticking(after)
      && Until(after, id) == (if on then Until(m, id) else 0)
      && Shown(after.game.frames, id) == Shown(m.game.frames, id) + (if on then [(m.due, Until(m, id) - m.due)] else [])
  {
    BeatFor(m.game.players, m.game.lives, m.due, id);
    OnceBeat(m.game.players, m.game.lives, m.due);
    ShownAppend(m.game.frames, BeatFrames(m.game.players, m.game.lives, m.due), id);
  }

  lemma {:induction false} PassQuietly(m: Mode, t: int, id: string)
    requires Ticking(m) && Until(m, id) == 0
    ensures Until(PassTo(m, t), id) == 0 && Shown(PassTo(m, t).game.frames, id) == Shown(m.game.frames, id)
    decreases Max(t - m.due + 1, 0)
  {
    if m.due > t {
    } else {
      BeatShown(m, id);
      PassQuietly(Mode(m.due, m.due + PEEK_INTERVAL_MS, PushPeeks(m.game, m.due)), t, id);
    }
  }

  predicate Watching(players: seq<Player>, id: string) {
    Find(players, id).Some? && Find(players, id).value.alive
  }

  lemma {:induction false} PassShows(m: Mode, t: int, id: string)
    requires Ticking(m) && Until(m, id) != 0
    ensures var after, until := PassTo(m, t), Until(m, id);
      var frames := if Watching(m.game.players, id) then Plan(m.due, until, t) else [];
      && Shown(after.game.frames, id) == Shown(m.game.frames, id) + frames
      && (Until(after, id) == until
          || (Until(after, id) == 0 && (Watching(m.game.players, id) ==> after.due >= until)))
      && (Until(after, id) == until && !Watching(m.game.players, id) ==> t < m.due)
    decreases Max(t - m.due + 1, 0)
  {
    if m.due > t {
    } else {
      var next := Mode(m.due, m.due + PEEK_INTERVAL_MS, PushPeeks(m.game, m.due));
      BeatShown(m, id);
      assert PassTo(m, t) == PassTo(next, t);
      if Until(next, id) == 0 {
        PassQuietly(next, t, id);
        PassKeeps(next, t);
        if Watching(m.game.players, id) {
          PastPlan(next.due, Until(m, id), t, t);
        }
      } else {
        PassShows(next, t, id);
        Lists.Regroup(Shown(m.game.frames, id), [(m.due, Until(m, id) - m.due)], Plan(next.due, Until(m, id), t));
      }
    }
  }

  // ---- Whole runs

  /** This player's claim of the peek. */
  predicate ClaimsPeek(e: Event, id: string) {
    e.Claimed? && e.id == id && e.kind == Some("radar_peek")
  }

  /** This player does not claim the peek; other power-ups he may claim. */
  ghost predicate NoClaim(events: seq<Event>, id: string) {
    forall e <- events :: !ClaimsPeek(e, id)
  }

  /** Nothing ends this player's peek before its time. */
  ghost predicate Undisturbed(events: seq<Event>, id: string) {
    forall e <- events ::
      && ((e.Spawned? || e.Died? || e.Left?) ==> e.id != id)
      && (e.WorldIs? ==> Watching(e.players, id))
  }

  lemma TickingHappen(m: Mode, e: Event)
    requires Ticking(m)
    ensures Ticking(Happen(m, e)) && Happen(m, e).now >= m.now && Happen(m, e).due >= m.due
  {
    match e
    case Spawned(id) => OncePut(m.game.lives, id, Life(None, 0));
    case Died(id) => OncePut(m.game.lives, id, LifeOf(m.game.lives, id).(until := 0));
    case Left(id) => OnceDelete(m.game.lives, id);
    case Claimed(id, kind) =>
      if Claim(m.game, id, kind, m.now).Some? {
        OncePut(m.game.lives, id, LifeOf(Claim(m.game, id, kind, m.now).value.lives, id));
        ClaimPuts(m.game, id, kind, m.now);
      }
    case Pass(t) =>
      PassKeeps(m, t);
      NextDueIsAfter(m.due, t);
    case WorldIs(_) =>
  }

  lemma ClaimPuts(g: Game, id: string, kind: Option<string>, now: int)
    requires Claim(g, id, kind, now).Some?
    ensures var lives := Claim(g, id, kind, now).value.lives; lives == Put(g.lives, id, LifeOf(lives, id))
  {
    var word := match kind { case None => "speed" case Some(k) => k };
    GetPut(g.lives, id, Life(Some(word), now + PEEK_DURATION_MS), id);
    GetPut(g.lives, id, LifeOf(g.lives, id).(powerup := Some(word)), id);
  }

  lemma {:induction false} NextDueIsAfter(due: int, t: int)
    ensures due <= NextDue(due, t) && t < NextDue(due, t)
    decreases Max(t - due + 1, 0)
  {
    if due > t {
    } else {
      NextDueIsAfter(due + PEEK_INTERVAL_MS, t);
    }
  }

  lemma {:induction false} TickingRun(m: Mode, events: seq<Event>)
    requires Ticking(m)
    ensures Ticking(Run(m, events)) && Run(m, events).now >= m.now && Run(m, events).due >= m.due
    decreases |events|
  {
    if events == [] {
    } else {
      TickingHappen(m, events[0]);
      TickingRun(Happen(m, events[0]), events[1..]);
    }
  }

  /** Neither time passing nor this player's claim of the peek: it shows him nothing, and at most ends his peek. */
  lemma OtherHappen(m: Mode, e: Event, id: string)
    requires Ticking(m) && !e.Pass? && !ClaimsPeek(e, id)
    ensures var after := Happen(m, e);
      && after.now == m.now && after.due == m.due
      && Shown(after.game.frames, id) == Shown(m.game.frames, id)
      && (Until(after, id) == Until(m, id) || Until(after, id) == 0)
      && (!((e.Spawned? || e.Died? || e.Left?) && e.id == id) ==> Until(after, id) == Until(m, id))
  {
    match e
    case Spawned(other) => GetPut(m.game.lives, other, Life(None, 0), id);
    case Died(other) => GetPut(m.game.lives, other, LifeOf(m.game.lives, other).(until := 0), id);
    case Left(other) => GetDelete(m.game.lives, other, id);
    case Claimed(other, kind) =>
      if Claim(m.game, other, kind, m.now).Some? {
        var g := Claim(m.game, other, kind, m.now).value;
        ClaimPuts(m.game, other, kind, m.now);
        GetPut(m.game.lives, other, LifeOf(g.lives, other), id);
        var word := match kind { case None => "speed" case Some(k) => k };
        GetPut(m.game.lives, other, LifeOf(m.game.lives, other).(powerup := Some(word)), id);
        FoundIsHim(m.game.players, other);
        var player := Find(m.game.players, other).value;
        ShownAppend(m.game.frames, [FrameFor(m.game.players, player, m.now + PEEK_DURATION_MS, m.now)], id);
      }
    case WorldIs(_) =>
  }

  /** With no peek running, nothing is shown until the next claim: not after a death, not after the time is up. */
  lemma {:induction false} NothingWithoutAClaim(m: Mode, events: seq<Event>, id: string)
    requires Ticking(m) && Until(m, id) == 0 && NoClaim(events, id)
    ensures Until(Run(m, events), id) == 0 && Shown(Run(m, events).game.frames, id) == Shown(m.game.frames, id)
    decreases |events|
  {
    if events == [] {
    } else {
      assert events[0] in events && forall e <- events[1..] :: e in events;
      TickingHappen(m, events[0]);
      if events[0].Pass? {
        PassQuietly(m, events[0].t, id);
      } else {
        OtherHappen(m, events[0], id);
      }
      NothingWithoutAClaim(Happen(m, events[0]), events[1..], id);
    }
  }

  /** A death ends the peek: nothing more is shown until the next claim. */
  lemma NothingAfterADeath(m: Mode, id: string, events: seq<Event>)
    requires Ticking(m) && NoClaim(events, id)
    ensures Shown(Run(Happen(m, Died(id)), events).game.frames, id) == Shown(m.game.frames, id)
  {
    GetPut(m.game.lives, id, LifeOf(m.game.lives, id).(until := 0), id);
    TickingHappen(m, Died(id));
    NothingWithoutAClaim(Happen(m, Died(id)), events, id);
  }

  /** What a running peek shows from here on. */
  lemma {:induction false} PeekFollowsPlan(m: Mode, events: seq<Event>, id: string) returns (shown: seq<(int, int)>)
    requires Ticking(m) && Until(m, id) != 0 && NoClaim(events, id)
    ensures Shown(Run(m, events).game.frames, id) == Shown(m.game.frames, id) + shown
    ensures shown <= Plan(m.due, Until(m, id), Run(m, events).due - 1)
    ensures Undisturbed(events, id) && Watching(m.game.players, id)
      ==> shown == Plan(m.due, Until(m, id), Run(m, events).due - 1)
    decreases |events|, 0
  {
    shown := [];
    if events == [] {
    } else {
      var e, after, until := events[0], Happen(m, events[0]), Until(m, id);
      assert e in events && forall x <- events[1..] :: x in events;
      TickingHappen(m, e);
      TickingRun(after, events[1..]);
      if e.Pass? {
        shown := PassThenPlan(m, e.t, events[1..], id);
      } else {
        OtherHappen(m, e, id);
        if Until(after, id) == 0 {
          NothingWithoutAClaim(after, events[1..], id);
        } else {
          shown := PeekFollowsPlan(after, events[1..], id);
        }
      }
    }
  }

  lemma PassThenPlan(m: Mode, t: int, more: seq<Event>, id: string) returns (shown: seq<(int, int)>)
    requires Ticking(m) && Until(m, id) != 0 && NoClaim(more, id)
    ensures var end := Run(PassTo(m, t), more);
      && Shown(end.game.frames, id) == Shown(m.game.frames, id) + shown
      && shown <= Plan(m.due, Until(m, id), end.due - 1)
      && (Undisturbed(more, id) && Watching(m.game.players, id) ==> shown == Plan(m.due, Until(m, id), end.due - 1))
    decreases |more|, 1
  {
    var after, until := PassTo(m, t), Until(m, id);
    var end := Run(after, more);
    TickingHappen(m, Pass(t));
    TickingRun(after, more);
    PassKeeps(m, t);
    PassShows(m, t, id);
    NextDueIsAfter(m.due, t);
    PlanSplits(m.due, until, t, end.due - 1);
    var first := if Watching(m.game.players, id) then Plan(m.due, until, t) else [];
    if Until(after, id) == 0 {
      NothingWithoutAClaim(after, more, id);
      shown := first;
      if Watching(m.game.players, id) {
        PastPlan(after.due, until, after.due - 1, end.due - 1);
      }
    } else {
      var rest := PeekFollowsPlan(after, more, id);
      shown := first + rest;
      Lists.Regroup(Shown(m.game.frames, id), first, rest);
      PrefixBehind(Plan(m.due, until, t), rest, Plan(after.due, until, end.due - 1));
    }
  }

  lemma PrefixBehind<T>(front: seq<T>, a: seq<T>, b: seq<T>)
    requires a <= b
    ensures front + a <= front + b
  {
  }

  /** An end at instant 0 says that no peek is running: a claim five seconds before it shows one frame, its own. */
  lemma APeekCannotEndAtZero(m: Mode, id: string, events: seq<Event>)
    requires Ticking(m) && m.now == -PEEK_DURATION_MS && Watching(m.game.players, id) && NoClaim(events, id)
    ensures Shown(Run(Happen(m, Claimed(id, Some("radar_peek"))), events).game.frames, id)
         == Shown(m.game.frames, id) + [(m.now, PEEK_DURATION_MS)]
  {
    ClaimShows(m, id);
    NothingWithoutAClaim(Happen(m, Claimed(id, Some("radar_peek"))), events, id);
  }

  /** What a claim of the peek shows at once, and where it leaves the peek. */
  lemma ClaimShows(m: Mode, id: string)
    requires Ticking(m) && Watching(m.game.players, id)
    ensures var after := Happen(m, Claimed(id, Some("radar_peek")));
      && Ticking(after) && after.now == m.now && after.due == m.due && after.game.players == m.game.players
      && Until(after, id) == m.now + PEEK_DURATION_MS
      && Shown(after.game.frames, id) == Shown(m.game.frames, id) + [(m.now, PEEK_DURATION_MS)]
  {
    var until := m.now + PEEK_DURATION_MS;
    TickingHappen(m, Claimed(id, Some("radar_peek")));
    FoundIsHim(m.game.players, id);
    GetPut(m.game.lives, id, Life(Some("radar_peek"), until), id);
    ShownAppend(m.game.frames, [FrameFor(m.game.players, Find(m.game.players, id).value, until, m.now)], id);
  }

  /**
   * Every peek, over everything that can happen until its owner claims it again: the frames he is shown are the
   * claim's own and then the beats before the deadline, in order; all of them if nothing disturbs the peek, the first
   * few otherwise.
   */
  lemma EveryPeekFollowsItsPlan(m: Mode, id: string, events: seq<Event>) returns (shown: seq<(int, int)>)
    requires Ticking(m) && m.now != -PEEK_DURATION_MS && Watching(m.game.players, id) && NoClaim(events, id)
    ensures var end := Run(Happen(m, Claimed(id, Some("radar_peek"))), events);
      var plan := Plan(m.due, m.now + PEEK_DURATION_MS, end.due - 1);
      && Shown(end.game.frames, id) == Shown(m.game.frames, id) + [(m.now, PEEK_DURATION_MS)] + shown
      && shown <= plan
      && (Undisturbed(events, id) ==> shown == plan)
    ensures forall k :: 0 <= k < |shown| ==> Shows(shown[k], m.due + k * PEEK_INTERVAL_MS, m.now + PEEK_DURATION_MS)
  {
    ClaimShows(m, id);
    shown := PeekFollowsPlan(Happen(m, Claimed(id, Some("radar_peek"))), events, id);
    var end := Run(Happen(m, Claimed(id, Some("radar_peek"))), events);
    forall k | 0 <= k < |shown|
      ensures Shows(shown[k], m.due + k * PEEK_INTERVAL_MS, m.now + PEEK_DURATION_MS)
    {
      PlanIsHonest(m.due, m.now + PEEK_DURATION_MS, end.due - 1, k);
    }
  }

  /** Pushed at that beat, before the deadline, and saying how long is left. */
  predicate Shows(shown: (int, int), beat: int, until: int) {
    shown == (beat, until - beat) && beat < until
  }

  /** A beat waits for nobody longer than the interval. */
  ghost predicate Beating(m: Mode) {
    m.now <= m.due <= m.now + PEEK_INTERVAL_MS
  }

  /** An undisturbed peek is ten frames if it was claimed on a beat that had gone by, and eleven otherwise. */
  lemma APeekIsTenOrElevenFrames(m: Mode, id: string, events: seq<Event>)
    requires Ticking(m) && Beating(m) && m.now != -PEEK_DURATION_MS && Watching(m.game.players, id)
    requires NoClaim(events, id) && Undisturbed(events, id)
    requires Run(Happen(m, Claimed(id, Some("radar_peek"))), events).now >= m.now + PEEK_DURATION_MS
    ensures var end := Run(Happen(m, Claimed(id, Some("radar_peek"))), events);
      |Shown(end.game.frames, id)| - |Shown(m.game.frames, id)| == if m.due == m.now + PEEK_INTERVAL_MS then 10 else 11
  {
    var shown := EveryPeekFollowsItsPlan(m, id, events);
    var claimed := Happen(m, Claimed(id, Some("radar_peek")));
    ClaimShows(m, id);
    TickingRun(claimed, events);
    PlanCount(m.due, m.now + PEEK_DURATION_MS, Run(claimed, events).due - 1);
  }

  // ---- Every state of the mode

  lemma {:induction false} BeatingPass(m: Mode, t: int)
    requires Ticking(m) && Beating(m)
    ensures Beating(PassTo(m, t))
    decreases Max(t - m.due + 1, 0)
  {
    if m.due > t {
    } else {
      OnceBeat(m.game.players, m.game.lives, m.due);
      BeatingPass(Mode(m.due, m.due + PEEK_INTERVAL_MS, PushPeeks(m.game, m.due)), t);
    }
  }

  lemma {:induction false} BeatingRun(m: Mode, events: seq<Event>)
    requires Ticking(m) && Beating(m)
    ensures Ticking(Run(m, events)) && Beating(Run(m, events))
    decreases |events|
  {
    if events == [] {
    } else {
      TickingHappen(m, events[0]);
      if events[0].Pass? {
        BeatingPass(m, events[0].t);
      }
      BeatingRun(Happen(m, events[0]), events[1..]);
    }
  }

  /** From the assignment on, whatever happens, the timer's beat is at most an interval away. */
  lemma EveryStateBeats(now: int, players: seq<Player>, events: seq<Event>)
    ensures Ticking(Run(Assigned(now, players), events)) && Beating(Run(Assigned(now, players), events))
  {
    BeatingRun(Assigned(now, players), events);
  }

  /** The `k`-th interval since `start` is running, and its end is the next beat. */
  ghost predicate OnGrid(m: Mode, start: int, k: int) {
    start + 500 * k <= m.now < start + 500 * (k + 1) == m.due
  }

  lemma {:induction false} GridPass(m: Mode, t: int, start: int, k: int) returns (n: int)
    requires OnGrid(m, start, k)
    ensures OnGrid(PassTo(m, t), start, n)
    decreases Max(t - m.due + 1, 0)
  {
    n := k;
    if m.due > t {
    } else {
      n := GridPass(Mode(m.due, m.due + PEEK_INTERVAL_MS, PushPeeks(m.game, m.due)), t, start, k + 1);
    }
  }

  lemma {:induction false} GridRun(m: Mode, events: seq<Event>, start: int, k: int) returns (n: int)
    requires OnGrid(m, start, k)
    ensures OnGrid(Run(m, events), start, n)
    decreases |events|
  {
    n := k;
    if events == [] {
    } else {
      if events[0].Pass? {
        n := GridPass(m, events[0].t, start, k);
      }
      n := GridRun(Happen(m, events[0]), events[1..], start, n);
    }
  }

  /** The beats come every half second after the assignment, whatever happens: the next ends the running interval. */
  lemma BeatsAreOnTheGrid(now: int, players: seq<Player>, events: seq<Event>)
    ensures var m := Run(Assigned(now, players), events); m.due == now + 500 * ((m.now - now) / 500 + 1)
  {
    var k := GridRun(Assigned(now, players), events, now, 0);
  }

  // ---- Who is ever shown anything

  /** Whoever these frames go to is there and alive, and has between 1 ms and five seconds left. */
  ghost predicate ToTheLiving(frames: seq<Frame>, players: seq<Player>) {
    forall f <- frames :: Watching(players, f.to) && 1 <= f.left <= PEEK_DURATION_MS
  }

  /** No peek, or one that ends five seconds from now at the latest. */
  predicate EndsInTime(life: Life, now: int) {
    life.until == 0 || life.until <= now + PEEK_DURATION_MS
  }

  ghost predicate InTime(lives: Record<Life>, now: int) {
    forall i :: 0 <= i < |lives| ==> EndsInTime(lives[i].1, now)
  }

  lemma {:induction false} BeatIsSafe(players: seq<Player>, lives: Record<Life>, now: int)
    requires InTime(lives, now)
    ensures ToTheLiving(BeatFrames(players, lives, now), players)
    ensures InTime(BeatLives(players, lives, now), now)
  {
    if lives == [] {
    } else {
      assert forall i :: 0 <= i < |lives[1..]| ==> lives[1..][i] == lives[i + 1];
      BeatIsSafe(players, lives[1..], now);
      FoundIsHim(players, lives[0].0);
    }
  }

  lemma {:induction false} PassIsSafe(m: Mode, t: int) returns (frames: seq<Frame>)
    requires Ticking(m) && InTime(m.game.lives, m.now)
    ensures PassTo(m, t).game.frames == m.game.frames + frames && ToTheLiving(frames, m.game.players)
    ensures InTime(PassTo(m, t).game.lives, PassTo(m, t).now)
    decreases Max(t - m.due + 1, 0)
  {
    frames := [];
    if m.due > t {
    } else {
      var beat := BeatFrames(m.game.players, m.game.lives, m.due);
      BeatIsSafe(m.game.players, m.game.lives, m.due);
      OnceBeat(m.game.players, m.game.lives, m.due);
      var rest := PassIsSafe(Mode(m.due, m.due + PEEK_INTERVAL_MS, PushPeeks(m.game, m.due)), t);
      frames := beat + rest;
      assert m.game.frames + frames == (m.game.frames + beat) + rest;
    }
  }

  lemma {:induction false} PutIsInTime(lives: Record<Life>, id: string, life: Life, now: int)
    requires InTime(lives, now) && EndsInTime(life, now)
    ensures InTime(Put(lives, id, life), now)
  {
    if lives == [] || lives[0].0 == id {
    } else {
      assert forall i :: 0 <= i < |lives[1..]| ==> lives[1..][i] == lives[i + 1];
      PutIsInTime(lives[1..], id, life, now);
    }
  }

  lemma {:induction false} DeleteIsInTime(lives: Record<Life>, id: string, now: int)
    requires InTime(lives, now)
    ensures InTime(Delete(lives, id), now)
  {
    if lives == [] {
    } else {
      assert forall i :: 0 <= i < |lives[1..]| ==> lives[1..][i] == lives[i + 1];
      DeleteIsInTime(lives[1..], id, now);
    }
  }

  lemma {:induction false} LifeIsInTime(lives: Record<Life>, id: string, now: int)
    requires InTime(lives, now)
    ensures EndsInTime(LifeOf(lives, id), now)
  {
    if lives == [] {
    } else {
      assert forall i :: 0 <= i < |lives[1..]| ==> lives[1..][i] == lives[i + 1];
      LifeIsInTime(lives[1..], id, now);
    }
  }

  lemma HappenIsSafe(m: Mode, e: Event) returns (frames: seq<Frame>)
    requires Ticking(m) && InTime(m.game.lives, m.now)
    ensures var after := Happen(m, e);
      && InTime(after.game.lives, after.now)
      && after.game.frames == m.game.frames + frames && ToTheLiving(frames, m.game.players)
  {
    frames := [];
    match e
    case Spawned(id) => PutIsInTime(m.game.lives, id, Life(None, 0), m.now);
    case Died(id) => PutIsInTime(m.game.lives, id, LifeOf(m.game.lives, id).(until := 0), m.now);
    case Left(id) => DeleteIsInTime(m.game.lives, id, m.now);
    case Claimed(id, kind) =>
      var claim := Claim(m.game, id, kind, m.now);
      if claim.Some? {
        LifeIsInTime(m.game.lives, id, m.now);
        FoundIsHim(m.game.players, id);
        frames := claim.value.frames[|m.game.frames|..];
        var word := match kind { case None => "speed" case Some(k) => k };
        PutIsInTime(m.game.lives, id, Life(Some(word), m.now + PEEK_DURATION_MS), m.now);
        PutIsInTime(m.game.lives, id, LifeOf(m.game.lives, id).(powerup := Some(word)), m.now);
      }
    case Pass(t) => frames := PassIsSafe(m, t);
    case WorldIs(_) =>
  }

  lemma {:induction false} InTimeRun(m: Mode, events: seq<Event>)
    requires Ticking(m) && InTime(m.game.lives, m.now)
    ensures InTime(Run(m, events).game.lives, Run(m, events).now)
    decreases |events|
  {
    if events == [] {
    } else {
      var frames := HappenIsSafe(m, events[0]);
      TickingHappen(m, events[0]);
      InTimeRun(Happen(m, events[0]), events[1..]);
    }
  }

  /** In every state, whatever happens next shows frames to the living only, with 1 to 5000 ms left on each. */
  lemma FramesGoToTheLiving(now: int, players: seq<Player>, events: seq<Event>, e: Event) returns (frames: seq<Frame>)
    ensures var m := Run(Assigned(now, players), events);
      Happen(m, e).game.frames == m.game.frames + frames && ToTheLiving(frames, m.game.players)
  {
    var start := Assigned(now, players);
    TickingRun(start, events);
    InTimeRun(start, events);
    frames := HappenIsSafe(Run(start, events), e);
  }

  // ---- The beats are those of the clock

  /** What the clock's callback does to the game. */
  function OnBeat(game: Game, name: (), view: Clock.View): Clock.Turn<Game, ()> {
    Clock.Turn(PushPeeks(game, view.now), [])
  }

  /** A clock on which the mode's timer is the one that is armed. */
  ghost predicate OnClock(w: Clock.World<Game, ()>, m: Mode) {
    && w.env == m.game && w.book.now == m.now
    && |w.book.timers| == 1 && !w.book.timers[0].cancelled
    && w.book.timers[0].due == m.due && w.book.timers[0].interval == Some(PEEK_INTERVAL_MS)
  }

  lemma OnClockBeat(w: Clock.World<Game, ()>, m: Mode)
    requires OnClock(w, m)
    ensures var e := w.book.timers[0];
      var now := Max(m.now, m.due);
      OnClock(Clock.Fired(OnBeat, w, e), Mode(now, m.due + PEEK_INTERVAL_MS, PushPeeks(m.game, now)))
  {
    var e := w.book.timers[0];
    assert w.book.timers[1..] == [];
    assert Clock.Rearm(w.book.timers[1..], e.id, e.due + PEEK_INTERVAL_MS, w.book.order) == [];
    assert Clock.Said(OnBeat, w, e) == Clock.Turn(PushPeeks(m.game, Max(m.now, m.due)), []);
  }

  /** Advancing the clock is letting the mode's time pass: same game, same moment, same next beat. */
  lemma {:induction false} ClockDrivesTheBeats(w: Clock.World<Game, ()>, m: Mode, t: int, fuel: nat)
    requires OnClock(w, m) && Clock.AdvanceTo(OnBeat, w, t, fuel).Some?
    ensures OnClock(Clock.AdvanceTo(OnBeat, w, t, fuel).value.end, PassTo(m, t))
    decreases fuel
  {
    var e := w.book.timers[0];
    assert w.book.timers == [e] && w.book.timers[1..] == [];
    assert Clock.Live(w.book.timers[1..]) == [] && Clock.Live(w.book.timers) == [e];
    assert Clock.Earliest(w.book.timers[1..], t) == None;
    if m.due > t {
    } else {
      assert Clock.Earliest(w.book.timers, t) == Some(e);
      OnClockBeat(w, m);
      var now := Max(m.now, m.due);
      var next := Mode(now, m.due + PEEK_INTERVAL_MS, PushPeeks(m.game, now));
      ClockDrivesTheBeats(Clock.Fired(OnBeat, w, e), next, t, fuel - 1);
    }
  }

  /** And it comes to an end: the beats owed are enough callbacks. */
  lemma BeatsComeToAnEnd(w: Clock.World<Game, ()>, m: Mode, t: int)
    requires OnClock(w, m) && ClockSafety.Sane(w.book)
    ensures Clock.AdvanceTo(OnBeat, w, t, ClockRepeats.Owed(w.book.timers, t)).Some?
  {
    ClockRepeats.QuietEnds(OnBeat, w, t, ClockRepeats.Owed(w.book.timers, t));
  }
}
