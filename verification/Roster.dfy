/** Who sits where in the scripted world, and what it announces (plugins/EZPug.Sdk.Testing/FakeGameWorld.cs). */
module Roster {
  import opened Wrappers
  import Lists

  const SLOTS := 64

  datatype Team = NoTeam | Spectator | Terrorist | CounterTerrorist

  datatype Role = Role(steamId: nat, name: string)

  /** A player object; the serial number is which object it is. */
  datatype Player = Player(
    serial: nat,
    steamId: nat,
    name: string,
    slot: int,
    team: Team,
    alive: bool,
    bot: bool,
    puppet: bool)

  datatype News = Connected(serial: nat) | Disconnected(serial: nat)

  /** The players, how many objects were ever made, and what has been announced. */
  datatype Roster = Roster(players: seq<Player>, made: nat, news: seq<News>)

  predicate Taken(players: seq<Player>, slot: int) {
    exists i :: 0 <= i < |players| && players[i].slot == slot
  }

  /** The first of the slots from `from` on that nobody has. */
  function FreeFrom(players: seq<Player>, from: nat): Option<nat>
    requires from <= SLOTS
    decreases SLOTS - from
  {
    if from == SLOTS then None else if Taken(players, from) then FreeFrom(players, from + 1) else Some(from)
  }

  function FreeSlot(players: seq<Player>): Option<nat> { FreeFrom(players, 0) }

  /** Added and sorted by slot. */
  function BySlot(players: seq<Player>, p: Player): seq<Player> {
    if players == [] then [p]
    else if p.slot < players[0].slot then [p] + players
    else [players[0]] + BySlot(players[1..], p)
  }

  function Seat(r: Roster, p: Player): Roster {
    Roster(BySlot(r.players, p), r.made + 1, r.news + [Connected(p.serial)])
  }

  /** None is the exception of a full server. */
  function Connect(r: Roster, steamId: nat, name: string, team: Team, bot: bool): Option<Roster> {
    match FreeSlot(r.players)
    case None => None
    case Some(slot) => Some(Seat(r, Player(r.made, steamId, name, slot, team, false, bot, false)))
  }

  /** A bot arrives; the casting decides whether it is a puppet, `identity` who a plain bot of a slot is. */
  function ArriveBot(r: Roster, name: string, team: Team, casting: (nat, string) -> Option<Role>, identity: nat -> nat)
    : Option<Roster>
  {
    match FreeSlot(r.players)
    case None => None
    case Some(slot) =>
      var role := casting(slot, name);
      Some(Seat(r, Player(r.made, if role.Some? then role.value.steamId else identity(slot),
                          if role.Some? then role.value.name else name, slot, team, false, true, role.Some?)))
  }

  /** The place of the first player in this slot. */
  function Held(players: seq<Player>, slot: int): Option<nat> {
    if players == [] then None
    else if players[0].slot == slot then Some(0)
    else
      match Held(players[1..], slot)
      case None => None
      case Some(i) => Some(i + 1)
  }

  lemma {:induction false} HeldIsThere(players: seq<Player>, slot: int)
    ensures match Held(players, slot)
      case None => !Taken(players, slot)
      case Some(i) => i < |players| && players[i].slot == slot
  {
    if players == [] {
    } else {
      HeldIsThere(players[1..], slot);
      if Held(players, slot).None? {
        forall i | 0 <= i < |players| ensures players[i].slot != slot {
          if i > 0 {
            assert players[i] == players[1..][i - 1];
          }
        }
      }
    }
  }

  function Without(players: seq<Player>, serial: nat): seq<Player> {
    if players == [] then []
    else if players[0].serial == serial then players[1..]
    else [players[0]] + Without(players[1..], serial)
  }

  predicate Present(players: seq<Player>, serial: nat) {
    exists i :: 0 <= i < |players| && players[i].serial == serial
  }

  function Disconnect(r: Roster, serial: nat): Roster {
    if Present(r.players, serial)
    then r.(players := Without(r.players, serial), news := r.news + [Disconnected(serial)])
    else r
  }

  function Recast(r: Roster, slot: int, role: Role): (Roster, bool) {
    match Held(r.players, slot)
    case None => (r, false)
    case Some(i) =>
      HeldIsThere(r.players, slot);
      var held := r.players[i];
      if !held.bot then (r, false)
      else if held.puppet && held.steamId == role.steamId then (r, true)
      else
        var left := Roster(Without(r.players, held.serial), r.made,
                           if held.puppet then r.news + [Disconnected(held.serial)] else r.news);
        (Seat(left, Player(r.made, role.steamId, role.name, slot, held.team, held.alive, true, true)), true)
  }

  function SetAlive(players: seq<Player>, serial: nat, alive: bool): (r: seq<Player>)
    ensures |r| == |players|
    ensures forall i :: 0 <= i < |r| ==>
      r[i] == if players[i].serial == serial then players[i].(alive := alive) else players[i]
  {
    seq(|players|, i requires 0 <= i < |players| =>
      if players[i].serial == serial then players[i].(alive := alive) else players[i])
  }

  // ---- What every roster keeps

  ghost predicate InOrder(players: seq<Player>) {
    forall i, j :: 0 <= i < j < |players| ==> players[i].slot < players[j].slot
  }

  ghost predicate Own(players: seq<Player>, made: nat) {
    && (forall i :: 0 <= i < |players| ==> 0 <= players[i].slot < SLOTS && players[i].serial < made)
    && (forall i, j :: 0 <= i < j < |players| ==> players[i].serial != players[j].serial)
  }

  /** Players strictly in order of their slots, all of them slots of the server, no object twice. */
  ghost predicate Orderly(r: Roster) {
    InOrder(r.players) && Own(r.players, r.made)
  }

  lemma {:induction false} FreeIsLeast(players: seq<Player>, from: nat)
    requires from <= SLOTS
    ensures match FreeFrom(players, from)
      case None => forall s :: from <= s < SLOTS ==> Taken(players, s)
      case Some(slot) =>
        from <= slot < SLOTS && !Taken(players, slot) && forall s :: from <= s < slot ==> Taken(players, s)
    decreases SLOTS - from
  {
    if from == SLOTS || !Taken(players, from) {
    } else {
      FreeIsLeast(players, from + 1);
    }
  }

  lemma {:induction false} SlotsClimb(players: seq<Player>, i: nat, j: nat)
    requires InOrder(players) && i <= j < |players|
    ensures players[i].slot + (j - i) <= players[j].slot
    decreases j - i
  {
    if i == j {
    } else {
      SlotsClimb(players, i, j - 1);
    }
  }

  /** With every slot taken, the players are the slots. */
  lemma {:induction false} AllTakenAreAll(players: seq<Player>, made: nat, n: nat)
    requires InOrder(players) && Own(players, made) && n <= SLOTS && forall s :: 0 <= s < n ==> Taken(players, s)
    ensures |players| >= n
    ensures forall i :: 0 <= i < n ==> players[i].slot == i
  {
    if n == 0 {
    } else {
      AllTakenAreAll(players, made, n - 1);
      assert Taken(players, n - 1);
      var i :| 0 <= i < |players| && players[i].slot == n - 1;
      assert i >= n - 1 && (n > 1 ==> players[n - 2].slot < players[n - 1].slot);
      SlotsClimb(players, n - 1, i);
    }
  }

  /** A server is full exactly when it has sixty-four players; short of that a new arrival takes the least free slot. */
  lemma FullIsSixtyFour(players: seq<Player>, made: nat)
    requires InOrder(players) && Own(players, made)
    ensures FreeSlot(players).None? <==> |players| == 64
    ensures |players| <= 64
  {
    FreeIsLeast(players, 0);
    if |players| > 0 {
      SlotsClimb(players, 0, |players| - 1);
    }
    if FreeSlot(players).None? {
      AllTakenAreAll(players, made, SLOTS);
    }
    if |players| == SLOTS {
      forall s | 0 <= s < SLOTS ensures Taken(players, s) {
        SlotsClimb(players, 0, s);
        SlotsClimb(players, s, SLOTS - 1);
        assert players[s].slot == s;
      }
    }
  }

  /** Where a newcomer goes: between the lower slots and the higher ones, everybody else where they were. */
  lemma {:induction false} BySlotInserts(players: seq<Player>, p: Player) returns (k: nat)
    requires InOrder(players) && !Taken(players, p.slot)
    ensures k <= |players| && BySlot(players, p) == players[..k] + [p] + players[k..]
    ensures forall i :: 0 <= i < k ==> players[i].slot < p.slot
    ensures forall i :: k <= i < |players| ==> p.slot < players[i].slot
  {
    k := 0;
    if players == [] || players[0].slot > p.slot {
    } else {
      NotTakenInTail(players, p.slot);
      var rest := BySlotInserts(players[1..], p);
      k := rest + 1;
      InsertBehind(players, rest, p);
      forall i | 0 <= i < k ensures players[i].slot < p.slot {
        assert i > 0 ==> players[i] == players[1..][i - 1];
      }
      forall i | k <= i < |players| ensures p.slot < players[i].slot {
        assert players[i] == players[1..][i - 1];
      }
    }
  }

  lemma NotTakenInTail(players: seq<Player>, slot: int)
    requires players != [] && InOrder(players) && !Taken(players, slot)
    ensures players[0].slot != slot && InOrder(players[1..]) && !Taken(players[1..], slot)
  {
    forall i | 0 <= i < |players[1..]| ensures players[1..][i] == players[i + 1] {}
  }

  lemma InsertBehind(players: seq<Player>, k: nat, p: Player)
    requires players != [] && k <= |players| - 1
    ensures [players[0]] + (players[1..][..k] + [p] + players[1..][k..]) == players[..k + 1] + [p] + players[k + 1..]
  {
  }

  lemma SeatIsOrderly(r: Roster, p: Player) returns (k: nat)
    requires Orderly(r) && !Taken(r.players, p.slot) && p.serial == r.made && 0 <= p.slot < SLOTS
    ensures Orderly(Seat(r, p))
    ensures k <= |r.players| && Seat(r, p).players == r.players[..k] + [p] + r.players[k..]
  {
    k := BySlotInserts(r.players, p);
    InsertedIsInOrder(r.players, p, k);
    InsertedIsOwn(r.players, p, k, r.made);
  }

  lemma InsertedIsInOrder(players: seq<Player>, p: Player, k: nat)
    requires InOrder(players) && k <= |players|
    requires forall i :: 0 <= i < k ==> players[i].slot < p.slot
    requires forall i :: k <= i < |players| ==> p.slot < players[i].slot
    ensures InOrder(players[..k] + [p] + players[k..])
  {
    var all := players[..k] + [p] + players[k..];
    assert forall i :: 0 <= i < k ==> all[i] == players[i];
    assert forall i :: k < i < |all| ==> all[i] == players[i - 1];
  }

  lemma InsertedIsOwn(players: seq<Player>, p: Player, k: nat, made: nat)
    requires Own(players, made) && k <= |players| && 0 <= p.slot < SLOTS && p.serial == made
    ensures Own(players[..k] + [p] + players[k..], made + 1)
  {
    var all := players[..k] + [p] + players[k..];
    assert forall i :: 0 <= i < k ==> all[i] == players[i];
    assert forall i :: k < i < |all| ==> all[i] == players[i - 1];
  }

  /** Taking one player out leaves the others in their order. */
  lemma {:induction false} WithoutRemoves(players: seq<Player>, serial: nat) returns (k: nat)
    requires Present(players, serial)
    ensures k < |players| && players[k].serial == serial && Without(players, serial) == players[..k] + players[k + 1..]
  {
    k := 0;
    if players[0].serial == serial {
    } else {
      PresentBehind(players, serial);
      var rest := WithoutRemoves(players[1..], serial);
      k := rest + 1;
      TakenBehind(players, k);
    }
  }

  lemma PresentBehind(players: seq<Player>, serial: nat)
    requires Present(players, serial) && players[0].serial != serial
    ensures Present(players[1..], serial)
  {
    var i :| 0 <= i < |players| && players[i].serial == serial;
    assert players[1..][i - 1] == players[i];
  }

  lemma TakenBehind(players: seq<Player>, k: nat)
    requires 0 < k < |players|
    ensures [players[0]] + (players[1..][..k - 1] + players[1..][k..]) == players[..k] + players[k + 1..]
  {
  }

  lemma DisconnectIsOrderly(r: Roster, serial: nat)
    requires Orderly(r)
    ensures Orderly(Disconnect(r, serial)) && !Present(Disconnect(r, serial).players, serial)
  {
    if Present(r.players, serial) {
      var k := WithoutRemoves(r.players, serial);
      TakenIsOrderly(r.players, k, r.made);
    }
  }

  /** Whoever is there and leaves is taken out from among the others and announced; nobody else can leave. */
  lemma DisconnectTakesOne(r: Roster, serial: nat) returns (k: nat)
    requires Orderly(r)
    ensures Present(r.players, serial) ==>
      && k < |r.players| && r.players[k].serial == serial
      && Disconnect(r, serial)
         == Roster(r.players[..k] + r.players[k + 1..], r.made, r.news + [Disconnected(serial)])
    ensures !Present(r.players, serial) ==> Disconnect(r, serial) == r
  {
    k := 0;
    if Present(r.players, serial) {
      k := WithoutRemoves(r.players, serial);
    }
  }

  lemma TakenIsOrderly(players: seq<Player>, k: nat, made: nat)
    requires InOrder(players) && Own(players, made) && k < |players|
    ensures var left := players[..k] + players[k + 1..];
      InOrder(left) && Own(left, made) && !Present(left, players[k].serial)
  {
    var left := players[..k] + players[k + 1..];
    assert forall i :: 0 <= i < k ==> left[i] == players[i];
    assert forall i :: k <= i < |left| ==> left[i] == players[i + 1];
  }

  /** A newcomer takes the least slot nobody has, in its place among the others, and is announced. */
  lemma ConnectTakesTheLeast(r: Roster, steamId: nat, name: string, team: Team, bot: bool) returns (k: nat)
    requires Orderly(r)
    ensures var after := Connect(r, steamId, name, team, bot);
      && (after.None? <==> |r.players| == SLOTS)
      && (after.Some? ==>
           && Orderly(after.value) && k <= |r.players|
           && var p := Player(r.made, steamId, name, FreeSlot(r.players).value, team, false, bot, false);
              && after.value.players == r.players[..k] + [p] + r.players[k..]
              && !Taken(r.players, p.slot) && (forall s :: 0 <= s < p.slot ==> Taken(r.players, s))
              && after.value.news == r.news + [Connected(p.serial)])
  {
    k := 0;
    FullIsSixtyFour(r.players, r.made);
    FreeIsLeast(r.players, 0);
    if FreeSlot(r.players).Some? {
      k := SeatIsOrderly(r, Player(r.made, steamId, name, FreeSlot(r.players).value, team, false, bot, false));
    }
  }

  /** A new bot that is dead and in this slot: its role's puppet if it is cast for one, itself otherwise. */
  ghost predicate IsBot(p: Player, serial: nat, name: string, team: Team, role: Option<Role>, identity: nat -> nat) {
    && p.serial == serial && p.team == team && p.bot && !p.alive && (p.puppet <==> role.Some?)
    && (role.Some? ==> p.steamId == role.value.steamId && p.name == role.value.name)
    && (role.None? ==> p.slot >= 0 && p.steamId == identity(p.slot) && p.name == name)
  }

  /** A bot takes the least slot nobody has, as the casting for that slot and name says, and is announced. */
  lemma ArriveIsOrderly(r: Roster, name: string, team: Team, casting: (nat, string) -> Option<Role>,
                        identity: nat -> nat) returns (k: nat)
    requires Orderly(r)
    ensures var after := ArriveBot(r, name, team, casting, identity);
      && (after.None? <==> |r.players| == SLOTS)
      && (after.Some? ==>
           && Orderly(after.value) && after.value.made == r.made + 1
           && k <= |r.players| && |after.value.players| == |r.players| + 1
           && var p := after.value.players[k];
              && p.slot >= 0 && IsBot(p, r.made, name, team, casting(p.slot, name), identity)
              && after.value.players == r.players[..k] + [p] + r.players[k..]
              && !Taken(r.players, p.slot) && (forall s :: 0 <= s < p.slot ==> Taken(r.players, s))
              && after.value.news == r.news + [Connected(r.made)])
  {
    k := 0;
    FullIsSixtyFour(r.players, r.made);
    FreeIsLeast(r.players, 0);
    if FreeSlot(r.players).Some? {
      var slot := FreeSlot(r.players).value;
      var role := casting(slot, name);
      k := SeatIsOrderly(r, Player(r.made, if role.Some? then role.value.steamId else identity(slot),
                          if role.Some? then role.value.name else name, slot, team, false, true, role.Some?));
    }
  }

  /** A bot recast changes in its place: every slot is held as before, and doing it again changes nothing. */
  lemma RecastKeepsTheSlots(r: Roster, slot: int, role: Role)
    requires Orderly(r)
    ensures var (after, done) := Recast(r, slot, role);
      && Orderly(after) && |after.players| == |r.players|
      && (forall i :: 0 <= i < |r.players| ==>
           && after.players[i].slot == r.players[i].slot
           && (r.players[i].slot != slot ==> after.players[i] == r.players[i])
           && (done && r.players[i].slot == slot ==>
                r.players[i].bot && IsCast(after.players[i], r.players[i], role, r.made)))
      && (done ==> Recast(after, slot, role) == (after, true))
      && (done <==> exists i :: 0 <= i < |r.players| && r.players[i].slot == slot && r.players[i].bot)
      && (!done ==> after == r)
  {
    HeldIsThere(r.players, slot);
    var (after, done) := Recast(r, slot, role);
    if after != r {
      var i := Held(r.players, slot).value;
      var held := r.players[i];
      var p := Player(r.made, role.steamId, role.name, slot, held.team, held.alive, true, true);
      var k := RecastInPlace(r, i, p);
      HeldIsThere(after.players, slot);
    }
  }

  lemma RecastInPlace(r: Roster, i: nat, p: Player) returns (k: nat)
    requires Orderly(r) && i < |r.players| && p.slot == r.players[i].slot && p.serial == r.made
    ensures k == i && BySlot(Without(r.players, r.players[i].serial), p) == r.players[i := p]
    ensures InOrder(r.players[i := p]) && Own(r.players[i := p], r.made + 1)
  {
    k := WithoutRemoves(r.players, r.players[i].serial);
    NotLeftBehind(r.players, k);
    var at := BySlotInserts(r.players[..k] + r.players[k + 1..], p);
    SamePlace(r.players, k, p, at);
  }

  lemma NotLeftBehind(players: seq<Player>, k: nat)
    requires InOrder(players) && k < |players|
    ensures InOrder(players[..k] + players[k + 1..]) && !Taken(players[..k] + players[k + 1..], players[k].slot)
  {
    var left := players[..k] + players[k + 1..];
    assert forall i :: 0 <= i < k ==> left[i] == players[i];
    assert forall i :: k <= i < |left| ==> left[i] == players[i + 1];
  }

  /** A puppet of that very role stays who it is; any other bot becomes a player of the role, on its team, as alive. */
  ghost predicate IsCast(now: Player, was: Player, role: Role, made: nat) {
    now == if was.puppet && was.steamId == role.steamId then was
           else Player(made, role.steamId, role.name, was.slot, was.team, was.alive, true, true)
  }

  /** Out of a place and back into the same slot is back into the same place. */
  lemma SamePlace(players: seq<Player>, k: nat, p: Player, at: nat)
    requires InOrder(players) && k < |players| && players[k].slot == p.slot
    requires var left := players[..k] + players[k + 1..];
      && at <= |left|
      && (forall i :: 0 <= i < at ==> left[i].slot < p.slot)
      && (forall i :: at <= i < |left| ==> p.slot < left[i].slot)
    ensures at == k
    ensures var left := players[..k] + players[k + 1..]; left[..at] + [p] + left[at..] == players[k := p]
  {
    var left := players[..k] + players[k + 1..];
    assert forall i :: 0 <= i < k ==> left[i] == players[i];
    assert forall i :: k <= i < |left| ==> left[i] == players[i + 1];
    assert forall i :: 0 <= i < |left| && i < k ==> left[i].slot < p.slot;
    assert forall i :: k <= i < |left| ==> left[i].slot > p.slot;
    assert at < |left| ==> p.slot < left[at].slot;
    assert at > 0 ==> left[at - 1].slot < p.slot;
  }

  // ---- Whole runs

  datatype Move =
    | DoConnect(steamId: nat, name: string, team: Team, bot: bool)
    | DoArrive(name: string, team: Team)
    | DoDisconnect(serial: nat)
    | DoRecast(slot: int, role: Role)
    | DoSetAlive(serial: nat, alive: bool)

  /** One call; one that throws changes nothing. */
  function Step(r: Roster, m: Move, casting: (nat, string) -> Option<Role>, identity: nat -> nat): Roster {
    match m
    case DoConnect(steamId, name, team, bot) =>
      (match Connect(r, steamId, name, team, bot) case None => r case Some(after) => after)
    case DoArrive(name, team) =>
      (match ArriveBot(r, name, team, casting, identity) case None => r case Some(after) => after)
    case DoDisconnect(serial) => Disconnect(r, serial)
    case DoRecast(slot, role) => Recast(r, slot, role).0
    case DoSetAlive(serial, alive) => r.(players := SetAlive(r.players, serial, alive))
  }

  function Play(r: Roster, moves: seq<Move>, casting: (nat, string) -> Option<Role>, identity: nat -> nat): Roster
    decreases |moves|
  {
    if moves == [] then r else Play(Step(r, moves[0], casting, identity), moves[1..], casting, identity)
  }

  lemma StepIsOrderly(r: Roster, m: Move, casting: (nat, string) -> Option<Role>, identity: nat -> nat)
    requires Orderly(r)
    ensures Orderly(Step(r, m, casting, identity))
  {
    match m
    case DoConnect(steamId, name, team, bot) => var k := ConnectTakesTheLeast(r, steamId, name, team, bot);
    case DoArrive(name, team) => var k := ArriveIsOrderly(r, name, team, casting, identity);
    case DoDisconnect(serial) => DisconnectIsOrderly(r, serial);
    case DoRecast(slot, role) => RecastKeepsTheSlots(r, slot, role);
    case DoSetAlive(serial, alive) =>
  }

  lemma {:induction false} PlayIsOrderly(r: Roster, moves: seq<Move>, casting: (nat, string) -> Option<Role>,
                                         identity: nat -> nat)
    requires Orderly(r)
    ensures Orderly(Play(r, moves, casting, identity))
    decreases |moves|
  {
    if moves == [] {
    } else {
      StepIsOrderly(r, moves[0], casting, identity);
      PlayIsOrderly(Step(r, moves[0], casting, identity), moves[1..], casting, identity);
    }
  }

  /** In every world that can be reached, the players stand strictly in order of their slots, sixty-four at most. */
  lemma EveryWorldIsOrderly(moves: seq<Move>, casting: (nat, string) -> Option<Role>, identity: nat -> nat)
    ensures var r := Play(Roster([], 0, []), moves, casting, identity);
      Orderly(r) && |r.players| <= 64
  {
    PlayIsOrderly(Roster([], 0, []), moves, casting, identity);
    var r := Play(Roster([], 0, []), moves, casting, identity);
    FullIsSixtyFour(r.players, r.made);
  }

  // ---- Announcements

  function Count(news: seq<News>, n: News): nat {
    if news == [] then 0 else Count(news[..|news| - 1], n) + if news[|news| - 1] == n then 1 else 0
  }

  lemma CountOne(news: seq<News>, last: News, n: News)
    ensures Count(news + [last], n) == Count(news, n) + if last == n then 1 else 0
  {
    assert (news + [last])[..|news|] == news;
  }

  /** What has been said of this object: it came once, if it was ever made, left at most once, and then it is gone. */
  ghost predicate Accounted(r: Roster, serial: nat) {
    && Count(r.news, Connected(serial)) == (if serial < r.made then 1 else 0)
    && Count(r.news, Disconnected(serial)) <= Count(r.news, Connected(serial))
    && (Present(r.players, serial) ==> serial < r.made && Count(r.news, Disconnected(serial)) == 0)
  }

  lemma {:induction false} BySlotPresent(players: seq<Player>, p: Player, serial: nat)
    ensures Present(BySlot(players, p), serial) ==> Present(players, serial) || serial == p.serial
  {
    if players != [] && p.slot >= players[0].slot {
      BySlotPresent(players[1..], p, serial);
      if Present(BySlot(players, p), serial) {
        PresentRest(players, serial);
        PresentRest(BySlot(players, p), serial);
        assert BySlot(players, p)[1..] == BySlot(players[1..], p);
      }
    } else if Present(BySlot(players, p), serial) {
      PresentRest(BySlot(players, p), serial);
      assert BySlot(players, p)[1..] == players;
    }
  }

  lemma PresentRest(players: seq<Player>, serial: nat)
    requires players != []
    ensures Present(players, serial) <==> players[0].serial == serial || Present(players[1..], serial)
  {
    forall i | 0 <= i < |players[1..]| ensures players[1..][i] == players[i + 1] {}
    if Present(players, serial) && players[0].serial != serial {
      var i :| 0 <= i < |players| && players[i].serial == serial;
      assert players[1..][i - 1].serial == serial;
    }
  }

  lemma {:induction false} WithoutPresent(players: seq<Player>, gone: nat, serial: nat)
    ensures Present(Without(players, gone), serial) ==> Present(players, serial)
  {
    if players == [] {
    } else {
      WithoutPresent(players[1..], gone, serial);
      PresentRest(players, serial);
      if players[0].serial != gone {
        PresentRest(Without(players, gone), serial);
        assert Without(players, gone)[1..] == Without(players[1..], gone);
      }
    }
  }

  lemma SeatIsAccounted(r: Roster, p: Player, serial: nat)
    requires Accounted(r, serial) && p.serial == r.made && Own(r.players, r.made)
    ensures Accounted(Seat(r, p), serial)
  {
    CountOne(r.news, Connected(p.serial), Connected(serial));
    CountOne(r.news, Connected(p.serial), Disconnected(serial));
    BySlotPresent(r.players, p, serial);
  }

  lemma LeavingIsAccounted(r: Roster, gone: nat, serial: nat)
    requires Orderly(r) && Accounted(r, serial) && Present(r.players, gone)
    ensures Accounted(r.(players := Without(r.players, gone), news := r.news + [Disconnected(gone)]), serial)
    ensures Accounted(r.(players := Without(r.players, gone)), serial)
  {
    CountOne(r.news, Disconnected(gone), Connected(serial));
    CountOne(r.news, Disconnected(gone), Disconnected(serial));
    WithoutPresent(r.players, gone, serial);
    DisconnectIsOrderly(r, gone);
  }

  lemma RecastIsAccounted(r: Roster, slot: int, role: Role, serial: nat)
    requires Orderly(r) && Accounted(r, serial)
    ensures Accounted(Recast(r, slot, role).0, serial)
  {
    HeldIsThere(r.players, slot);
    if Held(r.players, slot).Some? {
      var held := r.players[Held(r.players, slot).value];
      assert Present(r.players, held.serial);
      LeavingIsAccounted(r, held.serial, serial);
      DisconnectIsOrderly(r, held.serial);
      var left := Roster(Without(r.players, held.serial), r.made,
                         if held.puppet then r.news + [Disconnected(held.serial)] else r.news);
      SeatIsAccounted(left, Player(r.made, role.steamId, role.name, slot, held.team, held.alive, true, true), serial);
    }
  }

  lemma StepIsAccounted(r: Roster, m: Move, casting: (nat, string) -> Option<Role>, identity: nat -> nat, serial: nat)
    requires Orderly(r) && Accounted(r, serial)
    ensures Accounted(Step(r, m, casting, identity), serial)
  {
    match m
    case DoConnect(steamId, name, team, bot) =>
      if FreeSlot(r.players).Some? {
        SeatIsAccounted(r, Player(r.made, steamId, name, FreeSlot(r.players).value, team, false, bot, false), serial);
      }
    case DoArrive(name, team) =>
      if FreeSlot(r.players).Some? {
        var slot := FreeSlot(r.players).value;
        var role := casting(slot, name);
        SeatIsAccounted(r, Player(r.made, if role.Some? then role.value.steamId else identity(slot),
                            if role.Some? then role.value.name else name, slot, team, false, true, role.Some?), serial);
      }
    case DoDisconnect(gone) =>
      if Present(r.players, gone) {
        LeavingIsAccounted(r, gone, serial);
      }
    case DoRecast(slot, role) => RecastIsAccounted(r, slot, role, serial);
    case DoSetAlive(who, alive) =>
      var players := SetAlive(r.players, who, alive);
      if Present(players, serial) {
        var i :| 0 <= i < |players| && players[i].serial == serial;
        assert r.players[i].serial == serial;
      }
  }

  /** Over every run: an arrival is announced once, a departure at most once, and nobody announced gone is there. */
  lemma {:induction false} EveryoneIsAccountedFor(r: Roster, moves: seq<Move>, casting: (nat, string) -> Option<Role>,
                                                  identity: nat -> nat, serial: nat)
    requires Orderly(r) && Accounted(r, serial)
    ensures Accounted(Play(r, moves, casting, identity), serial)
    decreases |moves|
  {
    if moves == [] {
    } else {
      StepIsOrderly(r, moves[0], casting, identity);
      StepIsAccounted(r, moves[0], casting, identity, serial);
      EveryoneIsAccountedFor(Step(r, moves[0], casting, identity), moves[1..], casting, identity, serial);
    }
  }

  /**
   * A bot that is replaced is seen out exactly when it was a puppet. A plain bot, which was announced when it arrived,
   * goes without a word.
   */
  lemma PlainBotsLeaveSilently(r: Roster, slot: int, role: Role)
    requires Orderly(r) && Held(r.players, slot).Some?
    requires var i := Held(r.players, slot).value;
      && i < |r.players| && r.players[i].bot && Accounted(r, r.players[i].serial)
      && !(r.players[i].puppet && r.players[i].steamId == role.steamId)
    ensures var held, after := r.players[Held(r.players, slot).value], Recast(r, slot, role).0;
      && !Present(after.players, held.serial) && Count(after.news, Connected(held.serial)) == 1
      && Count(after.news, Disconnected(held.serial)) == if held.puppet then 1 else 0
  {
    HeldIsThere(r.players, slot);
    var i := Held(r.players, slot).value;
    var held := r.players[i];
    assert Present(r.players, held.serial);
    var p := Player(r.made, role.steamId, role.name, slot, held.team, held.alive, true, true);
    var k := RecastInPlace(r, i, p);
    var players := r.players[i := p];
    forall j | 0 <= j < |players| ensures players[j].serial != held.serial {
      assert j != i ==> players[j] == r.players[j];
    }
    var news := if held.puppet then r.news + [Disconnected(held.serial)] else r.news;
    CountOne(r.news, Disconnected(held.serial), Disconnected(held.serial));
    CountOne(r.news, Disconnected(held.serial), Connected(held.serial));
    CountOne(news, Connected(r.made), Disconnected(held.serial));
    CountOne(news, Connected(r.made), Connected(held.serial));
  }

  // ---- Kicking the bots

  /** Every bot of the list is disconnected, one after the other. */
  function Kicked(r: Roster, there: seq<Player>): Roster
    decreases |there|
  {
    if there == [] then r
    else Kicked(if there[0].bot then Disconnect(r, there[0].serial) else r, there[1..])
  }

  function People(players: seq<Player>): seq<Player> {
    if players == [] then []
    else if players[0].bot then People(players[1..])
    else [players[0]] + People(players[1..])
  }

  /** The bots, each announced gone in turn. */
  function Goodbyes(players: seq<Player>): seq<News> {
    if players == [] then []
    else (if players[0].bot then [Disconnected(players[0].serial)] else []) + Goodbyes(players[1..])
  }

  lemma {:induction false} KickedSoFar(r: Roster, done: seq<Player>, rest: seq<Player>)
    requires Orderly(r) && r.players == done + rest
    ensures Kicked(r, rest).players == done + People(rest)
    decreases |rest|
  {
    if rest == [] {
      assert done + rest == done;
    } else if rest[0].bot {
      KickedOne(r, done, rest);
      KickedSoFar(Disconnect(r, rest[0].serial), done, rest[1..]);
    } else {
      MoveOver(done, rest);
      KickedSoFar(r, done + [rest[0]], rest[1..]);
      Lists.Regroup(done, [rest[0]], People(rest[1..]));
    }
  }

  lemma {:induction false} KickedNews(r: Roster, done: seq<Player>, rest: seq<Player>)
    requires Orderly(r) && r.players == done + rest
    ensures Kicked(r, rest).news == r.news + Goodbyes(rest)
    decreases |rest|
  {
    if rest == [] {
    } else if rest[0].bot {
      var left, more := Disconnect(r, rest[0].serial), Goodbyes(rest[1..]);
      KickedOne(r, done, rest);
      KickedNews(left, done, rest[1..]);
      Lists.Regroup(r.news, [Disconnected(rest[0].serial)], more);
      assert Goodbyes(rest) == [Disconnected(rest[0].serial)] + more;
    } else {
      MoveOver(done, rest);
      KickedNews(r, done + [rest[0]], rest[1..]);
      assert Goodbyes(rest) == [] + Goodbyes(rest[1..]);
    }
  }

  lemma MoveOver(done: seq<Player>, rest: seq<Player>)
    requires rest != []
    ensures done + rest == (done + [rest[0]]) + rest[1..]
  {
  }

  lemma KickedOne(r: Roster, done: seq<Player>, rest: seq<Player>)
    requires Orderly(r) && r.players == done + rest && rest != []
    ensures var left := Disconnect(r, rest[0].serial);
      Orderly(left) && left.players == done + rest[1..] && left.news == r.news + [Disconnected(rest[0].serial)]
  {
    var serial := rest[0].serial;
    assert r.players[|done|] == rest[0];
    DisconnectIsOrderly(r, serial);
    var k := WithoutRemoves(r.players, serial);
    assert k == |done|;
    assert r.players[..k] == done && r.players[k + 1..] == rest[1..];
  }

  /** Whoever is a bot leaves and is announced gone, in turn; the people stay in their order. */
  lemma KickBotsLeavesPeople(r: Roster)
    requires Orderly(r)
    ensures Kicked(r, r.players).players == People(r.players)
    ensures Kicked(r, r.players).news == r.news + Goodbyes(r.players)
  {
    var none: seq<Player> := [];
    assert none + r.players == r.players && none + People(r.players) == People(r.players);
    KickedSoFar(r, none, r.players);
    KickedNews(r, none, r.players);
  }
}
