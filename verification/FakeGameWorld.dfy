/** The scripted world as its verbs change it in place, held to modules Overlay and Roster. */
module FakeGameWorld {
  import opened Wrappers
  import Overlay
  import Roster

  class FakeHudLayout {
    const layout: string
    const observable: bool
    var classes: map<Overlay.Key, bool>
    var variables: map<Overlay.Key, string>
    var slotClasses: map<int, map<Overlay.Key, bool>>
    var slotVariables: map<int, map<Overlay.Key, string>>

    function Value(): Overlay.Entity
      reads this
    {
      Overlay.Entity(layout, observable, Overlay.Layers(classes, slotClasses), Overlay.Layers(variables, slotVariables))
    }

    constructor (layout: string, observable: bool)
      ensures Value() == Overlay.New(layout, observable)
    {
      this.layout, this.observable := layout, observable;
      classes, variables, slotClasses, slotVariables := map[], map[], map[], map[];
    }

    method Has(slot: int, panel: string, className: string) returns (has: bool)
      ensures has == Overlay.Read(Value().classes, slot, (panel, className), false)
    {
      var key := (panel, className);
      if slot in slotClasses && key in slotClasses[slot] {
        return slotClasses[slot][key];
      }
      has := if key in classes then classes[key] else false;
    }

    method Variable(slot: int, panel: string, variable: string) returns (value: string)
      ensures value == Overlay.Read(Value().variables, slot, (panel, variable), "")
    {
      var key := (panel, variable);
      if slot in slotVariables && key in slotVariables[slot] {
        return slotVariables[slot][key];
      }
      value := if key in variables then variables[key] else "";
    }

    /** What one HUD verb does to one entity. */
    method Take(v: Overlay.Verb)
      modifies this
      ensures Value() == Overlay.ApplyTo(old(Value()), v)
    {
      match v
      case SetClass(slot, target, key, has) =>
        if layout == target {
          if slot.None? {
            classes := classes[key := has];
          } else {
            var own := if slot.value in slotClasses then slotClasses[slot.value] else map[];
            slotClasses := slotClasses[slot.value := own[key := has]];
          }
        }
      case SetVariable(slot, target, key, value) =>
        if layout == target {
          if slot.None? {
            variables := variables[key := value];
          } else {
            var own := if slot.value in slotVariables then slotVariables[slot.value] else map[];
            slotVariables := slotVariables[slot.value := own[key := value]];
          }
        }
      case _ =>
    }
  }

  class FakeGameWorld {
    var hudLayouts: seq<FakeHudLayout>
    var players: seq<Roster.Player>
    var made: nat
    var news: seq<Roster.News>

    /** The entities are objects of their own. */
    ghost predicate Valid()
      reads this
    {
      forall i, j :: 0 <= i < j < |hudLayouts| ==> hudLayouts[i] != hudLayouts[j]
    }

    ghost function Screens(): (r: seq<Overlay.Entity>)
      reads this, hudLayouts
      ensures |r| == |hudLayouts| && forall i :: 0 <= i < |r| ==> r[i] == hudLayouts[i].Value()
    {
      seq(|hudLayouts|, i requires 0 <= i < |hudLayouts| reads this, hudLayouts => hudLayouts[i].Value())
    }

    function Seats(): Roster.Roster
      reads this
    {
      Roster.Roster(players, made, news)
    }

    constructor ()
      ensures Valid() && Screens() == [] && Seats() == Roster.Roster([], 0, [])
    {
      hudLayouts, players, made, news := [], [], 0, [];
    }

    // ---- The HUD

    method CreateHudLayout(layout: string, observable: bool)
      requires Valid()
      modifies this`hudLayouts
      ensures Valid() && Screens() == Overlay.Apply(old(Screens()), Overlay.Create(layout, observable))
      ensures forall i :: 0 <= i < |hudLayouts| ==> hudLayouts[i] in old(hudLayouts) || fresh(hudLayouts[i])
    {
      var entity := new FakeHudLayout(layout, observable);
      hudLayouts := hudLayouts + [entity];
    }

    method RemoveHudLayouts()
      modifies this`hudLayouts
      ensures Valid() && Screens() == Overlay.Apply(old(Screens()), Overlay.Remove)
    {
      hudLayouts := [];
    }

    /** The four setters: every entity of the layout is told. */
    method SetHud(v: Overlay.Verb)
      requires Valid() && (v.SetClass? || v.SetVariable?)
      modifies hudLayouts
      ensures Valid() && Screens() == Overlay.Apply(old(Screens()), v)
    {
      for k := 0 to |hudLayouts|
        invariant forall i :: 0 <= i < k ==> hudLayouts[i].Value() == Overlay.ApplyTo(old(hudLayouts[i].Value()), v)
        invariant forall i :: k <= i < |hudLayouts| ==> hudLayouts[i].Value() == old(hudLayouts[i].Value())
      {
        hudLayouts[k].Take(v);
      }
    }

    // ---- The players

    method FreeSlot() returns (slot: Option<nat>)
      ensures slot == Roster.FreeSlot(players)
    {
      for candidate := 0 to Roster.SLOTS
        invariant Roster.FreeFrom(players, candidate) == Roster.FreeSlot(players)
      {
        var free := true;
        for i := 0 to |players|
          invariant free <==> !Roster.Taken(players[..i], candidate)
        {
          assert players[..i + 1] == players[..i] + [players[i]];
          OneMoreTaken(players[..i], players[i], candidate);
          free := free && players[i].slot != candidate;
        }
        assert players[..|players|] == players;
        if free {
          return Some(candidate);
        }
      }
      return None;
    }

    method Seat(p: Roster.Player)
      modifies this`players, this`made, this`news
      ensures Seats() == Roster.Seat(old(Seats()), p)
    {
      players := Roster.BySlot(players, p);
      made := made + 1;
      news := news + [Roster.Connected(p.serial)];
    }

    /** None is the exception of a full server. */
    method Connect(steamId: nat, name: string, team: Roster.Team, bot: bool) returns (player: Option<Roster.Player>)
      modifies this`players, this`made, this`news
      ensures match Roster.Connect(old(Seats()), steamId, name, team, bot) {
        case None => player.None? && Seats() == old(Seats())
        case Some(after) => player.Some? && player.value.serial == old(made) && Seats() == after
      }
    {
      var slot := FreeSlot();
      if slot.None? {
        return None;
      }
      var p := Roster.Player(made, steamId, name, slot.value, team, false, bot, false);
      Seat(p);
      return Some(p);
    }

    method ArriveBot(name: string, team: Roster.Team, casting: (nat, string) -> Option<Roster.Role>,
                     identity: nat -> nat)
      returns (player: Option<Roster.Player>)
      modifies this`players, this`made, this`news
      ensures match Roster.ArriveBot(old(Seats()), name, team, casting, identity) {
        case None => player.None? && Seats() == old(Seats())
        case Some(after) => player.Some? && player.value.serial == old(made) && Seats() == after
      }
    {
      var slot := FreeSlot();
      if slot.None? {
        return None;
      }
      var role := casting(slot.value, name);
      var p := Roster.Player(made, if role.Some? then role.value.steamId else identity(slot.value),
                             if role.Some? then role.value.name else name, slot.value, team, false, true, role.Some?);
      Seat(p);
      return Some(p);
    }

    method Disconnect(serial: nat)
      modifies this`players, this`news
      ensures Seats() == Roster.Disconnect(old(Seats()), serial)
    {
      if Roster.Present(players, serial) {
        players := Roster.Without(players, serial);
        news := news + [Roster.Disconnected(serial)];
      }
    }

    method Recast(slot: int, role: Roster.Role) returns (done: bool)
      modifies this`players, this`made, this`news
      ensures (Seats(), done) == Roster.Recast(old(Seats()), slot, role)
    {
      Roster.HeldIsThere(players, slot);
      var at := Roster.Held(players, slot);
      if at.None? || !players[at.value].bot {
        return false;
      }
      var held := players[at.value];
      if held.puppet && held.steamId == role.steamId {
        return true;
      }
      players := Roster.Without(players, held.serial);
      if held.puppet {
        news := news + [Roster.Disconnected(held.serial)];
      }
      Seat(Roster.Player(made, role.steamId, role.name, slot, held.team, held.alive, true, true));
      return true;
    }

    method KickBots()
      modifies this`players, this`news
      ensures Seats() == Roster.Kicked(old(Seats()), old(players))
    {
      var there := players;
      for i := 0 to |there|
        invariant Roster.Kicked(Seats(), there[i..]) == Roster.Kicked(old(Seats()), there)
      {
        assert there[i..][0] == there[i] && there[i..][1..] == there[i + 1..];
        if there[i].bot {
          Disconnect(there[i].serial);
        }
      }
    }
  }

  lemma OneMoreTaken(players: seq<Roster.Player>, p: Roster.Player, slot: int)
    ensures Roster.Taken(players + [p], slot) <==> Roster.Taken(players, slot) || p.slot == slot
  {
    if Roster.Taken(players, slot) {
      var i :| 0 <= i < |players| && players[i].slot == slot;
      assert (players + [p])[i].slot == slot;
    }
    if p.slot == slot {
      assert (players + [p])[|players|].slot == slot;
    }
  }
}
