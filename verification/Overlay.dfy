/**
 * The HUD layouts of the scripted world (plugins/EZPug.Sdk.Testing/FakeGameWorld.cs): what everybody is told, what each
 * slot is told over that, and why reading a screen is reading the log.
 */
module Overlay {
  import opened Wrappers

  type Key = (string, string)

  /** One two-level dictionary: a value for everybody, and values of each slot's own. */
  datatype Layers<V> = Layers(all: map<Key, V>, slots: map<int, map<Key, V>>)

  /** What a client in a slot resolves: its own value where one was set, everybody's otherwise. */
  function Read<V>(l: Layers<V>, slot: int, key: Key, default: V): V {
    if slot in l.slots && key in l.slots[slot] then l.slots[slot][key]
    else if key in l.all then l.all[key]
    else default
  }

  function Set<V>(l: Layers<V>, slot: Option<int>, key: Key, value: V): Layers<V> {
    match slot
    case None => l.(all := l.all[key := value])
    case Some(s) =>
      var own := if s in l.slots then l.slots[s] else map[];
      l.(slots := l.slots[s := own[key := value]])
  }

  datatype Entity = Entity(layout: string, observable: bool, classes: Layers<bool>, variables: Layers<string>)

  function New(layout: string, observable: bool): Entity {
    Entity(layout, observable, Layers(map[], map[]), Layers(map[], map[]))
  }

  /** The HUD verbs; a removal is also what the start of a map does, and an orphan is a creation nobody asked for. */
  datatype Verb =
    | Create(layout: string, observable: bool)
    | Remove
    | SetClass(slot: Option<int>, layout: string, key: Key, has: bool)
    | SetVariable(slot: Option<int>, layout: string, key: Key, value: string)

  function ApplyTo(e: Entity, v: Verb): Entity {
    match v
    case SetClass(slot, layout, key, has) =>
      if e.layout == layout then e.(classes := Set(e.classes, slot, key, has)) else e
    case SetVariable(slot, layout, key, value) =>
      if e.layout == layout then e.(variables := Set(e.variables, slot, key, value)) else e
    case _ => e
  }

  function ApplyAll(entities: seq<Entity>, v: Verb): (r: seq<Entity>)
    ensures |r| == |entities|
    ensures forall i :: 0 <= i < |r| ==> r[i] == ApplyTo(entities[i], v)
  {
    seq(|entities|, i requires 0 <= i < |entities| => ApplyTo(entities[i], v))
  }

  function Apply(entities: seq<Entity>, v: Verb): seq<Entity> {
    match v
    case Create(layout, observable) => entities + [New(layout, observable)]
    case Remove => []
    case _ => ApplyAll(entities, v)
  }

  /** The entities after these verbs, the last verb last. */
  function After(log: seq<Verb>): seq<Entity> {
    if log == [] then [] else Apply(After(log[..|log| - 1]), log[|log| - 1])
  }

  // ---- The log

  /** Where in the log each standing entity was created. */
  function Births(log: seq<Verb>): seq<nat> {
    if log == [] then []
    else
      var before := Births(log[..|log| - 1]);
      match log[|log| - 1]
      case Create(_, _) => before + [|log| - 1]
      case Remove => []
      case _ => before
  }

  datatype Write<V> = Write(slot: Option<int>, layout: string, key: Key, value: V)

  function ClassWrite(v: Verb): Option<Write<bool>> {
    match v
    case SetClass(slot, layout, key, has) => Some(Write(slot, layout, key, has))
    case _ => None
  }

  function VariableWrite(v: Verb): Option<Write<string>> {
    match v
    case SetVariable(slot, layout, key, value) => Some(Write(slot, layout, key, value))
    case _ => None
  }

  /** The last value written from `from` on for exactly this slot, or for everybody. */
  function LastWrite<V>(log: seq<Verb>, from: nat, view: Verb -> Option<Write<V>>, layout: string, slot: Option<int>,
                        key: Key): Option<V>
    requires from <= |log|
  {
    if |log| == from then None
    else
      var w := view(log[|log| - 1]);
      if w.Some? && w.value.layout == layout && w.value.slot == slot && w.value.key == key then Some(w.value.value)
      else LastWrite(log[..|log| - 1], from, view, layout, slot, key)
  }

  /** Replaying: the slot's last own write if there is one, else everybody's last, else the default. */
  function Replay<V>(log: seq<Verb>, from: nat, view: Verb -> Option<Write<V>>, layout: string, slot: int, key: Key,
                     default: V): V
    requires from <= |log|
  {
    match LastWrite(log, from, view, layout, Some(slot), key)
    case Some(value) => value
    case None =>
      match LastWrite(log, from, view, layout, None, key)
      case Some(value) => value
      case None => default
  }

  // ---- Reading is replaying

  /** Every layer holds the last write for it. */
  ghost predicate Tells<V(!new)>(l: Layers<V>, log: seq<Verb>, from: nat, view: Verb -> Option<Write<V>>,
                                 layout: string)
    requires from <= |log|
  {
    && (forall key: Key :: LastWrite(log, from, view, layout, None, key)
                        == if key in l.all then Some(l.all[key]) else None)
    && (forall slot: int, key: Key :: LastWrite(log, from, view, layout, Some(slot), key)
                        == if slot in l.slots && key in l.slots[slot] then Some(l.slots[slot][key]) else None)
  }

  lemma TellsMore<V(!new)>(l: Layers<V>, log: seq<Verb>, from: nat, view: Verb -> Option<Write<V>>, layout: string,
                           v: Verb)
    requires from <= |log| && Tells(l, log, from, view, layout)
    ensures var w := view(v);
      var told := if w.Some? && w.value.layout == layout then Set(l, w.value.slot, w.value.key, w.value.value) else l;
      Tells(told, log + [v], from, view, layout)
  {
    assert (log + [v])[..|log|] == log;
  }

  lemma {:induction false} OneEntityEach(log: seq<Verb>)
    ensures |After(log)| == |Births(log)|
    ensures forall i :: 0 <= i < |Births(log)| ==> Births(log)[i] < |log|
  {
    if log == [] {
    } else {
      OneEntityEach(log[..|log| - 1]);
    }
  }

  ghost predicate EntityTells(e: Entity, log: seq<Verb>, born: nat) {
    && born < |log| && log[born] == Create(e.layout, e.observable)
    && Tells(e.classes, log, born, ClassWrite, e.layout)
    && Tells(e.variables, log, born, VariableWrite, e.layout)
  }

  lemma NewTells(log: seq<Verb>, layout: string, observable: bool)
    ensures EntityTells(New(layout, observable), log + [Create(layout, observable)], |log|)
  {
    assert (log + [Create(layout, observable)])[..|log|] == log;
  }

  lemma OldTells(e: Entity, log: seq<Verb>, born: nat, v: Verb)
    requires EntityTells(e, log, born)
    ensures EntityTells(ApplyTo(e, v), log + [v], born)
  {
    TellsMore(e.classes, log, born, ClassWrite, e.layout, v);
    TellsMore(e.variables, log, born, VariableWrite, e.layout, v);
  }

  lemma {:induction false} EveryEntityTells(log: seq<Verb>, i: nat)
    requires i < |Births(log)|
    ensures i < |After(log)| && EntityTells(After(log)[i], log, Births(log)[i])
  {
    var before, v := log[..|log| - 1], log[|log| - 1];
    assert log == before + [v];
    OneEntityEach(before);
    OneEntityEach(log);
    if v.Create? && i == |Births(before)| {
      NewTells(before, v.layout, v.observable);
    } else {
      EveryEntityTells(before, i);
      OldTells(After(before)[i], before, Births(before)[i], v);
    }
  }

  /**
   * After any verbs, with as many entities of one layout as there may be: what a slot reads off an entity is the replay
   * of the writes since that entity was created.
   */
  lemma ReadingIsReplaying(log: seq<Verb>, i: nat, slot: int, key: Key)
    requires i < |Births(log)|
    ensures |After(log)| == |Births(log)| && Births(log)[i] < |log|
    ensures var e, born := After(log)[i], Births(log)[i];
      && log[born] == Create(e.layout, e.observable)
      && Read(e.classes, slot, key, false) == Replay(log, born, ClassWrite, e.layout, slot, key, false)
      && Read(e.variables, slot, key, "") == Replay(log, born, VariableWrite, e.layout, slot, key, "")
  {
    OneEntityEach(log);
    EveryEntityTells(log, i);
    var e, born := After(log)[i], Births(log)[i];
    TellsReads(e.classes, log, born, ClassWrite, e.layout, slot, key, false);
    TellsReads(e.variables, log, born, VariableWrite, e.layout, slot, key, "");
  }

  lemma TellsReads<V(!new)>(l: Layers<V>, log: seq<Verb>, from: nat, view: Verb -> Option<Write<V>>, layout: string,
                            slot: int, key: Key, default: V)
    requires from <= |log| && Tells(l, log, from, view, layout)
    ensures Read(l, slot, key, default) == Replay(log, from, view, layout, slot, key, default)
  {
  }

  /** What was told a slot since one moment settles what it reads for whoever was there before it. */
  predicate Settled<V(==)>(log: seq<Verb>, older: nat, younger: nat, view: Verb -> Option<Write<V>>, layout: string,
                           slot: int, key: Key)
    requires older <= younger <= |log|
  {
    || LastWrite(log, younger, view, layout, Some(slot), key).Some?
    || (LastWrite(log, older, view, layout, Some(slot), key).None?
        && (LastWrite(log, younger, view, layout, None, key).Some?
            || LastWrite(log, older, view, layout, None, key).None?))
  }

  lemma SettledReplays<V>(log: seq<Verb>, older: nat, younger: nat, view: Verb -> Option<Write<V>>, layout: string,
                          slot: int, key: Key, default: V)
    requires older <= younger <= |log| && Settled(log, older, younger, view, layout, slot, key)
    ensures Replay(log, older, view, layout, slot, key, default)
         == Replay(log, younger, view, layout, slot, key, default)
  {
    if LastWrite(log, younger, view, layout, Some(slot), key).Some? {
      LongerLog(log, older, younger, view, layout, Some(slot), key);
    }
    if LastWrite(log, younger, view, layout, None, key).Some? {
      LongerLog(log, older, younger, view, layout, None, key);
    }
  }

  /**
   * Two entities of one layout read the same for a slot, classes and variables alike, once what it reads was settled
   * after both were created: by a write of its own, or by one for everybody with none of its own before; or was never
   * said.
   */
  lemma TwinsAgree(log: seq<Verb>, i: nat, j: nat, slot: int, key: Key)
    requires i < j < |Births(log)| && j < |After(log)| && After(log)[i].layout == After(log)[j].layout
    ensures Births(log)[i] <= Births(log)[j] <= |log|
    ensures var a, b, older, younger := After(log)[i], After(log)[j], Births(log)[i], Births(log)[j];
      && (Settled(log, older, younger, ClassWrite, a.layout, slot, key)
          ==> Read(a.classes, slot, key, false) == Read(b.classes, slot, key, false))
      && (Settled(log, older, younger, VariableWrite, a.layout, slot, key)
          ==> Read(a.variables, slot, key, "") == Read(b.variables, slot, key, ""))
  {
    var layout, older, younger := After(log)[i].layout, Births(log)[i], Births(log)[j];
    BirthsAscend(log, i, j);
    ReadingIsReplaying(log, i, slot, key);
    ReadingIsReplaying(log, j, slot, key);
    if Settled(log, older, younger, ClassWrite, layout, slot, key) {
      SettledReplays(log, older, younger, ClassWrite, layout, slot, key, false);
    }
    if Settled(log, older, younger, VariableWrite, layout, slot, key) {
      SettledReplays(log, older, younger, VariableWrite, layout, slot, key, "");
    }
  }

  lemma {:induction false} BirthsAscend(log: seq<Verb>, i: nat, j: nat)
    requires i < j < |Births(log)|
    ensures Births(log)[i] < Births(log)[j] <= |log|
  {
    var before := log[..|log| - 1];
    OneEntityEach(before);
    OneEntityEach(log);
    if j >= |Births(before)| {
    } else {
      BirthsAscend(before, i, j);
    }
  }

  lemma {:induction false} LongerLog<V>(log: seq<Verb>, from: nat, later: nat, view: Verb -> Option<Write<V>>,
                                        layout: string, slot: Option<int>, key: Key)
    requires from <= later <= |log| && LastWrite(log, later, view, layout, slot, key).Some?
    ensures LastWrite(log, from, view, layout, slot, key) == LastWrite(log, later, view, layout, slot, key)
  {
    var w := view(log[|log| - 1]);
    if w.Some? && w.value.layout == layout && w.value.slot == slot && w.value.key == key {
    } else {
      LongerLog(log[..|log| - 1], from, later, view, layout, slot, key);
    }
  }
}
