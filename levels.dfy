/** The fixed table of severity levels (src/level.ts): nine (name, rank) pairs,
    with OFF and ALL as the extreme sentinels. */
module Levels {
  import opened Wrappers

  /** Number.MAX_SAFE_INTEGER, 2^53 - 1. */
  const MaxSafeInteger: int := 0x1F_FFFF_FFFF_FFFF

  /** A level record: its lower-case name and its numeric rank. */
  datatype Level = Level(name: string, value: int)

  /** createLevel: the record holding exactly the given name and rank. */
  function CreateLevel(name: string, value: int): (l: Level)
    ensures l.name == name && l.value == value
  {
    Level(name, value)
  }

  const OFF: Level := CreateLevel("off", MaxSafeInteger)
  const SEVERE: Level := CreateLevel("severe", 1000)
  const WARNING: Level := CreateLevel("warning", 900)
  const INFO: Level := CreateLevel("info", 800)
  const CONFIG: Level := CreateLevel("config", 700)
  const FINE: Level := CreateLevel("fine", 500)
  const FINER: Level := CreateLevel("finer", 400)
  const FINEST: Level := CreateLevel("finest", 300)
  const ALL: Level := CreateLevel("all", -MaxSafeInteger)

  /** The `Level` object: its (key, level) properties in declaration order. */
  const Entries: seq<(string, Level)> :=
    [("OFF", OFF), ("SEVERE", SEVERE), ("WARNING", WARNING), ("INFO", INFO),
     ("CONFIG", CONFIG), ("FINE", FINE), ("FINER", FINER), ("FINEST", FINEST),
     ("ALL", ALL)]

  /** Object.values(Level), in the order the keys are declared. */
  const Values: seq<Level> := [OFF, SEVERE, WARNING, INFO, CONFIG, FINE, FINER, FINEST, ALL]

  /** A property read `obj[key]` on an object given by its entries: the value
      of the property named `key`, or None for `undefined`. */
  function Get(entries: seq<(string, Level)>, key: string): (r: Option<Level>)
    ensures r.None? <==> forall i :: 0 <= i < |entries| ==> entries[i].0 != key
    ensures r.Some? ==> exists i :: 0 <= i < |entries| && entries[i] == (key, r.value)
  {
    if entries == [] then None
    else if entries[0].0 == key then Some(entries[0].1)
    else Get(entries[1..], key)
  }

  /** Array.prototype.find over a list of levels by name: the first level
      whose name is exactly `name`, if any. */
  function FindByName(levels: seq<Level>, name: string): (r: Option<Level>)
    ensures r.None? <==> forall i :: 0 <= i < |levels| ==> levels[i].name != name
    ensures r.Some? ==> exists i :: 0 <= i < |levels| && levels[i] == r.value
                          && (forall j :: 0 <= j < i ==> levels[j].name != name)
    ensures r.Some? ==> r.value.name == name
  {
    if levels == [] then None
    else if levels[0].name == name then Some(levels[0])
    else FindByName(levels[1..], name)
  }

  /** The object's values are Values, key by key, and its keys are distinct. */
  lemma EntriesHoldValues()
    ensures |Entries| == |Values| == 9
    ensures forall i :: 0 <= i < |Entries| ==> Entries[i].1 == Values[i]
    ensures forall i, j :: 0 <= i < j < |Entries| ==> Entries[i].0 != Entries[j].0
  {
  }

  /** Since keys are distinct, reading a key of the table gives its level. */
  lemma GetByKey(i: nat)
    requires i < |Entries|
    ensures Get(Entries, Entries[i].0) == Some(Values[i])
  {
    EntriesHoldValues();
    var r := Get(Entries, Entries[i].0);
    assert r.Some?;
    var j :| 0 <= j < |Entries| && Entries[j] == (Entries[i].0, r.value);
    assert j == i;
  }

  /** The letters the keys start with. */
  const KeyInitials: string := "OSWICFA"

  /** Every key is non-empty and starts with one of KeyInitials. */
  lemma KeysStartWithInitials()
    ensures forall i :: 0 <= i < |Entries| ==> |Entries[i].0| > 0 && Entries[i].0[0] in KeyInitials
  {
  }

  /** A string whose first letter no key starts with reads `undefined`. */
  lemma OtherInitialIsNoKey(key: string)
    requires |key| > 0 && key[0] !in KeyInitials
    ensures Get(Entries, key) == None
  {
    KeysStartWithInitials();
  }

  /** Ranks strictly decrease along OFF, SEVERE, ..., FINEST, ALL. */
  lemma RanksStrictlyDecrease()
    ensures forall i, j :: 0 <= i < j < |Values| ==> Values[i].value > Values[j].value
  {
  }

  /** OFF dominates and ALL is dominated by every other level. */
  lemma SentinelsAreExtreme()
    ensures OFF.value == MaxSafeInteger && ALL.value == -MaxSafeInteger
    ensures forall l :: l in Values && l != OFF && l != ALL ==> ALL.value < l.value < OFF.value
  {
  }

  /** The nine names are pairwise distinct. */
  lemma NamesDistinct()
    ensures forall i, j :: 0 <= i < j < |Values| ==> Values[i].name != Values[j].name
  {
  }

  /** Every name starts with a small letter. */
  lemma NamesStartSmall()
    ensures forall i :: 0 <= i < |Values| ==> |Values[i].name| > 0 && 'a' <= Values[i].name[0] <= 'z'
  {
  }

  /** A string starting with a capital, such as a key, is no level's name. */
  lemma CapitalIsNoName(name: string)
    requires |name| > 0 && 'A' <= name[0] <= 'Z'
    ensures FindByName(Values, name) == None
  {
    NamesStartSmall();
  }

  /** Since names are distinct, a lookup by the name of a table level finds
      that level. */
  lemma FindByOwnName(l: Level)
    requires l in Values
    ensures FindByName(Values, l.name) == Some(l)
  {
    NamesDistinct();
  }
}
