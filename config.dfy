/** The level configuration store built by createLoggerOptions
    (src/logger.ts): one global level, levels for exact logger names, and
    levels for patterns kept in insertion order. */
module Config {
  import opened Wrappers
  import opened Levels

  /** A RegExp object, known by its identity; two distinct objects with the
      same source are two ids. */
  type PatternId = nat

  /** The `matcher` argument of setLevel: absent, a string or a RegExp. */
  datatype Matcher = Global | Exact(name: string) | Pattern(id: PatternId)

  /** The store's state: globalLevel, nameLevelMap and regexLevelMap (the
      latter as its entries in insertion order). */
  datatype Settings = Settings(
    global: Level,
    names: map<string, Level>,
    patterns: seq<(PatternId, Level)>)

  /** A JS Map has each key once. */
  predicate DistinctIds(ps: seq<(PatternId, Level)>)
  {
    forall i, j :: 0 <= i < j < |ps| ==> ps[i].0 != ps[j].0
  }

  /** The for-of search: the index of the first pattern, in insertion order,
      whose test matches `name`. */
  function FirstMatch(ps: seq<(PatternId, Level)>, matches: (PatternId, string) -> bool, name: string): (r: Option<nat>)
    ensures r.None? <==> forall i :: 0 <= i < |ps| ==> !matches(ps[i].0, name)
    ensures r.Some? ==> r.value < |ps| && matches(ps[r.value].0, name)
    ensures r.Some? ==> forall j :: 0 <= j < r.value ==> !matches(ps[j].0, name)
  {
    if ps == [] then None
    else if matches(ps[0].0, name) then Some(0)
    else match FirstMatch(ps[1..], matches, name)
      case None => None
      case Some(k) => Some(k + 1)
  }

  /** getLevel: no name gives the global level; a name gives its exact entry,
      else the level of the first matching pattern, else the global level. */
  function Resolve(s: Settings, matches: (PatternId, string) -> bool, name: Option<string>): (r: Level)
    ensures name.None? ==> r == s.global
    ensures name.Some? && name.value in s.names ==> r == s.names[name.value]
    ensures name.Some? && name.value !in s.names ==>
              forall i :: 0 <= i < |s.patterns| && matches(s.patterns[i].0, name.value)
                          && (forall j :: 0 <= j < i ==> !matches(s.patterns[j].0, name.value))
                          ==> r == s.patterns[i].1
    ensures name.Some? && name.value !in s.names
            && (forall i :: 0 <= i < |s.patterns| ==> !matches(s.patterns[i].0, name.value))
            ==> r == s.global
  {
    match name
    case None => s.global
    case Some(n) =>
      if n in s.names then s.names[n]
      else match FirstMatch(s.patterns, matches, n)
        case Some(k) => s.patterns[k].1
        case None => s.global
  }

  /** Map.prototype.set on the pattern entries: an existing key keeps its
      position and gets the new level; a new key is appended last. */
  function Upsert(ps: seq<(PatternId, Level)>, id: PatternId, level: Level): (r: seq<(PatternId, Level)>)
    requires DistinctIds(ps)
    ensures DistinctIds(r)
    ensures (exists i :: 0 <= i < |ps| && ps[i].0 == id) ==>
              |r| == |ps| && forall i :: 0 <= i < |ps| ==> r[i] == (if ps[i].0 == id then (id, level) else ps[i])
    ensures (forall i :: 0 <= i < |ps| ==> ps[i].0 != id) ==> r == ps + [(id, level)]
  {
    if ps == [] then [(id, level)]
    else if ps[0].0 == id then [(id, level)] + ps[1..]
    else [ps[0]] + Upsert(ps[1..], id, level)
  }

  /** setLevel: exactly one of the three parts changes. */
  function Assign(s: Settings, level: Level, m: Matcher): (r: Settings)
    requires DistinctIds(s.patterns)
    ensures DistinctIds(r.patterns)
    ensures m.Global? ==> r == Settings(level, s.names, s.patterns)
    ensures m.Exact? ==> r == Settings(s.global, s.names[m.name := level], s.patterns)
    ensures m.Pattern? ==> r == Settings(s.global, s.names, Upsert(s.patterns, m.id, level))
  {
    match m
    case Global => s.(global := level)
    case Exact(n) => s.(names := s.names[n := level])
    case Pattern(id) => s.(patterns := Upsert(s.patterns, id, level))
  }

  /** The initial global level from the build environment: FINE, or INFO for
      a production build, replaced by the level whose name is exactly
      LOG_LEVEL when there is one. */
  function InitialLevel(prod: bool, logLevel: Option<string>): (r: Level)
    ensures r in Values
    ensures logLevel.Some? && FindByName(Values, logLevel.value).Some? ==> r.name == logLevel.value
    ensures (logLevel.None? || FindByName(Values, logLevel.value).None?) ==> r == (if prod then INFO else FINE)
  {
    var byBuild := if prod then INFO else FINE;
    match logLevel
    case None => byBuild
    case Some(n) =>
      match FindByName(Values, n)
      case Some(l) => l
      case None => byBuild
  }

  /** The lower-case names select their own level; a key such as "INFO" is
      not a name and leaves the build default in place. */
  lemma InitialLevelExamples()
    ensures InitialLevel(false, None) == FINE && InitialLevel(true, None) == INFO
    ensures InitialLevel(true, Some("finest")) == FINEST
    ensures InitialLevel(false, Some("INFO")) == FINE
  {
    FindByOwnName(FINEST);
    CapitalIsNoName("INFO");
  }

  /** getLevel() with no name is the global level, and setLevel with no
      matcher changes only that. */
  lemma AssignGlobal(s: Settings, matches: (PatternId, string) -> bool, level: Level)
    requires DistinctIds(s.patterns)
    ensures Resolve(Assign(s, level, Global), matches, None) == level
    ensures forall n :: n in s.names ==> Resolve(Assign(s, level, Global), matches, Some(n)) == s.names[n]
  {
  }

  /** setLevel(l, name) makes getLevel(name) return l and leaves every other
      query as it was. */
  lemma AssignExact(s: Settings, matches: (PatternId, string) -> bool, level: Level, name: string, other: Option<string>)
    requires DistinctIds(s.patterns)
    requires other != Some(name)
    ensures Resolve(Assign(s, level, Exact(name)), matches, Some(name)) == level
    ensures Resolve(Assign(s, level, Exact(name)), matches, other) == Resolve(s, matches, other)
  {
  }

  /** Exact names win over patterns whatever the insertion order: setting a
      pattern never changes the level of a name that has an exact entry. */
  lemma ExactBeatsPattern(s: Settings, matches: (PatternId, string) -> bool, level: Level, id: PatternId, name: string)
    requires DistinctIds(s.patterns)
    requires name in s.names
    ensures Resolve(Assign(s, level, Pattern(id)), matches, Some(name)) == s.names[name]
  {
  }

  /** FirstMatch over entries with one more appended. */
  lemma {:induction false} FirstMatchAppend(ps: seq<(PatternId, Level)>, e: (PatternId, Level),
                                            matches: (PatternId, string) -> bool, name: string)
    ensures FirstMatch(ps, matches, name).Some? ==> FirstMatch(ps + [e], matches, name) == FirstMatch(ps, matches, name)
    ensures FirstMatch(ps, matches, name).None? && matches(e.0, name) ==> FirstMatch(ps + [e], matches, name) == Some(|ps|)
  {
    if ps != [] {
      assert (ps + [e])[1..] == ps[1..] + [e];
      FirstMatchAppend(ps[1..], e, matches, name);
    }
  }

  /** A new pattern goes last, so it only decides names no earlier pattern
      and no exact entry matched. */
  lemma NewPatternGoesLast(s: Settings, matches: (PatternId, string) -> bool, level: Level, id: PatternId, name: string)
    requires DistinctIds(s.patterns)
    requires forall i :: 0 <= i < |s.patterns| ==> s.patterns[i].0 != id
    ensures FirstMatch(s.patterns, matches, name).Some? ==>
              Resolve(Assign(s, level, Pattern(id)), matches, Some(name)) == Resolve(s, matches, Some(name))
    ensures name !in s.names && FirstMatch(s.patterns, matches, name).None? && matches(id, name) ==>
              Resolve(Assign(s, level, Pattern(id)), matches, Some(name)) == level
  {
    FirstMatchAppend(s.patterns, (id, level), matches, name);
  }

  /** Re-setting a pattern already present keeps its priority: any name it
      decided before now gets the new level. */
  lemma ReplacedPatternKeepsPriority(s: Settings, matches: (PatternId, string) -> bool, level: Level, k: nat, name: string)
    requires DistinctIds(s.patterns)
    requires name !in s.names
    requires FirstMatch(s.patterns, matches, name) == Some(k)
    ensures Resolve(Assign(s, level, Pattern(s.patterns[k].0)), matches, Some(name)) == level
  {
    var r := Assign(s, level, Pattern(s.patterns[k].0));
    assert forall i :: 0 <= i < |s.patterns| ==> r.patterns[i].0 == s.patterns[i].0;
  }

  /** The store as createLoggerOptions builds it: closure variables become
      fields, the regex test becomes the uninterpreted `matches`. */
  class LevelStore {
    var global: Level
    var names: map<string, Level>
    var patterns: seq<(PatternId, Level)>
    const matches: (PatternId, string) -> bool

    ghost predicate Valid()
      reads this
    {
      DistinctIds(patterns)
    }

    function State(): Settings
      reads this
    {
      Settings(global, names, patterns)
    }

    constructor (prod: bool, logLevel: Option<string>, matches: (PatternId, string) -> bool)
      ensures Valid()
      ensures State() == Settings(InitialLevel(prod, logLevel), map[], [])
      ensures this.matches == matches
    {
      global := InitialLevel(prod, logLevel);
      names := map[];
      patterns := [];
      this.matches := matches;
    }

    /** getLevel, with its search loop over the patterns. */
    method GetLevel(name: Option<string>) returns (level: Level)
      ensures level == Resolve(State(), matches, name)
    {
      if name.None? {
        return global;
      }
      var n := name.value;
      if n in names {
        return names[n];
      }
      var i := 0;
      while i < |patterns|
        invariant 0 <= i <= |patterns|
        invariant forall j :: 0 <= j < i ==> !matches(patterns[j].0, n)
      {
        if matches(patterns[i].0, n) {
          return patterns[i].1;
        }
        i := i + 1;
      }
      return global;
    }

    /** setLevel. */
    method SetLevel(level: Level, m: Matcher)
      requires Valid()
      modifies this
      ensures Valid()
      ensures State() == Assign(old(State()), level, m)
    {
      match m
      case Global => global := level;
      case Exact(n) => names := names[n := level];
      case Pattern(id) => patterns := Upsert(patterns, id, level);
    }

    method SetOff(m: Matcher)
      requires Valid()
      modifies this
      ensures Valid() && State() == Assign(old(State()), OFF, m)
    {
      SetLevel(OFF, m);
    }

    method SetSevere(m: Matcher)
      requires Valid()
      modifies this
      ensures Valid() && State() == Assign(old(State()), SEVERE, m)
    {
      SetLevel(SEVERE, m);
    }

    method SetWarning(m: Matcher)
      requires Valid()
      modifies this
      ensures Valid() && State() == Assign(old(State()), WARNING, m)
    {
      SetLevel(WARNING, m);
    }

    method SetInfo(m: Matcher)
      requires Valid()
      modifies this
      ensures Valid() && State() == Assign(old(State()), INFO, m)
    {
      SetLevel(INFO, m);
    }

    method SetConfig(m: Matcher)
      requires Valid()
      modifies this
      ensures Valid() && State() == Assign(old(State()), CONFIG, m)
    {
      SetLevel(CONFIG, m);
    }

    method SetFine(m: Matcher)
      requires Valid()
      modifies this
      ensures Valid() && State() == Assign(old(State()), FINE, m)
    {
      SetLevel(FINE, m);
    }

    method SetFiner(m: Matcher)
      requires Valid()
      modifies this
      ensures Valid() && State() == Assign(old(State()), FINER, m)
    {
      SetLevel(FINER, m);
    }

    method SetFinest(m: Matcher)
      requires Valid()
      modifies this
      ensures Valid() && State() == Assign(old(State()), FINEST, m)
    {
      SetLevel(FINEST, m);
    }

    method SetAll(m: Matcher)
      requires Valid()
      modifies this
      ensures Valid() && State() == Assign(old(State()), ALL, m)
    {
      SetLevel(ALL, m);
    }
  }
}
