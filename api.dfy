/** The part of createLoggerApi (src/logger.ts) that decides what reaches
    the console: the enabled check, formatText, and the gates of log and
    count. Console calls are returned as values instead of performed. */
module Api {
  import opened Wrappers
  import opened Levels
  import opened Format
  import opened Config
  import opened Dispatch

  /** A logger bound to a level and a name. */
  datatype LoggerApi = LoggerApi(level: Level, name: string)

  /** One call into the console: a sink called with a content string and
      extra arguments, console.count, or console.countReset (a None label is
      the call with `undefined`). */
  datatype ConsoleCall =
    | Emit(sink: Sink, content: string, extra: seq<Value>)
    | CountCall(text: Option<string>)
    | CountResetCall(text: Option<string>)

  /** isEnabled's comparison: the bound level is at least as severe as the
      level configured for the name. */
  predicate Enabled(bound: Level, effective: Level)
  {
    bound.value >= effective.value
  }

  /** isEnabled against a given configuration. */
  predicate EnabledIn(api: LoggerApi, s: Settings, matches: (PatternId, string) -> bool)
  {
    Enabled(api.level, Resolve(s, matches, Some(api.name)))
  }

  /** A higher bound level, or a lower threshold, keeps a logger enabled. */
  lemma EnabledMonotone(a: Level, b: Level, e: Level, f: Level)
    requires a.value >= b.value && e.value >= f.value
    ensures Enabled(b, e) ==> Enabled(a, f)
  {
  }

  /** Against the table, the sentinels are the extremes: an ALL threshold
      enables every level, an OFF threshold only an OFF-bound logger. */
  lemma SentinelThresholds(l: Level)
    requires l in Values
    ensures Enabled(l, ALL)
    ensures Enabled(l, OFF) <==> l == OFF
    ensures Enabled(OFF, l)
  {
  }

  /** setOff(name) silences a logger of that name at every level but OFF. */
  lemma SetOffSilences(s: Settings, matches: (PatternId, string) -> bool, l: Level, name: string)
    requires DistinctIds(s.patterns)
    requires l in Values
    ensures EnabledIn(LoggerApi(l, name), Assign(s, OFF, Exact(name)), matches) <==> l == OFF
  {
  }

  /** With the global level at WARNING and nothing configured for the name,
      an INFO logger is off and a SEVERE logger is on. */
  lemma WarningThreshold(s: Settings, matches: (PatternId, string) -> bool, name: string)
    requires DistinctIds(s.patterns)
    requires name !in s.names
    requires forall i :: 0 <= i < |s.patterns| ==> !matches(s.patterns[i].0, name)
    ensures !EnabledIn(LoggerApi(INFO, name), Assign(s, WARNING, Global), matches)
    ensures EnabledIn(LoggerApi(SEVERE, name), Assign(s, WARNING, Global), matches)
  {
  }

  /** isEnabled: reads the store at the time of the call. */
  method IsEnabled(api: LoggerApi, store: LevelStore) returns (b: bool)
    ensures b == EnabledIn(api, store.State(), store.matches)
  {
    var effective := store.GetLevel(Some(api.name));
    b := api.level.value >= effective.value;
  }

  /** The enabled check is not cached: a change to the store between two
      calls changes the answer. */
  method ReadsStoreEachCall(matches: (PatternId, string) -> bool) returns (before: bool, after: bool)
    ensures before && !after
  {
    var store := new LevelStore(false, None, matches);
    var api := LoggerApi(INFO, "app");
    before := IsEnabled(api, store);
    store.SetWarning(Exact("app"));
    after := IsEnabled(api, store);
  }

  /** A string argument starting with "#!" is a colour directive. */
  predicate IsDirective(v: Value)
  {
    v.Str? && |v.s| >= 2 && v.s[..2] == "#!"
  }

  function ColorOf(v: Value): seq<Value>
  {
    if IsDirective(v) then [Str(v.s[2..])] else []
  }

  function PlainOf(v: Value): seq<Value>
  {
    if IsDirective(v) then [] else [v]
  }

  /** The colour arguments: each directive without its "#!", in order. */
  function Colors(args: seq<Value>): seq<Value>
  {
    if args == [] then [] else Colors(args[..|args| - 1]) + ColorOf(args[|args| - 1])
  }

  /** The arguments that are not directives, in order. */
  function Plain(args: seq<Value>): seq<Value>
  {
    if args == [] then [] else Plain(args[..|args| - 1]) + PlainOf(args[|args| - 1])
  }

  /** The partition distributes over concatenation, so it keeps the order of
      the arguments on both sides. */
  lemma {:induction false} PartitionAppend(a: seq<Value>, b: seq<Value>)
    ensures Colors(a + b) == Colors(a) + Colors(b)
    ensures Plain(a + b) == Plain(a) + Plain(b)
  {
    if b == [] {
      assert a + b == a;
    } else {
      var b' := b[..|b| - 1];
      assert (a + b)[..|a + b| - 1] == a + b';
      assert (a + b)[|a + b| - 1] == b[|b| - 1];
      PartitionAppend(a, b');
    }
  }

  /** Every argument lands on exactly one side. */
  lemma {:induction false} PartitionSizes(args: seq<Value>)
    ensures |Colors(args)| + |Plain(args)| == |args|
  {
    if args != [] {
      PartitionSizes(args[..|args| - 1]);
    }
  }

  /** The normal side holds arguments that are not directives, unchanged. */
  lemma {:induction false} PlainSide(args: seq<Value>)
    ensures forall i :: 0 <= i < |Plain(args)| ==> !IsDirective(Plain(args)[i]) && Plain(args)[i] in args
  {
    if args != [] {
      var init := args[..|args| - 1];
      PlainSide(init);
      assert forall x :: x in init ==> x in args;
    }
  }

  /** The colour side holds the directives with their "#!" stripped. */
  lemma {:induction false} ColorSide(args: seq<Value>)
    ensures forall i :: 0 <= i < |Colors(args)| ==>
              Colors(args)[i].Str? && Str("#!" + Colors(args)[i].s) in args
  {
    if args != [] {
      var init := args[..|args| - 1];
      var last := args[|args| - 1];
      ColorSide(init);
      assert forall x :: x in init ==> x in args;
      if IsDirective(last) {
        assert last.s[..2] + last.s[2..] == last.s;
        assert Str("#!" + last.s[2..]) == last;
      }
    }
  }

  /** Without directives nothing is moved. */
  lemma {:induction false} NoDirectivesKeepsArguments(args: seq<Value>)
    requires forall i :: 0 <= i < |args| ==> !IsDirective(args[i])
    ensures Colors(args) == [] && Plain(args) == args
  {
    if args != [] {
      NoDirectivesKeepsArguments(args[..|args| - 1]);
      assert args[..|args| - 1] + [args[|args| - 1]] == args;
    }
  }

  /** The pair formatText returns: the content "[name] msg" and the colour
      arguments followed by msgFormat's leftovers. */
  function Rendered(h: Host, name: string, format: string, args: seq<Value>): (r: (string, seq<Value>))
    ensures |r.0| >= |name| + 3 && r.0[..|name| + 3] == "[" + name + "] "
    ensures |r.1| >= |Colors(args)| && r.1[..|Colors(args)|] == Colors(args)
    ensures r.0[|name| + 3..] == Formatted(h, format, Plain(args)).0
    ensures r.1[|Colors(args)|..] == Formatted(h, format, Plain(args)).1
  {
    var (msg, leftArgs) := Formatted(h, format, Plain(args));
    ("[" + name + "] " + msg, Colors(args) + leftArgs)
  }

  /** A directive is never substituted into the message: "%s" takes the
      first argument that is not a directive. */
  lemma DirectiveSkipped(h: Host)
    ensures Rendered(h, "app", "%s", [Str("#!color: red"), Str("a")]) == ("[app] a", [Str("color: red")])
  {
    var args := [Str("#!color: red"), Str("a")];
    assert args[..1] == [Str("#!color: red")];
    assert [Str("#!color: red")][..0] == [];
    assert IsDirective(Str("#!color: red"));
    assert !IsDirective(Str("a"));
    assert Colors(args) == [Str("color: red")];
    assert Plain(args) == [Str("a")];
    ScanSingle(S);
    Substitute1(h, Placeholder(S), [Str("a")]);
    assert Shift([Str("a")]) == (Str("a"), []);
    CollapseNoPercent("a");
    FormattedFrom(h, "%s", [Str("a")], [Placeholder(S)], "a", [], "a");
    assert "[" + "app" + "] " + "a" == "[app] a";
    assert [Str("color: red")] + [] == [Str("color: red")];
  }

  /** formatText, with its partition loop. */
  method FormatText(h: Host, name: string, format: string, args: seq<Value>) returns (content: string, extra: seq<Value>)
    ensures (content, extra) == Rendered(h, name, format, args)
  {
    var colorArgs: seq<Value> := [];
    var filteredArgs: seq<Value> := [];
    for i := 0 to |args|
      invariant colorArgs == Colors(args[..i])
      invariant filteredArgs == Plain(args[..i])
    {
      var arg := args[i];
      assert args[..i + 1][..i] == args[..i];
      if IsDirective(arg) {
        colorArgs := colorArgs + [Str(arg.s[2..])];
      } else {
        filteredArgs := filteredArgs + [arg];
      }
    }
    assert args[..|args|] == args;
    var msg, leftArgs := MsgFormat(h, format, filteredArgs);
    content := "[" + name + "] " + msg;
    extra := colorArgs + leftArgs;
  }

  /** The console calls of one log call, given the level configured for the
      logger's name: nothing when disabled; otherwise the content goes to the
      level's sink, after mapLogLevel's warning for OFF and ALL. */
  function LogCalls(api: LoggerApi, effective: Level, h: Host, format: string, args: seq<Value>): (calls: seq<ConsoleCall>)
    ensures !Enabled(api.level, effective) ==> calls == []
    ensures Enabled(api.level, effective) && Known(api.level) ==>
              calls == [Emit(MapLogLevel(api.level).0, Rendered(h, api.name, format, args).0, Rendered(h, api.name, format, args).1)]
    ensures Enabled(api.level, effective) && !Known(api.level) ==>
              calls == [Emit(Warn, UnknownLevelWarning(api.level), []),
                        Emit(Sink.Log, Rendered(h, api.name, format, args).0, Rendered(h, api.name, format, args).1)]
  {
    if !Enabled(api.level, effective) then []
    else
      var (content, extra) := Rendered(h, api.name, format, args);
      var (sink, warning) := MapLogLevel(api.level);
      (if warning.Some? then [Emit(Warn, warning.value, [])] else []) + [Emit(sink, content, extra)]
  }

  /** log: formats and emits only when enabled. */
  method Log(api: LoggerApi, store: LevelStore, h: Host, format: string, args: seq<Value>) returns (calls: seq<ConsoleCall>)
    ensures calls == LogCalls(api, Resolve(store.State(), store.matches, Some(api.name)), h, format, args)
  {
    calls := [];
    var enabled := IsEnabled(api, store);
    if enabled {
      var content, leftArgs := FormatText(h, api.name, format, args);
      var (sink, warning) := MapLogLevel(api.level);
      if warning.Some? {
        calls := calls + [Emit(Warn, warning.value, [])];
      }
      calls := calls + [Emit(sink, content, leftArgs)];
    }
  }

  /** The counter object count returns: one that does nothing, or one bound
      to the label computed when it was made. */
  datatype CountHandle = Inert | Live(text: Option<string>)

  /** tick on a counter object. */
  function Tick(handle: CountHandle): (calls: seq<ConsoleCall>)
    ensures handle.Inert? <==> calls == []
    ensures handle.Live? ==> calls == [CountCall(handle.text)]
  {
    match handle
    case Inert => []
    case Live(t) => [CountCall(t)]
  }

  /** reset on a counter object. */
  function Reset(handle: CountHandle): (calls: seq<ConsoleCall>)
    ensures handle.Inert? <==> calls == []
    ensures handle.Live? ==> calls == [CountResetCall(handle.text)]
  {
    match handle
    case Inert => []
    case Live(t) => [CountResetCall(t)]
  }

  /** The counter label: a given label formatted without arguments, which
      only collapses its `%%` and adds the name prefix. */
  function CountLabel(h: Host, name: string, caption: Option<string>): (r: Option<string>)
    ensures r.None? <==> caption.None?
    ensures caption.Some? ==> r == Some("[" + name + "] " + Collapse(caption.value))
  {
    match caption
    case None => None
    case Some(l) =>
      EmptyArgsOnlyCollapse(h, l);
      Some(Rendered(h, name, l, []).0)
  }

  /** count: when disabled, no call and an inert counter; otherwise one
      console.count now, and tick and reset on the same label later. */
  method Count(api: LoggerApi, store: LevelStore, h: Host, caption: Option<string>) returns (calls: seq<ConsoleCall>, handle: CountHandle)
    ensures !EnabledIn(api, store.State(), store.matches) ==> calls == [] && handle == Inert
    ensures EnabledIn(api, store.State(), store.matches) ==>
              handle == Live(CountLabel(h, api.name, caption)) && calls == Tick(handle)
              && Reset(handle) == [CountResetCall(CountLabel(h, api.name, caption))]
  {
    var enabled := IsEnabled(api, store);
    if !enabled {
      return [], Inert;
    }
    var text: Option<string> := None;
    if caption.Some? {
      var content, _ := FormatText(h, api.name, caption.value, []);
      text := Some(content);
    }
    calls := [CountCall(text)];
    handle := Live(text);
  }
}
