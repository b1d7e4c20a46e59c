/** createLogger (src/creator.ts): a logger bound to a name, from which
    logger APIs at a level are made. */
module Creator {
  import opened Wrappers
  import opened Levels
  import Dispatch
  import opened Api

  /** The object createLogger returns; it holds only its name. */
  datatype Logger = Logger(name: string)

  /** createLogger. */
  function CreateLogger(name: string): (l: Logger)
  {
    Logger(name)
  }

  /** getName. */
  function GetName(l: Logger): string
  {
    l.name
  }

  /** getName returns the name the logger was created with. */
  lemma GetNameOfCreate(name: string)
    ensures GetName(CreateLogger(name)) == name
  {
  }

  /** The argument of at: a key string or a level record. */
  datatype LevelArg = ByName(key: string) | ByLevel(level: Level)

  /** A string of the ASCII capitals A-Z. */
  predicate Capitals(s: string)
  {
    forall j :: 0 <= j < |s| ==> 'A' <= s[j] <= 'Z'
  }

  /** String.prototype.toUpperCase on one character, for the characters
      whose upper case is ASCII: a-z, the dotless i, the long s, the sharp s
      and the Latin ligatures. Every other character is kept. */
  function UpperChar(c: char): string
  {
    if 'a' <= c <= 'z' then [(c as int - 32) as char]
    else if c == '\U{00DF}' then "SS"
    else if c == '\U{0131}' then "I"
    else if c == '\U{017F}' then "S"
    else if c == '\U{FB00}' then "FF"
    else if c == '\U{FB01}' then "FI"
    else if c == '\U{FB02}' then "FL"
    else if c == '\U{FB03}' then "FFI"
    else if c == '\U{FB04}' then "FFL"
    else if c == '\U{FB05}' || c == '\U{FB06}' then "ST"
    else [c]
  }

  /** A small letter becomes its capital; any other character is kept or
      becomes capitals, and only a non-ASCII one can change. */
  lemma UpperCharShape(c: char)
    ensures 'a' <= c <= 'z' ==> UpperChar(c) == [(c as int - 32) as char]
    ensures UpperChar(c) == [c] || Capitals(UpperChar(c))
    ensures !('a' <= c <= 'z') && UpperChar(c) != [c] ==> c as int >= 0x80
  {
  }

  /** String.prototype.toUpperCase, character by character. */
  function ToUpperCase(s: string): (r: string)
    ensures |r| >= |s|
  {
    if s == [] then [] else UpperChar(s[0]) + ToUpperCase(s[1..])
  }

  /** Upper-casing works piecewise. */
  lemma {:induction false} ToUpperCaseAppend(a: string, b: string)
    ensures ToUpperCase(a + b) == ToUpperCase(a) + ToUpperCase(b)
  {
    if a == [] {
      assert a + b == b;
    } else {
      assert (a + b)[0] == a[0] && (a + b)[1..] == a[1..] + b;
      ToUpperCaseAppend(a[1..], b);
    }
  }

  /** Capitals are left as they are. */
  lemma {:induction false} CapitalsFixed(s: string)
    requires Capitals(s)
    ensures ToUpperCase(s) == s
  {
    if s != [] {
      CapitalsFixed(s[1..]);
    }
  }

  /** The upper case of one character is already upper case. */
  lemma UpperCharFixed(c: char)
    ensures ToUpperCase(UpperChar(c)) == UpperChar(c)
  {
    var u := UpperChar(c);
    UpperCharShape(c);
    if u == [c] {
      assert u[1..] == [];
    } else {
      CapitalsFixed(u);
    }
  }

  /** Upper-casing twice is upper-casing once. */
  lemma {:induction false} ToUpperCaseIdempotent(s: string)
    ensures ToUpperCase(ToUpperCase(s)) == ToUpperCase(s)
  {
    if s != [] {
      ToUpperCaseAppend(UpperChar(s[0]), ToUpperCase(s[1..]));
      UpperCharFixed(s[0]);
      ToUpperCaseIdempotent(s[1..]);
    }
  }

  /** The message at throws for an unknown key. */
  function UnknownKeyMessage(key: string): string
  {
    "Unknown FramJetLogger level: \"" + key + "\""
  }

  /** at: a key string is upper-cased and looked up among the properties of
      the level table, failing with an error for a miss; a level record is
      bound as it is. Either way the result carries the logger's name. */
  function At(logger: Logger, arg: LevelArg): (r: Result<LoggerApi, string>)
    ensures arg.ByName? ==> (r.Success? <==> Get(Entries, ToUpperCase(arg.key)).Some?)
    ensures arg.ByName? && r.Success? ==>
              r.value.name == logger.name && (ToUpperCase(arg.key), r.value.level) in Entries
    ensures arg.ByName? && r.Failure? ==>
              r.error == UnknownKeyMessage(arg.key)
              && forall i :: 0 <= i < |Entries| ==> Entries[i].0 != ToUpperCase(arg.key)
    ensures arg.ByLevel? ==> r == Success(LoggerApi(arg.level, logger.name))
  {
    match arg
    case ByName(key) =>
      (match Get(Entries, ToUpperCase(key))
       case None => Failure(UnknownKeyMessage(key))
       case Some(l) => Success(LoggerApi(l, logger.name)))
    case ByLevel(l) => Success(LoggerApi(l, logger.name))
  }

  /** `key` spells `name`, a word of small letters, in capitals. */
  predicate Spells(name: string, key: string)
  {
    |key| == |name|
    && forall j :: 0 <= j < |name| ==> 'a' <= name[j] <= 'z' && key[j] as int == name[j] as int - 32
  }

  /** A word of small letters upper-cases to the capitals spelling it. */
  lemma {:induction false} UpperOfSmall(s: string, u: string)
    requires Spells(s, u)
    ensures ToUpperCase(s) == u
  {
    if s != [] {
      assert Spells(s[1..], u[1..]);
      UpperOfSmall(s[1..], u[1..]);
      UpperCharShape(s[0]);
      assert u == [u[0]] + u[1..];
    }
  }

  /** The keys of OFF, SEVERE and WARNING spell their names. */
  lemma SevereKeysSpellNames()
    ensures forall i :: 0 <= i < 3 ==> Spells(Values[i].name, Entries[i].0)
  {
    assert Spells("off", "OFF") && Spells("severe", "SEVERE") && Spells("warning", "WARNING");
  }

  /** The keys of INFO, CONFIG and FINE spell their names. */
  lemma MiddleKeysSpellNames()
    ensures forall i :: 3 <= i < 6 ==> Spells(Values[i].name, Entries[i].0)
  {
    assert Spells("info", "INFO") && Spells("config", "CONFIG") && Spells("fine", "FINE");
  }

  /** The keys of FINER, FINEST and ALL spell their names. */
  lemma FineKeysSpellNames()
    ensures forall i :: 6 <= i < 9 ==> Spells(Values[i].name, Entries[i].0)
  {
    assert Spells("finer", "FINER") && Spells("finest", "FINEST") && Spells("all", "ALL");
  }

  /** The names are the lower-case forms of their keys. */
  lemma NamesAreSmallKeys(i: nat)
    requires i < |Values|
    ensures ToUpperCase(Values[i].name) == Entries[i].0
  {
    if i < 3 {
      SevereKeysSpellNames();
    } else if i < 6 {
      MiddleKeysSpellNames();
    } else {
      FineKeysSpellNames();
    }
    UpperOfSmall(Values[i].name, Entries[i].0);
  }

  /** Each level's own name selects it. */
  lemma AtOwnName(logger: Logger, i: nat)
    requires i < |Values|
    ensures At(logger, ByName(Values[i].name)) == Success(LoggerApi(Values[i], logger.name))
  {
    NamesAreSmallKeys(i);
    EntriesHoldValues();
  }

  /** Key matching ignores case: a key and its upper case select the same
      level, or both fail. */
  lemma AtIgnoresCase(logger: Logger, key: string)
    ensures At(logger, ByName(key)).Success? == At(logger, ByName(ToUpperCase(key))).Success?
    ensures At(logger, ByName(key)).Success? ==>
              At(logger, ByName(key)).value == At(logger, ByName(ToUpperCase(key))).value
  {
    ToUpperCaseIdempotent(key);
  }

  /** The upper case of "info", "Info" and "INFO". */
  lemma InfoKeys()
    ensures ToUpperCase("info") == "INFO"
    ensures ToUpperCase("Info") == "INFO"
    ensures ToUpperCase("INFO") == "INFO"
  {
    UpperOfSmall("info", "INFO");
    assert "Info" == "I" + "nfo";
    ToUpperCaseAppend("I", "nfo");
    UpperOfSmall("nfo", "NFO");
    CapitalsFixed("I");
    CapitalsFixed("INFO");
  }

  /** "info", "Info" and "INFO" all give INFO. */
  lemma InfoInAnyCase(logger: Logger)
    ensures At(logger, ByName("info")) == Success(LoggerApi(INFO, logger.name))
    ensures At(logger, ByName("Info")) == Success(LoggerApi(INFO, logger.name))
    ensures At(logger, ByName("INFO")) == Success(LoggerApi(INFO, logger.name))
  {
    InfoKeys();
    GetByKey(3);
  }

  /** Two keys with the same upper case select the same level. */
  lemma SameUpperCase(logger: Logger, a: string, b: string)
    requires ToUpperCase(a) == ToUpperCase(b)
    ensures At(logger, ByName(a)).Success? ==> At(logger, ByName(a)) == At(logger, ByName(b))
  {
  }

  /** A word of small letters whose capitals start unlike every key fails. */
  lemma SmallWordOffTableFails(logger: Logger, name: string, key: string)
    requires Spells(name, key) && |key| > 0 && key[0] !in KeyInitials
    ensures At(logger, ByName(name)) == Failure(UnknownKeyMessage(name))
  {
    UpperOfSmall(name, key);
    OtherInitialIsNoKey(key);
  }

  /** The shortcut names are not keys: "debug" and "trace" fail. */
  lemma ShortcutNamesAreNotKeys(logger: Logger)
    ensures At(logger, ByName("debug")) == Failure(UnknownKeyMessage("debug"))
    ensures At(logger, ByName("trace")) == Failure(UnknownKeyMessage("trace"))
  {
    SmallWordOffTableFails(logger, "debug", "DEBUG");
    SmallWordOffTableFails(logger, "trace", "TRACE");
  }

  /** atTrace. */
  function AtTrace(logger: Logger): (r: LoggerApi)
    ensures r == LoggerApi(ALL, logger.name)
  {
    At(logger, ByLevel(ALL)).value
  }

  /** atDebugLow. */
  function AtDebugLow(logger: Logger): (r: LoggerApi)
    ensures r == LoggerApi(FINEST, logger.name)
  {
    At(logger, ByLevel(FINEST)).value
  }

  /** atDebug. */
  function AtDebug(logger: Logger): (r: LoggerApi)
    ensures r == LoggerApi(FINE, logger.name)
  {
    At(logger, ByLevel(FINE)).value
  }

  /** atInfo. */
  function AtInfo(logger: Logger): (r: LoggerApi)
    ensures r == LoggerApi(INFO, logger.name)
  {
    At(logger, ByLevel(INFO)).value
  }

  /** atWarn. */
  function AtWarn(logger: Logger): (r: LoggerApi)
    ensures r == LoggerApi(WARNING, logger.name)
  {
    At(logger, ByLevel(WARNING)).value
  }

  /** atError. */
  function AtError(logger: Logger): (r: LoggerApi)
    ensures r == LoggerApi(SEVERE, logger.name)
  {
    At(logger, ByLevel(SEVERE)).value
  }

  /** The shortcuts go up in severity from atTrace to atError, so whatever
      is configured, a shortcut that is enabled keeps every more severe one
      enabled. */
  lemma ShortcutsAscend(logger: Logger, effective: Level)
    ensures AtTrace(logger).level.value < AtDebugLow(logger).level.value < AtDebug(logger).level.value
            < AtInfo(logger).level.value < AtWarn(logger).level.value < AtError(logger).level.value
    ensures Enabled(AtDebug(logger).level, effective) ==> Enabled(AtInfo(logger).level, effective)
  {
  }

  /** An atTrace logger that is enabled always goes through mapLogLevel's
      default branch: one warning, then console.log. */
  lemma TraceLoggerWarns(logger: Logger, effective: Level, h: Format.Host, format: string, args: seq<Format.Value>)
    requires Enabled(ALL, effective)
    ensures var calls := LogCalls(AtTrace(logger), effective, h, format, args);
            |calls| == 2 && calls[0] == Emit(Dispatch.Warn, Dispatch.UnknownLevelWarning(ALL), [])
            && calls[1].sink == Dispatch.Log
            && calls[1].content == Rendered(h, logger.name, format, args).0
  {
  }
}
