/** The printf-style message formatter `msgFormat` and the file-name step of
    `getSourceFileName` (src/utils.ts). */
module Format {
  import opened Wrappers
  import Levels

  /** Integers a JS number holds exactly (|n| <= 2^53 - 1). */
  type SafeInt = n: int | -Levels.MaxSafeInteger <= n <= Levels.MaxSafeInteger

  /** A JS value as the formatter sees it: `undefined`, a string, a safe
      integer, or any other value (object, array, boolean, null, float, ...)
      known only by an identity. */
  datatype Value = Undefined | Str(s: string) | Num(n: SafeInt) | Ref(id: nat)

  /** The host's conversions, left uninterpreted: what `'' + v`,
      `String(Number(v))`, `JSON.stringify(v)` and `Array.isArray(v)` give for
      an opaque value, what `String(Number(s))` gives for a string and what
      `JSON.stringify(s)` gives for a string. */
  datatype Host = Host(
    refString: nat -> string,
    refNumber: nat -> string,
    refJson: nat -> Option<string>,
    refIsArray: nat -> bool,
    parseNumber: string -> string,
    quoteJson: string -> string)

  /** Decimal digits of a natural number. */
  function Digits(n: nat): (r: string)
    ensures |r| > 0
    ensures forall i :: 0 <= i < |r| ==> '0' <= r[i] <= '9'
  {
    if n < 10 then [(n + '0' as int) as char]
    else Digits(n / 10) + [(n % 10 + '0' as int) as char]
  }

  /** String(n) for an integer n (exact while |n| < 10^21, so for every
      safe integer). */
  function Decimal(n: int): string
  {
    if n < 0 then "-" + Digits(-n) else Digits(n)
  }

  /** The number a string of decimal digits denotes, most significant
      digit first. */
  function DigitsValue(s: string): int
  {
    if s == [] then 0 else DigitsValue(s[..|s| - 1]) * 10 + (s[|s| - 1] as int - '0' as int)
  }

  /** Reading the digits back gives the number, so they are in the right
      order; and there is no leading zero. */
  lemma {:induction false} DigitsRoundTrip(n: nat)
    ensures DigitsValue(Digits(n)) == n
    ensures Digits(n)[0] != '0' || n == 0
  {
    if n >= 10 {
      DigitsRoundTrip(n / 10);
      var d := Digits(n / 10) + [(n % 10 + '0' as int) as char];
      assert d[..|d| - 1] == Digits(n / 10);
    }
  }

  /** A sign, then the digits of the magnitude. */
  lemma DecimalRoundTrip(n: int)
    ensures n >= 0 ==> DigitsValue(Decimal(n)) == n && Decimal(n)[0] != '-'
    ensures n < 0 ==> Decimal(n)[0] == '-' && DigitsValue(Decimal(n)[1..]) == -n
  {
    DigitsRoundTrip(if n < 0 then -n else n);
    if n < 0 {
      assert Decimal(n)[1..] == Digits(-n);
    }
  }

  /** Numbers of several digits, with the most significant digit first. */
  lemma DecimalExamples()
    ensures Decimal(1000) == "1000"
    ensures Decimal(-123) == "-123"
  {
    assert Digits(1) == "1";
    assert Digits(10) == "10";
    assert Digits(100) == "100";
    assert Digits(12) == "12";
  }

  /** `'' + v`, which is also `String(v)`. */
  function ToStr(h: Host, v: Value): string
  {
    match v
    case Undefined => "undefined"
    case Str(s) => s
    case Num(n) => Decimal(n)
    case Ref(id) => h.refString(id)
  }

  /** `String(Number(v))`. */
  function NumStr(h: Host, v: Value): string
  {
    match v
    case Undefined => "NaN"
    case Str(s) => h.parseNumber(s)
    case Num(n) => Decimal(n)
    case Ref(id) => h.refNumber(id)
  }

  /** `JSON.stringify(v)`: a string, or `undefined` for values JSON cannot
      represent. */
  function Json(h: Host, v: Value): Value
  {
    match v
    case Undefined => Undefined
    case Str(s) => Str(h.quoteJson(s))
    case Num(n) => Str(Decimal(n))
    case Ref(id) => match h.refJson(id) case Some(t) => Str(t) case None => Undefined
  }

  /** `Array.isArray(v)`. */
  predicate IsArray(h: Host, v: Value)
  {
    v.Ref? && h.refIsArray(v.id)
  }

  /** The four placeholder flags of `%o`, `%j`, `%d`, `%s`. */
  datatype Flag = O | J | D | S

  function FlagOf(c: char): (r: Option<Flag>)
    ensures r.Some? <==> c in "ojds"
    ensures r.Some? ==> FlagChar(r.value) == c
  {
    if c == 'o' then Some(O) else if c == 'j' then Some(J)
    else if c == 'd' then Some(D) else if c == 's' then Some(S) else None
  }

  function FlagChar(f: Flag): char
  {
    match f case O => 'o' case J => 'j' case D => 'd' case S => 's'
  }

  /** The conversion switch of the replace callback: `o` serialises an array
      and otherwise falls through to `s`. The result is what is emitted when
      the match is unescaped and what is pushed back when it is escaped. */
  function Convert(h: Host, f: Flag, v: Value): (r: Value)
    ensures r.Str? || r.Undefined?
    ensures f == S || f == D ==> r.Str?
  {
    match f
    case O => if IsArray(h, v) then Json(h, v) else Str(ToStr(h, v))
    case S => Str(ToStr(h, v))
    case D => Str(NumStr(h, v))
    case J => Json(h, v)
  }

  /** The `o` case falls through to `s` exactly when the value is not an
      array, and acts as `j` when it is. */
  lemma ObjectFlagFallsThrough(h: Host, v: Value)
    ensures IsArray(h, v) ==> Convert(h, O, v) == Convert(h, J, v)
    ensures !IsArray(h, v) ==> Convert(h, O, v) == Convert(h, S, v)
  {
  }

  /** A format string cut into the matches of /(%?)(%([ojds]))/g and the
      characters between them. */
  datatype Piece = Text(c: char) | Placeholder(flag: Flag) | Escaped(flag: Flag)

  /** The text a piece stands for. */
  function PieceText(p: Piece): string
  {
    match p
    case Text(c) => [c]
    case Placeholder(f) => ['%', FlagChar(f)]
    case Escaped(f) => ['%', '%', FlagChar(f)]
  }

  function Render(ps: seq<Piece>): string
  {
    if ps == [] then [] else PieceText(ps[0]) + Render(ps[1..])
  }

  /** One step of the global regex scan at the start of `s`: the match is
      tried first with the optional `%` taken (greedy), then without it;
      where neither matches, one character is copied. Gives the piece and how
      many characters it spans. */
  function Next(s: string): (r: (Piece, nat))
    requires s != []
    ensures 1 <= r.1 <= |s| && s[..r.1] == PieceText(r.0)
  {
    if |s| >= 3 && s[0] == '%' && s[1] == '%' && FlagOf(s[2]).Some? then
      (Escaped(FlagOf(s[2]).value), 3)
    else if |s| >= 2 && s[0] == '%' && FlagOf(s[1]).Some? then
      (Placeholder(FlagOf(s[1]).value), 2)
    else
      (Text(s[0]), 1)
  }

  /** The regex's match rule at one position: `%%X` is always taken as an
      escaped match (the optional `%` is greedy), a placeholder is found only
      where no escaped match starts, and a character is copied only where
      neither match starts. */
  lemma NextPrefersEscaped(s: string)
    requires s != []
    ensures |s| >= 3 && s[0] == '%' && s[1] == '%' && FlagOf(s[2]).Some? ==>
              Next(s).0 == Escaped(FlagOf(s[2]).value)
    ensures Next(s).0.Placeholder? ==>
              !(|s| >= 3 && s[0] == '%' && s[1] == '%' && FlagOf(s[2]).Some?)
              && s[0] == '%' && FlagOf(s[1]).Some?
    ensures Next(s).0.Text? ==>
              !(|s| >= 2 && s[0] == '%' && FlagOf(s[1]).Some?)
              && !(|s| >= 3 && s[0] == '%' && s[1] == '%' && FlagOf(s[2]).Some?)
  {
  }

  /** The whole scan: after each match scanning resumes just past it. */
  function Scan(s: string): seq<Piece>
    decreases |s|
  {
    if s == [] then [] else [Next(s).0] + Scan(s[Next(s).1..])
  }

  /** Scanning loses and invents nothing: the pieces spell the input. */
  lemma {:induction false} RenderScan(s: string)
    ensures Render(Scan(s)) == s
    decreases |s|
  {
    if s != [] {
      var (p, n) := Next(s);
      RenderScan(s[n..]);
      assert s == s[..n] + s[n..];
    }
  }

  /** Array.prototype.shift: the front value, or `undefined` from an empty
      queue, and the queue left behind. */
  function Shift(queue: seq<Value>): (r: (Value, seq<Value>))
    ensures queue == [] ==> r == (Undefined, [])
    ensures queue != [] ==> [r.0] + r.1 == queue
  {
    if queue == [] then (Undefined, []) else (queue[0], queue[1..])
  }

  /** The replace callback for one piece, with the argument queue: an
      unescaped placeholder shifts an argument and emits its conversion; an
      escaped one shifts an argument, unshifts its conversion and emits its
      own match text; other characters are copied. Gives the emitted text and
      the queue after the call. */
  function Callback(h: Host, p: Piece, queue: seq<Value>): (string, seq<Value>)
  {
    var (arg, after) := Shift(queue);
    match p
    case Text(c) => ([c], queue)
    case Placeholder(f) => (ToStr(h, Convert(h, f, arg)), after)
    case Escaped(f) => (PieceText(p), [Convert(h, f, arg)] + after)
  }

  /** What one match does to the queue: an unescaped placeholder takes the
      front argument (or `undefined`) and emits its conversion; an escaped
      one leaves the queue as long as it was, with the front replaced by its
      conversion, and emits its match text; plain text leaves it alone. */
  lemma CallbackQueue(h: Host, p: Piece, queue: seq<Value>)
    ensures p.Text? ==> Callback(h, p, queue) == ([p.c], queue)
    ensures p.Placeholder? && queue != [] ==>
              Callback(h, p, queue) == (ToStr(h, Convert(h, p.flag, queue[0])), queue[1..])
    ensures p.Placeholder? && queue == [] ==>
              Callback(h, p, queue) == (ToStr(h, Convert(h, p.flag, Undefined)), [])
    ensures p.Escaped? ==> Callback(h, p, queue).0 == PieceText(p)
    ensures p.Escaped? && queue != [] ==>
              var q := Callback(h, p, queue).1;
              |q| == |queue| && q[0] == Convert(h, p.flag, queue[0]) && q[1..] == queue[1..]
    ensures p.Escaped? && queue == [] ==> Callback(h, p, queue).1 == [Convert(h, p.flag, Undefined)]
  {
  }

  /** The first replace pass over a list of pieces: the callback applied to
      each in turn, threading the queue. Gives the text and the final queue. */
  function Substitute(h: Host, ps: seq<Piece>, queue: seq<Value>): (string, seq<Value>)
  {
    if ps == [] then ("", queue)
    else
      var (e, q1) := Callback(h, ps[0], queue);
      var (t, q) := Substitute(h, ps[1..], q1);
      (e + t, q)
  }

  /** The second pass, `replace(/%{2}/g, '%')`: every non-overlapping `%%`,
      left to right, becomes `%`. */
  function Collapse(s: string): string
  {
    if |s| >= 2 && s[0] == '%' && s[1] == '%' then "%" + Collapse(s[2..])
    else if s == [] then []
    else [s[0]] + Collapse(s[1..])
  }

  /** msgFormat as a value: substitution only when the argument list is
      non-empty on entry, then the `%%` collapse. */
  function Formatted(h: Host, fmt: string, args: seq<Value>): (string, seq<Value>)
  {
    var (t, q) := if |args| > 0 then Substitute(h, Scan(fmt), args) else (fmt, args);
    (Collapse(t), q)
  }

  /** Concatenation regrouped, stated once so that the proofs below need
      not rediscover it among their other sequence facts. */
  lemma Associative(a: string, b: string, c: string)
    ensures a + (b + c) == (a + b) + c
  {
  }

  /** The loop invariant of the first pass survives one match: the text
      `e` and queue `q1` the callback gives for the piece at `i` continue the
      substitution of the rest from `j`, just past the match. */
  lemma SubstituteAdvance(h: Host, fmt: string, args: seq<Value>, i: nat, j: nat,
                          out: string, out': string, queue: seq<Value>, q1: seq<Value>, e: string)
    requires i < |fmt| && j == i + Next(fmt[i..]).1
    requires Substitute(h, Scan(fmt), args).0 == out + Substitute(h, Scan(fmt[i..]), queue).0
    requires Substitute(h, Scan(fmt), args).1 == Substitute(h, Scan(fmt[i..]), queue).1
    requires (e, q1) == Callback(h, Next(fmt[i..]).0, queue) && out' == out + e
    ensures j <= |fmt|
    ensures Substitute(h, Scan(fmt), args).0 == out' + Substitute(h, Scan(fmt[j..]), q1).0
    ensures Substitute(h, Scan(fmt), args).1 == Substitute(h, Scan(fmt[j..]), q1).1
  {
    var s := fmt[i..];
    var n := Next(s).1;
    assert Scan(s) == [Next(s).0] + Scan(s[n..]);
    assert s[n..] == fmt[j..];
    SubstituteCons(h, Next(s).0, Scan(fmt[j..]), queue);
    Associative(out, e, Substitute(h, Scan(fmt[j..]), q1).0);
  }

  /** The replace callback on a match of `piece` whose text is `matched`:
      shifts one argument from `queue`, converts it by the flag, and either
      returns the conversion or unshifts it and returns the match text. */
  method ReplaceCallback(h: Host, piece: Piece, matched: string, queue: seq<Value>) returns (emitted: string, next: seq<Value>)
    requires matched == PieceText(piece)
    ensures (emitted, next) == Callback(h, piece, queue)
  {
    if piece.Text? {
      return matched, queue;
    }
    next := queue;
    var arg: Value := Undefined;
    if next != [] {
      arg, next := next[0], next[1..];
    }
    arg := Convert(h, piece.flag, arg);
    if piece.Placeholder? {
      emitted := ToStr(h, arg);
    } else {
      next := [arg] + next;
      emitted := matched;
    }
  }

  /** The first pass, `fmt.replace(re, callback)`, over a non-empty queue:
      the scan moves left to right and the callback shifts from and unshifts
      onto `queue`. */
  method ReplacePlaceholders(h: Host, fmt: string, args: seq<Value>) returns (out: string, queue: seq<Value>)
    ensures out == Substitute(h, Scan(fmt), args).0
    ensures queue == Substitute(h, Scan(fmt), args).1
  {
    out, queue := "", args;
    var i := 0;
    assert fmt[0..] == fmt;
    while i < |fmt|
      invariant 0 <= i <= |fmt|
      invariant Substitute(h, Scan(fmt), args).0 == out + Substitute(h, Scan(fmt[i..]), queue).0
      invariant Substitute(h, Scan(fmt), args).1 == Substitute(h, Scan(fmt[i..]), queue).1
      decreases |fmt| - i
    {
      var piece, len := Next(fmt[i..]).0, Next(fmt[i..]).1;
      assert fmt[i..i + len] == fmt[i..][..len];
      var emitted, next := ReplaceCallback(h, piece, fmt[i..i + len], queue);
      var out', j := out + emitted, i + len;
      SubstituteAdvance(h, fmt, args, i, j, out, out', queue, next, emitted);
      out, queue, i := out', next, j;
    }
    assert fmt[i..] == [];
  }

  /** msgFormat: `args` is a queue drained by shift and refilled by unshift
      from inside the replace callback; `fmt` is rewritten twice. */
  method MsgFormat(h: Host, fmt: string, args: seq<Value>) returns (msg: string, rest: seq<Value>)
    ensures msg == Formatted(h, fmt, args).0 && rest == Formatted(h, fmt, args).1
  {
    var text := fmt;
    rest := args;
    if |rest| > 0 {
      text, rest := ReplacePlaceholders(h, fmt, args);
    }
    text := Collapse(text);
    msg := "" + text;
    assert msg == text;
  }

  /** The number of unescaped placeholders among the pieces. */
  function Placeholders(ps: seq<Piece>): nat
  {
    if ps == [] then 0 else (if ps[0].Placeholder? then 1 else 0) + Placeholders(ps[1..])
  }

  /** Each unescaped placeholder takes one argument from the front and an
      escaped one takes none on net, so past the front the queue left over is
      the original arguments in their order; once the arguments run out at
      most the one value an escaped match pushes back can remain. */
  lemma {:induction false} SubstituteTail(h: Host, ps: seq<Piece>, queue: seq<Value>)
    ensures var rest := Substitute(h, ps, queue).1;
            |queue| > Placeholders(ps) ==>
              |rest| == |queue| - Placeholders(ps) && rest[1..] == queue[Placeholders(ps) + 1..]
    ensures |queue| <= Placeholders(ps) ==> |Substitute(h, ps, queue).1| <= 1
  {
    if ps != [] {
      var q1 := Callback(h, ps[0], queue).1;
      SubstituteTail(h, ps[1..], q1);
      if ps[0].Escaped? && queue != [] {
        assert q1[1..] == queue[1..];
      }
    }
  }

  /** Without escaped matches the leftover queue is exactly a suffix of the
      arguments: all but the first one per placeholder. */
  lemma {:induction false} SubstituteTailNoEscapes(h: Host, ps: seq<Piece>, queue: seq<Value>)
    requires forall i :: 0 <= i < |ps| ==> !ps[i].Escaped?
    ensures Placeholders(ps) <= |queue| ==> Substitute(h, ps, queue).1 == queue[Placeholders(ps)..]
    ensures Placeholders(ps) > |queue| ==> Substitute(h, ps, queue).1 == []
  {
    if ps != [] {
      var q1 := Callback(h, ps[0], queue).1;
      SubstituteTailNoEscapes(h, ps[1..], q1);
      if ps[0].Placeholder? && queue != [] && Placeholders(ps) <= |queue| {
        assert queue[1..][Placeholders(ps[1..])..] == queue[Placeholders(ps)..];
      }
    }
  }

  /** With no unescaped placeholder the first pass reproduces the text. */
  lemma {:induction false} SubstituteKeepsText(h: Host, ps: seq<Piece>, queue: seq<Value>)
    requires Placeholders(ps) == 0
    ensures Substitute(h, ps, queue).0 == Render(ps)
  {
    if ps != [] {
      SubstituteKeepsText(h, ps[1..], Callback(h, ps[0], queue).1);
    }
  }

  /** An empty argument list skips substitution: only `%%` collapses and the
      returned tail is empty. */
  lemma EmptyArgsOnlyCollapse(h: Host, fmt: string)
    ensures Formatted(h, fmt, []) == (Collapse(fmt), [])
  {
  }

  /** The tail msgFormat returns: past its front it is the arguments left
      after one per unescaped placeholder, in their original order. */
  lemma FormattedTail(h: Host, fmt: string, args: seq<Value>)
    ensures var n := Placeholders(Scan(fmt)); var rest := Formatted(h, fmt, args).1;
            (|args| > n ==> |rest| == |args| - n && rest[1..] == args[n + 1..])
            && (0 < |args| <= n ==> |rest| <= 1)
            && (args == [] ==> rest == [])
  {
    SubstituteTail(h, Scan(fmt), args);
  }

  /** With no escaped match, the returned tail is exactly the arguments no
      placeholder consumed. */
  lemma FormattedTailNoEscapes(h: Host, fmt: string, args: seq<Value>)
    requires forall i :: 0 <= i < |Scan(fmt)| ==> !Scan(fmt)[i].Escaped?
    ensures var n := Placeholders(Scan(fmt));
            Formatted(h, fmt, args).1 == if n <= |args| then args[n..] else []
  {
    SubstituteTailNoEscapes(h, Scan(fmt), args);
  }

  /** Escaped matches and plain characters are emitted unchanged by the first
      pass, so a format without unescaped placeholders only has its `%%`
      collapsed, whatever the arguments. */
  lemma FormattedWithoutPlaceholders(h: Host, fmt: string, args: seq<Value>)
    requires Placeholders(Scan(fmt)) == 0
    ensures Formatted(h, fmt, args).0 == Collapse(fmt)
  {
    SubstituteKeepsText(h, Scan(fmt), args);
    RenderScan(fmt);
  }

  /** `%` doubled, the inverse of the collapse pass. */
  function EscapePercents(t: string): string
  {
    if t == [] then [] else (if t[0] == '%' then "%%" else [t[0]]) + EscapePercents(t[1..])
  }

  /** The collapse pass undoes doubling every `%`. */
  lemma {:induction false} CollapseEscapePercents(t: string)
    ensures Collapse(EscapePercents(t)) == t
  {
    if t != [] {
      CollapseEscapePercents(t[1..]);
      var e := EscapePercents(t);
      if t[0] == '%' {
        assert e[2..] == EscapePercents(t[1..]);
      } else {
        assert e[1..] == EscapePercents(t[1..]);
      }
    }
  }

  /** A string with no `%%` in it is left as it is by the collapse pass. */
  lemma {:induction false} CollapseWithoutPairs(s: string)
    requires forall i :: 0 <= i < |s| - 1 ==> !(s[i] == '%' && s[i + 1] == '%')
    ensures Collapse(s) == s
  {
    if s != [] {
      CollapseWithoutPairs(s[1..]);
    }
  }

  /** A string without `%` is left as it is by the collapse pass. */
  lemma {:induction false} CollapseNoPercent(s: string)
    requires '%' !in s
    ensures Collapse(s) == s
  {
    if s != [] {
      assert s[0] in s && s == [s[0]] + s[1..];
      CollapseNoPercent(s[1..]);
    }
  }

  /** A leading `%%` collapses to one `%`. */
  lemma CollapsePair(t: string)
    ensures Collapse("%%" + t) == "%" + Collapse(t)
  {
    assert ("%%" + t)[2..] == t;
  }

  /** A leading character other than `%` is kept. */
  lemma CollapseKeep(c: char, t: string)
    requires c != '%'
    ensures Collapse([c] + t) == [c] + Collapse(t)
  {
    assert ([c] + t)[1..] == t;
  }

  /** Pairs are taken left to right without overlap. */
  lemma CollapseExamples()
    ensures Collapse("%%%") == "%%"
    ensures Collapse("%%%%") == "%%"
    ensures Collapse("100%%s") == "100%s"
  {
  }

  /** Formatted from its three stages, for a non-empty argument list. */
  lemma FormattedFrom(h: Host, fmt: string, args: seq<Value>, ps: seq<Piece>, t: string, q: seq<Value>, out: string)
    requires args != [] && Scan(fmt) == ps && Substitute(h, ps, args) == (t, q) && Collapse(t) == out
    ensures Formatted(h, fmt, args) == (out, q)
  {
  }

  /** Substitution of a list with a known first piece. */
  lemma SubstituteCons(h: Host, p: Piece, ps: seq<Piece>, queue: seq<Value>)
    ensures Substitute(h, [p] + ps, queue)
         == (Callback(h, p, queue).0 + Substitute(h, ps, Callback(h, p, queue).1).0,
             Substitute(h, ps, Callback(h, p, queue).1).1)
  {
    assert ([p] + ps)[1..] == ps;
  }

  /** Substitution of one piece. */
  lemma Substitute1(h: Host, p: Piece, queue: seq<Value>)
    ensures Substitute(h, [p], queue) == Callback(h, p, queue)
  {
    assert [p] == [p] + [];
    SubstituteCons(h, p, [], queue);
    assert Callback(h, p, queue).0 + "" == Callback(h, p, queue).0;
  }

  /** Substitution of three pieces. */
  lemma Substitute3(h: Host, p0: Piece, p1: Piece, p2: Piece, queue: seq<Value>)
    ensures var (e0, q0) := Callback(h, p0, queue);
            var (e1, q1) := Callback(h, p1, q0);
            var (e2, q2) := Callback(h, p2, q1);
            Substitute(h, [p0, p1, p2], queue) == (e0 + e1 + e2, q2)
  {
    var (e0, q0) := Callback(h, p0, queue);
    var (e1, q1) := Callback(h, p1, q0);
    var (e2, q2) := Callback(h, p2, q1);
    assert [p0, p1, p2] == [p0] + [p1, p2] && [p1, p2] == [p1] + [p2];
    Substitute1(h, p2, q1);
    SubstituteCons(h, p1, [p2], q0);
    assert Substitute(h, [p1, p2], q0) == (e1 + e2, q2);
    SubstituteCons(h, p0, [p1, p2], queue);
    assert Substitute(h, [p0, p1, p2], queue) == (e0 + (e1 + e2), q2);
    Associative(e0, e1, e2);
  }

  /** One escaped or unescaped match with nothing around it. */
  lemma ScanSingle(f: Flag)
    ensures Scan(['%', FlagChar(f)]) == [Placeholder(f)]
    ensures Scan(['%', '%', FlagChar(f)]) == [Escaped(f)]
  {
    var s2, s3 := ['%', FlagChar(f)], ['%', '%', FlagChar(f)];
    assert Next(s2) == (Placeholder(f), 2) && s2[2..] == [];
    assert Next(s3) == (Escaped(f), 3) && s3[3..] == [];
  }

  /** An escaped match alone collapses to its placeholder. */
  lemma CollapseSingle(f: Flag)
    ensures Collapse(['%', '%', FlagChar(f)]) == ['%', FlagChar(f)]
  {
    CollapsePair([FlagChar(f)]);
    CollapseNoPercent([FlagChar(f)]);
  }

  lemma CollapseEscapedNaN()
    ensures Collapse("%%d NaN") == "%d NaN"
  {
    var t := "d NaN";
    assert '%' !in t;
    CollapseNoPercent(t);
    CollapsePair(t);
    assert "%%d NaN" == "%%" + t;
  }

  lemma CollapseTextThenEscaped()
    ensures Collapse("a %%s") == "a %s"
  {
    CollapseKeep('a', " %%s");
    CollapseKeep(' ', "%%s");
    CollapseSingle(S);
  }

  /** `msgFormat("%%s", "a")` gives `["%s", ["a"]]`: the escaped match
      keeps its argument. */
  lemma EscapedExample(h: Host)
    ensures Formatted(h, "%%s", [Str("a")]) == ("%s", [Str("a")])
  {
    ScanSingle(S);
    Substitute1(h, Escaped(S), [Str("a")]);
    assert Shift([Str("a")]) == (Str("a"), []) && [Str("a")] + [] == [Str("a")];
    CollapseSingle(S);
    FormattedFrom(h, "%%s", [Str("a")], [Escaped(S)], "%%s", [Str("a")], "%s");
  }

  lemma ScanPlaceholderExample()
    ensures Scan("%s-%d") == [Placeholder(S), Text('-'), Placeholder(D)]
  {
    var fmt := "%s-%d";
    assert Next(fmt) == (Placeholder(S), 2) && fmt[2..] == "-%d";
    assert Next("-%d") == (Text('-'), 1) && "-%d"[1..] == "%d";
    ScanSingle(D);
  }

  lemma SubstitutePlaceholderExample(h: Host)
    ensures Substitute(h, [Placeholder(S), Text('-'), Placeholder(D)], [Str("a"), Num(3)]) == ("a-3", [])
  {
    Substitute3(h, Placeholder(S), Text('-'), Placeholder(D), [Str("a"), Num(3)]);
    assert Shift([Str("a"), Num(3)]) == (Str("a"), [Num(3)]);
    assert Shift([Num(3)]) == (Num(3), []);
    assert Decimal(3) == "3";
    assert "a" + "-" + "3" == "a-3";
  }

  /** `msgFormat("%s-%d", "a", 3)` gives `["a-3", []]`. */
  lemma PlaceholderExample(h: Host)
    ensures Formatted(h, "%s-%d", [Str("a"), Num(3)]) == ("a-3", [])
  {
    ScanPlaceholderExample();
    SubstitutePlaceholderExample(h);
    CollapseNoPercent("a-3");
    FormattedFrom(h, "%s-%d", [Str("a"), Num(3)], [Placeholder(S), Text('-'), Placeholder(D)], "a-3", [], "a-3");
  }

  /** `msgFormat("no placeholders", 1, 2)` gives
      `["no placeholders", [1, 2]]`. */
  lemma PlainExample(h: Host)
    ensures Formatted(h, "no placeholders", [Num(1), Num(2)]) == ("no placeholders", [Num(1), Num(2)])
  {
    var fmt := "no placeholders";
    assert forall i :: 0 <= i < |fmt| ==> fmt[i] != '%';
    NoPercentScansToText(fmt);
    TextHasNoPlaceholders(Scan(fmt));
    FormattedWithoutPlaceholders(h, fmt, [Num(1), Num(2)]);
    CollapseWithoutPairs(fmt);
    FormattedTailNoEscapes(h, fmt, [Num(1), Num(2)]);
  }

  lemma {:induction false} TextHasNoPlaceholders(ps: seq<Piece>)
    requires forall i :: 0 <= i < |ps| ==> ps[i].Text?
    ensures Placeholders(ps) == 0
  {
    if ps != [] {
      TextHasNoPlaceholders(ps[1..]);
    }
  }

  /** Without `%` every character is plain text. */
  lemma {:induction false} NoPercentScansToText(s: string)
    requires forall i :: 0 <= i < |s| ==> s[i] != '%'
    ensures forall i :: 0 <= i < |Scan(s)| ==> Scan(s)[i].Text?
  {
    if s != [] {
      NoPercentScansToText(s[1..]);
    }
  }

  lemma ScanTwoPlaceholders()
    ensures Scan("%s %s") == [Placeholder(S), Text(' '), Placeholder(S)]
  {
    var fmt := "%s %s";
    assert Next(fmt) == (Placeholder(S), 2) && fmt[2..] == " %s";
    assert Next(" %s") == (Text(' '), 1) && " %s"[1..] == "%s";
    ScanSingle(S);
  }

  lemma SubstituteTwoPlaceholders(h: Host)
    ensures Substitute(h, [Placeholder(S), Text(' '), Placeholder(S)], [Str("a")]) == ("a undefined", [])
  {
    Substitute3(h, Placeholder(S), Text(' '), Placeholder(S), [Str("a")]);
    assert Shift([Str("a")]) == (Str("a"), []);
    assert "a" + " " + "undefined" == "a undefined";
  }

  lemma CollapseUndefinedText()
    ensures Collapse("a undefined") == "a undefined"
  {
    var t := "a undefined";
    assert '%' !in t;
    CollapseNoPercent(t);
  }

  /** When the arguments run out, shift yields `undefined`, which renders as
      "undefined". */
  lemma MissingArgumentIsUndefined(h: Host)
    ensures Formatted(h, "%s %s", [Str("a")]) == ("a undefined", [])
  {
    ScanTwoPlaceholders();
    SubstituteTwoPlaceholders(h);
    CollapseUndefinedText();
    FormattedFrom(h, "%s %s", [Str("a")], [Placeholder(S), Text(' '), Placeholder(S)], "a undefined", [], "a undefined");
  }

  /** An escaped match pushes back the converted argument, not the argument
      itself: the front of the tail becomes its conversion. */
  lemma EscapedConvertsTailFront(h: Host)
    ensures Formatted(h, "%%d", [Num(7)]) == ("%d", [Str("7")])
  {
    ScanSingle(D);
    Substitute1(h, Escaped(D), [Num(7)]);
    assert Shift([Num(7)]) == (Num(7), []);
    assert Decimal(7) == "7";
    assert [Str("7")] + [] == [Str("7")];
    CollapseSingle(D);
    FormattedFrom(h, "%%d", [Num(7)], [Escaped(D)], "%%d", [Str("7")], "%d");
  }

  /** A placeholder after an escaped match receives the pushed-back
      conversion: `undefined` becomes "NaN" under `%%d` and is then shown by
      `%s` as "NaN". */
  lemma EscapedConvertsNextArgument(h: Host)
    ensures Formatted(h, "%%d %s", [Undefined]) == ("%d NaN", [])
  {
    ScanEscapedThenPlaceholder();
    SubstituteEscapedThenPlaceholder(h);
    CollapseEscapedNaN();
    FormattedFrom(h, "%%d %s", [Undefined], [Escaped(D), Text(' '), Placeholder(S)], "%%d NaN", [], "%d NaN");
  }

  lemma ScanEscapedThenPlaceholder()
    ensures Scan("%%d %s") == [Escaped(D), Text(' '), Placeholder(S)]
  {
    assert Next("%%d %s") == (Escaped(D), 3) && "%%d %s"[3..] == " %s";
    assert Next(" %s") == (Text(' '), 1) && " %s"[1..] == "%s";
    ScanSingle(S);
  }

  lemma SubstituteEscapedThenPlaceholder(h: Host)
    ensures Substitute(h, [Escaped(D), Text(' '), Placeholder(S)], [Undefined]) == ("%%d NaN", [])
  {
    assert Shift([Undefined]) == (Undefined, []);
    assert [Str("NaN")] + [] == [Str("NaN")];
    assert Callback(h, Escaped(D), [Undefined]) == ("%%d", [Str("NaN")]);
    assert Callback(h, Text(' '), [Str("NaN")]) == (" ", [Str("NaN")]);
    assert Shift([Str("NaN")]) == (Str("NaN"), []);
    assert Callback(h, Placeholder(S), [Str("NaN")]) == ("NaN", []);
    Substitute3(h, Escaped(D), Text(' '), Placeholder(S), [Undefined]);
    assert "%%d" + " " + "NaN" == "%%d NaN";
  }

  lemma ScanPlaceholderThenEscaped()
    ensures Scan("%s %%s") == [Placeholder(S), Text(' '), Escaped(S)]
  {
    assert Next("%s %%s") == (Placeholder(S), 2) && "%s %%s"[2..] == " %%s";
    assert Next(" %%s") == (Text(' '), 1) && " %%s"[1..] == "%%s";
    ScanSingle(S);
  }

  lemma SubstitutePlaceholderThenEscaped(h: Host)
    ensures Substitute(h, [Placeholder(S), Text(' '), Escaped(S)], [Str("a")]) == ("a %%s", [Str("undefined")])
  {
    assert Shift([Str("a")]) == (Str("a"), []);
    assert Callback(h, Placeholder(S), [Str("a")]) == ("a", []);
    assert Callback(h, Text(' '), []) == (" ", []);
    assert [Str("undefined")] + [] == [Str("undefined")];
    assert Callback(h, Escaped(S), []) == ("%%s", [Str("undefined")]);
    Substitute3(h, Placeholder(S), Text(' '), Escaped(S), [Str("a")]);
    assert "a" + " " + "%%s" == "a %%s";
  }

  /** An escaped match after the arguments ran out pushes back the
      conversion of `undefined`. */
  lemma EscapedAfterExhaustion(h: Host)
    ensures Formatted(h, "%s %%s", [Str("a")]) == ("a %s", [Str("undefined")])
  {
    ScanPlaceholderThenEscaped();
    SubstitutePlaceholderThenEscaped(h);
    CollapseTextThenEscaped();
    FormattedFrom(h, "%s %%s", [Str("a")], [Placeholder(S), Text(' '), Escaped(S)], "a %%s", [Str("undefined")], "a %s");
  }

  /** getSourceFileName's `path.split('/').pop()`: the part after the last
      '/', or the whole path when it has none. */
  function LastSegment(path: string): (r: string)
    ensures |r| <= |path| && r == path[|path| - |r|..]
    ensures forall i :: 0 <= i < |r| ==> r[i] != '/'
    ensures r == path || path[|path| - |r| - 1] == '/'
  {
    if path == [] then []
    else if path[|path| - 1] == '/' then []
    else LastSegment(path[..|path| - 1]) + [path[|path| - 1]]
  }

  /** The segment after the last '/' is the file name, whatever the
      directories before it. */
  lemma {:induction false} LastSegmentOfJoin(dir: string, file: string)
    requires forall i :: 0 <= i < |file| ==> file[i] != '/'
    ensures LastSegment(dir + "/" + file) == file
    decreases |file|
  {
    var path := dir + "/" + file;
    if file == [] {
      assert path[|path| - 1] == '/';
    } else {
      var init := file[..|file| - 1];
      assert path[..|path| - 1] == dir + "/" + init;
      LastSegmentOfJoin(dir, init);
      assert file == init + [file[|file| - 1]];
    }
  }

  /** The scan is leftmost-first and takes the optional `%` greedily: in
      "%%%s" the match is the escaped "%%s" starting at the second
      character, and the first `%` is plain text. */
  lemma LeftmostGreedyScan()
    ensures Scan("%%%s") == [Text('%'), Escaped(S)]
  {
    assert Next("%%%s") == (Text('%'), 1) && "%%%s"[1..] == "%%s";
    assert Next("%%s") == (Escaped(S), 3) && "%%s"[3..] == [];
  }
}
