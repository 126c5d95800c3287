/** RtsFlags.java: the runtime's command-line handling.  `setup` splits the
    program arguments into program arguments and RTS options around the
    `+RTS` / `-RTS` / `--RTS` / `--` markers, after taking options from the
    linked-in option string and the ETA_RTS environment variable; then
    `procRtsOpts` decodes the options into the static flag fields.

    The static fields become the fields of the class `RtsFlags`.  What the
    code gets from outside (the environment variable, the processor count,
    the float parser behind `-C`) is passed in.  `stgExit`, `badOption`,
    `errorUsage` and an exception nobody catches all end the run: they are
    the `Exit` a phase stops with. */
module RtsFlags {
  import opened Wrappers

  const IntMin: int := -0x8000_0000
  const IntMax: int := 0x7fff_ffff

  // ---------------------------------------------------------------------
  // getIntOrZero

  predicate IsDigit(c: char)
  {
    '0' <= c <= '9'
  }

  predicate AllDigits(s: string)
  {
    forall i :: 0 <= i < |s| ==> IsDigit(s[i])
  }

  /** The value of a string of decimal digits. */
  function DigitsValue(ds: string): nat
    requires AllDigits(ds)
  {
    if ds == [] then 0
    else DigitsValue(ds[..|ds| - 1]) * 10 + (ds[|ds| - 1] as int - '0' as int)
  }

  /** `Integer.parseInt`: an optional sign and at least one decimal digit,
      whose value fits in 32 bits; anything else is a NumberFormatException
      (None). */
  function ParseInt(s: string): (r: Option<int>)
    ensures r.Some? ==> IntMin <= r.value <= IntMax
    ensures r.Some? ==> exists i :: 0 <= i < |s| && IsDigit(s[i])
  {
    var signed := |s| > 0 && (s[0] == '-' || s[0] == '+');
    var digits := if signed then s[1..] else s;
    if digits == [] || !AllDigits(digits) then None
    else
      assert IsDigit(s[|s| - 1]);
      var v: int := if s[0] == '-' then 0 - DigitsValue(digits) else DigitsValue(digits);
      if IntMin <= v <= IntMax then Some(v) else None
  }

  /** `getIntOrZero`: the parsed int, or 0 when the string is not one. */
  function GetIntOrZero(s: string): (n: int)
    ensures IntMin <= n <= IntMax
    ensures ParseInt(s).None? ==> n == 0
    ensures ParseInt(s).Some? ==> n == ParseInt(s).value
  {
    match ParseInt(s)
    case Some(v) => v
    case None => 0
  }

  function DigitChar(d: nat): char
    requires d < 10
  {
    ('0' as int + d) as char
  }

  /** Decimal digits of a natural number, most significant first. */
  function NatToString(n: nat): (s: string)
    ensures s != [] && AllDigits(s)
    ensures DigitsValue(s) == n
    decreases n
  {
    if n < 10 then [DigitChar(n)]
    else
      var front := NatToString(n / 10);
      var s := front + [DigitChar(n % 10)];
      assert s[..|s| - 1] == front;
      s
  }

  /** `Integer.toString`: decimal, with a leading '-' when negative. */
  function IntToString(n: int): string
  {
    if n < 0 then "-" + NatToString(-n) else NatToString(n)
  }

  /** getIntOrZero reads back every int it is given in decimal. */
  lemma GetIntOrZeroInvertsToString(n: int)
    requires IntMin <= n <= IntMax
    ensures ParseInt(IntToString(n)) == Some(n)
    ensures GetIntOrZero(IntToString(n)) == n
  {
    var s := IntToString(n);
    if n < 0 {
      assert s[1..] == NatToString(-n);
    } else {
      assert s[0] != '-' && s[0] != '+';
    }
  }

  /** A string with no digit at all, or with a character other than a
      digit after the optional sign, reads as 0. */
  lemma GetIntOrZeroRejects(s: string, i: nat)
    requires 0 < i < |s| && !IsDigit(s[i])
    ensures GetIntOrZero(s) == 0
  {
    var signed := |s| > 0 && (s[0] == '-' || s[0] == '+');
    var digits := if signed then s[1..] else s;
    if signed {
      assert digits[i - 1] == s[i];
    }
  }

  // ---------------------------------------------------------------------
  // splitRtsFlags: s.trim().split("\\s+")

  /** A character of the regular expression class `\s`: space, tab, newline,
      vertical tab, form feed, carriage return. */
  predicate IsSpace(c: char)
  {
    c == ' ' || 9 <= c as int <= 13
  }

  /** What `String.trim` removes: any character up to and including space. */
  predicate IsTrimmed(c: char)
  {
    c as int <= 32
  }

  predicate IsWord(w: string)
  {
    w != [] && forall i :: 0 <= i < |w| ==> !IsSpace(w[i])
  }

  function TrimStart(s: string): (r: string)
    ensures r == [] || !IsTrimmed(r[0])
    ensures |r| <= |s| && r == s[|s| - |r|..]
  {
    if s == [] || !IsTrimmed(s[0]) then s else TrimStart(s[1..])
  }

  /** `TrimStart` removes only characters up to space. */
  lemma {:induction false} TrimStartDropsTrimmed(s: string, k: nat)
    requires k < |s| - |TrimStart(s)|
    ensures IsTrimmed(s[k])
  {
    if k > 0 {
      TrimStartDropsTrimmed(s[1..], k - 1);
    }
  }

  function TrimEnd(s: string): (r: string)
    ensures r == [] || !IsTrimmed(r[|r| - 1])
    ensures |r| <= |s| && r == s[..|r|]
  {
    if s == [] || !IsTrimmed(s[|s| - 1]) then s else TrimEnd(s[..|s| - 1])
  }

  /** `TrimEnd` removes only characters up to space. */
  lemma {:induction false} TrimEndDropsTrimmed(s: string, k: nat)
    requires |TrimEnd(s)| <= k < |s|
    ensures IsTrimmed(s[k])
  {
    if k < |s| - 1 {
      TrimEndDropsTrimmed(s[..|s| - 1], k);
    }
  }

  /** `String.trim`. */
  function Trim(s: string): string
  {
    TrimEnd(TrimStart(s))
  }

  /** What `trim` leaves starts and ends with a character above space. */
  lemma TrimEnds(s: string)
    ensures Trim(s) != [] ==> !IsTrimmed(Trim(s)[0]) && !IsTrimmed(Trim(s)[|Trim(s)| - 1])
  {
    var t := TrimStart(s);
    var r := TrimEnd(t);
    if r != [] {
      assert r == t[..|r|];
      assert r[0] == t[0];
    }
  }

  /** Every character `trim` drops, from the front or from the back, is one
      up to space.  (What it keeps is a stretch of `s`: `TrimStart` returns a
      suffix and `TrimEnd` a prefix.) */
  lemma TrimDropsOnlyTrimmed(s: string)
    ensures forall k :: 0 <= k < |s| - |TrimStart(s)| ==> IsTrimmed(s[k])
    ensures forall k :: |s| - |TrimStart(s)| + |Trim(s)| <= k < |s| ==> IsTrimmed(s[k])
  {
    var t := TrimStart(s);
    var a := |s| - |t|;
    forall k | 0 <= k < a
      ensures IsTrimmed(s[k])
    {
      TrimStartDropsTrimmed(s, k);
    }
    forall k | a + |Trim(s)| <= k < |s|
      ensures IsTrimmed(s[k])
    {
      TrimBackDropsTrimmed(s, t, a, k);
    }
  }

  lemma TrimBackDropsTrimmed(s: string, t: string, a: nat, k: nat)
    requires t == TrimStart(s) && a == |s| - |t|
    requires a + |Trim(s)| <= k < |s|
    ensures IsTrimmed(s[k])
  {
    assert t == s[a..];
    assert t[k - a] == s[k];
    TrimEndDropsTrimmed(t, k - a);
  }

  /** `TrimStart` drops exactly a blank prefix in front of a character above
      space. */
  lemma {:induction false} TrimStartPadded(pre: string, x: string)
    requires forall i :: 0 <= i < |pre| ==> IsTrimmed(pre[i])
    requires x != [] && !IsTrimmed(x[0])
    ensures TrimStart(pre + x) == x
  {
    if pre == [] {
      assert pre + x == x;
    } else {
      assert (pre + x)[0] == pre[0];
      assert (pre + x)[1..] == pre[1..] + x;
      TrimStartPadded(pre[1..], x);
    }
  }

  /** `TrimEnd` drops exactly a blank suffix behind a character above
      space. */
  lemma {:induction false} TrimEndPadded(x: string, post: string)
    requires forall i :: 0 <= i < |post| ==> IsTrimmed(post[i])
    requires x != [] && !IsTrimmed(x[|x| - 1])
    ensures TrimEnd(x + post) == x
  {
    if post == [] {
      assert x + post == x;
    } else {
      var n := |post| - 1;
      assert (x + post)[|x + post| - 1] == post[n];
      assert (x + post)[..|x + post| - 1] == x + post[..n];
      TrimEndPadded(x, post[..n]);
    }
  }

  /** The maximal runs of non-space characters of `s`, the first one
      continuing the word `cur` already started. */
  function Words(s: string, cur: string): (r: seq<string>)
    requires cur == [] || IsWord(cur)
    ensures forall i :: 0 <= i < |r| ==> IsWord(r[i])
    ensures cur != [] ==> r != []
  {
    if s == [] then (if cur == [] then [] else [cur])
    else if IsSpace(s[0]) then (if cur == [] then [] else [cur]) + Words(s[1..], [])
    else Words(s[1..], cur + [s[0]])
  }

  /** `s.trim().split("\\s+")`.  Trimming removes every space character at
      either end, so the split yields the words of the trimmed string, except
      that splitting the empty string yields the one-element array [""]. */
  function SplitWs(s: string): (r: seq<string>)
    ensures r != []
    ensures r == [""] <==> Trim(s) == []
    ensures Trim(s) != [] ==> forall i :: 0 <= i < |r| ==> IsWord(r[i])
  {
    var t := Trim(s);
    if t == [] then [""]
    else
      var w := Words(t, []);
      assert !IsSpace(t[|t| - 1]);
      WordsOfWordEnd(t);
      assert IsWord(w[0]);
      w
  }

  lemma {:induction false} WordsOfWordEnd(t: string)
    requires t != [] && !IsSpace(t[|t| - 1])
    ensures Words(t, []) != []
  {
    var k := |t| - 1;
    assert t[..k] + [t[k]] == t;
    WordsOfPrefixed(t[..k], [t[k]]);
  }

  lemma {:induction false} WordsOfPrefixed(pre: string, w: string)
    requires IsWord(w)
    ensures Words(pre + w, []) != []
  {
    if pre == [] {
      assert pre + w == w;
      WordsAppendWord(w, [], []);
      assert w + [] == w;
    } else {
      assert (pre + w)[1..] == pre[1..] + w;
      if IsSpace(pre[0]) {
        WordsOfPrefixed(pre[1..], w);
      }
    }
  }

  /** Reading a word continues the current word. */
  lemma {:induction false} WordsAppendWord(w: string, rest: string, cur: string)
    requires cur == [] || IsWord(cur)
    requires forall i :: 0 <= i < |w| ==> !IsSpace(w[i])
    ensures cur + w == [] || IsWord(cur + w)
    ensures Words(w + rest, cur) == Words(rest, cur + w)
  {
    if w == [] {
      assert w + rest == rest;
      assert cur + w == cur;
    } else {
      assert (w + rest)[0] == w[0];
      assert (w + rest)[1..] == w[1..] + rest;
      assert cur + [w[0]] + w[1..] == cur + w;
      WordsAppendWord(w[1..], rest, cur + [w[0]]);
    }
  }

  /** Words joined by single spaces. */
  function Join(ws: seq<string>): string
    requires ws != []
  {
    if |ws| == 1 then ws[0] else ws[0] + " " + Join(ws[1..])
  }

  /** A word free of every character `trim` would remove. */
  predicate IsToken(w: string)
  {
    w != [] && forall i :: 0 <= i < |w| ==> !IsTrimmed(w[i])
  }

  lemma {:induction false} JoinEnds(ws: seq<string>)
    requires ws != [] && forall i :: 0 <= i < |ws| ==> IsToken(ws[i])
    ensures Join(ws) != [] && !IsTrimmed(Join(ws)[0]) && !IsTrimmed(Join(ws)[|Join(ws)| - 1])
  {
    if |ws| > 1 {
      JoinEnds(ws[1..]);
      var j := Join(ws[1..]);
      assert Join(ws) == ws[0] + " " + j;
      assert Join(ws)[|Join(ws)| - 1] == j[|j| - 1];
    }
  }

  lemma {:induction false} WordsOfJoin(ws: seq<string>)
    requires ws != [] && forall i :: 0 <= i < |ws| ==> IsToken(ws[i])
    ensures Words(Join(ws), []) == ws
  {
    var w := ws[0];
    assert [] + w == w;
    if |ws| == 1 {
      WordsAppendWord(w, [], []);
      assert w + [] == w;
    } else {
      var rest := " " + Join(ws[1..]);
      assert Join(ws) == w + rest;
      WordsAppendWord(w, rest, []);
      assert rest[1..] == Join(ws[1..]);
      WordsOfJoin(ws[1..]);
    }
  }

  /** `trim` of a string padded with blanks at either end is the string
      itself, when that starts and ends above space. */
  lemma TrimPadded(pre: string, x: string, post: string)
    requires forall i :: 0 <= i < |pre| ==> IsTrimmed(pre[i])
    requires forall i :: 0 <= i < |post| ==> IsTrimmed(post[i])
    requires x != [] && !IsTrimmed(x[0]) && !IsTrimmed(x[|x| - 1])
    ensures Trim(pre + x + post) == x
  {
    assert pre + x + post == pre + (x + post);
    assert (x + post)[0] == x[0];
    TrimStartPadded(pre, x + post);
    TrimEndPadded(x, post);
  }

  /** splitRtsFlags gives back the words of an option string written with
      single spaces, in order, whatever blanks pad it at either end. */
  lemma SplitWsOfJoin(pre: string, ws: seq<string>, post: string)
    requires forall i :: 0 <= i < |pre| ==> IsTrimmed(pre[i])
    requires forall i :: 0 <= i < |post| ==> IsTrimmed(post[i])
    requires ws != [] && forall i :: 0 <= i < |ws| ==> IsToken(ws[i])
    ensures SplitWs(pre + Join(ws) + post) == ws
  {
    var j := Join(ws);
    JoinEnds(ws);
    TrimPadded(pre, j, post);
    WordsOfJoin(ws);
    assert SplitWs(pre + j + post) == Words(j, []);
  }

  /** An option string that is blank (or only spaces) splits into a single
      empty option. */
  lemma SplitWsBlank(s: string)
    requires forall i :: 0 <= i < |s| ==> IsTrimmed(s[i])
    ensures SplitWs(s) == [""]
  {
  }

  // ---------------------------------------------------------------------
  // setup: partitioning the command line

  /** Program arguments and RTS options collected by the scan. */
  datatype Split = Split(prog: seq<string>, rts: seq<string>)

  predicate IsTerminator(a: string)
  {
    a == "--RTS" || a == "--"
  }

  predicate IsMarker(a: string)
  {
    IsTerminator(a) || a == "+RTS" || a == "-RTS"
  }

  /** The scan loop of `setup`, starting in RTS mode `inRts`: `+RTS` and
      `-RTS` switch the mode, `--RTS` ends the scan and is dropped, `--` ends
      the scan and is kept; after the end, every argument is a program
      argument. */
  function ScanArgs(args: seq<string>, inRts: bool): Split
    decreases |args|
  {
    if args == [] then Split([], [])
    else
      var arg := args[0];
      if arg == "--RTS" then Split(args[1..], [])
      else if arg == "--" then Split(args, [])
      else if arg == "+RTS" then ScanArgs(args[1..], true)
      else if arg == "-RTS" then ScanArgs(args[1..], false)
      else
        var r := ScanArgs(args[1..], inRts);
        if inRts then Split(r.prog, [arg] + r.rts) else Split([arg] + r.prog, r.rts)
  }

  /** The RTS mode after scanning arguments that hold no terminator. */
  function ModeAfter(args: seq<string>, inRts: bool): bool
  {
    if args == [] then inRts
    else ModeAfter(args[1..], if args[0] == "+RTS" then true else if args[0] == "-RTS" then false else inRts)
  }

  predicate NoTerminator(args: seq<string>)
  {
    forall i :: 0 <= i < |args| ==> !IsTerminator(args[i])
  }

  /** Scanning is compositional up to the first terminator. */
  lemma {:induction false} ScanArgsConcat(xs: seq<string>, ys: seq<string>, inRts: bool)
    requires NoTerminator(xs)
    ensures var a := ScanArgs(xs, inRts);
            var b := ScanArgs(ys, ModeAfter(xs, inRts));
            ScanArgs(xs + ys, inRts) == Split(a.prog + b.prog, a.rts + b.rts)
  {
    if xs == [] {
      assert xs + ys == ys;
    } else {
      assert (xs + ys)[0] == xs[0];
      assert (xs + ys)[1..] == xs[1..] + ys;
      var next := if xs[0] == "+RTS" then true else if xs[0] == "-RTS" then false else inRts;
      ScanArgsConcat(xs[1..], ys, next);
    }
  }

  /** Without markers, every argument goes to the side the mode says, in
      order. */
  lemma {:induction false} ScanArgsPlain(args: seq<string>, inRts: bool)
    requires forall i :: 0 <= i < |args| ==> !IsMarker(args[i])
    ensures ScanArgs(args, inRts) == if inRts then Split([], args) else Split(args, [])
  {
    if args != [] {
      ScanArgsPlain(args[1..], inRts);
      assert args == [args[0]] + args[1..];
    }
  }

  /** `--RTS` is dropped and everything after it goes verbatim to the program
      arguments, markers included. */
  lemma ScanArgsRtsTerminator(xs: seq<string>, ys: seq<string>, inRts: bool)
    requires NoTerminator(xs)
    ensures var a := ScanArgs(xs, inRts);
            ScanArgs(xs + ["--RTS"] + ys, inRts) == Split(a.prog + ys, a.rts)
  {
    ScanArgsConcat(xs, ["--RTS"] + ys, inRts);
    assert xs + ["--RTS"] + ys == xs + (["--RTS"] + ys);
    assert (["--RTS"] + ys)[1..] == ys;
  }

  /** `--` ends the scan but is kept, as the first of the trailing program
      arguments. */
  lemma ScanArgsDoubleDash(xs: seq<string>, ys: seq<string>, inRts: bool)
    requires NoTerminator(xs)
    ensures var a := ScanArgs(xs, inRts);
            ScanArgs(xs + ["--"] + ys, inRts) == Split(a.prog + ["--"] + ys, a.rts)
  {
    var tail := ["--"] + ys;
    ScanArgsConcat(xs, tail, inRts);
    assert xs + ["--"] + ys == xs + tail;
    assert tail[0] == "--";
    assert ScanArgs(tail, ModeAfter(xs, inRts)) == Split(tail, []);
  }

  /** No marker is ever stored as an RTS option. */
  lemma {:induction false} ScanArgsRtsHasNoMarker(args: seq<string>, inRts: bool, x: string)
    requires x in ScanArgs(args, inRts).rts
    ensures !IsMarker(x)
    decreases |args|
  {
    var arg := args[0];
    if !IsMarker(arg) {
      var r := ScanArgs(args[1..], inRts);
      if x != arg {
        assert x in r.rts;
        ScanArgsRtsHasNoMarker(args[1..], inRts, x);
      }
    } else if arg == "+RTS" {
      ScanArgsRtsHasNoMarker(args[1..], true, x);
    } else if arg == "-RTS" {
      ScanArgsRtsHasNoMarker(args[1..], false, x);
    }
  }

  /** Before a terminator, no marker is stored as a program argument either:
      `+RTS` and `-RTS` only switch the mode. */
  lemma {:induction false} ScanArgsProgHasNoMarker(args: seq<string>, inRts: bool, x: string)
    requires NoTerminator(args)
    requires x in ScanArgs(args, inRts).prog
    ensures !IsMarker(x)
    decreases |args|
  {
    var arg := args[0];
    assert !IsTerminator(arg);
    assert NoTerminator(args[1..]) by {
      forall i | 0 <= i < |args[1..]|
        ensures !IsTerminator(args[1..][i])
      {
        assert args[1..][i] == args[i + 1];
      }
    }
    if !IsMarker(arg) {
      var r := ScanArgs(args[1..], inRts);
      if x != arg {
        assert x in r.prog;
        ScanArgsProgHasNoMarker(args[1..], inRts, x);
      }
    } else if arg == "+RTS" {
      ScanArgsProgHasNoMarker(args[1..], true, x);
    } else {
      ScanArgsProgHasNoMarker(args[1..], false, x);
    }
  }

  // ---------------------------------------------------------------------
  // procRtsOpts: decoding one option

  datatype RtsOptsEnabled = RtsOptsNone | RtsOptsSafeOnly | RtsOptsAll

  /** The sixteen switches of DebugFlags. */
  datatype DebugFlag =
    | Scheduler | Interpreter | Weak | GcCafs | Gc | Block | Sanity | Stable
    | Stm | Prof | Apply | Linker | Squeeze | Hpc | Sparks | PrintStack

  /** Why a run ends in failure. */
  datatype FailureReason =
    | BadOption(arg: string)
    | RtsOptsDisabled(message: string)
    | InternalError
    | WrongUsage

  /** Exceptions the parser lets escape. */
  datatype JavaException = StringIndexOutOfBounds | NumberFormat

  /** How option processing ends the run: `stgExit(EXIT_SUCCESS)`,
      `stgExit(EXIT_FAILURE)` for a reason, or an uncaught exception. */
  datatype Exit = ExitSuccess | ExitFailure(reason: FailureReason) | Uncaught(exception: JavaException)

  /** The flag fields the options set. */
  datatype FlagValues = FlagValues(
    debug: set<DebugFlag>,
    nNodes: int,
    maxLocalSparks: int,
    migrate: bool,
    ctxtSwitchTime: int)

  /** The facts about the running program that option decoding consults:
      whether it is a Haskell main, the processor count, and `-C`'s
      `(long)(1000 * Float.parseFloat(s))`, None when the float does not
      parse. */
  datatype Host = Host(isHsMain: bool, nProcs: int, ctxtSwitchMillis: string -> Option<int>)

  /** The flags a `-D` letter sets; None for a letter that is not one. The
      letter 'r' falls through into the case of 'k'. */
  function DebugLetter(c: char): (r: Option<set<DebugFlag>>)
    ensures r.Some? ==> Block !in r.value && r.value != {}
    ensures r.Some? && PrintStack in r.value <==> c == 'r' || c == 'k'
  {
    match c
    case 's' => Some({Scheduler})
    case 'i' => Some({Interpreter})
    case 'w' => Some({Weak})
    case 'G' => Some({GcCafs})
    case 'g' => Some({Gc})
    case 'S' => Some({Sanity})
    case 't' => Some({Stable})
    case 'p' => Some({Prof})
    case 'l' => Some({Linker})
    case 'a' => Some({Apply})
    case 'm' => Some({Stm})
    case 'z' => Some({Squeeze})
    case 'c' => Some({Hpc})
    case 'r' => Some({Sparks, PrintStack})
    case 'k' => Some({PrintStack})
    case _ => None
  }

  datatype DebugResult = DebugResult(debug: set<DebugFlag>, exit: Option<Exit>)

  /** The letters of a `-D` option, in order; the first letter that is not
      one ends the run with `badOption(arg)`, keeping the flags set before
      it. */
  function DebugLetters(debug: set<DebugFlag>, letters: string, arg: string): (r: DebugResult)
    ensures debug <= r.debug
    ensures Block in r.debug <==> Block in debug
    ensures r.exit.Some? ==> r.exit == Some(ExitFailure(BadOption(arg)))
    decreases |letters|
  {
    if letters == [] then DebugResult(debug, None)
    else match DebugLetter(letters[0])
      case None => DebugResult(debug, Some(ExitFailure(BadOption(arg))))
      case Some(fs) => DebugLetters(debug + fs, letters[1..], arg)
  }

  /** `-D` fails exactly on an unknown letter; otherwise it sets exactly the
      flags of its letters. */
  lemma {:induction false} DebugLettersSets(debug: set<DebugFlag>, letters: string, arg: string, f: DebugFlag)
    ensures DebugLetters(debug, letters, arg).exit.None? <==>
              forall i :: 0 <= i < |letters| ==> DebugLetter(letters[i]).Some?
    ensures DebugLetters(debug, letters, arg).exit.None? ==>
              (f in DebugLetters(debug, letters, arg).debug <==>
                f in debug || exists i :: 0 <= i < |letters| && DebugLetter(letters[i]).Some? && f in DebugLetter(letters[i]).value)
    decreases |letters|
  {
    if letters != [] {
      match DebugLetter(letters[0])
      case None =>
      case Some(fs) =>
        DebugLettersSets(debug + fs, letters[1..], arg, f);
        var r := DebugLetters(debug, letters, arg);
        if r.exit.None? && f in r.debug && f !in debug && f !in fs {
          var i :| 0 <= i < |letters[1..]| && DebugLetter(letters[1..][i]).Some? && f in DebugLetter(letters[1..][i]).value;
          assert letters[1..][i] == letters[i + 1];
        }
        forall i | 0 < i < |letters| ensures letters[i] == letters[1..][i - 1] {
        }
    }
  }

  /** The advice appended when an option is not allowed. */
  function Advice(isHsMain: bool): string
  {
    if isHsMain then "Link with -rtsopts to enable them."
    else "Use Rts.initWithRtsOpts() to enable them."
  }

  function LargeNMessage(isHsMain: bool): string
  {
    "Using large values for -N is not allowed by default. " + Advice(isHsMain)
  }

  /** One option: either processing goes on with new flags, possibly having
      flagged an error (reported later as wrong usage), or the run ends. */
  datatype ArgStep = Continue(flags: FlagValues, error: bool) | Stop(flags: FlagValues, exit: Exit)

  /** The body of the option loop of `procRtsOpts` for one option. */
  function ProcArg(flags: FlagValues, arg: string, enabled: RtsOptsEnabled, host: Host): (r: ArgStep)
    ensures (r.Stop? && r.exit == ExitSuccess) <==> arg == "--info"
    ensures Block in r.flags.debug <==> Block in flags.debug
    ensures |arg| < 2 ==> r.flags == flags
  {
    if |arg| == 0 then Stop(flags, Uncaught(StringIndexOutOfBounds))
    else if arg[0] != '-' then Continue(flags, true)
    else if |arg| == 1 then Stop(flags, Uncaught(StringIndexOutOfBounds))
    else match arg[1]
      case '?' => Continue(flags, true)
      case '-' =>
        if arg[2..] == "info" then
          assert arg == "--info";
          Stop(flags, ExitSuccess)
        else Continue(flags, true)
      case 'D' =>
        var d := DebugLetters(flags.debug, arg[2..], arg);
        var next := flags.(debug := d.debug);
        if d.exit.Some? then Stop(next, d.exit.value) else Continue(next, false)
      case 'C' =>
        if |arg| == 2 then Continue(flags.(ctxtSwitchTime := 0), false)
        else
          var t := host.ctxtSwitchMillis(arg[2..]);
          if t.None? then Stop(flags, Uncaught(NumberFormat))
          else Continue(flags.(ctxtSwitchTime := t.value), false)
      case 'N' =>
        if |arg| == 2 then Continue(flags.(nNodes := 1), false)
        else
          var n := GetIntOrZero(arg[2..]);
          if enabled == RtsOptsSafeOnly && n > host.nProcs then
            Stop(flags, ExitFailure(RtsOptsDisabled(LargeNMessage(host.isHsMain))))
          else Continue(flags.(nNodes := n), n <= 0)
      case 'e' =>
        if |arg| > 2 then
          var m := GetIntOrZero(arg[2..]);
          Continue(flags.(maxLocalSparks := m), m <= 0)
        else Continue(flags, false)
      case 'q' =>
        if |arg| == 2 then Stop(flags, Uncaught(StringIndexOutOfBounds))
        else
          var next := if arg[2] == 'm' then flags.(migrate := false) else flags;
          Stop(next, ExitFailure(InternalError))
      case _ => Continue(flags, true)
  }

  /** `-q` never marks itself checked: it always ends the run, with the
      internal-error exit once it has a third character, after `-qm` has
      cleared `migrate`. */
  lemma QAlwaysExits(flags: FlagValues, arg: string, enabled: RtsOptsEnabled, host: Host)
    requires |arg| >= 2 && arg[0] == '-' && arg[1] == 'q'
    ensures ProcArg(flags, arg, enabled, host).Stop?
    ensures |arg| == 2 ==> ProcArg(flags, arg, enabled, host) == Stop(flags, Uncaught(StringIndexOutOfBounds))
    ensures |arg| > 2 ==> ProcArg(flags, arg, enabled, host).exit == ExitFailure(InternalError)
    ensures |arg| > 2 ==> ProcArg(flags, arg, enabled, host).flags.migrate == (flags.migrate && arg[2] != 'm')
  {
  }

  /** `-Dr` sets both `sparks` and, by falling through, `printStack`. */
  lemma DebugRFallsThrough(flags: FlagValues, enabled: RtsOptsEnabled, host: Host)
    ensures ProcArg(flags, "-Dr", enabled, host) ==
              Continue(flags.(debug := flags.debug + {Sparks, PrintStack}), false)
  {
    assert "-Dr"[2..] == "r";
    assert "r"[1..] == "";
    assert DebugLetter('r') == Some({Sparks, PrintStack});
    assert DebugLetters(flags.debug, "r", "-Dr") == DebugResult(flags.debug + {Sparks, PrintStack}, None);
  }

  /** Bare `-N` asks for one node; a value that does not parse or is not
      positive is flagged as an error, and still stored. */
  lemma NodesOption(flags: FlagValues, arg: string, enabled: RtsOptsEnabled, host: Host)
    requires |arg| >= 2 && arg[0] == '-' && arg[1] == 'N'
    requires host.nProcs >= 0
    ensures |arg| == 2 ==> ProcArg(flags, arg, enabled, host) == Continue(flags.(nNodes := 1), false)
    ensures |arg| > 2 && GetIntOrZero(arg[2..]) <= 0 ==>
              ProcArg(flags, arg, enabled, host) == Continue(flags.(nNodes := GetIntOrZero(arg[2..])), true)
    ensures |arg| > 2 && enabled != RtsOptsSafeOnly ==>
              ProcArg(flags, arg, enabled, host).Continue? &&
              ProcArg(flags, arg, enabled, host).flags.nNodes == GetIntOrZero(arg[2..])
  {
  }

  /** Whether an option is accepted (neither an error nor an exit) does not
      depend on the flags set so far. */
  predicate Accepted(arg: string, enabled: RtsOptsEnabled, host: Host)
  {
    var s := ProcArg(FlagValues({}, 0, 0, false, 0), arg, enabled, host);
    s.Continue? && !s.error
  }

  lemma AcceptedAnyFlags(flags: FlagValues, arg: string, enabled: RtsOptsEnabled, host: Host)
    ensures Accepted(arg, enabled, host) <==>
              ProcArg(flags, arg, enabled, host).Continue? && !ProcArg(flags, arg, enabled, host).error
  {
    if |arg| > 2 && arg[0] == '-' && arg[1] == 'D' {
      DebugLettersSets(flags.debug, arg[2..], arg, Block);
      DebugLettersSets({}, arg[2..], arg, Block);
    }
  }

  /** Where the options of one phase leave the flags, and the exit that
      ended the run if one did. */
  datatype Outcome = Outcome(flags: FlagValues, exit: Option<Exit>)

  /** The rest of the option loop from a state with `error` flagged or not:
      the first exit ends it; after the last option, a flagged error ends
      the run with `errorUsage`. */
  function ProcFrom(flags: FlagValues, args: seq<string>, error: bool, enabled: RtsOptsEnabled, host: Host): (r: Outcome)
    ensures error ==> r.exit.Some?
    ensures Block in r.flags.debug <==> Block in flags.debug
    decreases |args|
  {
    if args == [] then Outcome(flags, if error then Some(ExitFailure(WrongUsage)) else None)
    else match ProcArg(flags, args[0], enabled, host)
      case Stop(f, e) => Outcome(f, Some(e))
      case Continue(f, err) => ProcFrom(f, args[1..], error || err, enabled, host)
  }

  /** `procRtsOpts(isHsMain, rtsArgc)`: the options from position `rtsArgc`
      on, none at all when there are none past it. */
  function ProcRtsOptsSpec(flags: FlagValues, rtsArgs: seq<string>, rtsArgc: nat, enabled: RtsOptsEnabled, host: Host): (r: Outcome)
    ensures rtsArgc >= |rtsArgs| ==> r == Outcome(flags, None)
    ensures Block in r.flags.debug <==> Block in flags.debug
  {
    if rtsArgc >= |rtsArgs| then Outcome(flags, None)
    else ProcFrom(flags, rtsArgs[rtsArgc..], false, enabled, host)
  }

  /** Option processing returns normally exactly when every option is
      accepted. */
  lemma {:induction false} ProcFromReturnsNormally(flags: FlagValues, args: seq<string>, enabled: RtsOptsEnabled, host: Host)
    ensures ProcFrom(flags, args, false, enabled, host).exit.None? <==>
              forall i :: 0 <= i < |args| ==> Accepted(args[i], enabled, host)
    decreases |args|
  {
    if args != [] {
      AcceptedAnyFlags(flags, args[0], enabled, host);
      match ProcArg(flags, args[0], enabled, host)
      case Stop(_, _) =>
      case Continue(f, err) =>
        if !err {
          ProcFromReturnsNormally(f, args[1..], enabled, host);
          forall i | 0 < i < |args| ensures args[i] == args[1..][i - 1] {
          }
        }
    }
  }

  // ---------------------------------------------------------------------
  // setup, as a function

  /** The static state `setup` works on. */
  datatype Config = Config(progArgs: seq<string>, rtsArgs: seq<string>, flags: FlagValues)

  datatype Phase = Phase(config: Config, rtsArgc: nat, exit: Option<Exit>)

  /** The tokens of an optional option string. */
  function OptionWords(opts: Option<string>): seq<string>
  {
    match opts
    case None => []
    case Some(s) => SplitWs(s)
  }

  /** One source of options (the linked-in string, the environment
      variable): split it onto the options and process from `rtsArgc`. */
  function OptionsPhase(c: Config, rtsArgc: nat, opts: Option<string>, enabled: RtsOptsEnabled, host: Host): (p: Phase)
    ensures opts.None? ==> p == Phase(c, rtsArgc, None)
    ensures p.config.rtsArgs == c.rtsArgs + OptionWords(opts)
    ensures p.config.progArgs == c.progArgs
    ensures p.exit.None? && opts.Some? ==> p.rtsArgc == |p.config.rtsArgs|
    ensures Block in p.config.flags.debug <==> Block in c.flags.debug
  {
    match opts
    case None => Phase(c, rtsArgc, None)
    case Some(s) =>
      var rts := c.rtsArgs + SplitWs(s);
      var o := ProcRtsOptsSpec(c.flags, rts, rtsArgc, enabled, host);
      Phase(c.(rtsArgs := rts, flags := o.flags), |rts|, o.exit)
  }

  datatype SetupResult = SetupResult(config: Config, exit: Option<Exit>)

  /** `setup(args, rtsOptsEnabled, rtsOpts, isHsMain)` with the environment
      variable `env`: the linked-in options (always fully enabled), the
      environment options, then the command line. */
  function SetupSpec(c: Config, args: seq<string>, enabled: RtsOptsEnabled, rtsOpts: Option<string>, env: Option<string>, host: Host): (r: SetupResult)
    ensures Block in r.config.flags.debug <==> Block in c.flags.debug
    ensures r.exit.None? ==> r.config.progArgs == ScanArgs(args, false).prog
  {
    var p1 := OptionsPhase(c.(progArgs := []), 0, rtsOpts, RtsOptsAll, host);
    if p1.exit.Some? then SetupResult(p1.config, p1.exit)
    else
      var p2 := OptionsPhase(p1.config, p1.rtsArgc, env, enabled, host);
      if p2.exit.Some? then SetupResult(p2.config, p2.exit)
      else
        var sp := ScanArgs(args, false);
        var rts := p2.config.rtsArgs + sp.rts;
        var o := ProcRtsOptsSpec(p2.config.flags, rts, p2.rtsArgc, enabled, host);
        SetupResult(Config(sp.prog, rts, o.flags), o.exit)
  }

  /** A run of setup that returns normally leaves the scanned program
      arguments, and the options of every source appended in order to the
      options already there. */
  lemma SetupArguments(c: Config, args: seq<string>, enabled: RtsOptsEnabled, rtsOpts: Option<string>, env: Option<string>, host: Host)
    ensures var r := SetupSpec(c, args, enabled, rtsOpts, env, host);
            r.exit.None? ==>
              r.config.progArgs == ScanArgs(args, false).prog &&
              r.config.rtsArgs == c.rtsArgs + OptionWords(rtsOpts) + OptionWords(env) + ScanArgs(args, false).rts
  {
    var p1 := OptionsPhase(c.(progArgs := []), 0, rtsOpts, RtsOptsAll, host);
    if p1.exit.None? {
      var p2 := OptionsPhase(p1.config, p1.rtsArgc, env, enabled, host);
      assert p2.config.rtsArgs == c.rtsArgs + OptionWords(rtsOpts) + OptionWords(env);
      if p2.exit.None? {
        var sp := ScanArgs(args, false);
        var rts := p2.config.rtsArgs + sp.rts;
        var o := ProcRtsOptsSpec(p2.config.flags, rts, p2.rtsArgc, enabled, host);
        assert SetupSpec(c, args, enabled, rtsOpts, env, host) == SetupResult(Config(sp.prog, rts, o.flags), o.exit);
      }
    }
  }

  /** A blank option string splits into one empty option, whose first
      character `procRtsOpts` then reads: the run ends with an uncaught
      StringIndexOutOfBoundsException. */
  lemma BlankOptionsCrash(c: Config, rtsArgc: nat, s: string, enabled: RtsOptsEnabled, host: Host)
    requires forall i :: 0 <= i < |s| ==> IsTrimmed(s[i])
    requires rtsArgc == |c.rtsArgs|
    ensures OptionsPhase(c, rtsArgc, Some(s), enabled, host).exit == Some(Uncaught(StringIndexOutOfBounds))
  {
    SplitWsBlank(s);
    assert (c.rtsArgs + [""])[rtsArgc..] == [""];
  }

  /** One step of the scan, at position `i`. */
  lemma ScanArgsAt(args: seq<string>, i: nat, inRts: bool)
    requires i < |args|
    ensures var arg := args[i];
            ScanArgs(args[i..], inRts) ==
              if arg == "--RTS" then Split(args[i + 1..], [])
              else if arg == "--" then Split(args[i..], [])
              else if arg == "+RTS" then ScanArgs(args[i + 1..], true)
              else if arg == "-RTS" then ScanArgs(args[i + 1..], false)
              else if inRts then Split(ScanArgs(args[i + 1..], inRts).prog, [arg] + ScanArgs(args[i + 1..], inRts).rts)
              else Split([arg] + ScanArgs(args[i + 1..], inRts).prog, ScanArgs(args[i + 1..], inRts).rts)
  {
    assert args[i..][0] == args[i];
    assert args[i..][1..] == args[i + 1..];
  }

  // ---------------------------------------------------------------------
  // The static state

  class RtsFlags {
    var progArgs: seq<string>
    var rtsArgs: seq<string>
    var flags: FlagValues

    /** The static initial state: empty lists, every debug flag off,
        `maxLocalSparks` 4096 and the other fields at Java's defaults. */
    constructor ()
      ensures progArgs == [] && rtsArgs == []
      ensures flags == FlagValues({}, 0, 4096, false, 0)
    {
      progArgs := [];
      rtsArgs := [];
      flags := FlagValues({}, 0, 4096, false, 0);
    }

    function State(): Config
      reads this
    {
      Config(progArgs, rtsArgs, flags)
    }

    /** `initDefaults`: one node, 4096 sparks, migration on, every debug
        flag off except `block`, which the method does not reset. */
    method InitDefaults()
      modifies this`flags
      ensures flags.debug == old(flags.debug) * {Block}
      ensures flags.nNodes == 1 && flags.maxLocalSparks == 4096 && flags.migrate
      ensures flags.ctxtSwitchTime == old(flags.ctxtSwitchTime)
    {
      flags := flags.(nNodes := 1, maxLocalSparks := 4096, migrate := true,
                      debug := flags.debug * {Block});
    }

    /** `appendRtsArg`. */
    method AppendRtsArg(arg: string)
      modifies this`rtsArgs
      ensures rtsArgs == old(rtsArgs) + [arg]
    {
      rtsArgs := rtsArgs + [arg];
    }

    /** `splitRtsFlags`: append the words of the option string, in order. */
    method SplitRtsFlags(s: string)
      modifies this`rtsArgs
      ensures rtsArgs == old(rtsArgs) + SplitWs(s)
    {
      var words := SplitWs(s);
      for k := 0 to |words|
        invariant rtsArgs == old(rtsArgs) + words[..k]
      {
        assert words[..k + 1] == words[..k] + [words[k]];
        AppendRtsArg(words[k]);
      }
      assert words[..|words|] == words;
    }

    /** The letter loop of `-D`. */
    method ProcDebug(letters: string, arg: string) returns (exit: Option<Exit>)
      modifies this`flags
      ensures DebugResult(flags.debug, exit) == DebugLetters(old(flags.debug), letters, arg)
      ensures flags == old(flags).(debug := flags.debug)
    {
      var i := 0;
      while i < |letters|
        invariant 0 <= i <= |letters|
        invariant DebugLetters(flags.debug, letters[i..], arg) == DebugLetters(old(flags.debug), letters, arg)
        invariant flags == old(flags).(debug := flags.debug)
      {
        assert letters[i..][1..] == letters[i + 1..];
        match DebugLetter(letters[i])
        case None =>
          return Some(ExitFailure(BadOption(arg)));
        case Some(fs) =>
          flags := flags.(debug := flags.debug + fs);
        i := i + 1;
      }
      return None;
    }

    /** One option of the loop of `procRtsOpts`. */
    method ProcOneArg(arg: string, enabled: RtsOptsEnabled, host: Host) returns (step: ArgStep)
      modifies this`flags
      ensures step == ProcArg(old(flags), arg, enabled, host)
      ensures flags == step.flags
    {
      if |arg| == 0 {
        return Stop(flags, Uncaught(StringIndexOutOfBounds));
      }
      if arg[0] != '-' {
        return Continue(flags, true);
      }
      if |arg| == 1 {
        return Stop(flags, Uncaught(StringIndexOutOfBounds));
      }
      var error := false;
      match arg[1] {
      case '?' =>
        error := true;
      case '-' =>
        if arg[2..] == "info" {
          return Stop(flags, ExitSuccess);
        }
        error := true;
      case 'D' =>
        var exit := ProcDebug(arg[2..], arg);
        if exit.Some? {
          return Stop(flags, exit.value);
        }
      case 'C' =>
        if |arg| == 2 {
          flags := flags.(ctxtSwitchTime := 0);
        } else {
          var t := host.ctxtSwitchMillis(arg[2..]);
          if t.None? {
            return Stop(flags, Uncaught(NumberFormat));
          }
          flags := flags.(ctxtSwitchTime := t.value);
        }
      case 'N' =>
        if |arg| == 2 {
          flags := flags.(nNodes := 1);
        } else {
          var n := GetIntOrZero(arg[2..]);
          if n <= 0 {
            error := true;
          }
          if enabled == RtsOptsSafeOnly && n > host.nProcs {
            return Stop(flags, ExitFailure(RtsOptsDisabled(LargeNMessage(host.isHsMain))));
          }
          flags := flags.(nNodes := n);
        }
      case 'e' =>
        if |arg| > 2 {
          var m := GetIntOrZero(arg[2..]);
          if m <= 0 {
            error := true;
          }
          flags := flags.(maxLocalSparks := m);
        }
      case 'q' =>
        if |arg| == 2 {
          return Stop(flags, Uncaught(StringIndexOutOfBounds));
        }
        if arg[2] == 'm' {
          flags := flags.(migrate := false);
        }
        return Stop(flags, ExitFailure(InternalError));
      case _ =>
        error := true;
      }
      return Continue(flags, error);
    }

    /** `procRtsOpts(isHsMain, rtsArgc)`, with the enabled level passed in. */
    method ProcRtsOpts(rtsArgc: nat, enabled: RtsOptsEnabled, host: Host) returns (exit: Option<Exit>)
      modifies this`flags
      ensures Outcome(flags, exit) == ProcRtsOptsSpec(old(flags), rtsArgs, rtsArgc, enabled, host)
    {
      if rtsArgc >= |rtsArgs| {
        return None;
      }
      var error := false;
      var i := rtsArgc;
      while i < |rtsArgs|
        invariant rtsArgc <= i <= |rtsArgs|
        invariant ProcFrom(flags, rtsArgs[i..], error, enabled, host) ==
                  ProcFrom(old(flags), rtsArgs[rtsArgc..], false, enabled, host)
      {
        assert rtsArgs[i..][1..] == rtsArgs[i + 1..];
        var step := ProcOneArg(rtsArgs[i], enabled, host);
        if step.Stop? {
          return Some(step.exit);
        }
        error := error || step.error;
        i := i + 1;
      }
      if error {
        return Some(ExitFailure(WrongUsage));
      }
      return None;
    }

    /** Options from one source: `splitRtsFlags` followed by `procRtsOpts`,
        moving `rtsArgc` past them when processing returns. */
    method ProcessSource(rtsArgc: nat, opts: Option<string>, enabled: RtsOptsEnabled, host: Host)
      returns (newArgc: nat, exit: Option<Exit>)
      modifies this`rtsArgs, this`flags
      ensures Phase(State(), newArgc, exit) == OptionsPhase(old(State()), rtsArgc, opts, enabled, host)
    {
      newArgc := rtsArgc;
      exit := None;
      if opts.Some? {
        SplitRtsFlags(opts.value);
        exit := ProcRtsOpts(rtsArgc, enabled, host);
        newArgc := |rtsArgs|;
      }
    }

    /** The first scanning loop of `setup`: up to the first terminator,
        sort the arguments by the RTS mode.  It stops at `--` and just
        after `--RTS`, returning where the rest begins. */
    method ScanUntilTerminator(args: seq<string>) returns (i: nat)
      modifies this`progArgs, this`rtsArgs
      ensures i <= |args|
      ensures old(progArgs) + ScanArgs(args, false).prog == progArgs + args[i..]
      ensures old(rtsArgs) + ScanArgs(args, false).rts == rtsArgs
    {
      ghost var prog := old(progArgs) + ScanArgs(args, false).prog;
      ghost var rtsAll := old(rtsArgs) + ScanArgs(args, false).rts;
      i := 0;
      var rts := false;
      while i < |args|
        invariant 0 <= i <= |args|
        invariant prog == progArgs + ScanArgs(args[i..], rts).prog
        invariant rtsAll == rtsArgs + ScanArgs(args[i..], rts).rts
      {
        var arg := args[i];
        ScanArgsAt(args, i, rts);
        if arg == "--RTS" {
          i := i + 1;
          break;
        } else if arg == "--" {
          break;
        } else if arg == "+RTS" {
          rts := true;
        } else if arg == "-RTS" {
          rts := false;
        } else if rts {
          assert (rtsArgs + [arg]) + ScanArgs(args[i + 1..], rts).rts == rtsArgs + ([arg] + ScanArgs(args[i + 1..], rts).rts);
          AppendRtsArg(arg);
        } else {
          assert (progArgs + [arg]) + ScanArgs(args[i + 1..], rts).prog == progArgs + ([arg] + ScanArgs(args[i + 1..], rts).prog);
          progArgs := progArgs + [arg];
        }
        i := i + 1;
      }
      assert rtsArgs + [] == rtsArgs;
    }

    /** The second scanning loop of `setup`: everything from `from` on is a
        program argument. */
    method AppendProgArgs(args: seq<string>, from: nat)
      requires from <= |args|
      modifies this`progArgs
      ensures progArgs == old(progArgs) + args[from..]
    {
      var i := from;
      while i < |args|
        invariant from <= i <= |args|
        invariant progArgs + args[i..] == old(progArgs) + args[from..]
      {
        assert args[i..] == [args[i]] + args[i + 1..];
        assert (progArgs + [args[i]]) + args[i + 1..] == progArgs + ([args[i]] + args[i + 1..]);
        progArgs := progArgs + [args[i]];
        i := i + 1;
      }
      assert progArgs + [] == progArgs;
    }

    /** The two scanning loops of `setup` over the command line. */
    method ScanCommandLine(args: seq<string>)
      modifies this`progArgs, this`rtsArgs
      ensures progArgs == old(progArgs) + ScanArgs(args, false).prog
      ensures rtsArgs == old(rtsArgs) + ScanArgs(args, false).rts
    {
      var i := ScanUntilTerminator(args);
      AppendProgArgs(args, i);
    }

    /** `setup(args, rtsOptsEnabled, rtsOpts, isHsMain)`, with the value of
        ETA_RTS passed in as `env`. */
    method Setup(args: seq<string>, enabled: RtsOptsEnabled, rtsOpts: Option<string>, env: Option<string>, host: Host)
      returns (exit: Option<Exit>)
      modifies this
      ensures SetupResult(State(), exit) == SetupSpec(old(State()), args, enabled, rtsOpts, env, host)
    {
      progArgs := [];
      var rtsArgc := 0;
      rtsArgc, exit := ProcessSource(rtsArgc, rtsOpts, RtsOptsAll, host);
      if exit.Some? {
        return;
      }
      rtsArgc, exit := ProcessSource(rtsArgc, env, enabled, host);
      if exit.Some? {
        return;
      }
      ScanCommandLine(args);
      exit := ProcRtsOpts(rtsArgc, enabled, host);
    }
  }
}
