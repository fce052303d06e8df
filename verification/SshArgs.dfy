/** Splitting the value of --ssh-args: at whitespace that is not between escaped double quotes. */
module SshArgs {
  import opened Collections

  /** unicode.IsSpace */
  predicate IsSpace(c: char) {
    || '\t' <= c <= '\r' || c == ' ' || c == '\U{85}' || c == '\U{A0}' || c == '\U{1680}'
    || c == '\U{2028}' || c == '\U{2029}' || c == '\U{202F}' || c == '\U{205F}' || c == '\U{3000}'
    || '\U{2000}' <= c <= '\U{200A}'
  }

  /** A backslash followed by a double quote, or any other character. */
  datatype Symbol = Quote | Plain(c: char)

  function Lex(raw: string): seq<Symbol> {
    if raw == [] then []
    else if |raw| >= 2 && raw[0] == '\\' && raw[1] == '"' then [Quote] + Lex(raw[2..])
    else [Plain(raw[0])] + Lex(raw[1..])
  }

  function Close(args: seq<string>, current: string): seq<string> {
    if current == [] then args else args + [current]
  }

  /** The rest of the scan, given the arguments so far and the current one. */
  function Scan(symbols: seq<Symbol>, inside: bool, current: string, args: seq<string>): seq<string>
    decreases |symbols|
  {
    if symbols == [] then Close(args, current)
    else
      var rest := symbols[1..];
      match symbols[0]
      case Quote => Scan(rest, !inside, current + ['"'], args)
      case Plain(c) =>
        if IsSpace(c) && !inside then Scan(rest, inside, [], Close(args, current))
        else Scan(rest, inside, current + [c], args)
  }

  function Parse(raw: string): seq<string> {
    Scan(Lex(raw), false, [], [])
  }

  method ParseSSHArgs(rawArgs: string) returns (args: seq<string>)
    ensures args == Parse(rawArgs)
  {
    args := [];
    var isInsideQuotes, curArg: string, i := false, [], 0;
    while i < |rawArgs|
      invariant i <= |rawArgs|
      invariant Scan(Lex(rawArgs[i..]), isInsideQuotes, curArg, args) == Parse(rawArgs)
    {
      if rawArgs[i] == '\\' && i + 1 < |rawArgs| && rawArgs[i + 1] == '"' {
        assert rawArgs[i..][2..] == rawArgs[i + 2..];
        isInsideQuotes := !isInsideQuotes;
        i := i + 2;
        curArg := curArg + ['"'];
        continue;
      }
      assert rawArgs[i..][1..] == rawArgs[i + 1..];
      if IsSpace(rawArgs[i]) && !isInsideQuotes {
        if |curArg| > 0 {
          args := args + [curArg];
        }
        curArg := [];
      } else {
        curArg := curArg + [rawArgs[i]];
      }
      i := i + 1;
    }
    if |curArg| > 0 {
      args := args + [curArg];
    }
  }

  // ---------------------------------------------------------------------------
  // What separates arguments
  // ---------------------------------------------------------------------------

  /** The characters with the Unicode property White_Space. */
  const WHITE_SPACE: set<char> := {
    '\t', '\n', '\U{0B}', '\U{0C}', '\r', ' ', '\U{85}', '\U{A0}', '\U{1680}', '\U{2000}', '\U{2001}', '\U{2002}',
    '\U{2003}', '\U{2004}', '\U{2005}', '\U{2006}', '\U{2007}', '\U{2008}', '\U{2009}', '\U{200A}', '\U{2028}',
    '\U{2029}', '\U{202F}', '\U{205F}', '\U{3000}'}

  /** Exactly these characters separate two arguments; any other becomes a part of the argument. */
  lemma Separators(c: char)
    ensures Parse(['a', c, 'b']) == if c in WHITE_SPACE then ["a", "b"] else [['a', c, 'b']]
  {
    assert IsSpace(c) <==> c in WHITE_SPACE;
    LexBetween(c);
    var b: seq<Symbol> := [Plain('b')] + [];
    assert [] + ['a'] == ['a'] && [] + ['b'] == ['b'];
    ScanOne('a', [Plain(c)] + b, false, [], []);
    ScanOne(c, b, false, ['a'], []);
    if IsSpace(c) {
      ScanOne('b', [], false, [], ["a"]);
    } else {
      ScanOne('b', [], false, ['a', c], []);
      assert ['a'] + [c] == ['a', c] && ['a', c] + ['b'] == ['a', c, 'b'];
    }
  }

  lemma LexBetween(c: char)
    ensures Lex(['a', c, 'b']) == [Plain('a')] + ([Plain(c)] + ([Plain('b')] + []))
  {
    LexOne('b', []);
    LexOne(c, ['b']);
    LexOne('a', [c, 'b']);
    assert ['b'] + [] == ['b'] && [c] + ['b'] == [c, 'b'] && ['a'] + [c, 'b'] == ['a', c, 'b'];
  }

  lemma LexOne(c: char, rest: string)
    requires c != '\\' || rest == [] || rest[0] != '"'
    ensures Lex([c] + rest) == [Plain(c)] + Lex(rest)
  {
    assert ([c] + rest)[1..] == rest;
  }

  lemma ScanOne(c: char, rest: seq<Symbol>, inside: bool, current: string, args: seq<string>)
    ensures Scan([Plain(c)] + rest, inside, current, args) ==
      if IsSpace(c) && !inside then Scan(rest, inside, [], Close(args, current))
      else Scan(rest, inside, current + [c], args)
  {
    assert ([Plain(c)] + rest)[1..] == rest;
  }

  /** Between escaped quotes nothing separates. */
  lemma NothingSeparatesInQuotes(c: char)
    ensures Parse(['\\', '"', c, ' ', '\\', '"']) == [['"', c, ' ', '"']]
  {
    var end: string := ['\\', '"'];
    var last: seq<Symbol> := [Quote];
    assert end[2..] == [] && Lex(end) == last;
    LexOne(' ', end);
    LexOne(c, [' '] + end);
    var text, symbols := [c] + ([' '] + end), [Plain(c)] + ([Plain(' ')] + last);
    assert (end + text)[2..] == text && Lex(end + text) == [Quote] + symbols;
    assert ['\\', '"', c, ' ', '\\', '"'] == end + text;
    assert ([Quote] + symbols)[1..] == symbols && [] + ['"'] == ['"'];
    assert Scan([Quote] + symbols, false, [], []) == Scan(symbols, true, ['"'], []);
    ScanOne(c, [Plain(' ')] + last, true, ['"'], []);
    ScanOne(' ', last, true, ['"', c], []);
    assert ['"'] + [c] == ['"', c] && ['"', c] + [' '] == ['"', c, ' '];
    assert last[1..] == [] && ['"', c, ' '] + ['"'] == ['"', c, ' ', '"'];
  }

  // ---------------------------------------------------------------------------
  // Nothing is lost
  // ---------------------------------------------------------------------------

  /** The input with escapes resolved and unquoted whitespace removed. */
  function Visible(symbols: seq<Symbol>, inside: bool): string {
    if symbols == [] then []
    else match symbols[0]
      case Quote => ['"'] + Visible(symbols[1..], !inside)
      case Plain(c) => (if IsSpace(c) && !inside then [] else [c]) + Visible(symbols[1..], inside)
  }

  lemma Regroup(a: string, b: string, c: string, d: string)
    ensures a + (b + c) + d == a + b + (c + d)
  {
  }

  lemma {:induction false} ScanKeepsText(symbols: seq<Symbol>, inside: bool, current: string, args: seq<string>)
    ensures Concat(Scan(symbols, inside, current, args)) == Concat(args) + current + Visible(symbols, inside)
    decreases |symbols|
  {
    if symbols == [] {
    } else {
      var rest := symbols[1..];
      match symbols[0] {
        case Quote =>
          ScanKeepsText(rest, !inside, current + ['"'], args);
          Regroup(Concat(args), current, ['"'], Visible(rest, !inside));
        case Plain(c) =>
          if IsSpace(c) && !inside {
            ScanKeepsText(rest, inside, [], Close(args, current));
            Regroup(Concat(args), current, [], Visible(rest, inside));
          } else {
            ScanKeepsText(rest, inside, current + [c], args);
            Regroup(Concat(args), current, [c], Visible(rest, inside));
          }
      }
    }
  }

  predicate NoEmpty(args: seq<string>) {
    forall i :: 0 <= i < |args| ==> args[i] != []
  }

  lemma {:induction false} ScanHasNoEmpty(symbols: seq<Symbol>, inside: bool, current: string, args: seq<string>)
    requires NoEmpty(args)
    ensures NoEmpty(Scan(symbols, inside, current, args))
    decreases |symbols|
  {
    if symbols != [] {
      var rest := symbols[1..];
      match symbols[0] {
        case Quote =>
          ScanHasNoEmpty(rest, !inside, current + ['"'], args);
        case Plain(c) =>
          if IsSpace(c) && !inside {
            ScanHasNoEmpty(rest, inside, [], Close(args, current));
          } else {
            ScanHasNoEmpty(rest, inside, current + [c], args);
          }
      }
    }
  }

  /** For every input: no argument is empty, and together they are the input without escapes and unquoted whitespace. */
  lemma ParseLosesNothing(raw: string)
    ensures NoEmpty(Parse(raw))
    ensures Concat(Parse(raw)) == Visible(Lex(raw), false)
  {
    ScanHasNoEmpty(Lex(raw), false, [], []);
    ScanKeepsText(Lex(raw), false, [], []);
  }

  // ---------------------------------------------------------------------------
  // Printing and parsing back
  // ---------------------------------------------------------------------------

  function Escape(arg: string): string {
    if arg == [] then []
    else EscapeOne(arg[0]) + Escape(arg[1..])
  }

  /** The arguments as one would write them after --ssh-args. */
  function Print(args: seq<string>): string {
    if args == [] then []
    else if |args| == 1 then Escape(args[0])
    else Escape(args[0]) + [' '] + Print(args[1..])
  }

  function QuotesOpen(arg: string, inside: bool): bool {
    if arg == [] then inside else QuotesOpen(arg[1..], if arg[0] == '"' then !inside else inside)
  }

  /** Whitespace occurs only where quotes are open. */
  predicate SpacesQuoted(arg: string, inside: bool) {
    arg == [] ||
    ((IsSpace(arg[0]) ==> inside) && SpacesQuoted(arg[1..], if arg[0] == '"' then !inside else inside))
  }

  /** Arguments that can be written down: the quotes of all but the last one are balanced. */
  predicate Writable(args: seq<string>) {
    forall i :: 0 <= i < |args| ==>
      && args[i] != []
      && SpacesQuoted(args[i], false)
      && (i < |args| - 1 ==> !QuotesOpen(args[i], false))
  }

  function SymbolsOf(arg: string): seq<Symbol> {
    if arg == [] then [] else [SymbolOf(arg[0])] + SymbolsOf(arg[1..])
  }

  function AllSymbols(args: seq<string>): seq<Symbol> {
    if args == [] then []
    else if |args| == 1 then SymbolsOf(args[0])
    else SymbolsOf(args[0]) + [Plain(' ')] + AllSymbols(args[1..])
  }

  /** The escaped form of one character. */
  function EscapeOne(c: char): string {
    if c == '"' then ['\\', '"'] else [c]
  }

  function SymbolOf(c: char): Symbol {
    if c == '"' then Quote else Plain(c)
  }

  lemma LexEscapedOne(c: char, text: string)
    requires text == [] || text[0] != '"'
    ensures Lex(EscapeOne(c) + text) == [SymbolOf(c)] + Lex(text)
    ensures (EscapeOne(c) + text)[0] != '"'
  {
    if c == '"' {
    } else {
    }
  }

  lemma {:induction false} LexEscaped(arg: string, rest: string)
    requires rest == [] || rest[0] != '"'
    ensures Escape(arg) + rest == [] || (Escape(arg) + rest)[0] != '"'
    ensures Lex(Escape(arg) + rest) == SymbolsOf(arg) + Lex(rest)
    decreases |arg|
  {
    if arg == [] {
      assert Escape(arg) + rest == rest;
    } else {
      LexEscaped(arg[1..], rest);
      LexEscapedOne(arg[0], Escape(arg[1..]) + rest);
      Associates(EscapeOne(arg[0]), Escape(arg[1..]), rest);
      Associates([SymbolOf(arg[0])], SymbolsOf(arg[1..]), Lex(rest));
    }
  }

  lemma LexPrintedFirst(arg: string, printed: string)
    ensures Lex(Escape(arg) + [' '] + printed) == SymbolsOf(arg) + [Plain(' ')] + Lex(printed)
  {
    var rest := [' '] + printed;
    assert rest[1..] == printed;
    LexEscaped(arg, rest);
    assert Escape(arg) + [' '] + printed == Escape(arg) + rest;
  }

  lemma {:induction false} LexPrinted(args: seq<string>)
    ensures Lex(Print(args)) == AllSymbols(args)
  {
    if args != [] {
      if |args| == 1 {
        LexEscaped(args[0], []);
        assert Escape(args[0]) + [] == Escape(args[0]);
      } else {
        LexPrinted(args[1..]);
        LexPrintedFirst(args[0], Print(args[1..]));
      }
    }
  }

  lemma FirstOfArg(arg: string, rest: seq<Symbol>, inside: bool)
    requires arg != []
    ensures SymbolsOf(arg) + rest == [SymbolOf(arg[0])] + (SymbolsOf(arg[1..]) + rest)
    ensures QuotesOpen(arg, inside) == QuotesOpen(arg[1..], if arg[0] == '"' then !inside else inside)
  {
  }

  lemma {:induction false} ScanArg(arg: string, rest: seq<Symbol>, inside: bool, current: string, args: seq<string>)
    requires SpacesQuoted(arg, inside)
    ensures Scan(SymbolsOf(arg) + rest, inside, current, args) ==
      Scan(rest, QuotesOpen(arg, inside), current + arg, args)
    decreases |arg|
  {
    if arg == [] {
      assert SymbolsOf(arg) + rest == rest && current + arg == current;
    } else {
      var next := if arg[0] == '"' then !inside else inside;
      ScanArg(arg[1..], rest, next, current + [arg[0]], args);
      FirstOfArg(arg, rest, inside);
      assert current + [arg[0]] + arg[1..] == current + arg;
    }
  }

  lemma ScanFirst(a: string, rest: seq<Symbol>, before: seq<string>)
    requires a != [] && SpacesQuoted(a, false) && !QuotesOpen(a, false)
    ensures Scan(SymbolsOf(a) + ([Plain(' ')] + rest), false, [], before) == Scan(rest, false, [], before + [a])
  {
    ScanArg(a, [Plain(' ')] + rest, false, [], before);
    assert [] + a == a && IsSpace(' ');
    assert ([Plain(' ')] + rest)[1..] == rest;
  }

  lemma ScanLast(a: string, before: seq<string>)
    requires a != [] && SpacesQuoted(a, false)
    ensures Scan(SymbolsOf(a), false, [], before) == before + [a]
  {
    ScanArg(a, [], false, [], before);
    assert SymbolsOf(a) + [] == SymbolsOf(a) && [] + a == a;
  }

  lemma FirstOfSymbols(args: seq<string>)
    requires |args| > 1
    ensures AllSymbols(args) == SymbolsOf(args[0]) + ([Plain(' ')] + AllSymbols(args[1..]))
  {
  }

  lemma {:induction false} ScanArgs(args: seq<string>, before: seq<string>)
    requires Writable(args)
    ensures Scan(AllSymbols(args), false, [], before) == before + args
    decreases |args|
  {
    if |args| == 1 {
      ScanLast(args[0], before);
      assert before + [args[0]] == before + args;
    } else if |args| > 1 {
      FirstOfSymbols(args);
      ScanFirst(args[0], AllSymbols(args[1..]), before);
      ScanArgs(args[1..], before + [args[0]]);
      assert before + [args[0]] + args[1..] == before + args;
    }
  }

  // --- what comes out of printed text can be written

  lemma {:induction false} QuotingOfSum(a: string, b: string, inside: bool)
    ensures QuotesOpen(a + b, inside) == QuotesOpen(b, QuotesOpen(a, inside))
    ensures SpacesQuoted(a + b, inside) <==> SpacesQuoted(a, inside) && SpacesQuoted(b, QuotesOpen(a, inside))
    decreases |a|
  {
    if a == [] {
      assert a + b == b;
    } else {
      assert (a + b)[1..] == a[1..] + b;
      QuotingOfSum(a[1..], b, if a[0] == '"' then !inside else inside);
    }
  }

  lemma QuotingOfNext(current: string, c: char)
    ensures QuotesOpen(current + [c], false) ==
      if c == '"' then !QuotesOpen(current, false) else QuotesOpen(current, false)
    ensures SpacesQuoted(current + [c], false)
       <==> SpacesQuoted(current, false) && (IsSpace(c) ==> QuotesOpen(current, false))
  {
    QuotingOfSum(current, [c], false);
    assert [c][1..] == [];
  }

  /** Finished arguments, all balanced. */
  predicate Balanced(args: seq<string>) {
    forall i :: 0 <= i < |args| ==> args[i] != [] && SpacesQuoted(args[i], false) && !QuotesOpen(args[i], false)
  }

  lemma {:induction false} ScanIsWritable(symbols: seq<Symbol>, inside: bool, current: string, args: seq<string>)
    requires Plain('"') !in symbols
    requires Balanced(args) && SpacesQuoted(current, false) && inside == QuotesOpen(current, false)
    ensures Writable(Scan(symbols, inside, current, args))
    decreases |symbols|
  {
    if symbols != [] {
      var rest := symbols[1..];
      match symbols[0] {
        case Quote =>
          QuotingOfNext(current, '"');
          assert !IsSpace('"');
          ScanIsWritable(rest, !inside, current + ['"'], args);
        case Plain(c) =>
          if IsSpace(c) && !inside {
            ScanIsWritable(rest, inside, [], Close(args, current));
          } else {
            QuotingOfNext(current, c);
            ScanIsWritable(rest, inside, current + [c], args);
          }
      }
    }
  }

  lemma {:induction false} NoBareQuotes(arg: string)
    ensures Plain('"') !in SymbolsOf(arg)
  {
    if arg != [] {
      NoBareQuotes(arg[1..]);
    }
  }

  lemma {:induction false} NoBareQuotesIn(args: seq<string>)
    ensures Plain('"') !in AllSymbols(args)
  {
    if args != [] {
      NoBareQuotes(args[0]);
      NoBareQuotesIn(args[1..]);
    }
  }

  /**
   Written with escaped quotes and separated by spaces, arguments parse back to themselves exactly when none is
   empty, whitespace is between quotes, and all but the last have balanced quotes.
   */
  lemma RoundTripIff(args: seq<string>)
    ensures Parse(Print(args)) == args <==> Writable(args)
  {
    LexPrinted(args);
    NoBareQuotesIn(args);
    ScanIsWritable(AllSymbols(args), false, [], []);
    if Writable(args) {
      ScanArgs(args, []);
    }
  }

  /** Without bare quotes, parsing, printing and parsing again changes nothing. */
  lemma ParseIsNormal(raw: string)
    requires Plain('"') !in Lex(raw)
    ensures Parse(Print(Parse(raw))) == Parse(raw)
  {
    ScanIsWritable(Lex(raw), false, [], []);
    RoundTripIff(Parse(raw));
  }
}
