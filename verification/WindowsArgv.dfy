/**
  Quoting an argument vector into one Windows command line, against the rules Microsoft documents
  for splitting one ("Parsing C command-line arguments"): the program name is read by its own,
  simpler rule, and inside quotes a doubled quote is a literal one.
 */
module WindowsArgv {
  import opened Base

  function Slashes(n: nat): string {
    if n == 0 then "" else "\\" + Slashes(n - 1)
  }

  // ---- Printing -------------------------------------------------------------------------------------

  predicate NeedsQuotes(arg: string) {
    arg == "" || exists c <- arg :: c == ' ' || c == '\t' || c == '\n' || c == '\U{000B}' || c == '\"'
  }

  /** The rest of a quoted argument after `n` backslashes whose fate the next character decides. */
  function Body(s: string, n: nat): string
    decreases s
  {
    if s == "" then Slashes(2 * n) + "\""
    else if s[0] == '\\' then Body(s[1..], n + 1)
    else if s[0] == '\"' then Slashes(2 * n + 1) + "\"" + Body(s[1..], 0)
    else Slashes(n) + [s[0]] + Body(s[1..], 0)
  }

  lemma BodyStep(s: string, n: nat)
    ensures Body(s, n)
         == if s == "" then Slashes(n * 2) + "\""
            else if s[0] == '\\' then Body(s[1..], n + 1)
            else (if s[0] == '\"' then Slashes(n * 2 + 1) + "\"" else Slashes(n) + [s[0]]) + Body(s[1..], 0)
  {
    hide Slashes;
  }

  function Quote(arg: string): string {
    if NeedsQuotes(arg) then "\"" + Body(arg, 0) else arg
  }

  function CommandLine(argv: seq<string>): string {
    if argv == [] then ""
    else if |argv| == 1 then Quote(argv[0])
    else Quote(argv[0]) + " " + CommandLine(argv[1..])
  }

  method QuoteArgument(argument: string) returns (quoted: string)
    ensures quoted == Quote(argument)
  {
    if !NeedsQuotes(argument) {
      return argument;
    }
    quoted := "\"";
    var backslashes: nat := 0;
    var i := 0;
    assert argument[0..] == argument;
    assert quoted + Body(argument, 0) == Quote(argument);
    hide Slashes, Body, Quote, NeedsQuotes;
    while i < |argument|
      invariant 0 <= i <= |argument|
      invariant quoted + Body(argument[i..], backslashes) == Quote(argument)
    {
      var character := argument[i];
      var rest := argument[i + 1..];
      assert argument[i..][1..] == rest;
      BodyStep(argument[i..], backslashes);
      if character == '\\' {
        backslashes := backslashes + 1;
      } else {
        var piece := if character == '\"' then Slashes(backslashes * 2 + 1) + "\""
            else Slashes(backslashes) + [character];
        Assoc(quoted, piece, Body(rest, 0));
        quoted := quoted + piece;
        backslashes := 0;
      }
      i := i + 1;
    }
    BodyStep(argument[i..], backslashes);
    quoted := quoted + (Slashes(backslashes * 2) + "\"");
  }

  method BuildCommandLine(argv: seq<string>) returns (result: string)
    ensures result == CommandLine(argv)
  {
    hide Quote, CommandLine, Tail;
    TailEnds(argv);
    result := "";
    var i := 0;
    while i < |argv|
      invariant 0 <= i <= |argv|
      invariant result + Tail(argv, i) == CommandLine(argv)
    {
      TailStep(argv, i);
      if i > 0 {
        result := result + " ";
      }
      var quoted := QuoteArgument(argv[i]);
      result := result + quoted;
      i := i + 1;
    }
  }

  function Tail(argv: seq<string>, i: nat): string
    requires i <= |argv|
  {
    if i == |argv| then "" else (if i > 0 then " " else "") + CommandLine(argv[i..])
  }

  lemma TailEnds(argv: seq<string>)
    ensures Tail(argv, 0) == CommandLine(argv) && Tail(argv, |argv|) == ""
  {
    assert argv[0..] == argv;
  }

  lemma TailStep(argv: seq<string>, i: nat)
    requires i < |argv|
    ensures Tail(argv, i) == (if i > 0 then " " else "") + Quote(argv[i]) + Tail(argv, i + 1)
  {
    hide Quote;
    assert argv[i..][1..] == argv[i + 1..];
  }

  // ---- Splitting, by the documented rules -------------------------------------------------------

  predicate Blank(c: char) {
    c == ' ' || c == '\t'
  }

  predicate Starts(s: string, c: char) {
    s != "" && s[0] == c
  }

  function LeadingSlashes(s: string): (n: nat)
    ensures n <= |s| && !Starts(s[n..], '\\')
  {
    if Starts(s, '\\') then 1 + LeadingSlashes(s[1..]) else 0
  }

  function Behind(out: string, r: (string, string)): (string, string) {
    (out + r.0, r.1)
  }

  /** One argument after the program name: its text and what follows it. */
  function Argument(s: string, inQuotes: bool): (string, string)
    decreases |s|
  {
    var n := LeadingSlashes(s);
    var after := s[n..];
    if Starts(after, '\"') then
      if n % 2 == 1 then Behind(Slashes(n / 2) + "\"", Argument(after[1..], inQuotes))
      else if inQuotes && Starts(after[1..], '\"') then Behind(Slashes(n / 2) + "\"", Argument(after[2..], true))
      else Behind(Slashes(n / 2), Argument(after[1..], !inQuotes))
    else if after == "" || (!inQuotes && Blank(after[0])) then (Slashes(n), after)
    else Behind(Slashes(n) + [after[0]], Argument(after[1..], inQuotes))
  }

  lemma {:induction false} ArgumentShrinks(s: string, inQuotes: bool)
    ensures |Argument(s, inQuotes).1| <= |s|
    ensures s != "" && !Blank(s[0]) ==> |Argument(s, inQuotes).1| < |s|
    decreases |s|
  {
    var n := LeadingSlashes(s);
    var after := s[n..];
    if Starts(after, '\"') {
      if n % 2 == 0 && inQuotes && Starts(after[1..], '\"') {
        ArgumentShrinks(after[2..], true);
      } else {
        ArgumentShrinks(after[1..], if n % 2 == 1 then inQuotes else !inQuotes);
      }
    } else if !(after == "" || (!inQuotes && Blank(after[0]))) {
      ArgumentShrinks(after[1..], inQuotes);
    }
  }

  function Arguments(s: string): seq<string>
    decreases |s|
  {
    if s == "" then []
    else if Blank(s[0]) then Arguments(s[1..])
    else
      ArgumentShrinks(s, false);
      var (text, rest) := Argument(s, false);
      [text] + Arguments(rest)
  }

  /** The program name: quotes only group blanks, and nothing escapes them. */
  function Program(s: string, inQuotes: bool): (string, string) {
    if s == "" || (!inQuotes && Blank(s[0])) then ("", s)
    else if s[0] == '\"' then Program(s[1..], !inQuotes)
    else Behind([s[0]], Program(s[1..], inQuotes))
  }

  function Split(line: string): (argv: seq<string>)
    ensures argv != []
  {
    var (program, rest) := Program(line, false);
    [program] + Arguments(rest)
  }

  // ---- Arguments come back -------------------------------------------------------------------------

  /** What may follow an argument on a command line. */
  predicate Boundary(rest: string) {
    rest == "" || rest[0] == ' '
  }

  lemma {:induction false} SlashesCount(n: nat, t: string)
    requires !Starts(t, '\\')
    ensures |Slashes(n)| == n && LeadingSlashes(Slashes(n) + t) == n && (Slashes(n) + t)[n..] == t
  {
    if n > 0 {
      SlashesCount(n - 1, t);
      assert (Slashes(n) + t)[1..] == Slashes(n - 1) + t;
    }
  }

  lemma {:induction false} SlashesNext(n: nat, s: string)
    ensures Slashes(n) + ("\\" + s) == Slashes(n + 1) + s
  {
    if n > 0 {
      SlashesNext(n - 1, s);
      assert Slashes(n) + ("\\" + s) == "\\" + (Slashes(n - 1) + ("\\" + s));
      assert Slashes(n + 1) + s == "\\" + (Slashes(n) + s);
    }
  }

  /** One step of the splitter, on what stands after its leading backslashes. */
  lemma ArgumentAt(n: nat, after: string, inQuotes: bool)
    requires !Starts(after, '\\')
    ensures Argument(Slashes(n) + after, inQuotes)
         == if Starts(after, '\"') then
              if n % 2 == 1 then Behind(Slashes(n / 2) + "\"", Argument(after[1..], inQuotes))
              else if inQuotes && Starts(after[1..], '\"') then
                Behind(Slashes(n / 2) + "\"", Argument(after[2..], true))
              else Behind(Slashes(n / 2), Argument(after[1..], !inQuotes))
            else if after == "" || (!inQuotes && Blank(after[0])) then (Slashes(n), after)
            else Behind(Slashes(n) + [after[0]], Argument(after[1..], inQuotes))
  {
    SlashesCount(n, after);
    hide Slashes, LeadingSlashes;
  }

  lemma NoSlashes(t: string)
    ensures Slashes(0) + t == t
  {
  }

  lemma ClosingQuote(n: nat, rest: string)
    requires Boundary(rest)
    ensures Argument(Slashes(2 * n) + ("\"" + rest), true) == (Slashes(n), rest)
  {
    hide Argument;
    ArgumentAt(2 * n, "\"" + rest, true);
    assert ("\"" + rest)[1..] == rest;
    ArgumentAt(0, rest, false);
    NoSlashes(rest);
    NoSlashes("");
    assert Slashes(0) == "" && Slashes(n) + "" == Slashes(n);
  }

  lemma EscapedQuote(n: nat, t: string)
    ensures Argument(Slashes(2 * n + 1) + ("\"" + t), true) == Behind(Slashes(n) + "\"", Argument(t, true))
  {
    hide Argument, Slashes;
    ArgumentAt(2 * n + 1, "\"" + t, true);
    assert ("\"" + t)[1..] == t && (2 * n + 1) % 2 == 1 && (2 * n + 1) / 2 == n;
  }

  lemma PlainChar(n: nat, c: char, t: string, inQuotes: bool)
    requires c != '\\' && c != '\"' && (inQuotes || !Blank(c))
    ensures Argument(Slashes(n) + ([c] + t), inQuotes) == Behind(Slashes(n) + [c], Argument(t, inQuotes))
  {
    hide Argument, Slashes;
    ArgumentAt(n, [c] + t, inQuotes);
    assert ([c] + t)[1..] == t;
  }

  lemma BodyAt(s: string, n: nat, rest: string)
    ensures Body(s, n) + rest
         == if s == "" then Slashes(2 * n) + ("\"" + rest)
            else if s[0] == '\\' then Body(s[1..], n + 1) + rest
            else if s[0] == '\"' then Slashes(2 * n + 1) + ("\"" + (Body(s[1..], 0) + rest))
            else Slashes(n) + ([s[0]] + (Body(s[1..], 0) + rest))
  {
    hide Slashes;
  }

  /** The rest of a quoted argument reads back as itself behind the backslashes held up. */
  lemma {:induction false} BodyReads(s: string, n: nat, rest: string)
    requires Boundary(rest)
    ensures Argument(Body(s, n) + rest, true) == (Slashes(n) + s, rest)
    decreases s
  {
    hide Argument, Body, Slashes;
    BodyAt(s, n, rest);
    if s == "" {
      ClosingQuote(n, rest);
      assert Slashes(n) + s == Slashes(n);
    } else {
      var t := s[1..];
      assert s == [s[0]] + t;
      if s[0] == '\\' {
        BodyReads(t, n + 1, rest);
        SlashesNext(n, t);
      } else {
        BodyReads(t, 0, rest);
        NoSlashes(t);
        if s[0] == '\"' {
          EscapedQuote(n, Body(t, 0) + rest);
          assert Slashes(n) + "\"" + t == Slashes(n) + s;
        } else {
          PlainChar(n, s[0], Body(t, 0) + rest, true);
          assert Slashes(n) + [s[0]] + t == Slashes(n) + s;
        }
      }
    }
  }

  lemma {:induction false} BareReads(s: string, n: nat, rest: string)
    requires Boundary(rest) && forall c <- s :: c != '\"' && !Blank(c)
    ensures Argument(Slashes(n) + (s + rest), false) == (Slashes(n) + s, rest)
    decreases s
  {
    hide Argument, Slashes;
    if s == "" {
      assert s + rest == rest && Slashes(n) + s == Slashes(n);
      BareEnd(n, rest);
    } else {
      var t := s[1..];
      assert s == [s[0]] + t && s + rest == [s[0]] + (t + rest);
      assert s[0] in s && forall c <- t :: c in s;
      if s[0] == '\\' {
        BareReads(t, n + 1, rest);
        SlashesNext(n, t + rest);
        SlashesNext(n, t);
      } else {
        PlainChar(n, s[0], t + rest, false);
        BareReads(t, 0, rest);
        NoSlashes(t + rest);
        NoSlashes(t);
        Assoc(Slashes(n), [s[0]], t);
      }
    }
  }

  lemma BareEnd(n: nat, rest: string)
    requires Boundary(rest)
    ensures Argument(Slashes(n) + rest, false) == (Slashes(n), rest)
  {
    hide Argument, Slashes;
    ArgumentAt(n, rest, false);
  }

  lemma QuotedReads(arg: string, rest: string)
    requires Boundary(rest)
    ensures Argument(Quote(arg) + rest, false) == (arg, rest)
    ensures Quote(arg) != "" && !Blank(Quote(arg)[0])
  {
    if NeedsQuotes(arg) {
      var inner := Body(arg, 0) + rest;
      BodyReads(arg, 0, rest);
      assert Quote(arg) + rest == "\"" + inner;
      OpeningQuote(inner);
      assert Slashes(0) + arg == arg && "" + arg == arg;
    } else {
      BareReads(arg, 0, rest);
      assert Slashes(0) + (arg + rest) == arg + rest && Slashes(0) + arg == arg;
      assert arg[0] in arg;
    }
  }

  lemma OpeningQuote(inner: string)
    ensures Argument("\"" + inner, false) == Behind("", Argument(inner, true))
  {
  }

  /** Everything after the program name comes back as it was, whatever is in it. */
  lemma {:induction false} ArgumentsRead(argv: seq<string>)
    ensures Arguments(CommandLine(argv)) == argv
  {
    hide Quote, Argument;
    if argv != [] {
      var rest := if |argv| == 1 then "" else " " + CommandLine(argv[1..]);
      QuotedReads(argv[0], rest);
      ArgumentsRead(argv[1..]);
      assert CommandLine(argv) == Quote(argv[0]) + rest;
      assert rest != "" ==> rest[1..] == CommandLine(argv[1..]);
      assert argv == [argv[0]] + argv[1..];
    }
  }

  // ---- The program name -------------------------------------------------------------------------------

  /** No blank after an odd number of quotes, and an even number of quotes in all. */
  predicate SafeFrom(s: string, odd: bool) {
    if s == "" then !odd
    else if s[0] == '\"' then SafeFrom(s[1..], !odd)
    else !(odd && Blank(s[0])) && SafeFrom(s[1..], odd)
  }

  predicate SafeProgram(name: string) {
    SafeFrom(name, false)
  }

  lemma ProgramAt(c: char, t: string, inQuotes: bool)
    ensures Program([c] + t, inQuotes)
         == if !inQuotes && Blank(c) then ("", [c] + t)
            else if c == '\"' then Program(t, !inQuotes)
            else Behind([c], Program(t, inQuotes))
  {
    assert ([c] + t)[1..] == t;
  }

  lemma {:induction false} ProgramSkipsSlashes(n: nat, t: string, inQuotes: bool)
    ensures Program(Slashes(n) + t, inQuotes).1 == Program(t, inQuotes).1
  {
    hide Program;
    if n == 0 {
      assert Slashes(n) + t == t;
    } else {
      ProgramSkipsSlashes(n - 1, t, inQuotes);
      ProgramAt('\\', Slashes(n - 1) + t, inQuotes);
      assert Slashes(n) + t == ['\\'] + (Slashes(n - 1) + t);
    }
  }

  /** In the program name every printed quote toggles, so the state runs against the quotes seen so far. */
  lemma ProgramBody(s: string, n: nat, inQuotes: bool, rest: string)
    requires s != "" && s[0] != '\\'
    ensures Program(Body(s, n) + rest, inQuotes).1
         == if !inQuotes && Blank(s[0]) then [s[0]] + (Body(s[1..], 0) + rest)
            else Program(Body(s[1..], 0) + rest, if s[0] == '\"' then !inQuotes else inQuotes).1
  {
    hide Program, Body, Slashes;
    var more := Body(s[1..], 0) + rest;
    BodyAt(s, n, rest);
    ProgramSkipsSlashes(if s[0] == '\"' then 2 * n + 1 else n, [s[0]] + more, inQuotes);
    ProgramAt(s[0], more, inQuotes);
  }

  lemma ProgramBodyEnds(n: nat, inQuotes: bool, rest: string)
    ensures Program(Body("", n) + rest, inQuotes).1 == Program(rest, !inQuotes).1
  {
    hide Program, Body, Slashes;
    BodyAt("", n, rest);
    ProgramSkipsSlashes(2 * n, "\"" + rest, inQuotes);
    ProgramAt('\"', rest, inQuotes);
  }

  lemma {:induction false} ProgramReadsSafe(s: string, n: nat, odd: bool, rest: string)
    requires SafeFrom(s, odd) && Boundary(rest)
    ensures Program(Body(s, n) + rest, !odd).1 == rest
    decreases s
  {
    if s == "" {
      ProgramBodyEnds(n, true, rest);
    } else if s[0] == '\\' {
      hide Program;
      BodyAt(s, n, rest);
      ProgramReadsSafe(s[1..], n + 1, odd, rest);
    } else {
      hide Program, Body;
      ProgramBody(s, n, !odd, rest);
      ProgramReadsSafe(s[1..], 0, if s[0] == '\"' then !odd else odd, rest);
    }
  }

  lemma {:induction false} ProgramReadsBare(s: string, rest: string)
    requires Boundary(rest) && forall c <- s :: c != '\"' && !Blank(c)
    ensures Program(s + rest, false).1 == rest
  {
    if s == "" {
      assert s + rest == rest;
    } else {
      assert (s + rest)[1..] == s[1..] + rest;
      assert s[0] in s && forall c <- s[1..] :: c in s;
      ProgramReadsBare(s[1..], rest);
    }
  }

  lemma SafeNameReads(name: string, rest: string)
    requires SafeProgram(name) && Boundary(rest)
    ensures Program(Quote(name) + rest, false).1 == rest
  {
    if NeedsQuotes(name) {
      hide Program, Body;
      ProgramReadsSafe(name, 0, false, rest);
      ProgramAt('\"', Body(name, 0) + rest, false);
      assert Quote(name) + rest == ['\"'] + (Body(name, 0) + rest);
    } else {
      ProgramReadsBare(name, rest);
    }
  }

  /** With a safe program name the whole vector after it comes back unchanged. */
  lemma SafeRoundTrip(name: string, args: seq<string>)
    requires SafeProgram(name)
    ensures Split(CommandLine([name] + args))[1..] == args
  {
    hide Argument, Arguments, Quote, Program, SafeProgram;
    var rest := if args == [] then "" else " " + CommandLine(args);
    assert ([name] + args)[1..] == args;
    assert CommandLine([name] + args) == Quote(name) + rest;
    SafeNameReads(name, rest);
    ArgumentsRead(args);
    AfterBlank(args);
  }

  lemma AfterBlank(args: seq<string>)
    ensures Arguments(if args == [] then "" else " " + CommandLine(args)) == Arguments(CommandLine(args))
  {
  }

  /** How an unsafe name reads: it breaks off at a blank inside it, or swallows the blank after it. */
  lemma {:induction false} ProgramReadsUnsafe(s: string, n: nat, odd: bool)
    requires !SafeFrom(s, odd)
    ensures var broken := Program(Body(s, n) + "", !odd).1;
      var swallowed := Program(Body(s, n) + " x", !odd).1;
      (broken != "" && broken[|broken| - 1] == '\"') || swallowed == ""
    decreases s
  {
    hide Program, Body;
    if s == "" {
      ProgramBodyEnds(n, false, " x");
      ProgramAt(' ', "x", true);
      ProgramAt('x', "", true);
      ProgramNothing();
      assert " x" == [' '] + "x" && "x" == ['x'] + "";
    } else if s[0] == '\\' {
      BodyAt(s, n, "");
      BodyAt(s, n, " x");
      ProgramReadsUnsafe(s[1..], n + 1, odd);
    } else {
      ProgramBody(s, n, !odd, "");
      ProgramBody(s, n, !odd, " x");
      if odd && Blank(s[0]) {
        BodyEnds(s[1..], 0);
      } else {
        ProgramReadsUnsafe(s[1..], 0, if s[0] == '\"' then !odd else odd);
      }
    }
  }

  lemma ProgramNothing()
    ensures Program("", true).1 == ""
  {
  }

  lemma {:induction false} BodyEnds(s: string, n: nat)
    ensures Body(s, n) != "" && Body(s, n)[|Body(s, n)| - 1] == '\"'
    decreases s
  {
    if s != "" {
      if s[0] == '\\' {
        BodyEnds(s[1..], n + 1);
      } else {
        BodyEnds(s[1..], 0);
      }
    }
  }

  lemma {:induction false} NonBlankYields(s: string)
    requires s != "" && s[|s| - 1] == '\"'
    ensures Arguments(s) != []
  {
    if Blank(s[0]) {
      NonBlankYields(s[1..]);
    }
  }

  lemma {:induction false} UnsafeIsQuoted(s: string, odd: bool)
    requires !SafeFrom(s, odd) && !odd
    ensures exists c <- s :: c == '\"'
  {
    assert s[0] in s;
    if s[0] != '\"' {
      UnsafeIsQuoted(s[1..], odd);
      assert forall c <- s[1..] :: c in s;
    }
  }

  /** An unsafe name loses or invents arguments on some vector as short as this. */
  lemma UnsafeBreaks(name: string)
    requires !SafeProgram(name)
    ensures Split(CommandLine([name]))[1..] != [] || Split(CommandLine([name, "x"]))[1..] != ["x"]
  {
    hide Argument, Arguments;
    UnsafeIsQuoted(name, false);
    ProgramReadsUnsafe(name, 0, false);
    CommandLinesOf(name);
    ProgramAt('\"', Body(name, 0) + "", false);
    ProgramAt('\"', Body(name, 0) + " x", false);
    hide Program, Body, CommandLine;
    var broken := Program(Body(name, 0) + "", true).1;
    if broken != "" && broken[|broken| - 1] == '\"' {
      NonBlankYields(broken);
    } else {
      NothingYields();
    }
  }

  lemma CommandLinesOf(name: string)
    requires exists c <- name :: c == '\"'
    ensures CommandLine([name]) == ['\"'] + (Body(name, 0) + "")
    ensures CommandLine([name, "x"]) == ['\"'] + (Body(name, 0) + " x")
  {
  }

  lemma NothingYields()
    ensures Arguments("") == []
  {
  }

  /** The arguments survive for every argument vector exactly when the program name is safe. */
  lemma RoundTripIff(name: string)
    ensures SafeProgram(name) <==> forall args :: Split(CommandLine([name] + args))[1..] == args
  {
    hide Split, CommandLine, SafeFrom;
    if SafeProgram(name) {
      forall args ensures Split(CommandLine([name] + args))[1..] == args {
        SafeRoundTrip(name, args);
      }
    } else {
      UnsafeBreaks(name);
      assert [name] + [] == [name] && [name] + ["x"] == [name, "x"];
    }
  }
}
