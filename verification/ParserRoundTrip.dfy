/** Arguments that are written in quotes are read back as they were, in one line or in several. */
module ParserRoundTrip {
  import opened Text
  import opened ConfigParser
  import opened LineCuts
  import opened Reader

  type Style = q: Quote | q != Unquoted witness SingleQuote

  /** An argument, and the kind of quotation it is written in. */
  datatype Argument = Argument(style: Style, text: string)

  /** What is escaped in a quotation. */
  function Special(mark: char): set<char> {
    {mark, '\\'}
  }

  function Printed(a: Argument): string {
    [Mark(a.style)] + Escaped(a.text, Special(Mark(a.style))) + [Mark(a.style)]
  }

  function PrintedLine(args: seq<Argument>): string
    decreases |args|, 0
  {
    if args == [] then "" else Printed(args[0]) + Tail(args[1..])
  }

  /** More arguments on the line, each after a space. */
  function Tail(args: seq<Argument>): string
    decreases |args|, 1
  {
    if args == [] then "" else " " + PrintedLine(args)
  }

  function Texts(args: seq<Argument>): seq<string> {
    if args == [] then [] else [args[0].text] + Texts(args[1..])
  }

  /** The quotation is text, and not a command to run. */
  predicate Textual(args: seq<Argument>, substitute: bool) {
    substitute ==> forall a :: a in args ==> a.style != ExecuteQuote
  }

  /** Between arguments, with these ones read, and with text of a command held that none of them completed. */
  function At(done: seq<string>, command: string := ""): Parser {
    FRESH.(bufferedData := done, holdingExecute := command)
  }

  // ---------------------------------------------------------------- quotations

  lemma {:induction false} QuotationCloses(text: string, mark: char, rest: string)
    requires IsQuote(mark)
    ensures Quotation(Escaped(text, Special(mark)) + [mark] + rest, mark) == (text, Some(rest))
  {
    var line := Escaped(text, Special(mark)) + [mark] + rest;
    if text == "" {
      assert line[1..] == rest;
    } else {
      QuotationCloses(text[1..], mark, rest);
      var inner := Escaped(text[1..], Special(mark)) + [mark] + rest;
      if text[0] == mark || text[0] == '\\' {
        assert line == ['\\', text[0]] + inner;
        assert line[1..][0] == text[0] && line[1..][1..] == inner;
      } else {
        assert line == [text[0]] + inner;
        assert line[1..] == inner;
      }
      assert text == [text[0]] + text[1..];
    }
  }

  // ---------------------------------------------------------------- one line

  /** A completed quotation is an argument. */
  lemma ClosingTurn(p: Parser, text: string, rest: string, substitute: bool, runs: string -> bool)
    requires p.quoted != Unquoted && (substitute ==> p.quoted != ExecuteQuote)
    requires rest == "" || IsSpace(rest[0])
    ensures Quoted(p, Escaped(text, Special(Mark(p.quoted))) + [Mark(p.quoted)] + rest, substitute, runs)
         == Go(p.(bufferedData := p.bufferedData + [p.holdingLine + text], holdingLine := "", quoted := Unquoted,
                  metaQuote := false, blank := false, nextLine := false), rest)
  {
    QuotationCloses(text, Mark(p.quoted), rest);
  }

  function Lead(space: bool): string {
    if space then " " else ""
  }

  /** The turn that reads an argument's opening mark, with or without a space before it. */
  lemma OpeningTurn(p: Parser, space: bool, style: Style, inner: string, fail: bool, substitute: bool, runs: string -> bool)
    requires p == At(p.bufferedData, p.holdingExecute)
    ensures Turn(p, Lead(space) + ([Mark(style)] + inner), fail, substitute, runs)
         == Quoted(p.(quoted := style), inner, substitute, runs)
  {
    var rest := [Mark(style)] + inner;
    var line := Lead(space) + rest;
    assert Stripped(rest) == rest;
    assert rest[1..] == inner;
    if space {
      assert line[1..] == rest;
      assert Stripped(line) == rest;
    } else {
      assert line == rest;
    }
  }

  /** One turn reads one argument. */
  lemma ArgumentTurn(done: seq<string>, command: string, space: bool, a: Argument, rest: string, fail: bool,
                     substitute: bool, runs: string -> bool)
    requires substitute ==> a.style != ExecuteQuote
    requires rest == "" || IsSpace(rest[0])
    ensures Turn(At(done, command), Lead(space) + (Printed(a) + rest), fail, substitute, runs)
         == Go(At(done + [a.text], command), rest)
  {
    var inner := Escaped(a.text, Special(Mark(a.style))) + [Mark(a.style)] + rest;
    assert Printed(a) + rest == [Mark(a.style)] + inner;
    OpeningTurn(At(done, command), space, a.style, inner, fail, substitute, runs);
    ClosingTurn(At(done, command).(quoted := a.style), a.text, rest, substitute, runs);
    assert "" + a.text == a.text;
  }

  lemma TextsOnward(done: seq<string>, args: seq<Argument>)
    requires args != []
    ensures done + [args[0].text] + Texts(args[1..]) == done + Texts(args)
  {
  }

  lemma LineOnward(args: seq<Argument>, rest: string)
    requires args != []
    ensures PrintedLine(args) + rest == Printed(args[0]) + (Tail(args[1..]) + rest)
    ensures |args| > 1 ==> Tail(args[1..]) + rest == Lead(true) + (PrintedLine(args[1..]) + rest)
    ensures |args| == 1 ==> Tail(args[1..]) + rest == rest
  {
    var more := args[1..];
    assert PrintedLine(args) == Printed(args[0]) + Tail(more);
    Regroup(Printed(args[0]), Tail(more), rest);
    Regroup(Lead(true), PrintedLine(more), rest);
  }

  lemma Regroup(a: string, b: string, c: string)
    ensures a + b + c == a + (b + c)
  {
  }

  lemma RunOn(p: Parser, line: string, q: Parser, rest: string, fail: bool, substitute: bool, runs: string -> bool)
    requires line != "" && Turn(p, line, fail, substitute, runs) == Go(q, rest)
    ensures Run(p, line, fail, substitute, runs) == Run(q, rest, fail, substitute, runs)
  {
  }

  /** The printed arguments are read, one turn for each, and what is left of the line after them. */
  lemma {:induction false} RunArguments(done: seq<string>, command: string, space: bool, args: seq<Argument>, rest: string,
                                        fail: bool, substitute: bool, runs: string -> bool)
    requires args != [] && Textual(args, substitute) && (rest == "" || IsSpace(rest[0]))
    ensures Run(At(done, command), Lead(space) + (PrintedLine(args) + rest), fail, substitute, runs)
         == Run(At(done + Texts(args), command), rest, fail, substitute, runs)
    decreases |args|
  {
    var a, more := args[0], args[1..];
    assert a in args && forall b :: b in more ==> b in args;
    var tail := Tail(more) + rest;
    LineOnward(args, rest);
    ArgumentTurn(done, command, space, a, tail, fail, substitute, runs);
    RunOn(At(done, command), Lead(space) + (PrintedLine(args) + rest), At(done + [a.text], command), tail,
          fail, substitute, runs);
    TextsOnward(done, args);
    if more == [] {
      assert done + [a.text] + [] == done + [a.text];
    } else {
      RunArguments(done + [a.text], command, true, more, rest, fail, substitute, runs);
    }
  }

  /** The arguments at the end of a line. */
  lemma RunTail(done: seq<string>, command: string, args: seq<Argument>, fail: bool, substitute: bool, runs: string -> bool)
    requires Textual(args, substitute)
    ensures Run(At(done, command), Tail(args), fail, substitute, runs) == (At(done + Texts(args), command), Loaded)
  {
    if args == [] {
      assert done + [] == done;
    } else {
      RunArguments(done, command, true, args, "", fail, substitute, runs);
      assert Lead(true) + (PrintedLine(args) + "") == Tail(args);
    }
  }

  /** Whatever was parsed before, a line of quoted arguments is loaded as exactly those arguments. */
  lemma LoadPrinted(p: Parser, args: seq<Argument>, fail: bool, substitute: bool, runs: string -> bool)
    requires !p.nextLine && Textual(args, substitute)
    ensures Load(p, Some(PrintedLine(args)), fail, substitute, runs) == (At(Texts(args)), Loaded)
  {
    if args != [] {
      RunArguments([], "", false, args, "", fail, substitute, runs);
      assert Lead(false) + (PrintedLine(args) + "") == PrintedLine(args);
      assert [] + Texts(args) == Texts(args);
    }
  }

  // ---------------------------------------------------------------- several lines

  /** The same arguments are read when the line comes in pieces that are cut inside quotations. */
  lemma FeedPrinted(p: Parser, args: seq<Argument>, pieces: seq<string>, fail: bool, substitute: bool, runs: string -> bool)
    requires !p.nextLine && Textual(args, substitute)
    requires pieces != [] && Concat(pieces) == PrintedLine(args)
    requires WellCut(LoadsWith(fail, substitute, runs), p, Outside(Word(true, true)), pieces, fail, substitute)
    ensures Feed(LoadsWith(fail, substitute, runs), p, pieces) == (At(Texts(args)), Continues(|pieces| - 1) + [Loaded])
  {
    assert Begun(p) == FRESH && ModeOf(FRESH) == Outside(Word(true, true));
    hide Load, Textual, PrintedLine, Texts, WellCut, Feed, Concat, Faithful;
    FeedIsLoad(p, pieces, fail, substitute, runs);
    LoadPrinted(p, args, fail, substitute, runs);
    FeedSucceeds(p, pieces, fail, substitute, runs);
  }
}
