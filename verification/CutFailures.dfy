/** Lines of arguments that are not read as written when they are cut where they may not be. */
module CutFailures {
  import opened Text
  import opened ConfigParser
  import opened LineCuts
  import opened ParserRoundTrip

  lemma {:induction false} QuotationStaysOpen(text: string, mark: char)
    requires IsQuote(mark)
    ensures Quotation(Escaped(text, Special(mark)), mark) == (text, None)
    decreases |text|
  {
    if text != "" {
      QuotationStaysOpen(text[1..], mark);
      var line, inner := Escaped(text, Special(mark)), Escaped(text[1..], Special(mark));
      if text[0] == mark || text[0] == '\\' {
        assert line == ['\\', text[0]] + inner;
        assert line[1..][0] == text[0] && line[1..][1..] == inner;
      } else {
        assert line == [text[0]] + inner;
        assert line[1..] == inner;
      }
      assert text == [text[0]] + text[1..];
    }
  }

  /** The start of an argument, without its closing mark. */
  function Started(style: Style, text: string): string {
    [Mark(style)] + Escaped(text, Special(Mark(style)))
  }

  /** The end of an argument, without its opening mark. */
  function Ended(style: Style, text: string): string {
    Escaped(text, Special(Mark(style))) + [Mark(style)]
  }

  lemma StartedEnded(style: Style, a: string, b: string)
    ensures Started(style, a) + Ended(style, b) == Printed(Argument(style, a + b))
  {
    EscapedConcat(a, b, Special(Mark(style)));
  }

  lemma {:induction false} TextsAround(before: seq<Argument>, a: Argument, after: seq<Argument>)
    ensures Texts(before + [a] + after) == Texts(before) + [a.text] + Texts(after)
    decreases |before|
  {
    var args := before + [a] + after;
    if before == [] {
      assert args[0] == a && args[1..] == after;
    } else {
      assert args[0] == before[0] && args[1..] == before[1..] + [a] + after;
      TextsAround(before[1..], a, after);
    }
  }

  lemma PrintedIsEnded(style: Style, text: string, rest: string)
    ensures Printed(Argument(style, text)) + rest == [Mark(style)] + (Ended(style, text) + rest)
  {
  }

  lemma PrintedFirst(a: Argument, more: seq<Argument>)
    ensures PrintedLine([a] + more) == Printed(a) + Lead(more != []) + PrintedLine(more)
  {
    assert ([a] + more)[1..] == more;
    assert Printed(a) + (" " + PrintedLine(more)) == Printed(a) + " " + PrintedLine(more);
    assert Printed(a) + "" + "" == Printed(a);
  }

  lemma {:induction false} PrintedAround(before: seq<Argument>, a: Argument, after: seq<Argument>)
    ensures PrintedLine(before + [a] + after) == PrintedLine(before) + Lead(before != []) + (Printed(a) + Tail(after))
    decreases |before|
  {
    if before == [] {
      assert before + [a] + after == [a] + after && ([a] + after)[1..] == after;
      assert "" + "" + (Printed(a) + Tail(after)) == Printed(a) + Tail(after);
    } else {
      var x, more := before[0], before[1..];
      assert before + [a] + after == [x] + (more + [a] + after);
      assert before == [x] + more;
      PrintedAround(more, a, after);
      PrintedFirst(x, more + [a] + after);
      PrintedFirst(x, more);
      Regrouped(Printed(x), Lead(more != []), PrintedLine(more), Printed(a) + Tail(after));
    }
  }

  lemma Regrouped(x: string, lead: string, more: string, rest: string)
    ensures lead == "" && more == "" ==> x + " " + (more + lead + rest) == (x + lead + more) + " " + rest
    ensures x + " " + (more + " " + rest) == (x + " " + more) + " " + rest
  {
  }

  /** The turn that reads the start of an argument. */
  lemma StartedTurn(p: Parser, space: bool, style: Style, text: string, fail: bool, substitute: bool, runs: string -> bool)
    requires p == At(p.bufferedData, p.holdingExecute)
    ensures Run(p, Lead(space) + Started(style, text), fail, substitute, runs)
         == (Held(p.(quoted := style), text), Continue)
  {
    OpeningTurn(p, space, style, Escaped(text, Special(Mark(style))), fail, substitute, runs);
    QuotationStaysOpen(text, Mark(style));
    var line := Lead(space) + Started(style, text);
    assert Turn(p, line, fail, substitute, runs) == Return(Held(p.(quoted := style), text), Continue);
  }

  /** The arguments at the start of a line are read, and the rest of it is read after them. */
  lemma LoadBefore(p: Parser, before: seq<Argument>, rest: string, fail: bool, substitute: bool, runs: string -> bool)
    requires !p.nextLine && Textual(before, substitute)
    ensures Load(p, Some(PrintedLine(before) + (Lead(before != []) + rest)), fail, substitute, runs)
         == Run(At(Texts(before)), Lead(before != []) + rest, fail, substitute, runs)
  {
    hide Run, Textual;
    var line := Lead(before != []) + rest;
    if before == [] {
      assert PrintedLine(before) + line == line;
    } else {
      RunArguments([], "", false, before, line, fail, substitute, runs);
      assert Lead(false) + (PrintedLine(before) + line) == PrintedLine(before) + line;
      assert [] + Texts(before) == Texts(before);
    }
  }

  /** The first call stops in the argument that was started. */
  lemma LoadStarted(p: Parser, before: seq<Argument>, style: Style, text: string, fail: bool, substitute: bool,
                    runs: string -> bool)
    requires !p.nextLine && Textual(before, substitute)
    ensures Load(p, Some(PrintedLine(before) + (Lead(before != []) + Started(style, text))), fail, substitute, runs)
         == (Held(At(Texts(before)).(quoted := style), text), Continue)
  {
    hide Run, Load;
    LoadBefore(p, before, Started(style, text), fail, substitute, runs);
    StartedTurn(At(Texts(before)), before != [], style, text, fail, substitute, runs);
  }

  // ---------------------------------------------------------------- back-quotes

  /** Without substitution, the second call goes on behind an argument whose start is held as that of a command. */
  lemma RunEnded(done: seq<string>, text: string, more: string, after: seq<Argument>, fail: bool, runs: string -> bool)
    requires fail && done == [] ==> Ended(ExecuteQuote, more)[0] != '!'
    ensures Run(Held(At(done).(quoted := ExecuteQuote), text), Ended(ExecuteQuote, more) + Tail(after), fail, false, runs)
         == (At(done + [more] + Texts(after), text), Loaded)
  {
    var q := Held(At(done).(quoted := ExecuteQuote), text);
    var line := Ended(ExecuteQuote, more) + Tail(after);
    assert line == Escaped(more, Special('`')) + ['`'] + Tail(after);
    ExclamationMarkLosesQuotation(q, line, fail, false, runs);
    ClosingTurn(q, more, Tail(after), false, runs);
    assert "" + more == more && "" + text == text;
    RunOn(q, line, At(done + [more], text), Tail(after), fail, false, runs);
    RunTail(done + [more], text, after, fail, false, runs);
  }

  /** The two pieces of a line that is cut in an argument. */
  lemma PiecesOfLine(before: seq<Argument>, style: Style, text: string, more: string, after: seq<Argument>)
    ensures (PrintedLine(before) + (Lead(before != []) + Started(style, text))) + (Ended(style, more) + Tail(after))
         == PrintedLine(before + [Argument(style, text + more)] + after)
  {
    PrintedAround(before, Argument(style, text + more), after);
    StartedEnded(style, text, more);
    var line, lead, a, b, c := PrintedLine(before), Lead(before != []), Started(style, text), Ended(style, more), Tail(after);
    Regroup(line, lead, a);
    Regroup(line + lead, a, b + c);
    Regroup(a, b, c);
  }

  /**
   Without substitution, a line that is cut in a back-quoted argument loses what is before the cut: the argument
   that is read is the rest of it, and the lost text is held as that of a command. The whole line is read as written.
   */
  lemma BackQuoteCutLosesText(p: Parser, before: seq<Argument>, text: string, more: string, after: seq<Argument>,
                              fail: bool, runs: string -> bool)
    requires !p.nextLine && (fail && before == [] ==> Ended(ExecuteQuote, more)[0] != '!')
    ensures var a := PrintedLine(before) + (Lead(before != []) + Started(ExecuteQuote, text));
            var b := Ended(ExecuteQuote, more) + Tail(after);
            && a + b == PrintedLine(before + [Argument(ExecuteQuote, text + more)] + after)
            && Load(p, Some(a + b), fail, false, runs)
               == (At(Texts(before) + [text + more] + Texts(after)), Loaded)
            && Feed(LoadsWith(fail, false, runs), p, [a, b])
               == (At(Texts(before) + [more] + Texts(after), text), [Continue, Loaded])
  {
    hide Run, Load, Feed, PrintedLine, Ended, Started, Texts;
    PiecesOfLine(before, ExecuteQuote, text, more, after);
    TextsAround(before, Argument(ExecuteQuote, text + more), after);
    LoadPrinted(p, before + [Argument(ExecuteQuote, text + more)] + after, fail, false, runs);
    BackQuoteCutFeeds(p, before, text, more, after, fail, runs);
  }

  /** What is read of the pieces. */
  lemma BackQuoteCutFeeds(p: Parser, before: seq<Argument>, text: string, more: string, after: seq<Argument>,
                          fail: bool, runs: string -> bool)
    requires !p.nextLine && (fail && before == [] ==> Ended(ExecuteQuote, more)[0] != '!')
    ensures Feed(LoadsWith(fail, false, runs), p, [PrintedLine(before) + (Lead(before != []) + Started(ExecuteQuote, text)),
                                                   Ended(ExecuteQuote, more) + Tail(after)])
         == (At(Texts(before) + [more] + Texts(after), text), [Continue, Loaded])
  {
    var a := PrintedLine(before) + (Lead(before != []) + Started(ExecuteQuote, text));
    var b := Ended(ExecuteQuote, more) + Tail(after);
    var q := Held(At(Texts(before)).(quoted := ExecuteQuote), text);
    hide Run, Textual, PrintedLine, Ended, Started;
    LoadStarted(p, before, ExecuteQuote, text, fail, false, runs);
    RunEnded(Texts(before), text, more, after, fail, runs);
    LoadsOnward(q, b, fail, false, runs);
    hide Load;
    FeedTwo(LoadsWith(fail, false, runs), p, a, b, q, At(Texts(before) + [more] + Texts(after), text), Loaded);
  }

  lemma LoadsOnward(p: Parser, line: string, fail: bool, substitute: bool, runs: string -> bool)
    requires p.nextLine
    ensures Load(p, Some(line), fail, substitute, runs) == Run(p, line, fail, substitute, runs)
  {
  }

  lemma FeedTwo(load: Loader, p: Parser, a: string, b: string, q: Parser, r: Parser, status: Status)
    requires load(p, a) == (q, Continue) && load(q, b) == (r, status)
    ensures Feed(load, p, [a, b]) == (r, [Continue, status])
  {
    assert [a, b][1..] == [b] && [b][1..] == [];
    assert Feed(load, r, [b][1..]) == (r, []);
    assert [Continue] + [] == [Continue];
    assert Feed(load, q, [b]) == (r, [status]);
    assert [Continue] + [status] == [Continue, status];
  }

  /** So such a cut is harmless exactly if there is nothing before it. */
  lemma BackQuoteCutIff(p: Parser, before: seq<Argument>, text: string, more: string, after: seq<Argument>,
                        fail: bool, runs: string -> bool)
    requires !p.nextLine && (fail && before == [] ==> Ended(ExecuteQuote, more)[0] != '!')
    ensures var a := PrintedLine(before) + (Lead(before != []) + Started(ExecuteQuote, text));
            var b := Ended(ExecuteQuote, more) + Tail(after);
            Feed(LoadsWith(fail, false, runs), p, [a, b]).0 == Load(p, Some(a + b), fail, false, runs).0 <==> text == ""
  {
    BackQuoteCutLosesText(p, before, text, more, after, fail, runs);
    assert "" + more == more;
  }

  // ---------------------------------------------------------------- exclamation marks

  /**
   Where failures are checked, a line that is cut before an exclamation mark in its first argument is not read at
   all: the second call takes the mark away, forgets the quotation, and takes the closing mark for an opening one.
   */
  lemma ExclamationCutIsNeverLoaded(p: Parser, style: Style, text: string, substitute: bool, runs: string -> bool)
    requires !p.nextLine && (substitute ==> style != ExecuteQuote)
    ensures var a, b := Started(style, text), "!" + [Mark(style)];
            && a + b == Printed(Argument(style, text + "!"))
            && Load(p, Some(a + b), true, substitute, runs) == (At([text + "!"]), Loaded)
            && Feed(LoadsWith(true, substitute, runs), p, [a, b]).1 == [Continue, Continue]
  {
    var a, b := Started(style, text), "!" + [Mark(style)];
    var arg := Argument(style, text + "!");
    StartedEnded(style, text, "!");
    assert Ended(style, "!") == b by {
      assert Escaped("!", Special(Mark(style))) == "!" + Escaped("", Special(Mark(style))) == "!";
    }
    OneArgument(arg);
    LoadPrinted(p, [arg], true, substitute, runs);
    LoadStarted(p, [], style, text, true, substitute, runs);
    assert "" + ("" + a) == a;
    var q := Held(FRESH.(quoted := style), text);
    var r := MarkReopens(q, style, substitute, runs);
    FeedTwo(LoadsWith(true, substitute, runs), p, a, b, q, r, Continue);
  }

  lemma OneArgument(arg: Argument)
    ensures PrintedLine([arg]) == Printed(arg) && Texts([arg]) == [arg.text]
  {
    assert [arg][1..] == [];
    assert Tail([]) == "" && Texts([]) == [];
    assert Printed(arg) + "" == Printed(arg) && [arg.text] + [] == [arg.text];
  }

  lemma MarkReopens(q: Parser, style: Style, substitute: bool, runs: string -> bool) returns (r: Parser)
    requires q.nextLine && q.quoted == style && !q.separated && q.bufferedData == []
    ensures Run(q, "!" + [Mark(style)], true, substitute, runs) == (r, Continue)
  {
    var mark := [Mark(style)];
    var line := "!" + mark;
    ExclamationMarkLosesQuotation(q, line, true, substitute, runs);
    assert line[1..] == mark && line[1] == Mark(style);
    var q1 := q.(tolerant := true, nextLine := false);
    RunOn(q, line, q1, mark, true, substitute, runs);
    var q2 := q1.(quoted := Unquoted);
    assert Turn(q1, mark, true, substitute, runs) == Plain(q2, mark) == Go(q2, mark) by {
      assert q2.holdingLine + "" == q2.holdingLine;
    }
    RunOn(q1, mark, q2, mark, true, substitute, runs);
    assert Stripped(mark) == mark && mark[1..] == "";
    r := Run(q2, mark, true, substitute, runs).0;
  }

  // ---------------------------------------------------------------- failed commands

  /** The state after a command that fails at the end of its quotation: the arguments before it are still held. */
  function Failed(before: seq<Argument>, command: string, nextLine: bool): Parser {
    At(Texts(before), command).(nextLine := nextLine)
  }

  /** A command that fails where its quotation closes ends the call. */
  lemma CommandFails(p: Parser, more: string, rest: string, runs: string -> bool)
    requires p.quoted == ExecuteQuote && p.holdingLine == "" && !p.blank
    requires rest == "" || IsSpace(rest[0])
    requires !runs(p.holdingExecute + more + "\n")
    ensures Quoted(p, Ended(ExecuteQuote, more) + rest, true, runs)
         == Return(p.(holdingExecute := p.holdingExecute + more + "\n", quoted := Unquoted, metaQuote := false), Error)
  {
    QuotationCloses(more, '`', rest);
    hide Quotation;
  }

  /** The turn that reads a whole command which fails. */
  lemma CommandTurn(done: seq<string>, space: bool, command: string, rest: string, fail: bool, runs: string -> bool)
    requires (rest == "" || IsSpace(rest[0])) && !runs(command + "\n")
    ensures Run(At(done), Lead(space) + (Printed(Argument(ExecuteQuote, command)) + rest), fail, true, runs)
         == (At(done, command + "\n"), Error)
  {
    var inner := Ended(ExecuteQuote, command) + rest;
    var line := Lead(space) + ([Mark(ExecuteQuote)] + inner);
    OpeningTurn(At(done), space, ExecuteQuote, inner, fail, true, runs);
    hide Turn, Quoted, IsSpace;
    PrintedIsEnded(ExecuteQuote, command, rest);
    hide Printed, Ended;
    assert "" + command + "\n" == command + "\n";
    CommandFails(At(done).(quoted := ExecuteQuote), command, rest, runs);
    assert Turn(At(done), line, fail, true, runs) == Return(At(done, command + "\n"), Error);
  }

  /** The whole line fails at its command, and leaves no note that a line continues. */
  lemma WholeLineFails(p: Parser, before: seq<Argument>, command: string, after: seq<Argument>, fail: bool,
                       runs: string -> bool)
    requires !p.nextLine && Textual(before, true) && !runs(command + "\n")
    ensures Load(p, Some(PrintedLine(before + [Argument(ExecuteQuote, command)] + after)), fail, true, runs)
         == (Failed(before, command + "\n", false), Error)
  {
    var rest := Printed(Argument(ExecuteQuote, command)) + Tail(after);
    CommandTurn(Texts(before), before != [], command, Tail(after), fail, runs);
    hide Run, Load, Textual, Printed;
    PrintedAround(before, Argument(ExecuteQuote, command), after);
    LoadBefore(p, before, rest, fail, true, runs);
    Regroup(PrintedLine(before), Lead(before != []), rest);
  }

  /** The last piece ends the command, which fails; the note that a line continues stays. */
  lemma CutCommandFails(p: Parser, before: seq<Argument>, text: string, more: string, after: seq<Argument>, fail: bool,
                        runs: string -> bool)
    requires !p.nextLine && Textual(before, true) && !runs(text + more + "\n")
    requires fail && before == [] ==> Ended(ExecuteQuote, more)[0] != '!'
    ensures Feed(LoadsWith(fail, true, runs), p, [PrintedLine(before) + (Lead(before != []) + Started(ExecuteQuote, text)),
                                                  Ended(ExecuteQuote, more) + Tail(after)])
         == (Failed(before, text + more + "\n", true), [Continue, Error])
  {
    var a := PrintedLine(before) + (Lead(before != []) + Started(ExecuteQuote, text));
    var b := Ended(ExecuteQuote, more) + Tail(after);
    var q := Held(At(Texts(before)).(quoted := ExecuteQuote), text);
    LoadStarted(p, before, ExecuteQuote, text, fail, true, runs);
    assert "" + text == text && b != "" && b[0] == Ended(ExecuteQuote, more)[0];
    assert Texts(before) == [] ==> before == [];
    ExclamationMarkLosesQuotation(q, b, fail, true, runs);
    CommandFails(q, more, Tail(after), runs);
    hide Turn, Quoted, Ended, Started, Texts, PrintedLine, Tail;
    FeedTwo(LoadsWith(fail, true, runs), p, a, b, q, Failed(before, text + more + "\n", true), Error);
  }

  lemma RunLine(done: seq<string>, command: string, args: seq<Argument>, fail: bool, substitute: bool, runs: string -> bool)
    requires args != [] && Textual(args, substitute)
    ensures Run(At(done, command), PrintedLine(args), fail, substitute, runs) == (At(done + Texts(args), command), Loaded)
  {
    RunArguments(done, command, false, args, "", fail, substitute, runs);
    assert Lead(false) + (PrintedLine(args) + "") == PrintedLine(args);
  }

  /** The turn that is spent on the note that a line continues. */
  lemma NoteTurn(done: seq<string>, command: string, line: string, fail: bool, runs: string -> bool)
    requires line != "" && IsQuote(line[0])
    ensures Run(At(done, command).(nextLine := true), line, fail, true, runs) == Run(At(done, command), line, fail, true, runs)
  {
    var p := At(done, command);
    assert Stripped(line) == line && p.holdingLine + "" == p.holdingLine;
    RunOn(p.(nextLine := true), line, p, line, fail, true, runs);
  }

  /** The note that a line continues only delays the first argument by a turn. */
  lemma NoteDelays(done: seq<string>, command: string, args: seq<Argument>, fail: bool, runs: string -> bool)
    requires args != [] && Textual(args, true)
    ensures Run(At(done, command).(nextLine := true), PrintedLine(args), fail, true, runs)
         == (At(done + Texts(args), command), Loaded)
  {
    RunLine(done, command, args, fail, true, runs);
    hide Run, Textual;
    assert PrintedLine(args) == Printed(args[0]) + Tail(args[1..]);
    NoteTurn(done, command, PrintedLine(args), fail, runs);
  }

  /**
   A line that is cut in the quotation of a command, and whose command fails: the last call leaves the note that a
   line continues, so that the arguments before the command are taken into the next line. When the line is not cut,
   the next line starts afresh.
   */
  lemma FailedCommandLeaks(p: Parser, before: seq<Argument>, text: string, more: string, after: seq<Argument>,
                           next: seq<Argument>, fail: bool, runs: string -> bool)
    requires !p.nextLine && Textual(before, true) && Textual(next, true) && next != [] && !runs(text + more + "\n")
    requires fail && before == [] ==> Ended(ExecuteQuote, more)[0] != '!'
    ensures var a := PrintedLine(before) + (Lead(before != []) + Started(ExecuteQuote, text));
            var b := Ended(ExecuteQuote, more) + Tail(after);
            var load := LoadsWith(fail, true, runs);
            var command := text + more + "\n";
            && load(p, a + b) == (Failed(before, command, false), Error)
            && load(Failed(before, command, false), PrintedLine(next)) == (At(Texts(next)), Loaded)
            && Feed(load, p, [a, b]) == (Failed(before, command, true), [Continue, Error])
            && load(Failed(before, command, true), PrintedLine(next)) == (At(Texts(before) + Texts(next), command), Loaded)
  {
    var a := PrintedLine(before) + (Lead(before != []) + Started(ExecuteQuote, text));
    var b := Ended(ExecuteQuote, more) + Tail(after);
    var command := text + more + "\n";
    hide Run, Load, Feed, Textual, PrintedLine, Ended, Started, Texts;
    PiecesOfLine(before, ExecuteQuote, text, more, after);
    WholeLineFails(p, before, text + more, after, fail, runs);
    LoadPrinted(Failed(before, command, false), next, fail, true, runs);
    CutCommandFails(p, before, text, more, after, fail, runs);
    NoteDelays(Texts(before), command, next, fail, runs);
    LoadsOnward(Failed(before, command, true), PrintedLine(next), fail, true, runs);
  }

  lemma PrintedCharacter(c: char)
    requires c != '\'' && c != '\\'
    ensures PrintedLine([Argument(SingleQuote, [c])]) == "'" + [c] + "'"
  {
    var arg := Argument(SingleQuote, [c]);
    OneArgument(arg);
    assert Escaped([c], Special('\'')) == [c] + Escaped("", Special('\''));
  }

  /** With x and b in quotes and the command a between them, b is loaded together with x. */
  lemma FailedCommandLeaksArgument(fail: bool, runs: string -> bool)
    requires !runs("a\n")
    ensures var load := LoadsWith(fail, true, runs);
            var (whole, cut) := (load(FRESH, "'x' `a`"), Feed(load, FRESH, ["'x' `a", "`"]));
            && whole.1 == Error && load(whole.0, "'b'") == (At(["b"]), Loaded)
            && cut.1 == [Continue, Error] && load(cut.0, "'b'") == (At(["x", "b"], "a\n"), Loaded)
  {
    var x, b := Argument(SingleQuote, "x"), Argument(SingleQuote, "b");
    assert "a" + "" + "\n" == "a\n";
    FailedCommandLeaks(FRESH, [x], "a", "", [], [b], fail, runs);
    hide *;
    LeakPieces(x, b);
  }

  /** The lines of the example, written as cut arguments. */
  lemma LeakPieces(x: Argument, b: Argument)
    requires x == Argument(SingleQuote, "x") && b == Argument(SingleQuote, "b")
    ensures PrintedLine([x]) + (Lead([x] != []) + Started(ExecuteQuote, "a")) == "'x' `a"
    ensures Ended(ExecuteQuote, "") + Tail([]) == "`" && "'x' `a" + "`" == "'x' `a`" && PrintedLine([b]) == "'b'"
    ensures Texts([b]) == ["b"] && Texts([x]) + Texts([b]) == ["x", "b"]
  {
    PrintedCharacter('x');
    PrintedCharacter('b');
    OneArgument(x);
    OneArgument(b);
    assert Escaped("a", Special('`')) == "a" + Escaped("", Special('`'));
    hide PrintedLine, Texts;
    assert Started(ExecuteQuote, "a") == "`a";
    assert "'x'" + (" " + "`a") == "'x' `a";
  }
}
