/**
 Arguments on several lines. A line that ends in an escaped break is continued by the next one, as if both were one;
 but if that one is blank, old arguments come back later. A line that is cut in quotations says what the whole one says.
 */
module LineBreaks {
  import opened Text
  import opened ConfigParser
  import opened Reader
  import opened LineCuts
  import CutFailures
  import opened ParserRoundTrip
  import opened WrittenLines
  import opened WordLines

  /** The ways in which a backslash ends a line. */
  predicate IsBreak(end: string) {
    end in {"\\", "\\\n", "\\\r", "\\\r\n"}
  }

  /** What was read when the line ends: the next character is the first of a turn. */
  function Paused(r: Reading): Reading {
    r.(mid := false)
  }

  lemma BreakStops(p: Parser, r: Reading, end: string, fail: bool, substitute: bool, runs: string -> bool)
    returns (q: Parser)
    requires Stands(p, r) && IsBreak(end)
    ensures Onward(p, end, r.mid, fail, substitute, runs) == (q, Continue)
    ensures q.nextLine && !q.separated && Stands(q.(nextLine := false), Paused(r))
  {
    if r.mid {
      RawIsOver(p, end, fail, substitute, runs);
    }
    PlainStarts(p, end, fail, substitute, runs);
    var s := Separated(p);
    q := s.(nextLine := true);
    assert end[1..] in {"", "\n", "\r", "\r\n"} && s.holdingLine + "" == s.holdingLine;
    assert PlainText(end, s.holdingLine == "") == ("", AtLineEnd);
    hide Run;
  }

  /** The first line is read up to its end, and asks for more. */
  lemma FirstLine(p: Parser, tokens: seq<Token>, end: string, fail: bool, substitute: bool, runs: string -> bool)
    returns (q: Parser)
    requires !p.nextLine && IsBreak(end) && Proper(START, tokens, end, fail, substitute, runs)
    ensures Load(p, Some(Spelled(tokens, end)), fail, substitute, runs) == (q, Continue)
    ensures q.nextLine && !q.separated
    ensures Stands(q.(nextLine := false), Paused(Says(START, tokens, fail, substitute)))
  {
    var r := TokensRead(FRESH, START, tokens, end, fail, substitute, runs);
    q := BreakStops(r, Says(START, tokens, fail, substitute), end, fail, substitute, runs);
  }

  /** The note that a line continues makes no difference to a line with text. */
  lemma NoteIsTakenBack(p: Parser, line: string, fail: bool, substitute: bool, runs: string -> bool)
    requires p.quoted == Unquoted && p.nextLine && Stripped(line) != ""
    ensures Run(p, line, fail, substitute, runs) == Run(p.(nextLine := false), line, fail, substitute, runs)
  {
    var q := p.(nextLine := false);
    var (s, rest) := Start(p, line);
    var t := s.(nextLine := false);
    assert line != "" && Stripped(rest) == rest && Start(q, line) == Start(t, rest) == (t, rest);
    TurnIsRead(p, line, fail, substitute, runs);
    TurnIsRead(q, line, fail, substitute, runs);
    TurnIsRead(t, rest, fail, substitute, runs);
    NoteInRead(s, rest, fail, substitute, runs);
    hide Turn, Read;
    if IsQuote(rest[0]) && !(fail && rest[0] == '!' && s.bufferedData == []) {
      RunOn(p, line, t, rest, fail, substitute, runs);
      RunAlikeTurns(t, rest, q, line, fail, substitute, runs);
    } else {
      RunAlikeTurns(p, line, q, line, fail, substitute, runs);
    }
  }

  lemma NoteInRead(p: Parser, line: string, fail: bool, substitute: bool, runs: string -> bool)
    requires line != "" && p.quoted == Unquoted
    ensures var q := p.(nextLine := false);
            if IsQuote(line[0]) && p.nextLine then Read(p, line, fail, substitute, runs) == Go(q, line)
            else IsQuote(line[0]) || Read(p, line, fail, substitute, runs) == Read(q, line, fail, substitute, runs)
  {
    assert p.holdingLine + "" == p.holdingLine;
    NoteInText(p, line);
  }

  lemma NoteInText(p: Parser, line: string)
    requires line != ""
    ensures Plain(p, line) == Plain(p.(nextLine := false), line)
  {
    hide PlainText;
  }

  lemma RunAlikeTurns(p: Parser, line: string, q: Parser, rest: string, fail: bool, substitute: bool, runs: string -> bool)
    requires line != "" && rest != "" && Turn(p, line, fail, substitute, runs) == Turn(q, rest, fail, substitute, runs)
    ensures Run(p, line, fail, substitute, runs) == Run(q, rest, fail, substitute, runs)
  {
    hide Turn;
  }

  /** A part that is not whitespace. */
  predicate HasText(tokens: seq<Token>) {
    exists t :: t in tokens && !t.Gap?
  }

  lemma {:induction false} TextStays(r: Reading, tokens: seq<Token>, rest: string, fail: bool, substitute: bool,
                                     runs: string -> bool)
    requires Proper(r, tokens, rest, fail, substitute, runs)
    ensures HasText(tokens) ==> Stripped(Spelled(tokens, rest)) != ""
    ensures !HasText(tokens) ==> Stripped(Spelled(tokens, rest)) == Stripped(rest)
    decreases |tokens|
  {
    if tokens != [] {
      var t, more := tokens[0], tokens[1..];
      var line := Spelled(more, rest);
      assert Spelled(tokens, rest)[0] == Spelling(t)[0];
      assert t.Gap? ==> Spelled(tokens, rest)[1..] == line;
      assert HasText(tokens) <==> !t.Gap? || HasText(more) by {
        if HasText(more) {
          var x :| x in more && !x.Gap?;
          assert x in tokens;
        }
      }
      TextStays(Took(r, t, fail, substitute), more, rest, fail, substitute, runs);
    }
  }

  /** The next line is read from there, if it has any text. */
  lemma NextLine(p: Parser, r: Reading, tokens: seq<Token>, fail: bool, substitute: bool, runs: string -> bool)
    requires p.nextLine && Stands(p.(nextLine := false), r) && !r.mid
    requires HasText(tokens) && Proper(r, tokens, "", fail, substitute, runs) && Open(r, Spelled(tokens, ""))
    ensures LoadedAs(Load(p, Some(Spelled(tokens, "")), fail, substitute, runs), Says(r, tokens, fail, substitute))
  {
    TextStays(r, tokens, "", fail, substitute, runs);
    NoteIsTakenBack(p, Spelled(tokens, ""), fail, substitute, runs);
    hide Run;
    var q := TokensRead(p.(nextLine := false), r, tokens, "", fail, substitute, runs);
    ReachedIsLoaded(q, Says(r, tokens, fail, substitute), fail, substitute, runs);
  }

  /** It does not matter that the text stopped there, unless the next line starts with a mark. */
  lemma PausedSays(r: Reading, tokens: seq<Token>, fail: bool, substitute: bool)
    requires tokens == [] || !IsMark(Paused(r), tokens[0], fail) || !r.mid
    ensures Completed(Says(Paused(r), tokens, fail, substitute)) == Completed(Says(r, tokens, fail, substitute))
    ensures Says(Paused(r), tokens, fail, substitute).tolerant == Says(r, tokens, fail, substitute).tolerant
  {
  }

  // ---------------------------------------------------------------- two lines

  /** Two lines, the first of which ends in an escaped break, are loaded as what both say together. */
  lemma TwoLines(p: Parser, a: seq<Token>, end: string, b: seq<Token>, fail: bool, substitute: bool, runs: string -> bool)
    requires !p.nextLine && IsBreak(end) && Proper(START, a, end, fail, substitute, runs)
    requires var r := Says(START, a, fail, substitute);
             && HasText(b) && Proper(Paused(r), b, "", fail, substitute, runs) && Open(r, Spelled(b, ""))
             && (r.mid ==> !IsMark(Paused(r), b[0], fail))
    ensures var (q, status) := Load(p, Some(Spelled(a, end)), fail, substitute, runs);
            && status == Continue
            && LoadedAs(Load(q, Some(Spelled(b, "")), fail, substitute, runs), Says(START, a + b, fail, substitute))
  {
    hide Load, Proper, Says, Spelled;
    var r := Says(START, a, fail, substitute);
    var q := FirstLine(p, a, end, fail, substitute, runs);
    NextLine(q, Paused(r), b, fail, substitute, runs);
    PausedSays(r, b, fail, substitute);
    SaysConcat(START, a, b, fail, substitute);
  }

  lemma OneLetter(r: Reading, c: char, rest: string, fail: bool, substitute: bool, runs: string -> bool)
    requires Legal(Raw(c)) && c != '!' && c != '#'
    ensures Proper(r, [Raw(c)], rest, fail, substitute, runs) && HasText([Raw(c)]) && Spelled([Raw(c)], rest) == [c] + rest
    ensures Says(r, [Raw(c)], fail, substitute) == r.(current := Some(TextOf(r) + [c]), mid := true)
  {
    assert [Raw(c)][0] in [Raw(c)] && [Raw(c)][1..] == [];
  }

  lemma MarkAndLetter(r: Reading, substitute: bool, runs: string -> bool)
    requires r.done == []
    ensures var b := [Raw('!'), Raw('b')];
            && Proper(r, b, "", true, substitute, runs) && HasText(b) && Spelled(b, "") == "!b"
            && Says(r, b, true, substitute) ==
               if r.mid then r.(current := Some(TextOf(r) + "!b")) else Reading([], Some(TextOf(r) + "b"), true, true)
  {
    var b, next := [Raw('!'), Raw('b')], Took(r, Raw('!'), true, substitute);
    assert b[0] in b && b[1..] == [Raw('b')];
    OneLetter(next, 'b', "", true, substitute, runs);
    assert TextOf(r) + ['!'] + ['b'] == TextOf(r) + "!b";
  }

  /** An argument in front of an exclamation mark and a letter. */
  lemma LoadMarkAndLetter(t: Token, r: Reading, substitute: bool, runs: string -> bool)
    requires Took(START, t, true, substitute) == r && r.done == [] && Fits(START, t, "!b", substitute, runs)
    ensures LoadedAs(Load(FRESH, Some(Spelling(t) + "!b"), true, substitute, runs),
                     if r.mid then r.(current := Some(TextOf(r) + "!b")) else Reading([], Some(TextOf(r) + "b"), true, true))
  {
    var b := [Raw('!'), Raw('b')];
    var tokens := [t] + b;
    assert tokens[1..] == b;
    MarkAndLetter(r, substitute, runs);
    assert Proper(START, tokens, "", true, substitute, runs) && Spelled(tokens, "") == Spelling(t) + "!b";
    assert Says(START, tokens, true, substitute) == Says(r, b, true, substitute);
    hide Load, Proper, Says, Spelled;
    LoadWritten(FRESH, tokens, true, substitute, runs);
  }

  /** A mark in an argument is kept behind a character that stands as it is, but taken away behind an escape. */
  lemma MarkIsTakenBehindEscape(substitute: bool, runs: string -> bool)
    ensures LoadedAs(Load(FRESH, Some("a!b"), true, substitute, runs), Reading(["a!b"], None, false, false))
    ensures LoadedAs(Load(FRESH, Some("\\a!b"), true, substitute, runs), Reading(["ab"], None, false, true))
  {
    assert "" + "a" == "a" && "a" + "!b" == "a!b" && "\\a" + "!b" == "\\a!b" && "a" + "b" == "ab";
    LoadMarkAndLetter(Raw('a'), Reading([], Some("a"), true, false), substitute, runs);
    LoadMarkAndLetter(Kept('a'), Reading([], Some("a"), false, false), substitute, runs);
    hide Load, Took, Fits;
  }

  /** A letter on a line that continues. */
  lemma LetterLine(fail: bool, substitute: bool, runs: string -> bool) returns (q: Parser)
    ensures Load(FRESH, Some("a\\"), fail, substitute, runs) == (q, Continue)
    ensures q.nextLine && !q.separated && Stands(q.(nextLine := false), Reading([], Some("a"), false, false))
  {
    assert "" + "a" == "a" && "a" + "\\" == "a\\";
    OneLetter(START, 'a', "\\", fail, substitute, runs);
    hide Load, Proper, Says, Spelled, HasText;
    q := FirstLine(FRESH, [Raw('a')], "\\", fail, substitute, runs);
  }

  /** So it is at the start of the next line. */
  lemma MarkIsTakenFromNextLine(substitute: bool, runs: string -> bool)
    ensures var (q, status) := Load(FRESH, Some("a\\"), true, substitute, runs);
            && status == Continue
            && LoadedAs(Load(q, Some("!b"), true, substitute, runs), Reading(["ab"], None, false, true))
  {
    var r := Reading([], Some("a"), false, false);
    var q := LetterLine(true, substitute, runs);
    MarkAndLetter(r, substitute, runs);
    hide Load, Proper, Says, Spelled, HasText, Stands;
    NextLine(q, r, [Raw('!'), Raw('b')], true, substitute, runs);
    assert "a" + "b" == "ab";
  }

  // ---------------------------------------------------------------- blank lines

  /** What the parser still holds after a blank line: all arguments, and the last one once more. */
  function Leftover(r: Reading, gap: seq<Token>): Reading {
    var x := TextOf(r);
    if x == "" then Reading(r.done, None, false, r.tolerant)
    else if gap == [] then Reading(r.done + [x], Some(x), false, r.tolerant)
    else Reading(r.done + [x, x], None, false, r.tolerant)
  }

  lemma {:induction false} StrippedGap(gap: seq<Token>)
    requires IsGap(gap)
    ensures Stripped(Spelled(gap, "")) == "" && (Spelled(gap, "") == "" <==> gap == [])
    decreases |gap|
  {
    if gap != [] {
      assert gap[0] in gap;
      assert Spelled(gap, "")[1..] == Spelled(gap[1..], "");
      StrippedGap(gap[1..]);
    }
  }

  /**
   A blank line after one that continues is loaded, but leaves the note that a line continues, and nothing is
   cleared: the arguments come back with the next line.
   */
  lemma BlankLineLeaks(p: Parser, r: Reading, gap: seq<Token>, tokens: seq<Token>, fail: bool, substitute: bool,
                       runs: string -> bool)
    requires p.nextLine && !p.separated && Stands(p.(nextLine := false), r) && !r.mid && IsGap(gap)
    requires HasText(tokens) && Proper(Leftover(r, gap), tokens, "", fail, substitute, runs)
    ensures var (q, status) := Load(p, Some(Spelled(gap, "")), fail, substitute, runs);
            && status == (if r.tolerant then Fallible else Loaded)
            && q.bufferedData == r.done + (if TextOf(r) == "" then [] else [TextOf(r)])
            && LoadedAs(Load(q, Some(Spelled(tokens, "")), fail, substitute, runs),
                        Says(Leftover(r, gap), tokens, fail, substitute))
  {
    StrippedGap(gap);
    var line := Spelled(gap, "");
    var q := Finish(if gap == [] then p else p.(separated := true)).0;
    assert Load(p, Some(line), fail, substitute, runs).0 == q;
    LeftoverStands(p, r, gap);
    hide Run, Finish, Separated, Stands;
    NextLine(q, Leftover(r, gap), tokens, fail, substitute, runs);
  }

  lemma LeftoverStands(p: Parser, r: Reading, gap: seq<Token>)
    requires p.nextLine && !p.separated && Stands(p.(nextLine := false), r) && !r.mid
    ensures var q := Finish(if gap == [] then p else p.(separated := true)).0;
            q.nextLine && Stands(q.(nextLine := false), Leftover(r, gap))
  {
    var x := TextOf(r);
    assert r.done + [x] + [x] == r.done + [x, x];
  }

  /** An argument on a line that continues, a blank line, and another argument: the first one comes back twice. */
  lemma ArgumentComesBack(fail: bool, substitute: bool, runs: string -> bool)
    ensures var (q, first) := Load(FRESH, Some("a\\"), fail, substitute, runs);
            var (s, second) := Load(q, Some(" "), fail, substitute, runs);
            && first == Continue && second == Loaded && s.bufferedData == ["a"]
            && LoadedAs(Load(s, Some("c"), fail, substitute, runs), Reading(["a", "a", "c"], None, false, false))
  {
    var r, left := Reading([], Some("a"), false, false), Reading(["a", "a"], None, false, false);
    assert "" + "c" == "c" && "c" + "" == "c" && " " + "" == " ";
    assert [] + ["a", "a"] == ["a", "a"] && ["a", "a"] + ["c"] == ["a", "a", "c"] && [] + ["a"] == ["a"];
    OneLetter(left, 'c', "", fail, substitute, runs);
    assert Spelled([Gap(' ')], "") == " " by {
      assert [Gap(' ')][1..] == [];
    }
    hide Load, Proper, Says, Spelled, HasText;
    var q := LetterLine(fail, substitute, runs);
    BlankLineLeaks(q, r, [Gap(' ')], [Raw('c')], fail, substitute, runs);
  }

  /** A call without a line clears the parser: whatever it held, the next line says what it says. */
  lemma NothingIsHeld(p: Parser, tokens: seq<Token>, fail: bool, substitute: bool, runs: string -> bool)
    requires HasText(tokens) && Proper(START, tokens, "", fail, substitute, runs)
    ensures var (q, status) := Load(p, None, fail, substitute, runs);
            && status == Error
            && LoadedAs(Load(q, Some(Spelled(tokens, "")), fail, substitute, runs), Says(START, tokens, fail, substitute))
  {
    if p.nextLine {
      NextLine(FRESH.(nextLine := true), START, tokens, fail, substitute, runs);
    } else {
      LoadWritten(FRESH, tokens, fail, substitute, runs);
    }
    hide Run, Says, Proper, Spelled;
  }

  // ---------------------------------------------------------------- breaks in quotations

  /** In a quotation too, a backslash at the end of a line continues it, and is no text, nor is the break. */
  lemma {:induction false} QuotationBreaks(text: string, mark: char, end: string)
    requires IsQuote(mark) && (end == "" || IsBreak(end))
    ensures Quotation(Escaped(text, Special(mark)) + end, mark) == (text, None)
    decreases |text|
  {
    if text == "" {
      OpenEnd(end, mark);
      assert Escaped(text, Special(mark)) + end == end;
    } else {
      QuotationBreaks(text[1..], mark, end);
      EscapedFirst(text, mark, end);
      QuotationFirst(text[0], Escaped(text[1..], Special(mark)) + end, mark);
      hide Quotation, Escaped;
      assert text == [text[0]] + text[1..];
    }
  }

  lemma OpenEnd(end: string, mark: char)
    requires end == "" || IsBreak(end)
    ensures Quotation(end, mark) == ("", None)
  {
    if end == "\\\r\n" {
      assert end[1..] == "\r\n";
    } else if end != "" && end != "\\" {
      assert end[1..] == "\r" || end[1..] == "\n";
    }
  }

  lemma EscapedFirst(text: string, mark: char, end: string)
    requires text != ""
    ensures Escaped(text, Special(mark)) + end
         == (if text[0] == mark || text[0] == '\\' then ['\\', text[0]] else [text[0]])
            + (Escaped(text[1..], Special(mark)) + end)
  {
  }

  lemma QuotationFirst(c: char, rest: string, mark: char)
    requires IsQuote(mark)
    ensures Quotation((if c == mark || c == '\\' then ['\\', c] else [c]) + rest, mark)
         == ([c] + Quotation(rest, mark).0, Quotation(rest, mark).1)
  {
    if c == mark || c == '\\' {
      var line := ['\\', c] + rest;
      assert line[1..] == [c] + rest && ([c] + rest)[1..] == rest;
    } else {
      assert ([c] + rest)[1..] == rest;
    }
  }

  /** The state in which a quotation is opened: that of a command completes the argument at hand if it has text. */
  function Opening(p: Parser, mark: char, substitute: bool): Parser
    requires IsQuote(mark)
  {
    (if mark == '`' && substitute then Separated(p.(separated := true)) else Separated(p)).(quoted := QuoteOf(mark))
  }

  lemma QuotedLineStops(p: Parser, r: Reading, mark: char, text: string, end: string, fail: bool, substitute: bool,
                        runs: string -> bool)
    requires Stands(p, r) && IsQuote(mark) && (end == "" || IsBreak(end))
    ensures Onward(p, [mark] + (Escaped(text, Special(mark)) + end), r.mid, fail, substitute, runs)
         == (Held(Opening(p, mark, substitute), text), Continue)
  {
    var inner := Escaped(text, Special(mark)) + end;
    var line := [mark] + inner;
    if r.mid {
      RawIsOver(p, line, fail, substitute, runs);
    }
    MarkOf(mark);
    QuoteOpens(p, mark, inner, fail, substitute, runs);
    QuotationBreaks(text, mark, end);
    hide Turn, Quotation;
    assert Turn(p, line, fail, substitute, runs) == Return(Held(Opening(p, mark, substitute), text), Continue);
  }

  /** The rest of the quotation is read as if it had not been broken. */
  lemma QuotedLineGoesOn(p: Parser, r: Reading, mark: char, text: string, more: string, rest: string, fail: bool,
                         substitute: bool, runs: string -> bool) returns (q: Parser)
    requires Stands(p, r) && Fits(r, InQuotes(mark, text + more), rest, substitute, runs) && (mark == '`' ==> substitute)
    requires var line := Escaped(more, Special(mark)) + ([mark] + rest);
             !TakesMark(ModeOf(Held(Opening(p, mark, substitute), text)), line, fail)
    ensures Run(Held(Opening(p, mark, substitute), text), Escaped(more, Special(mark)) + ([mark] + rest), fail, substitute, runs)
         == Run(q, rest, fail, substitute, runs)
    ensures Stands(q, Past(r, InQuotes(mark, text + more), rest, fail, substitute))
  {
    var s, line := Opening(p, mark, substitute), Escaped(more, Special(mark)) + ([mark] + rest);
    var h := Held(s, text);
    MarkOf(mark);
    assert line == Escaped(more, Special(mark)) + [mark] + rest;
    QuotationCloses(more, mark, rest);
    ResumedTurn(h, line, fail, substitute, runs);
    OpenExtends(s, text, more, Some(rest), substitute, runs);
    q := QuotesCloses(p, r, mark, text + more, rest, fail, substitute, runs);
    hide Turn, Run, Quotation, QuotedTurn;
    RunOn(h, line, q, rest, fail, substitute, runs);
  }

  lemma QuotesCloses(p: Parser, r: Reading, mark: char, text: string, rest: string, fail: bool, substitute: bool,
                     runs: string -> bool) returns (q: Parser)
    requires Stands(p, r) && Fits(r, InQuotes(mark, text), rest, substitute, runs)
    ensures QuotedTurn(Opening(p, mark, substitute), text, Some(rest), substitute, runs) == Go(q, rest)
    ensures Stands(q, Past(r, InQuotes(mark, text), rest, fail, substitute))
  {
    hide Ends;
    MarkOf(mark);
    if mark == '`' && substitute {
      var s := Separated(p.(separated := true));
      CommandCloses(s, text, rest, runs);
      q := s.(metaQuote := text == "" && !Ends(rest));
      BreakStands(p, r);
      CompletedTwice(Dropped(r));
    } else {
      TextCloses(Separated(p), QuoteOf(mark), text, rest, substitute, runs);
      q := WithText(Separated(p), text, rest);
      TextStands(p, r, text, rest);
    }
  }

  /**
   A line that stops in a quotation, with an escaped break or without, and the next line, are loaded as what they say
   with the quotation in one piece. Back-quotes may only be broken while commands are substituted, and a next line
   that starts with a mark loses it as long as no argument is complete.
   */
  lemma TwoLinesInQuotes(p: Parser, a: seq<Token>, mark: char, text: string, end: string, more: string, b: seq<Token>,
                         fail: bool, substitute: bool, runs: string -> bool)
    requires !p.nextLine && mark in {'"', '\'', '`'} && (end == "" || IsBreak(end)) && (mark == '`' ==> substitute)
    requires var rest := [mark] + (Escaped(text, Special(mark)) + end);
             Proper(START, a, rest, fail, substitute, runs)
    requires var r, t := Says(START, a, fail, substitute), InQuotes(mark, text + more);
             && Fits(r, t, Spelled(b, ""), substitute, runs)
             && Proper(Took(r, t, fail, substitute), b, "", fail, substitute, runs)
             && (fail && (Escaped(more, Special(mark)) + [mark])[0] == '!' ==>
                 r.done != [] || (mark == '`' && TextOf(r) != ""))
    ensures var (q, status) := Load(p, Some(Spelled(a, [mark] + (Escaped(text, Special(mark)) + end))), fail, substitute, runs);
            && status == Continue
            && LoadedAs(Load(q, Some(Escaped(more, Special(mark)) + ([mark] + Spelled(b, ""))), fail, substitute, runs),
                        Says(START, a + ([InQuotes(mark, text + more)] + b), fail, substitute))
  {
    var first := [mark] + (Escaped(text, Special(mark)) + end);
    var r, t := Says(START, a, fail, substitute), InQuotes(mark, text + more);
    var line := Escaped(more, Special(mark)) + ([mark] + Spelled(b, ""));
    assert line[0] == (Escaped(more, Special(mark)) + [mark])[0] && !Ends(first) && first != "";
    hide Load, Run, Proper, Says, Spelled, Onward, Stands, Fits, Took, Opening;
    var q0 := FirstPart(p, a, first, fail, substitute, runs);
    QuotedLineStops(q0, r, mark, text, end, fail, substitute, runs);
    OpeningFirst(q0, r, mark, text, substitute);
    var h := Held(Opening(q0, mark, substitute), text);
    var q := QuotedLineGoesOn(q0, r, mark, text, more, Spelled(b, ""), fail, substitute, runs);
    QuotesPast(q, r, t, b, fail, substitute, runs);
    SaysThrough(r, t, b, fail, substitute);
    SaysConcat(START, a, [t] + b, fail, substitute);
    CutFailures.LoadsOnward(h, line, fail, substitute, runs);
  }

  lemma FirstPart(p: Parser, a: seq<Token>, rest: string, fail: bool, substitute: bool, runs: string -> bool) returns (q: Parser)
    requires !p.nextLine && rest != "" && !Ends(rest) && Proper(START, a, rest, fail, substitute, runs)
    ensures var r := Says(START, a, fail, substitute);
            && Stands(q, r)
            && Load(p, Some(Spelled(a, rest)), fail, substitute, runs) == Onward(q, rest, r.mid, fail, substitute, runs)
  {
    q := TokensRead(FRESH, START, a, rest, fail, substitute, runs);
  }

  lemma SaysThrough(r: Reading, t: Token, b: seq<Token>, fail: bool, substitute: bool)
    ensures Says(r, [t] + b, fail, substitute) == Says(Took(r, t, fail, substitute), b, fail, substitute)
  {
    assert ([t] + b)[1..] == b;
  }

  lemma OpeningFirst(p: Parser, r: Reading, mark: char, text: string, substitute: bool)
    requires Stands(p, r) && IsQuote(mark) && (mark == '`' ==> substitute)
    ensures var h := Held(Opening(p, mark, substitute), text);
            && h.nextLine && !h.separated && h.quoted != Unquoted
            && (ModeOf(h).word.first <==> r.done == [] && (mark == '`' ==> TextOf(r) == ""))
  {
    MarkOf(mark);
  }

  // ---------------------------------------------------------------- cut lines

  /** A line that comes in pieces, cut in its quotations, is loaded as what it says. */
  lemma FeedWritten(p: Parser, tokens: seq<Token>, pieces: seq<string>, fail: bool, substitute: bool, runs: string -> bool)
    requires !p.nextLine && Proper(START, tokens, "", fail, substitute, runs)
    requires pieces != [] && Concat(pieces) == Spelled(tokens, "")
    requires WellCut(LoadsWith(fail, substitute, runs), p, Outside(Word(true, true)), pieces, fail, substitute)
    ensures var x := Load(p, Some(Spelled(tokens, "")), fail, substitute, runs);
            && Feed(LoadsWith(fail, substitute, runs), p, pieces) == (x.0, Continues(|pieces| - 1) + [x.1])
            && LoadedAs(x, Says(START, tokens, fail, substitute))
  {
    hide Load, WellCut, Feed, Concat, Faithful, Proper, Says, Spelled, LoadedAs, Continues;
    assert Begun(p) == FRESH && ModeOf(FRESH) == Outside(Word(true, true));
    LoadWritten(p, tokens, fail, substitute, runs);
    NotAnError(Load(p, Some(Spelled(tokens, "")), fail, substitute, runs), Says(START, tokens, fail, substitute));
    FeedIsLoad(p, pieces, fail, substitute, runs);
    FeedSucceeds(p, pieces, fail, substitute, runs);
  }

  lemma NotAnError(x: (Parser, Status), r: Reading)
    requires LoadedAs(x, r)
    ensures x.1 != Error
  {
  }
}
