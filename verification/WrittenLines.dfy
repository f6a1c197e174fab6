/**
 Configuration lines as they may be written: arguments of plain and quoted text, commands, whitespace, comments, and
 the mark of a line that may fail. What such a line says is defined on its parts, without the parser; the parser
 reads exactly that.
 */
module WrittenLines {
  import opened Text
  import opened ConfigParser
  import opened ParserRoundTrip

  datatype Token =
    | Gap(c: char)                        // whitespace
    | Break(c: char)                      // a line break behind a backslash
    | Raw(c: char)                        // a character as it is
    | Kept(c: char)                       // a character behind a backslash
    | InQuotes(mark: char, text: string)

  predicate Legal(t: Token) {
    match t
    case Gap(c) => c in {' ', '\t', '\r', '\n'}
    case Break(c) => c in {'\r', '\n'}
    case Raw(c) => c !in {' ', '\t', '\r', '\n', '"', '\'', '`', '\\'}
    case Kept(c) => c !in {'\r', '\n'}
    case InQuotes(mark, _) => mark in {'"', '\'', '`'}
  }

  function Spelling(t: Token): (s: string)
    ensures s != ""
  {
    match t
    case Gap(c) => [c]
    case Break(c) => ['\\', c]
    case Raw(c) => [c]
    case Kept(c) => ['\\', c]
    case InQuotes(mark, text) => [mark] + (Escaped(text, Special(mark)) + [mark])
  }

  /** The line, up to a rest that is not made of tokens. */
  function Spelled(tokens: seq<Token>, rest: string): string {
    if tokens == [] then rest else Spelling(tokens[0]) + Spelled(tokens[1..], rest)
  }

  // ---------------------------------------------------------------- what a line says

  /**
   What has been read: the complete arguments, the one at hand if there is one, whether its last character was one
   that stands as it is, and whether the line may fail.
   */
  datatype Reading = Reading(done: seq<string>, current: Option<string>, mid: bool, tolerant: bool)

  const START := Reading([], None, false, false)

  function TextOf(r: Reading): string {
    if r.current.Some? then r.current.value else ""
  }

  /** The argument at hand is complete. */
  function Completed(r: Reading): Reading {
    Reading(r.done + (if r.current.Some? then [r.current.value] else []), None, false, r.tolerant)
  }

  /** An argument without text does not count. */
  function Dropped(r: Reading): Reading {
    if TextOf(r) == "" then r.(current := None) else r
  }

  /** A mark is not text. It counts at the start of a line, and also behind an escape or a quotation. */
  predicate IsMark(r: Reading, t: Token, fail: bool) {
    fail && t == Raw('!') && !r.mid && r.done == []
  }

  function Took(r: Reading, t: Token, fail: bool, substitute: bool): Reading {
    match t
    case Gap(_) => Completed(r)
    case Break(_) => Completed(Dropped(r))
    case Raw(c) =>
      if IsMark(r, t, fail) then Dropped(r).(tolerant := true)
      else r.(current := Some(TextOf(r) + [c]), mid := true)
    case Kept(c) => r.(current := Some(TextOf(r) + [c]), mid := false)
    case InQuotes(mark, text) =>
      if mark == '`' && substitute then Completed(Dropped(r))
      else r.(current := Some(TextOf(r) + text), mid := false)
  }

  function Says(r: Reading, tokens: seq<Token>, fail: bool, substitute: bool): Reading
    decreases |tokens|
  {
    if tokens == [] then r else Says(Took(r, tokens[0], fail, substitute), tokens[1..], fail, substitute)
  }

  predicate Ends(rest: string) {
    rest == "" || rest[0] in {' ', '\t', '\r', '\n'}
  }

  /** Where a number sign does not open a comment, an escape does not end the line, and a command does not fail. */
  predicate Fits(r: Reading, t: Token, rest: string, substitute: bool, runs: string -> bool) {
    && Legal(t)
    && (t == Raw('#') ==> TextOf(r) != "")
    && (t.Break? ==> !IsLineEnd([t.c] + rest))
    && (t.InQuotes? && t.mark == '`' && substitute ==>
          var command := t.text + if Ends(rest) then "\n" else "";
          command != "" ==> runs(command))
  }

  predicate Proper(r: Reading, tokens: seq<Token>, rest: string, fail: bool, substitute: bool, runs: string -> bool)
    decreases |tokens|
  {
    tokens != [] ==>
      && Fits(r, tokens[0], Spelled(tokens[1..], rest), substitute, runs)
      && Proper(Took(r, tokens[0], fail, substitute), tokens[1..], rest, fail, substitute, runs)
  }

  // ---------------------------------------------------------------- one token

  /** The parser has read so much; that whitespace follows the argument at hand may only be noted. */
  predicate Stands(p: Parser, r: Reading) {
    var s := Separated(p);
    && s.bufferedData == r.done && s.holdingLine == TextOf(r) && p.tolerant == r.tolerant
    && p.quoted == Unquoted && !p.nextLine && !p.blank && p.holdingExecute == ""
    && (r.mid ==> !p.separated && TextOf(r) != "")
  }

  /** The main loop at the start of a turn, or within unquoted text. */
  function Onward(p: Parser, line: string, mid: bool, fail: bool, substitute: bool, runs: string -> bool): (Parser, Status) {
    if !mid then Run(p, line, fail, substitute, runs)
    else if line == "" then Finish(p)
    else
      match Plain(p, line)
      case Go(q, rest) => Run(q, rest, fail, substitute, runs)
      case Stop(q) => Finish(q)
      case Return(q, status) => (q, status)
  }

  lemma GapRead(p: Parser, c: char, rest: string, fail: bool, substitute: bool, runs: string -> bool)
    requires p.quoted == Unquoted && IsSpace(c)
    ensures Run(p, [c] + rest, fail, substitute, runs) == Run(p.(separated := true), rest, fail, substitute, runs)
  {
    var line := [c] + rest;
    assert line[0] == c && line[1..] == rest;
    assert Stripped(line) == Stripped(rest);
    hide Read;
  }

  /** A turn that reads unquoted text. */
  lemma PlainStarts(p: Parser, line: string, fail: bool, substitute: bool, runs: string -> bool)
    requires p.quoted == Unquoted && line != "" && !IsSpace(line[0]) && !IsQuote(line[0])
    requires !(fail && line[0] == '!' && Separated(p).bufferedData == [])
    ensures Run(p, line, fail, substitute, runs) == Onward(Separated(p), line, true, fail, substitute, runs)
  {
    hide Plain, PlainText;
    assert Stripped(line) == line;
    assert Turn(p, line, fail, substitute, runs) == Plain(Separated(p), line);
  }

  lemma {:induction false} NoCommentBehindText(line: string)
    ensures !PlainText(line, false).1.AtComment?
    decreases |line|
  {
    if line != "" {
      NoCommentBehindText(line[1..]);
    }
  }

  lemma RawOn(p: Parser, c: char, rest: string, fail: bool, substitute: bool, runs: string -> bool)
    requires Legal(Raw(c)) && !(c == '#' && p.holdingLine == "") && !p.nextLine && !p.blank
    ensures Onward(p, [c] + rest, true, fail, substitute, runs)
         == Onward(p.(holdingLine := p.holdingLine + [c]), rest, true, fail, substitute, runs)
  {
    var line, q := [c] + rest, p.(holdingLine := p.holdingLine + [c]);
    assert line[0] == c && line[1..] == rest;
    var (text, stop) := PlainText(rest, false);
    NoCommentBehindText(rest);
    assert PlainText(line, p.holdingLine == "") == ([c] + text, stop);
    assert p.holdingLine + ([c] + text) == q.holdingLine + text;
    hide PlainText, Run;
    assert Plain(p, line) == PlainTurn(p, [c] + text, stop);
    if rest == "" {
      RawEnds(p, c);
    } else {
      assert Plain(q, rest) == PlainTurn(q, text, stop);
    }
  }

  lemma RawEnds(p: Parser, c: char)
    requires Legal(Raw(c)) && !(c == '#' && p.holdingLine == "") && !p.nextLine && !p.blank
    ensures PlainText("", false) == ("", AtEnd)
    ensures Plain(p, [c]) == Stop(p.(holdingLine := p.holdingLine + [c]))
  {
    assert [c][1..] == "" && [c] + "" == [c];
  }

  /** Unquoted text that ends here: a new turn reads on. */
  lemma RawIsOver(p: Parser, rest: string, fail: bool, substitute: bool, runs: string -> bool)
    requires p.quoted == Unquoted && !p.separated && !p.nextLine && !p.blank
    requires rest == "" || IsSpace(rest[0]) || IsQuote(rest[0]) || rest[0] == '\\'
    ensures Onward(p, rest, true, fail, substitute, runs) == Run(p, rest, fail, substitute, runs)
  {
    if rest != "" {
      assert p.holdingLine + "" == p.holdingLine;
      if IsSpace(rest[0]) {
        assert rest == [rest[0]] + rest[1..];
        GapRead(p, rest[0], rest[1..], fail, substitute, runs);
        hide Turn;
      } else if rest[0] == '\\' {
        PlainStarts(p, rest, fail, substitute, runs);
      }
    }
  }

  lemma KeptRead(p: Parser, c: char, rest: string, fail: bool, substitute: bool, runs: string -> bool)
    requires p.quoted == Unquoted && Legal(Kept(c)) && !p.nextLine
    ensures Run(p, ['\\', c] + rest, fail, substitute, runs)
         == Run(Separated(p).(holdingLine := Separated(p).holdingLine + [c]), rest, fail, substitute, runs)
  {
    var line := ['\\', c] + rest;
    assert line[1..] == [c] + rest && ([c] + rest)[1..] == rest;
    PlainStarts(p, line, fail, substitute, runs);
    hide Run;
  }

  lemma BreakRead(p: Parser, c: char, rest: string, fail: bool, substitute: bool, runs: string -> bool)
    requires p.quoted == Unquoted && Legal(Break(c)) && !IsLineEnd([c] + rest) && !p.nextLine
    ensures Run(p, ['\\', c] + rest, fail, substitute, runs)
         == Run(Separated(p).(separated := true), rest, fail, substitute, runs)
  {
    var line := ['\\', c] + rest;
    assert line[1..] == [c] + rest;
    PlainStarts(p, line, fail, substitute, runs);
    GapRead(Separated(p), c, rest, fail, substitute, runs);
    var s := Separated(p);
    assert s.holdingLine + "" == s.holdingLine;
    assert Plain(s, line) == Go(s, [c] + rest);
    hide Run;
  }

  lemma MarkRead(p: Parser, rest: string, substitute: bool, runs: string -> bool)
    requires p.quoted == Unquoted && Separated(p).bufferedData == [] && !p.nextLine
    ensures Run(p, "!" + rest, true, substitute, runs)
         == Run(Separated(p).(tolerant := true), rest, true, substitute, runs)
  {
    var line := "!" + rest;
    assert line[0] == '!' && line[1..] == rest;
    assert Stripped(line) == line;
    hide Run;
    assert Turn(p, line, true, substitute, runs) == Go(Separated(p).(tolerant := true), rest);
    RunOn(p, line, Separated(p).(tolerant := true), rest, true, substitute, runs);
  }

  lemma MarkOf(mark: char)
    requires IsQuote(mark)
    ensures Mark(QuoteOf(mark)) == mark && (QuoteOf(mark) == ExecuteQuote <==> mark == '`')
  {
  }

  /** A turn opens a quotation; that of a command completes the argument at hand if it has text. */
  lemma QuoteOpens(p: Parser, mark: char, inner: string, fail: bool, substitute: bool, runs: string -> bool)
    requires p.quoted == Unquoted && !p.nextLine && !p.blank && IsQuote(mark)
    ensures var s := if mark == '`' && substitute then Separated(p.(separated := true)) else Separated(p);
            Turn(p, [mark] + inner, fail, substitute, runs) == Quoted(s.(quoted := QuoteOf(mark)), inner, substitute, runs)
  {
    var line := [mark] + inner;
    assert line[0] == mark && line[1..] == inner;
    assert Stripped(line) == line;
    hide Quoted;
  }

  /** The parser behind a quotation. */
  function WithText(s: Parser, text: string, rest: string): Parser {
    if Ends(rest) then s.(bufferedData := s.bufferedData + [s.holdingLine + text], holdingLine := "", metaQuote := false)
    else s.(holdingLine := s.holdingLine + text, metaQuote := false)
  }

  lemma TextCloses(s: Parser, style: Style, text: string, rest: string, substitute: bool, runs: string -> bool)
    requires s.quoted == Unquoted && !s.nextLine && !s.blank && !(style == ExecuteQuote && substitute)
    ensures QuotedTurn(s.(quoted := style), text, Some(rest), substitute, runs) == Go(WithText(s, text, rest), rest)
  {
  }

  lemma TextRead(p: Parser, mark: char, text: string, rest: string, fail: bool, substitute: bool, runs: string -> bool)
    requires p.quoted == Unquoted && !p.nextLine && !p.blank && Legal(InQuotes(mark, text))
    requires !(mark == '`' && substitute)
    ensures Run(p, Spelling(InQuotes(mark, text)) + rest, fail, substitute, runs)
         == Run(WithText(Separated(p), text, rest), rest, fail, substitute, runs)
  {
    var s, inner := Separated(p), Escaped(text, Special(mark)) + [mark] + rest;
    var line := Spelling(InQuotes(mark, text)) + rest;
    assert line == [mark] + inner;
    MarkOf(mark);
    QuoteOpens(p, mark, inner, fail, substitute, runs);
    QuotationCloses(text, mark, rest);
    TextCloses(s, QuoteOf(mark), text, rest, substitute, runs);
    hide Turn, Run, Quotation, QuotedTurn, WithText;
    RunOn(p, line, WithText(s, text, rest), rest, fail, substitute, runs);
  }

  lemma CommandCloses(s: Parser, text: string, rest: string, runs: string -> bool)
    requires s.quoted == Unquoted && !s.nextLine && !s.blank && s.holdingExecute == "" && s.holdingLine == ""
    requires var command := text + if Ends(rest) then "\n" else "";
             command != "" ==> runs(command)
    ensures QuotedTurn(s.(quoted := ExecuteQuote), text, Some(rest), true, runs)
         == Go(s.(metaQuote := text == "" && !Ends(rest)), rest)
  {
    assert "" + text == text && text + "" == text;
  }

  lemma CommandRead(p: Parser, text: string, rest: string, fail: bool, runs: string -> bool)
    requires p.quoted == Unquoted && !p.nextLine && !p.blank && p.holdingExecute == ""
    requires var command := text + if Ends(rest) then "\n" else "";
             command != "" ==> runs(command)
    ensures Run(p, Spelling(InQuotes('`', text)) + rest, fail, true, runs)
         == Run(Separated(p.(separated := true)).(metaQuote := text == "" && !Ends(rest)), rest, fail, true, runs)
  {
    var s, inner := Separated(p.(separated := true)), Escaped(text, Special('`')) + ['`'] + rest;
    var line, q := Spelling(InQuotes('`', text)) + rest, s.(metaQuote := text == "" && !Ends(rest));
    assert line == ['`'] + inner;
    QuoteOpens(p, '`', inner, fail, true, runs);
    QuotationCloses(text, '`', rest);
    CommandCloses(s, text, rest, runs);
    hide Turn, Run, Quotation, QuotedTurn, Ends;
    RunOn(p, line, q, rest, fail, true, runs);
  }

  /** What the parser stands at behind a token: a quotation before whitespace or the end completes its argument. */
  function Past(r: Reading, t: Token, rest: string, fail: bool, substitute: bool): Reading {
    var next := Took(r, t, fail, substitute);
    if t.InQuotes? && Ends(rest) then Completed(next) else next
  }

  /** Whitespace: what it does to the state is only noted. */
  lemma GapStands(p: Parser, r: Reading)
    requires Stands(p, r) && r.current != Some("")
    ensures Stands(p.(separated := true), Completed(r))
  {
  }

  lemma BreakStands(p: Parser, r: Reading)
    requires Stands(p, r)
    ensures Stands(Separated(p).(separated := true), Completed(Dropped(r)))
    ensures Stands(Separated(p.(separated := true)), Completed(Dropped(r)))
  {
  }

  lemma RawStands(p: Parser, r: Reading, c: char, mid: bool)
    requires Stands(p, r)
    ensures var s := Separated(p);
            Stands(s.(holdingLine := s.holdingLine + [c]), r.(current := Some(TextOf(r) + [c]), mid := mid))
  {
  }

  lemma MarkStands(p: Parser, r: Reading)
    requires Stands(p, r) && !r.mid
    ensures Stands(Separated(p).(tolerant := true), Dropped(r).(tolerant := true))
  {
  }

  lemma TextStands(p: Parser, r: Reading, text: string, rest: string)
    requires Stands(p, r)
    ensures var next := r.(current := Some(TextOf(r) + text), mid := false);
            Stands(WithText(Separated(p), text, rest), if Ends(rest) then Completed(next) else next)
  {
  }

  lemma CompletedTwice(r: Reading)
    ensures Completed(Completed(r)) == Completed(r)
  {
    var c := Completed(r);
    assert c.done + [] == c.done;
  }

  lemma TokenRead(p: Parser, r: Reading, t: Token, rest: string, fail: bool, substitute: bool, runs: string -> bool)
    returns (q: Parser)
    requires Stands(p, r) && Fits(r, t, rest, substitute, runs) && (r.current == Some("") ==> !t.Gap?)
    ensures Stands(q, Past(r, t, rest, fail, substitute))
    ensures Onward(p, Spelling(t) + rest, r.mid, fail, substitute, runs)
         == Onward(q, rest, Took(r, t, fail, substitute).mid, fail, substitute, runs)
  {
    var line, s := Spelling(t) + rest, Separated(p);
    hide Run, Plain, Ends, IsLineEnd;
    if r.mid && !t.Raw? {
      RawIsOver(p, line, fail, substitute, runs);
    }
    match t
    case Gap(c) =>
      GapRead(p, c, rest, fail, substitute, runs);
      q := p.(separated := true);
      GapStands(p, r);
    case Break(c) =>
      BreakRead(p, c, rest, fail, substitute, runs);
      q := s.(separated := true);
      BreakStands(p, r);
    case Raw(c) =>
      q := RawRead(p, r, c, rest, fail, substitute, runs);
    case Kept(c) =>
      KeptRead(p, c, rest, fail, substitute, runs);
      q := s.(holdingLine := s.holdingLine + [c]);
      RawStands(p, r, c, false);
    case InQuotes(mark, text) =>
      q := QuotesRead(p, r, mark, text, rest, fail, substitute, runs);
  }

  lemma QuotesRead(p: Parser, r: Reading, mark: char, text: string, rest: string, fail: bool, substitute: bool,
                   runs: string -> bool) returns (q: Parser)
    requires Stands(p, r) && Fits(r, InQuotes(mark, text), rest, substitute, runs)
    ensures Stands(q, Past(r, InQuotes(mark, text), rest, fail, substitute))
    ensures Run(p, Spelling(InQuotes(mark, text)) + rest, fail, substitute, runs) == Run(q, rest, fail, substitute, runs)
  {
    hide Run, Ends;
    if mark == '`' && substitute {
      CommandRead(p, text, rest, fail, runs);
      q := Separated(p.(separated := true)).(metaQuote := text == "" && !Ends(rest));
      BreakStands(p, r);
      CompletedTwice(Dropped(r));
    } else {
      TextRead(p, mark, text, rest, fail, substitute, runs);
      q := WithText(Separated(p), text, rest);
      TextStands(p, r, text, rest);
    }
  }

  lemma RawRead(p: Parser, r: Reading, c: char, rest: string, fail: bool, substitute: bool, runs: string -> bool)
    returns (q: Parser)
    requires Stands(p, r) && Fits(r, Raw(c), rest, substitute, runs)
    ensures Stands(q, Took(r, Raw(c), fail, substitute))
    ensures Onward(p, [c] + rest, r.mid, fail, substitute, runs)
         == Onward(q, rest, Took(r, Raw(c), fail, substitute).mid, fail, substitute, runs)
  {
    var line, s := [c] + rest, Separated(p);
    if IsMark(r, Raw(c), fail) {
      MarkRead(p, rest, substitute, runs);
      q := s.(tolerant := true);
      MarkStands(p, r);
    } else {
      if !r.mid {
        PlainStarts(p, line, fail, substitute, runs);
      }
      hide Run, Plain;
      RawOn(s, c, rest, fail, substitute, runs);
      q := s.(holdingLine := s.holdingLine + [c]);
      RawStands(p, r, c, true);
    }
  }

  // ---------------------------------------------------------------- lines

  /** Nothing is at hand, or it has text, or more of it follows. */
  predicate Open(r: Reading, rest: string) {
    r.current == Some("") ==> !Ends(rest)
  }

  /** The parser stands at what was read, or at the end of the line with everything complete. */
  predicate Reached(q: Parser, r: Reading, rest: string) {
    (Stands(q, r) && Open(r, rest)) || (rest == "" && !r.mid && Stands(q, Completed(r)))
  }

  /** In front of whitespace it makes no difference whether the argument is complete already. */
  lemma GapCompletes(r: Reading, tokens: seq<Token>, rest: string, fail: bool, substitute: bool, runs: string -> bool)
    requires tokens != [] && tokens[0].Gap? && Proper(r, tokens, rest, fail, substitute, runs)
    ensures Proper(Completed(r), tokens, rest, fail, substitute, runs)
    ensures Says(Completed(r), tokens, fail, substitute) == Says(r, tokens, fail, substitute)
  {
    CompletedTwice(r);
  }

  lemma OnlyGapsEnd(t: Token, rest: string)
    requires Legal(t) && Ends(Spelling(t) + rest)
    ensures t.Gap?
  {
    assert (Spelling(t) + rest)[0] == Spelling(t)[0];
  }

  lemma StaysOpen(r: Reading, t: Token, rest: string, fail: bool, substitute: bool)
    requires Legal(t) && Open(r, Spelling(t) + rest) && !(t.InQuotes? && Ends(rest))
    ensures Open(Took(r, t, fail, substitute), rest)
  {
  }

  /** The parser reads the tokens as what they say, up to a rest that is not made of tokens. */
  lemma {:induction false} TokensRead(p: Parser, r: Reading, tokens: seq<Token>, rest: string, fail: bool, substitute: bool,
                                      runs: string -> bool) returns (q: Parser)
    requires Stands(p, r) && Proper(r, tokens, rest, fail, substitute, runs) && Open(r, Spelled(tokens, rest))
    requires Ends(rest) ==> rest == ""
    ensures Reached(q, Says(r, tokens, fail, substitute), rest)
    ensures Onward(p, Spelled(tokens, rest), r.mid, fail, substitute, runs)
         == Onward(q, rest, Says(r, tokens, fail, substitute).mid, fail, substitute, runs)
    decreases |tokens|
  {
    q := p;
    if tokens != [] {
      var t, more := tokens[0], tokens[1..];
      var line, next := Spelled(more, rest), Took(r, t, fail, substitute);
      assert Proper(next, more, rest, fail, substitute, runs);
      assert Says(r, tokens, fail, substitute) == Says(next, more, fail, substitute);
      hide Onward, Stands, Took, Legal, Spelling;
      if r.current == Some("") && t.Gap? {
        GapEnds(t, line);
      }
      q := TokenRead(p, r, t, line, fail, substitute, runs);
      if !(t.InQuotes? && Ends(line)) {
        StaysOpen(r, t, line, fail, substitute);
        q := TokensRead(q, next, more, rest, fail, substitute, runs);
      } else if more != [] {
        OnlyGapsEnd(more[0], Spelled(more[1..], rest));
        GapCompletes(next, more, rest, fail, substitute, runs);
        NotMid(r, t, fail, substitute);
        q := TokensRead(q, Completed(next), more, rest, fail, substitute, runs);
      } else {
        NotMid(r, t, fail, substitute);
      }
    }
  }

  lemma GapEnds(t: Token, rest: string)
    requires Legal(t) && t.Gap?
    ensures Ends(Spelling(t) + rest)
  {
  }

  lemma NotMid(r: Reading, t: Token, fail: bool, substitute: bool)
    requires t.InQuotes?
    ensures !Took(r, t, fail, substitute).mid
  {
  }

  /** What a line that says so much is loaded as. */
  predicate LoadedAs(x: (Parser, Status), r: Reading) {
    && x.0.bufferedData == Completed(r).done
    && x.1 == (if r.tolerant then Fallible else Loaded)
    && !x.0.nextLine
  }

  lemma ReachedIsLoaded(q: Parser, r: Reading, fail: bool, substitute: bool, runs: string -> bool)
    requires Reached(q, r, "")
    ensures LoadedAs(Onward(q, "", r.mid, fail, substitute, runs), r)
  {
    CompletedTwice(r);
  }

  /** The rest of a line behind a quotation. */
  lemma QuotesPast(p: Parser, r: Reading, t: Token, tokens: seq<Token>, fail: bool, substitute: bool, runs: string -> bool)
    requires t.InQuotes? && Legal(t) && Stands(p, Past(r, t, Spelled(tokens, ""), fail, substitute))
    requires Proper(Took(r, t, fail, substitute), tokens, "", fail, substitute, runs)
    ensures LoadedAs(Run(p, Spelled(tokens, ""), fail, substitute, runs),
                     Says(Took(r, t, fail, substitute), tokens, fail, substitute))
  {
    var line, next := Spelled(tokens, ""), Took(r, t, fail, substitute);
    assert Onward(p, line, false, fail, substitute, runs) == Run(p, line, fail, substitute, runs);
    NotMid(r, t, fail, substitute);
    var q := p;
    if !Ends(line) {
      q := TokensRead(p, next, tokens, "", fail, substitute, runs);
    } else if tokens != [] {
      OnlyGapsEnd(tokens[0], Spelled(tokens[1..], ""));
      GapCompletes(next, tokens, "", fail, substitute, runs);
      q := TokensRead(p, Completed(next), tokens, "", fail, substitute, runs);
    }
    hide Run, Proper;
    ReachedIsLoaded(q, Says(next, tokens, fail, substitute), fail, substitute, runs);
  }

  /** A line is loaded as what it says, from any state in which no line continues. */
  lemma LoadWritten(p: Parser, tokens: seq<Token>, fail: bool, substitute: bool, runs: string -> bool)
    requires !p.nextLine && Proper(START, tokens, "", fail, substitute, runs)
    ensures LoadedAs(Load(p, Some(Spelled(tokens, "")), fail, substitute, runs), Says(START, tokens, fail, substitute))
  {
    var q := TokensRead(FRESH, START, tokens, "", fail, substitute, runs);
    ReachedIsLoaded(q, Says(START, tokens, fail, substitute), fail, substitute, runs);
  }

  /** A number sign where no argument is at hand changes nothing, whatever is behind it. */
  lemma CommentIsLoaded(p: Parser, tokens: seq<Token>, comment: string, fail: bool, substitute: bool, runs: string -> bool)
    requires !p.nextLine && Proper(START, tokens, "#" + comment, fail, substitute, runs)
    requires Says(START, tokens, fail, substitute).current.None?
    ensures LoadedAs(Load(p, Some(Spelled(tokens, "#" + comment)), fail, substitute, runs), Says(START, tokens, fail, substitute))
  {
    var r, rest := Says(START, tokens, fail, substitute), "#" + comment;
    var q := TokensRead(FRESH, START, tokens, rest, fail, substitute, runs);
    CommentRead(q, r, rest, fail, substitute, runs);
    hide Run, Says, Proper, Spelled;
  }

  lemma CommentRead(p: Parser, r: Reading, rest: string, fail: bool, substitute: bool, runs: string -> bool)
    requires Stands(p, r) && r.current.None? && rest != "" && rest[0] == '#'
    ensures LoadedAs(Onward(p, rest, r.mid, fail, substitute, runs), r)
  {
    PlainStarts(p, rest, fail, substitute, runs);
    assert PlainText(rest, true) == ("", AtComment);
    assert r.done + [] == r.done;
    hide Run;
  }
}
