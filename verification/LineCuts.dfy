/**
 A configuration line that is cut inside quotations means the same as the whole line: the parser stops within the
 quotation at each cut, asks for more, and goes on with the next piece as if there had been no cut.
 */
module LineCuts {
  import opened Text
  import opened ConfigParser
  import opened Reader

  /**
   In a quotation, and not right after an escaping backslash or an escaped line end. A back-quotation may only be
   cut while commands are substituted: otherwise the parser holds its first part as that of a command.
   */
  predicate MayCut(mode: Mode, substitute: bool) {
    mode.Inside? && (mode.mark == '`' ==> substitute)
  }

  /**
   In a quotation that continues, a leading exclamation mark is taken for the mark of a line that may fail; but only
   if failures are checked, and no argument is complete.
   */
  predicate TakesMark(mode: Mode, line: string, fail: bool) {
    fail && mode.Inside? && mode.word.first && line != "" && line[0] == '!'
  }

  /** The argument at hand at the start of a turn, where whitespace before may complete one. */
  function WordOf(p: Parser): Word {
    var s := Separated(p);
    Word(s.holdingLine == "", s.bufferedData == [])
  }

  /** The reader's view of the parser. */
  function ModeOf(p: Parser): Mode {
    if p.quoted == Unquoted then Outside(WordOf(p)) else Inside(Mark(p.quoted), WordOf(p))
  }

  function Concat(pieces: seq<string>): string {
    if pieces == [] then "" else pieces[0] + Concat(pieces[1..])
  }

  type Loader = (Parser, string) -> (Parser, Status)

  /** The routine that is called with one line after another. */
  function LoadsWith(fail: bool, substitute: bool, runs: string -> bool): Loader {
    (p: Parser, line: string) => Load(p, Some(line), fail, substitute, runs)
  }

  /** No piece is empty, every cut that is reached is in a place to cut, and no piece loses an exclamation mark. */
  predicate WellCut(load: Loader, p: Parser, mode: Mode, pieces: seq<string>, fail: bool, substitute: bool)
    decreases |pieces|
  {
    |pieces| >= 2 ==>
      var next := Scan(mode, pieces[0], fail, substitute);
      && pieces[0] != "" && pieces[1] != "" && MayCut(next, substitute)
      && var (q, status) := load(p, pieces[0]);
         (status == Continue ==>
            !TakesMark(next, pieces[1], fail) && WellCut(load, q, next, pieces[1..], fail, substitute))
  }

  /** One call after another, for as long as the parser asks for more. */
  function Feed(load: Loader, p: Parser, pieces: seq<string>): (r: (Parser, seq<Status>))
    ensures |r.1| <= |pieces|
    decreases |pieces|
  {
    if pieces == [] then (p, [])
    else
      var (q, status) := load(p, pieces[0]);
      if status != Continue then (q, [status])
      else
        var (r, statuses) := Feed(load, q, pieces[1..]);
        (r, [Continue] + statuses)
  }

  function Continues(n: nat): seq<Status> {
    if n == 0 then [] else [Continue] + Continues(n - 1)
  }

  // ---------------------------------------------------------------- turns

  /** The same outcome; a call that fails may leave the note that a line continues, or not. */
  predicate Alike(x: (Parser, Status), y: (Parser, Status)) {
    x.1 == y.1 && (if x.1 == Error then x.0.(nextLine := false) == y.0.(nextLine := false) else x.0 == y.0)
  }

  predicate AlikeTurns(t: Turned, u: Turned) {
    if t.Return? && u.Return? then Alike((t.p, t.status), (u.p, u.status)) else t == u
  }

  /** What reading a text does to a turn when more text follows a cut in a quotation. */
  predicate Extends(turn: Turned, longer: Turned, mode: Mode, b: string, fail: bool, substitute: bool, runs: string -> bool)
    requires b != ""
  {
    match turn
    case Go(q, rest) =>
      longer == Go(q, rest + b) && !q.blank && q.quoted == Unquoted && Scan(ModeOf(q), rest, fail, substitute) == mode
    case Return(q, status) =>
      if status == Error then longer == turn
      else
        && status == Continue && q.nextLine && !q.separated && !q.blank && q.quoted != Unquoted && mode == ModeOf(q)
        && AlikeTurns(longer, Quoted(q, b, substitute, runs))
    case Stop(_) => false
  }

  /** A closed quotation is over: more text behind it is left for the next turn, or a command fails all the same. */
  lemma ClosedExtends(p: Parser, text: string, rest: string, b: string, substitute: bool, runs: string -> bool)
    requires p.quoted != Unquoted && rest != ""
    ensures var turn, longer := QuotedTurn(p, text, Some(rest), substitute, runs),
                                QuotedTurn(p, text, Some(rest + b), substitute, runs);
            (turn.Go? && turn.line == rest && longer == Go(turn.p, rest + b))
            || (turn.Return? && turn.status == Error && longer == turn)
  {
    assert (rest + b)[0] == rest[0];
  }

  /** Behind a closing mark, the reader's view is that of the parser. */
  lemma MarkWord(p: Parser, text: string, rest: string, substitute: bool)
    requires p.quoted != Unquoted && !p.separated && rest != ""
    ensures var q := AfterMark(p, text, rest, substitute);
            var mark := Mark(p.quoted);
            && !q.separated && !q.blank
            && WordOf(q) == Behind(mark, WordAfter(mark, WordOf(p), text, substitute), rest[0], substitute)
  {
    hide IsSpace;
    if p.quoted != ExecuteQuote || !substitute {
      assert |p.holdingLine + text| == |p.holdingLine| + |text|;
    }
  }

  lemma ClosedMode(p: Parser, text: string, rest: string, substitute: bool, runs: string -> bool)
    requires p.quoted != Unquoted && !p.separated && rest != ""
    requires QuotedTurn(p, text, Some(rest), substitute, runs).Go?
    ensures var q := QuotedTurn(p, text, Some(rest), substitute, runs).p;
            var mark := Mark(p.quoted);
            && !q.blank
            && ModeOf(q) == Outside(Behind(mark, WordAfter(mark, WordOf(p), text, substitute), rest[0], substitute))
  {
    MarkWord(p, text, rest, substitute);
    hide AfterMark, WordAfter, Behind;
  }

  /** The parser when a text in quotation marks has been read, and no closing mark. */
  function Held(p: Parser, text: string): Parser {
    (if p.quoted == ExecuteQuote then p.(holdingExecute := p.holdingExecute + text)
     else p.(holdingLine := p.holdingLine + text)).(nextLine := true)
  }

  lemma MarkAfterHeld(p: Parser, text: string, more: string, rest: string, substitute: bool)
    requires p.quoted != Unquoted && (p.quoted == ExecuteQuote ==> substitute)
    ensures AfterMark(Held(p, text), more, rest, substitute).(nextLine := false)
         == AfterMark(p, text + more, rest, substitute).(nextLine := false)
  {
    if p.quoted == ExecuteQuote {
      assert p.holdingExecute + (text + more) == p.holdingExecute + text + more;
    } else {
      assert p.holdingLine + (text + more) == p.holdingLine + text + more;
    }
  }

  lemma OpenExtends(p: Parser, text: string, more: string, end: Option<string>, substitute: bool, runs: string -> bool)
    requires p.quoted != Unquoted && (p.quoted == ExecuteQuote ==> substitute)
    ensures QuotedTurn(p, text, None, substitute, runs) == Return(Held(p, text), Continue)
    ensures AlikeTurns(QuotedTurn(p, text + more, end, substitute, runs),
                       QuotedTurn(Held(p, text), more, end, substitute, runs))
  {
    if end.Some? {
      MarkAfterHeld(p, text, more, end.value, substitute);
    } else {
      assert p.holdingLine + (text + more) == p.holdingLine + text + more;
      assert p.holdingExecute + (text + more) == p.holdingExecute + text + more;
    }
  }

  lemma HeldMode(p: Parser, text: string, substitute: bool)
    requires p.quoted != Unquoted && !p.separated && (p.quoted == ExecuteQuote ==> substitute)
    ensures ModeOf(Held(p, text)) == Inside(Mark(p.quoted), WordAfter(Mark(p.quoted), WordOf(p), text, substitute))
  {
  }

  lemma QuotedExtends(p: Parser, a: string, b: string, fail: bool, substitute: bool, runs: string -> bool)
    requires p.quoted != Unquoted && !p.separated && !p.blank && b != ""
    requires MayCut(Scan(ModeOf(p), a, fail, substitute), substitute)
    ensures Extends(Quoted(p, a, substitute, runs), Quoted(p, a + b, substitute, runs),
                    Scan(ModeOf(p), a, fail, substitute), b, fail, substitute, runs)
  {
    hide Scan, Quotation;
    var mark, w := Mark(p.quoted), WordOf(p);
    QuotationExtends(ModeOf(p), a, mark, w, b, fail, substitute);
    var (text, after) := Quotation(a, mark);
    if after.Some? {
      ScanEmpty(Closed(mark, WordAfter(mark, w, text, substitute)), fail, substitute);
      ClosedExtends(p, text, after.value, b, substitute, runs);
      if QuotedTurn(p, text, after, substitute, runs).Go? {
        ClosedMode(p, text, after.value, substitute, runs);
        ScanClosed(mark, WordAfter(mark, w, text, substitute), after.value, fail, substitute);
      }
    } else {
      var (more, end) := Quotation(b, mark);
      HeldMode(p, text, substitute);
      OpenExtends(p, text, more, end, substitute, runs);
    }
  }

  /** Behind unquoted text, the reader's view is that of the parser. */
  lemma PlainWord(p: Parser, text: string, stop: Halt)
    requires !p.separated && !p.blank && (stop.AtSpace? || stop.AtQuote? || stop.AtEscape?)
    ensures var q := PlainTurn(p, text, stop).p;
            && !q.blank && q.quoted == p.quoted
            && WordOf(q) == if stop.AtSpace? then Spaced(Taken(WordOf(p), text)) else Taken(WordOf(p), text)
  {
    assert |p.holdingLine + text| == |p.holdingLine| + |text|;
  }

  lemma PlainTurnExtends(p: Parser, a: string, b: string, fail: bool, substitute: bool, runs: string -> bool)
    requires a != "" && b != "" && !p.separated && !p.blank && p.quoted == Unquoted
    requires NoMark(WordOf(p), a, fail) && Scan(ModeOf(p), a, fail, substitute).Inside?
    ensures Extends(Plain(p, a), Plain(p, a + b), Scan(ModeOf(p), a, fail, substitute), b, fail, substitute, runs)
  {
    hide PlainText, Scan, Spaced, Taken;
    PlainExtends(a, WordOf(p), b, fail, substitute);
    var (text, stop) := PlainText(a, p.holdingLine == "");
    PlainWord(p, text, stop);
    ScanEmpty(ModeOf(Plain(p, a).p), fail, substitute);
  }

  /** Within a quotation only if the last line ended there. */
  predicate Resumable(p: Parser) {
    (p.quoted != Unquoted ==> p.nextLine) && !p.blank
  }

  lemma OpenedLonger(p: Parser, a: string, b: string, substitute: bool)
    requires a != ""
    ensures var (q, l) := Opened(p, a, substitute);
            Opened(p, a + b, substitute) == (q, l + b) && q.separated == p.separated
  {
    assert (a + b)[0] == a[0] && (a + b)[1..] == a[1..] + b;
  }

  lemma OpenedScan(p: Parser, a: string, fail: bool, substitute: bool)
    requires a != "" && p.quoted == Unquoted && !p.separated && !p.blank
    ensures var (q, l) := Opened(p, a, substitute);
            !q.blank && Scan(ModeOf(q), l, fail, substitute) == Scan(ModeOf(p), a, fail, substitute)
  {
  }

  lemma QuotationOrTextExtends(p: Parser, a: string, b: string, fail: bool, substitute: bool, runs: string -> bool)
    requires b != "" && !p.separated && !p.blank && MayCut(Scan(ModeOf(p), a, fail, substitute), substitute)
    requires p.quoted == Unquoted ==> a != "" && NoMark(WordOf(p), a, fail)
    ensures Extends(if p.quoted != Unquoted then Quoted(p, a, substitute, runs) else Plain(p, a),
                    if p.quoted != Unquoted then Quoted(p, a + b, substitute, runs) else Plain(p, a + b),
                    Scan(ModeOf(p), a, fail, substitute), b, fail, substitute, runs)
  {
    if p.quoted != Unquoted {
      QuotedExtends(p, a, b, fail, substitute, runs);
    } else {
      PlainTurnExtends(p, a, b, fail, substitute, runs);
    }
  }

  /** An exclamation mark that is taken away changes nothing in the reader's view. */
  lemma MarkTakenScan(p: Parser, a: string, fail: bool, substitute: bool)
    requires a != "" && a[0] == '!' && fail && p.quoted == Unquoted && !p.separated && p.bufferedData == []
    ensures Scan(ModeOf(p.(tolerant := true, nextLine := false)), a[1..], fail, substitute)
         == Scan(ModeOf(p), a, fail, substitute)
  {
  }

  lemma ReadExtends(p: Parser, a: string, b: string, fail: bool, substitute: bool, runs: string -> bool)
    requires a != "" && b != "" && Resumable(p) && !p.separated && !TakesMark(ModeOf(p), a, fail)
    requires MayCut(Scan(ModeOf(p), a, fail, substitute), substitute)
    ensures Extends(Read(p, a, fail, substitute, runs), Read(p, a + b, fail, substitute, runs),
                    Scan(ModeOf(p), a, fail, substitute), b, fail, substitute, runs)
  {
    hide Scan, Plain, Quoted;
    assert (a + b)[0] == a[0];
    if fail && a[0] == '!' && p.bufferedData == [] {
      assert (a + b)[1..] == a[1..] + b;
      MarkTakenScan(p, a, fail, substitute);
    } else if p.nextLine {
      QuotationOrTextExtends(p, a, b, fail, substitute, runs);
    } else {
      OpenedLonger(p, a, b, substitute);
      OpenedScan(p, a, fail, substitute);
      var (q, l) := Opened(p, a, substitute);
      assert q.quoted == Unquoted ==> l == a && q == p;
      QuotationOrTextExtends(q, l, b, fail, substitute, runs);
    }
  }

  /** What a turn reads, and from which state. */
  function Start(p: Parser, line: string): (Parser, string) {
    var rest := if p.quoted == Unquoted then Stripped(line) else line;
    (Separated(if rest != line then p.(separated := true) else p), rest)
  }

  lemma TurnIsRead(p: Parser, line: string, fail: bool, substitute: bool, runs: string -> bool)
    requires line != "" && Start(p, line).1 != ""
    ensures var (q, rest) := Start(p, line);
            Turn(p, line, fail, substitute, runs) == Read(q, rest, fail, substitute, runs)
  {
  }

  lemma StartExtends(p: Parser, a: string, b: string, fail: bool, substitute: bool)
    requires a != "" && !p.blank && Scan(ModeOf(p), a, fail, substitute).Inside?
    ensures var (q, rest) := Start(p, a);
            && rest != "" && Start(p, a + b) == (q, rest + b) && !q.separated && !q.blank
            && q.nextLine == p.nextLine && q.quoted == p.quoted
            && Scan(ModeOf(q), rest, fail, substitute) == Scan(ModeOf(p), a, fail, substitute)
            && (p.quoted != Unquoted ==> rest == a && ModeOf(q) == ModeOf(p))
  {
    hide Scan, Stripped;
    if p.quoted == Unquoted {
      StrippedExtends(WordOf(p), a, b, fail, substitute);
      assert Stripped(a) + b == a + b <==> Stripped(a) == a by {
        assert |Stripped(a) + b| == |Stripped(a)| + |b|;
      }
    }
  }

  lemma TurnExtends(p: Parser, a: string, b: string, fail: bool, substitute: bool, runs: string -> bool)
    requires a != "" && b != "" && Resumable(p) && !TakesMark(ModeOf(p), a, fail)
    requires MayCut(Scan(ModeOf(p), a, fail, substitute), substitute)
    ensures Extends(Turn(p, a, fail, substitute, runs), Turn(p, a + b, fail, substitute, runs),
                    Scan(ModeOf(p), a, fail, substitute), b, fail, substitute, runs)
  {
    hide Scan, Read, Turn;
    StartExtends(p, a, b, fail, substitute);
    var (q, rest) := Start(p, a);
    TurnIsRead(p, a, fail, substitute, runs);
    TurnIsRead(p, a + b, fail, substitute, runs);
    ReadExtends(q, rest, b, fail, substitute, runs);
  }

  // ---------------------------------------------------------------- lines

  lemma ResumedTurn(p: Parser, line: string, fail: bool, substitute: bool, runs: string -> bool)
    requires line != "" && p.nextLine && !p.separated && p.quoted != Unquoted && !TakesMark(ModeOf(p), line, fail)
    ensures Turn(p, line, fail, substitute, runs) == Quoted(p, line, substitute, runs)
  {
  }

  /** The parser stops at the cut and the rest is read from there as the whole line would be, or a command fails. */
  predicate CutAt(p: Parser, a: string, b: string, mode: Mode, fail: bool, substitute: bool, runs: string -> bool) {
    var (q, status) := Run(p, a, fail, substitute, runs);
    if status == Continue then
      && q.nextLine && !q.separated && !q.blank && ModeOf(q) == mode
      && (!TakesMark(ModeOf(q), b, fail) ==>
          Alike(Run(p, a + b, fail, substitute, runs), Run(q, b, fail, substitute, runs)))
    else
      status == Error && Run(p, a + b, fail, substitute, runs) == (q, Error)
  }

  lemma CutLater(p: Parser, a: string, q: Parser, rest: string, b: string, mode: Mode, fail: bool, substitute: bool,
                 runs: string -> bool)
    requires a != "" && Turn(p, a, fail, substitute, runs) == Go(q, rest)
    requires Turn(p, a + b, fail, substitute, runs) == Go(q, rest + b)
    requires CutAt(q, rest, b, mode, fail, substitute, runs)
    ensures CutAt(p, a, b, mode, fail, substitute, runs)
  {
    assert Run(p, a, fail, substitute, runs) == Run(q, rest, fail, substitute, runs);
  }

  lemma RunAlike(p: Parser, line: string, q: Parser, rest: string, fail: bool, substitute: bool, runs: string -> bool)
    requires line != "" && rest != ""
    requires AlikeTurns(Turn(p, line, fail, substitute, runs), Turn(q, rest, fail, substitute, runs))
    ensures Alike(Run(p, line, fail, substitute, runs), Run(q, rest, fail, substitute, runs))
  {
  }

  lemma CutHere(p: Parser, a: string, q: Parser, b: string, fail: bool, substitute: bool, runs: string -> bool)
    requires a != "" && b != "" && Turn(p, a, fail, substitute, runs) == Return(q, Continue)
    requires q.nextLine && !q.separated && !q.blank && q.quoted != Unquoted
    requires AlikeTurns(Turn(p, a + b, fail, substitute, runs), Quoted(q, b, substitute, runs))
    ensures CutAt(p, a, b, ModeOf(q), fail, substitute, runs)
  {
    assert Run(p, a, fail, substitute, runs) == (q, Continue);
    if !TakesMark(ModeOf(q), b, fail) {
      ResumedTurn(q, b, fail, substitute, runs);
      RunAlike(p, a + b, q, b, fail, substitute, runs);
    }
  }

  lemma FailedHere(p: Parser, a: string, q: Parser, b: string, mode: Mode, fail: bool, substitute: bool,
                   runs: string -> bool)
    requires a != "" && Turn(p, a, fail, substitute, runs) == Turn(p, a + b, fail, substitute, runs) == Return(q, Error)
    ensures CutAt(p, a, b, mode, fail, substitute, runs)
  {
  }

  lemma {:induction false} RunExtends(p: Parser, a: string, b: string, fail: bool, substitute: bool, runs: string -> bool)
    requires a != "" && b != "" && Resumable(p) && !TakesMark(ModeOf(p), a, fail)
    requires MayCut(Scan(ModeOf(p), a, fail, substitute), substitute)
    ensures CutAt(p, a, b, Scan(ModeOf(p), a, fail, substitute), fail, substitute, runs)
    decreases |a|, p.nextLine, p.quoted != Unquoted
  {
    hide Scan, Turn, Run;
    var mode := Scan(ModeOf(p), a, fail, substitute);
    TurnExtends(p, a, b, fail, substitute, runs);
    var turn := Turn(p, a, fail, substitute, runs);
    if turn.Go? {
      ScanEmpty(ModeOf(turn.p), fail, substitute);
      RunExtends(turn.p, turn.line, b, fail, substitute, runs);
      CutLater(p, a, turn.p, turn.line, b, mode, fail, substitute, runs);
    } else if turn.status == Error {
      FailedHere(p, a, turn.p, b, mode, fail, substitute, runs);
    } else {
      CutHere(p, a, turn.p, b, fail, substitute, runs);
    }
  }

  // ---------------------------------------------------------------- calls

  /** The state from which a line is read. */
  function Begun(p: Parser): Parser {
    if p.nextLine then p else Reset(p)
  }

  lemma TurnNeverBlank(p: Parser, line: string, fail: bool, substitute: bool, runs: string -> bool)
    requires line != "" && !p.blank
    ensures !Turn(p, line, fail, substitute, runs).p.blank
  {
    var (q, rest) := Start(p, line);
    if rest != "" {
      TurnIsRead(p, line, fail, substitute, runs);
      hide Turn, Stripped, Quoted, Plain;
      var (open, l) := if q.nextLine then (q, rest) else Opened(q, rest, substitute);
      if open.quoted != Unquoted {
        QuotedNeverBlank(open, l, substitute, runs);
      } else {
        PlainNeverBlank(open, l);
      }
    }
  }

  lemma QuotedNeverBlank(p: Parser, line: string, substitute: bool, runs: string -> bool)
    requires p.quoted != Unquoted && !p.blank
    ensures !Quoted(p, line, substitute, runs).p.blank
  {
    hide Quotation;
  }

  lemma PlainNeverBlank(p: Parser, line: string)
    requires line != "" && !p.blank
    ensures !Plain(p, line).p.blank
  {
    hide PlainText;
  }

  /** No call leaves an argument without text that whitespace would complete, unless it started with one. */
  lemma {:induction false} NeverBlank(p: Parser, line: string, fail: bool, substitute: bool, runs: string -> bool)
    requires !p.blank
    ensures !Run(p, line, fail, substitute, runs).0.blank
    decreases |line|, p.nextLine, p.quoted != Unquoted
  {
    hide Turn;
    if line != "" {
      TurnNeverBlank(p, line, fail, substitute, runs);
      var turn := Turn(p, line, fail, substitute, runs);
      if turn.Go? {
        NeverBlank(turn.p, turn.line, fail, substitute, runs);
      }
    }
  }

  /** Two calls on the two parts of a line do what one call on the line does, unless the first one fails. */
  lemma CutLoad(p: Parser, a: string, b: string, fail: bool, substitute: bool, runs: string -> bool)
    requires a != "" && b != "" && !Begun(p).blank && !TakesMark(ModeOf(Begun(p)), a, fail)
    requires MayCut(Scan(ModeOf(Begun(p)), a, fail, substitute), substitute)
    ensures var load := LoadsWith(fail, substitute, runs);
            var (q, status) := load(p, a);
            if status == Continue then
              && Begun(q) == q && !q.blank && ModeOf(q) == Scan(ModeOf(Begun(p)), a, fail, substitute)
              && (!TakesMark(ModeOf(q), b, fail) ==> Alike(load(p, a + b), load(q, b)))
            else
              status == Error && load(p, a + b) == (q, Error)
  {
    hide Scan, Run;
    RunExtends(Begun(p), a, b, fail, substitute, runs);
  }

  // ---------------------------------------------------------------- failed commands

  /**
   The line closes a back-quotation that continued, and its command fails: the call ends before the note that a
   line continues is taken back.
   */
  predicate FailsOnClosing(p: Parser, line: string, fail: bool, substitute: bool, runs: string -> bool) {
    && p.nextLine && p.quoted == ExecuteQuote && substitute && !TakesMark(ModeOf(p), line, fail)
    && var (text, after) := Quotation(line, '`');
       && after.Some?
       && var command := AfterMark(p, text, after.value, substitute).holdingExecute;
          command != "" && !runs(command)
  }

  lemma QuotedFails(p: Parser, line: string, substitute: bool, runs: string -> bool)
    requires p.quoted != Unquoted
    ensures var turn := Quoted(p, line, substitute, runs);
            turn.Return? && turn.status == Error ==> turn.p.nextLine == p.nextLine && p.quoted == ExecuteQuote && substitute
  {
    hide Quotation;
  }

  lemma PlainNeverFails(p: Parser, line: string)
    requires line != ""
    ensures Plain(p, line).Return? ==> Plain(p, line).status != Error
  {
    hide PlainText;
  }

  lemma TurnFails(p: Parser, line: string, fail: bool, substitute: bool, runs: string -> bool)
    requires line != ""
    ensures var turn := Turn(p, line, fail, substitute, runs);
            turn.Return? && turn.status == Error ==>
              turn.p.nextLine == p.nextLine && (p.nextLine ==> p.quoted == ExecuteQuote && substitute)
  {
    var (q, rest) := Start(p, line);
    if rest != "" {
      TurnIsRead(p, line, fail, substitute, runs);
      hide Turn, Stripped, Plain, Quoted;
      var (open, l) := if q.nextLine then (q, rest) else Opened(q, rest, substitute);
      if open.quoted != Unquoted {
        QuotedFails(open, l, substitute, runs);
      } else {
        PlainNeverFails(open, l);
      }
    }
  }

  lemma ContinuedTurnFails(p: Parser, line: string, fail: bool, substitute: bool, runs: string -> bool)
    requires line != "" && p.nextLine && p.quoted == ExecuteQuote && substitute
    ensures var turn := Turn(p, line, fail, substitute, runs);
            turn.Return? && turn.status == Error <==> FailsOnClosing(p, line, fail, substitute, runs)
  {
    hide Quotation, PlainText, Stripped;
    TurnIsRead(p, line, fail, substitute, runs);
    hide Turn;
  }

  /** A call that fails leaves the note exactly if its first turn closes a continued quotation whose command fails. */
  lemma {:induction false} FailureNote(p: Parser, line: string, fail: bool, substitute: bool, runs: string -> bool)
    ensures var (q, status) := Run(p, line, fail, substitute, runs);
            status == Error && q.nextLine <==> FailsOnClosing(p, line, fail, substitute, runs)
    decreases |line|, p.nextLine, p.quoted != Unquoted
  {
    hide Turn;
    if line != "" {
      TurnFails(p, line, fail, substitute, runs);
      if p.nextLine && p.quoted == ExecuteQuote && substitute {
        ContinuedTurnFails(p, line, fail, substitute, runs);
      }
      var turn := Turn(p, line, fail, substitute, runs);
      if turn.Go? {
        FailureNote(turn.p, turn.line, fail, substitute, runs);
      }
    }
  }

  // ---------------------------------------------------------------- pieces

  /** What the calls on the pieces come to, up to the note that a line continues. */
  ghost predicate Follows(load: Loader, p: Parser, pieces: seq<string>) {
    var (q, status) := load(p, Concat(pieces));
    var (r, statuses) := Feed(load, p, pieces);
    && 0 < |statuses| <= |pieces| && statuses == Continues(|statuses| - 1) + [status]
    && Alike((q, status), (r, status))
    && (status != Error ==> |statuses| == |pieces|)
  }

  lemma ContinuesOnward(n: nat, status: Status)
    ensures [Continue] + (Continues(n) + [status]) == Continues(n + 1) + [status]
    ensures Continues(0) + [status] == [status] + []
  {
  }

  lemma FeedLast(load: Loader, p: Parser, piece: string)
    ensures Follows(load, p, [piece])
  {
    var (q, status) := load(p, piece);
    assert Concat([piece]) == piece + "" == piece;
    assert [piece][1..] == [];
    assert Feed(load, q, []) == (q, []);
    ContinuesOnward(0, status);
  }

  lemma FeedStops(load: Loader, p: Parser, a: string, rest: seq<string>, q: Parser)
    requires load(p, a) == load(p, a + Concat(rest)) == (q, Error)
    ensures Follows(load, p, [a] + rest)
  {
    assert ([a] + rest)[1..] == rest;
    ContinuesOnward(0, Error);
  }

  lemma FeedMore(load: Loader, p: Parser, a: string, rest: seq<string>, q: Parser)
    requires rest != [] && load(p, a) == (q, Continue)
    requires Alike(load(p, a + Concat(rest)), load(q, Concat(rest))) && Follows(load, q, rest)
    ensures Follows(load, p, [a] + rest)
  {
    assert ([a] + rest)[1..] == rest;
    var (_, statuses) := Feed(load, q, rest);
    ContinuesOnward(|statuses| - 1, load(q, Concat(rest)).1);
  }

  lemma {:induction false} FeedFollows(p: Parser, pieces: seq<string>, fail: bool, substitute: bool, runs: string -> bool)
    requires pieces != [] && !Begun(p).blank && !TakesMark(ModeOf(Begun(p)), pieces[0], fail)
    requires WellCut(LoadsWith(fail, substitute, runs), p, ModeOf(Begun(p)), pieces, fail, substitute)
    ensures Follows(LoadsWith(fail, substitute, runs), p, pieces)
    decreases |pieces|
  {
    hide Load, Scan;
    var load := LoadsWith(fail, substitute, runs);
    var a, rest := pieces[0], pieces[1..];
    assert pieces == [a] + rest;
    if rest == [] {
      assert pieces == [a];
      FeedLast(load, p, a);
    } else {
      assert Concat(rest) == rest[0] + Concat(rest[1..]);
      CutLoad(p, a, Concat(rest), fail, substitute, runs);
      var (q, status) := load(p, a);
      if status == Continue {
        FeedFollows(q, rest, fail, substitute, runs);
        FeedMore(load, p, a, rest, q);
      } else {
        FeedStops(load, p, a, rest, q);
      }
    }
  }

  /** The state that the last of the calls starts from. */
  function BeforeLast(load: Loader, p: Parser, pieces: seq<string>): Parser
    requires Feed(load, p, pieces).1 != []
  {
    Feed(load, p, pieces[..|Feed(load, p, pieces).1| - 1]).0
  }

  lemma {:induction false} FeedEnds(load: Loader, p: Parser, pieces: seq<string>)
    requires pieces != []
    ensures var (r, statuses) := Feed(load, p, pieces);
            && 0 < |statuses| <= |pieces|
            && load(BeforeLast(load, p, pieces), pieces[|statuses| - 1]) == (r, statuses[|statuses| - 1])
    decreases |pieces|
  {
    var (q, status) := load(p, pieces[0]);
    var rest := pieces[1..];
    assert pieces[..0] == [];
    if status == Continue && rest != [] {
      FeedEnds(load, q, rest);
      var (_, statuses) := Feed(load, q, rest);
      var before := pieces[..|statuses|];
      assert before[0] == pieces[0] && before[1..] == rest[..|statuses| - 1];
    }
  }

  /** The outcome of the whole line, after calls that all ask for more; and exactly what a failed command leaves. */
  ghost predicate Faithful(p: Parser, pieces: seq<string>, fail: bool, substitute: bool, runs: string -> bool) {
    var load := LoadsWith(fail, substitute, runs);
    var (q, status) := load(p, Concat(pieces));
    var (r, statuses) := Feed(load, p, pieces);
    var last := |statuses| - 1;
    && 0 < |statuses| <= |pieces| && statuses == Continues(last) + [status]
    && (if status != Error then
          r == q && |statuses| == |pieces|
        else
          && (q.nextLine <==> FailsOnClosing(Begun(p), Concat(pieces), fail, substitute, runs))
          && r == q.(nextLine := FailsOnClosing(Begun(BeforeLast(load, p, pieces)), pieces[last], fail, substitute, runs)))
  }

  /**
   A line that is cut in quotations is read as in one call, whatever its commands come to: every call but the last
   asks for more, and the last one has the outcome of the whole line. Only a failed command ends the calls early; it
   leaves the note that a line continues exactly if its quotation closes at the start of the last piece.
   */
  lemma FeedIsLoad(p: Parser, pieces: seq<string>, fail: bool, substitute: bool, runs: string -> bool)
    requires pieces != [] && !Begun(p).blank && !TakesMark(ModeOf(Begun(p)), pieces[0], fail)
    requires WellCut(LoadsWith(fail, substitute, runs), p, ModeOf(Begun(p)), pieces, fail, substitute)
    ensures Faithful(p, pieces, fail, substitute, runs)
  {
    hide Run, WellCut, FailsOnClosing;
    var load := LoadsWith(fail, substitute, runs);
    FeedFollows(p, pieces, fail, substitute, runs);
    FeedEnds(load, p, pieces);
    FailureNote(Begun(p), Concat(pieces), fail, substitute, runs);
    var last := pieces[|Feed(load, p, pieces).1| - 1];
    FailureNote(Begun(BeforeLast(load, p, pieces)), last, fail, substitute, runs);
  }

  /** A line that does not fail is read in as many calls as it has pieces. */
  lemma FeedSucceeds(p: Parser, pieces: seq<string>, fail: bool, substitute: bool, runs: string -> bool)
    requires Faithful(p, pieces, fail, substitute, runs)
    requires Load(p, Some(Concat(pieces)), fail, substitute, runs).1 != Error
    ensures var (q, status) := Load(p, Some(Concat(pieces)), fail, substitute, runs);
            Feed(LoadsWith(fail, substitute, runs), p, pieces) == (q, Continues(|pieces| - 1) + [status])
  {
    hide Load, Feed, Concat, FailsOnClosing, Begun;
  }

  // ---------------------------------------------------------------- why cuts are restricted

  /**
   The parser goes on with a quotation on the next line exactly if it does not take an exclamation mark from it.
   When it does, it forgets the quotation: what follows is read as unquoted text.
   */
  lemma ExclamationMarkLosesQuotation(p: Parser, line: string, fail: bool, substitute: bool, runs: string -> bool)
    requires p.nextLine && p.quoted != Unquoted && !p.separated && line != ""
    ensures Turn(p, line, fail, substitute, runs) == Quoted(p, line, substitute, runs) <==> !TakesMark(ModeOf(p), line, fail)
    ensures TakesMark(ModeOf(p), line, fail) ==>
              var q := p.(tolerant := true, nextLine := false);
              && Turn(p, line, fail, substitute, runs) == Go(q, line[1..])
              && (line[1..] != "" && line[1] != '!' ==>
                  Turn(q, line[1..], fail, substitute, runs) == Plain(q.(quoted := Unquoted), line[1..]))
  {
  }

  lemma BackQuoteCloses(p: Parser, text: string, more: string, rest: string, runs: string -> bool)
    requires p.quoted == ExecuteQuote
    ensures QuotedTurn(Held(p, text), more, Some(rest), false, runs) == QuotedTurn(p, text + more, Some(rest), false, runs)
            <==> text == ""
  {
    hide IsSpace;
    var left := QuotedTurn(Held(p, text), more, Some(rest), false, runs);
    var right := QuotedTurn(p, text + more, Some(rest), false, runs);
    assert |left.p.holdingExecute| == |right.p.holdingExecute| + |text|;
    if text == "" {
      assert text + more == more && p.holdingExecute + text == p.holdingExecute;
    }
  }

  /**
   Without substitution, a back-quotation is continued as if it had not been cut exactly if there was nothing to
   hold, or it is still not closed.
   */
  lemma BackQuoteTurn(p: Parser, text: string, more: string, end: Option<string>, runs: string -> bool)
    requires p.quoted == ExecuteQuote
    ensures QuotedTurn(p, text, None, false, runs) == Return(Held(p, text), Continue)
    ensures QuotedTurn(Held(p, text), more, end, false, runs) == QuotedTurn(p, text + more, end, false, runs)
            <==> text == "" || end.None?
  {
    if end.None? {
      assert p.holdingExecute + (text + more) == p.holdingExecute + text + more;
    } else {
      BackQuoteCloses(p, text, more, end.value, runs);
    }
  }
}
