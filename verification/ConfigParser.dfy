/**
 The configuration line parser (libs/protocol/api-config-parser.cpp). Its state outlives a call, because a
 quotation or an escaped line end continues on the next line. Command substitution succeeds or fails and puts
 no lines of its own into the configuration.
 */
module ConfigParser {
  import opened Text

  datatype Status = Loaded | Error | Continue | Fallible

  datatype Quote = Unquoted | SingleQuote | DoubleQuote | ExecuteQuote

  /** The static variables of the parser. */
  datatype Parser = Parser(
    holdingLine: string,
    holdingExecute: string,
    tolerant: bool,
    separated: bool,
    nextLine: bool,
    quoted: Quote,
    metaQuote: bool,
    blank: bool,
    bufferedData: seq<string>)

  const FRESH := Parser("", "", false, false, false, Unquoted, false, false, [])

  predicate IsSpace(c: char) {
    c == ' ' || c == '\t' || c == '\r' || c == '\n'
  }

  predicate IsLineEnd(s: string) {
    s == "\n" || s == "\r" || s == "\r\n"
  }

  predicate IsQuote(c: char) {
    c == '"' || c == '\'' || c == '`'
  }

  function QuoteOf(c: char): Quote
    requires IsQuote(c)
  {
    if c == '"' then DoubleQuote else if c == '\'' then SingleQuote else ExecuteQuote
  }

  function Mark(q: Quote): (c: char)
    requires q != Unquoted
    ensures IsQuote(c) && QuoteOf(c) == q
  {
    match q
    case SingleQuote => '\''
    case DoubleQuote => '"'
    case ExecuteQuote => '`'
  }

  function Stripped(line: string): (r: string)
    ensures |r| <= |line|
    ensures r != "" ==> !IsSpace(r[0])
    ensures |r| == |line| ==> r == line
  {
    if line != "" && IsSpace(line[0]) then Stripped(line[1..]) else line
  }

  // ---------------------------------------------------------------- the two scans

  /** What a quotation up to the given mark says, and what follows it; nothing follows if it is still open. */
  function Quotation(line: string, mark: char): (r: (string, Option<string>))
    ensures r.1.Some? ==> |r.1.value| < |line|
  {
    if line == "" then ("", None)
    else if line[0] == '\\' then
      var rest := line[1..];
      if rest == "" || IsLineEnd(rest) then ("", None)
      else
        var (text, after) := Quotation(rest[1..], mark);
        ([rest[0]] + text, after)
    else if line[0] == mark then ("", Some(line[1..]))
    else
      var (text, after) := Quotation(line[1..], mark);
      ([line[0]] + text, after)
  }

  datatype Halt =
    | AtEnd                    // nothing special up to the end of the line
    | AtSpace(rest: string)
    | AtQuote(rest: string)    // from the quotation mark on
    | AtEscape(rest: string)   // after the escaped character, or from an escaped line break on
    | AtLineEnd                // the line continues
    | AtComment

  /** What is behind a backslash in unquoted text: the character it escapes, if any, and where the text stops. */
  function Escape(rest: string): (r: (string, Halt))
    ensures r.1.AtLineEnd? || (r.1.AtEscape? && |r.1.rest| <= |rest|)
  {
    if rest == "" || IsLineEnd(rest) then ("", AtLineEnd)
    else if rest[0] == '\n' || rest[0] == '\r' then ("", AtEscape(rest))
    else ([rest[0]], AtEscape(rest[1..]))
  }

  /** Unquoted text up to the first character that means something; `bare` if nothing comes before it. */
  function PlainText(line: string, bare: bool): (r: (string, Halt))
    ensures r.1.AtSpace? ==> |r.1.rest| < |line|
    ensures r.1.AtEscape? ==> |r.1.rest| < |line|
    ensures r.1.AtQuote? ==> r.1.rest != "" && IsQuote(r.1.rest[0]) && |r.1.rest| <= |line|
    ensures r.1.AtQuote? && line != "" && !IsQuote(line[0]) ==> |r.1.rest| < |line|
  {
    if line == "" then ("", AtEnd)
    else
      var c, rest := line[0], line[1..];
      if c == '\\' then Escape(rest)
      else if IsSpace(c) then ("", AtSpace(rest))
      else if IsQuote(c) then ("", AtQuote(line))
      else if c == '#' && bare then ("", AtComment)
      else
        var (text, stop) := PlainText(rest, false);
        ([c] + text, stop)
  }

  // ---------------------------------------------------------------- one turn of the main loop

  datatype Turned =
    | Go(p: Parser, line: string)
    | Stop(p: Parser)
    | Return(p: Parser, status: Status)

  /** Whitespace before what comes next completes the argument that is being held. */
  function Separated(p: Parser): Parser {
    (if p.separated && (p.holdingLine != "" || p.blank)
     then p.(bufferedData := p.bufferedData + [p.holdingLine], holdingLine := "") else p).(separated := false)
  }

  /** A quotation mark opens a quotation; anything else means that there is none. */
  function Opened(p: Parser, line: string, substitute: bool): (r: (Parser, string))
    requires line != ""
    ensures |r.1| <= |line|
    ensures r.0.quoted == Unquoted ==> r.1 == line
    ensures r.0.quoted != Unquoted ==> |r.1| < |line|
  {
    if p.quoted == Unquoted && IsQuote(line[0]) then
      var q := p.(quoted := QuoteOf(line[0]));
      if q.quoted == ExecuteQuote && substitute then
        ((if p.holdingLine != "" || p.blank then q.(bufferedData := p.bufferedData + [p.holdingLine]) else q)
         .(holdingLine := ""), line[1..])
      else
        (q, line[1..])
    else
      (p.(quoted := Unquoted), line)
  }

  function Quoted(p: Parser, line: string, substitute: bool, runs: string -> bool): (r: Turned)
    requires p.quoted != Unquoted
    ensures r.Go? ==> |r.line| < |line| && !r.p.nextLine && r.p.quoted == Unquoted
    ensures !r.Stop?
  {
    var (text, after) := Quotation(line, Mark(p.quoted));
    QuotedTurn(p, text, after, substitute, runs)
  }

  /** The state once the closing mark is read, before any command is run. */
  function AfterMark(p: Parser, text: string, rest: string, substitute: bool): Parser {
    var meta := p.quoted == ExecuteQuote && substitute;
    var q := (if meta then p.(holdingExecute := p.holdingExecute + text)
              else p.(holdingLine := p.holdingLine + text)).(metaQuote := meta, blank := false, quoted := Unquoted);
    if rest == "" || IsSpace(rest[0]) then
      (if meta then q.(holdingExecute := q.holdingExecute + "\n")
       else q.(bufferedData := q.bufferedData + [q.holdingLine])).(holdingLine := "")
    else q
  }

  function QuotedTurn(p: Parser, text: string, after: Option<string>, substitute: bool, runs: string -> bool): (r: Turned)
    ensures r.Go? ==> after == Some(r.line) && !r.p.nextLine && r.p.quoted == Unquoted
    ensures !r.Stop?
  {
    if after.None? then
      var q := if p.quoted == ExecuteQuote then p.(holdingExecute := p.holdingExecute + text)
               else p.(holdingLine := p.holdingLine + text);
      Return(q.(nextLine := true), Continue)
    else
      var rest := after.value;
      var u := AfterMark(p, text, rest, substitute);
      if u.metaQuote && u.holdingExecute != "" then
        if runs(u.holdingExecute) then Go(u.(metaQuote := false, holdingExecute := "", nextLine := false), rest)
        else Return(u.(metaQuote := false), Error)
      else Go(u.(nextLine := false), rest)
  }

  function Plain(p: Parser, line: string): (r: Turned)
    requires line != ""
    ensures r.Go? ==> !r.p.nextLine && |r.line| <= |line| && r.p.quoted == p.quoted
    ensures r.Go? && !IsQuote(line[0]) ==> |r.line| < |line|
  {
    var (text, stop) := PlainText(line, p.holdingLine == "");
    PlainTurn(p, text, stop)
  }

  function PlainTurn(p: Parser, text: string, stop: Halt): (r: Turned)
    ensures r.Go? ==> !r.p.nextLine && r.p.quoted == p.quoted
    ensures r.Go? ==> (stop.AtSpace? || stop.AtQuote? || stop.AtEscape?) && r.line == stop.rest
  {
    var q := p.(holdingLine := p.holdingLine + text, nextLine := false);
    match stop
    case AtEnd => Stop(q.(blank := false))
    case AtSpace(rest) => if rest == "" then Stop(q.(separated := true, blank := false)) else Go(q.(separated := true), rest)
    case AtQuote(rest) => Go(q, rest)
    case AtEscape(rest) => Go(q, rest)
    case AtLineEnd => Return(q.(nextLine := true), Continue)
    case AtComment => Stop(p.(nextLine := false))
  }

  function Turn(p: Parser, line: string, fail: bool, substitute: bool, runs: string -> bool): (r: Turned)
    requires line != ""
    ensures r.Go? ==> |r.line| <= |line|
    ensures r.Go? ==> !r.p.nextLine
    ensures r.Go? && |r.line| == |line| ==> r.p.quoted == Unquoted && (p.nextLine || p.quoted != Unquoted)
  {
    var rest := if p.quoted == Unquoted then Stripped(line) else line;
    var q := if rest != line then p.(separated := true) else p;
    if rest == "" then Stop(q) else Read(Separated(q), rest, fail, substitute, runs)
  }

  /** The part of a turn after the whitespace. */
  function Read(p: Parser, line: string, fail: bool, substitute: bool, runs: string -> bool): (r: Turned)
    requires line != ""
    ensures r.Go? ==> |r.line| <= |line| && !r.p.nextLine
    ensures r.Go? && |r.line| == |line| ==> r.p.quoted == Unquoted && (p.nextLine || p.quoted != Unquoted || IsQuote(line[0]))
    ensures r.Go? && |r.line| == |line| && !p.nextLine ==> p.quoted != Unquoted
  {
    if fail && line[0] == '!' && p.bufferedData == [] then
      Go(p.(tolerant := true, nextLine := false), line[1..])
    else
      var (q, l) := if p.nextLine then (p, line) else Opened(p, line, substitute);
      if q.quoted != Unquoted then Quoted(q, l, substitute, runs) else Plain(q, l)
  }

  function Finish(p: Parser): (Parser, Status) {
    ((if p.holdingLine != "" || p.blank then p.(bufferedData := p.bufferedData + [p.holdingLine]) else p),
     if p.tolerant then Fallible else Loaded)
  }

  /** The main loop from any state. */
  function Run(p: Parser, line: string, fail: bool, substitute: bool, runs: string -> bool): (Parser, Status)
    decreases |line|, p.nextLine, p.quoted != Unquoted
  {
    if line == "" then Finish(p)
    else
      match Turn(p, line, fail, substitute, runs)
      case Go(q, rest) => Run(q, rest, fail, substitute, runs)
      case Stop(q) => Finish(q)
      case Return(q, status) => (q, status)
  }

  /** A new line starts afresh, but the note that a line continues is not taken back. */
  function Reset(p: Parser): Parser {
    FRESH.(nextLine := p.nextLine)
  }

  /** A whole call; without a line the parser is cleared. */
  function Load(p: Parser, data: Option<string>, fail: bool, substitute: bool, runs: string -> bool): (Parser, Status) {
    var q := if data.None? || !p.nextLine then Reset(p) else p;
    if data.None? then (q, Error) else Run(q, data.value, fail, substitute, runs)
  }

  // ---------------------------------------------------------------- the routine

  class LineParser {
    var holdingLine: string
    var holdingExecute: string
    var tolerant: bool
    var separated: bool
    var nextLine: bool
    var quoted: Quote
    var metaQuote: bool
    var blank: bool
    var bufferedData: seq<string>

    const substitute: bool
    const runs: string -> bool

    function Current(): Parser
      reads this
    {
      Parser(holdingLine, holdingExecute, tolerant, separated, nextLine, quoted, metaQuote, blank, bufferedData)
    }

    constructor (substitute: bool, runs: string -> bool)
      ensures Current() == FRESH && this.substitute == substitute && this.runs == runs
    {
      holdingLine, holdingExecute := "", "";
      tolerant, separated, nextLine, metaQuote, blank := false, false, false, false, false;
      quoted := Unquoted;
      bufferedData := [];
      this.substitute, this.runs := substitute, runs;
    }

    method LoadLine(data: Option<string>) returns (status: Status)
      modifies this
      ensures (Current(), status) == Load(old(Current()), data, false, substitute, runs)
    {
      status := LoadLineCommon(data, false);
    }

    method LoadLineFailCheck(data: Option<string>) returns (status: Status)
      modifies this
      ensures (Current(), status) == Load(old(Current()), data, true, substitute, runs)
    {
      status := LoadLineCommon(data, true);
    }

    method LoadLineCommon(data: Option<string>, fail: bool) returns (status: Status)
      modifies this
      ensures (Current(), status) == Load(old(Current()), data, fail, substitute, runs)
    {
      if data.None? || !nextLine {
        holdingLine, holdingExecute := "", "";
        tolerant, separated := false, false;
        quoted := Unquoted;
        metaQuote, blank := false, false;
        bufferedData := [];
        if data.None? {
          return Error;
        }
      }
      ghost var start := Current();
      var line := data.value;
      while |line| != 0
        invariant Run(Current(), line, fail, substitute, runs) == Run(start, data.value, fail, substitute, runs)
        decreases |line|, nextLine, quoted != Unquoted
      {
        var finished, result;
        finished, result, line := MainTurn(line, fail);
        if finished {
          if result.Some? {
            return result.value;
          }
          line := "";
        }
      }
      if |holdingLine| != 0 || blank {
        bufferedData := bufferedData + [holdingLine];
      }
      status := if tolerant then Fallible else Loaded;
    }

    /** The loop body: finished with a status to return, or without one to leave the loop. */
    method MainTurn(line: string, fail: bool) returns (finished: bool, result: Option<Status>, rest: string)
      requires line != ""
      modifies this
      ensures Outcome(Turn(old(Current()), line, fail, substitute, runs), Current(), finished, result, rest)
    {
      rest := line;
      if quoted == Unquoted {
        rest := SkipSpace(rest);
      }
      if |rest| == 0 {
        return true, None, rest;
      }
      CompleteArgument();
      finished, result, rest := ReadText(rest, fail);
    }

    method CompleteArgument()
      modifies this`bufferedData, this`holdingLine, this`separated
      ensures Current() == Separated(old(Current()))
    {
      if separated && (|holdingLine| != 0 || blank) {
        bufferedData := bufferedData + [holdingLine];
        holdingLine := "";
      }
      separated := false;
    }

    method ReadText(line: string, fail: bool) returns (finished: bool, result: Option<Status>, rest: string)
      requires line != "" && !separated
      modifies this
      ensures Outcome(Read(old(Current()), line, fail, substitute, runs), Current(), finished, result, rest)
    {
      rest := line;
      if fail && rest[0] == '!' && |bufferedData| == 0 {
        rest := rest[1..];
        tolerant := true;
        nextLine := false;
        return false, None, rest;
      } else if !nextLine {
        rest := OpenQuote(rest);
      }
      if quoted != Unquoted {
        finished, result, rest := ReadQuoted(rest);
      } else {
        finished, result, rest := ReadPlain(rest);
      }
    }

    method SkipSpace(line: string) returns (rest: string)
      modifies this`separated
      ensures rest == Stripped(line)
      ensures separated == (old(separated) || rest != line)
    {
      rest := line;
      while |rest| != 0 && IsSpace(rest[0])
        invariant Stripped(rest) == Stripped(line) && |rest| <= |line|
        invariant |rest| == |line| ==> rest == line
        invariant separated == (old(separated) || rest != line)
      {
        separated := true;
        rest := rest[1..];
      }
    }

    method OpenQuote(line: string) returns (rest: string)
      requires line != ""
      modifies this`quoted, this`bufferedData, this`holdingLine
      ensures (Current(), rest) == Opened(old(Current()), line, substitute)
    {
      rest := line;
      if quoted == Unquoted && line[0] == '"' {
        rest := rest[1..];
        quoted := DoubleQuote;
      } else if quoted == Unquoted && line[0] == '\'' {
        rest := rest[1..];
        quoted := SingleQuote;
      } else if quoted == Unquoted && line[0] == '`' {
        rest := rest[1..];
        quoted := ExecuteQuote;
        if substitute {
          if |holdingLine| != 0 || blank {
            bufferedData := bufferedData + [holdingLine];
          }
          holdingLine := "";
        }
      } else {
        quoted := Unquoted;
      }
    }

    /** Reads on in a quotation, taking escapes out of the line as it goes. */
    method ReadQuoted(line: string) returns (finished: bool, result: Option<Status>, rest: string)
      requires quoted != Unquoted
      modifies this
      ensures Outcome(Quoted(old(Current()), line, substitute, runs), Current(), finished, result, rest)
    {
      rest := line;
      var i: nat := 0;
      var mark := Mark(quoted);
      ghost var (text, after) := Quotation(line, mark);
      assert line[0..] == line && line[..0] == "";
      while i < |rest|
        invariant i <= |rest|
        invariant Current() == old(Current())
        invariant QuotedSoFar(rest, i, mark, text, after)
        decreases |rest| - i
      {
        if rest[i] == '\\' {
          QuotedEscape(rest, i, mark, text, after);
          var open;
          rest, open := EraseEscape(rest, i);
          if open {
            LeaveOpen(rest);
            return true, Some(Continue), "";
          }
        } else if rest[i] == mark {
          QuotedMark(rest, i, mark, text, after);
          finished, result := FinishQuote(rest[..i], rest[i + 1..]);
          rest := rest[i + 1..];
          return;
        } else {
          QuotedStep(rest, i, mark, text, after);
        }
        i := i + 1;
      }
      assert rest[i..] == "" && rest[..i] == rest;
      LeaveOpen(rest);
      return true, Some(Continue), "";
    }

    /** Takes an escaping backslash out of the line; the line goes on if it ends there, and the break goes too. */
    method EraseEscape(line: string, i: nat) returns (rest: string, open: bool)
      requires i < |line|
      ensures var erased := line[..i] + line[i + 1..];
              && open == (|erased| == i || IsLineEnd(erased[i..]))
              && rest == if open then erased[..i] else erased
    {
      rest := line[..i] + line[i + 1..];
      assert rest[..i] == line[..i];
      var newline0 := |rest| == i;
      var newline1 := |rest| == i + 1 && (rest[i] == '\n' || rest[i] == '\r');
      var newline2 := |rest| == i + 2 && rest[i] == '\r' && rest[i + 1] == '\n';
      open := newline0 || newline1 || newline2;
      if newline1 {
        rest := rest[..|rest| - 1];
      }
      if newline2 {
        rest := rest[..|rest| - 2];
      }
    }

    /** The line ends in the quotation. */
    method LeaveOpen(text: string)
      requires quoted != Unquoted
      modifies this`holdingExecute, this`holdingLine, this`nextLine
      ensures QuotedTurn(old(Current()), text, None, substitute, runs) == Return(Current(), Continue)
    {
      Hold(text);
      nextLine := true;
    }

    method FinishQuote(text: string, rest: string) returns (finished: bool, result: Option<Status>)
      modifies this
      ensures Outcome(QuotedTurn(old(Current()), text, Some(rest), substitute, runs), Current(), finished, result, rest)
    {
      CloseQuote(text, rest);
      finished, result := RunMeta();
    }

    /** The closing mark: the text before it is held, and complete if it ends there. */
    method CloseQuote(text: string, rest: string)
      modifies this`metaQuote, this`holdingExecute, this`holdingLine, this`blank, this`bufferedData, this`quoted
      ensures Current() == AfterMark(old(Current()), text, rest, substitute)
    {
      metaQuote := quoted == ExecuteQuote && substitute;
      if metaQuote {
        holdingExecute := holdingExecute + text;
      } else {
        holdingLine := holdingLine + text;
      }
      blank := false;
      if |rest| == 0 || IsSpace(rest[0]) {
        if !metaQuote {
          bufferedData := bufferedData + [holdingLine];
        } else {
          holdingExecute := holdingExecute + "\n";
        }
        holdingLine := "";
      }
      quoted := Unquoted;
    }

    /** Runs the command that was just completed, if any. */
    method RunMeta() returns (finished: bool, result: Option<Status>)
      modifies this`metaQuote, this`holdingExecute, this`nextLine
      ensures finished <==> result.Some?
      ensures finished <==> old(metaQuote) && old(holdingExecute) != "" && !runs(old(holdingExecute))
      ensures finished ==> result == Some(Error) && Current() == old(Current()).(metaQuote := false)
      ensures !finished ==>
                Current() == (if old(metaQuote) && old(holdingExecute) != ""
                              then old(Current()).(metaQuote := false, holdingExecute := "")
                              else old(Current())).(nextLine := false)
    {
      if metaQuote && |holdingExecute| != 0 {
        metaQuote := false;
        if !runs(holdingExecute) {
          return true, Some(Error);
        }
        holdingExecute := "";
      }
      nextLine := false;
      finished, result := false, None;
    }

    method Hold(text: string)
      modifies this`holdingExecute, this`holdingLine
      ensures Current() == if quoted == ExecuteQuote
                           then old(Current()).(holdingExecute := old(holdingExecute) + text)
                           else old(Current()).(holdingLine := old(holdingLine) + text)
    {
      if quoted == ExecuteQuote {
        holdingExecute := holdingExecute + text;
      } else {
        holdingLine := holdingLine + text;
      }
    }

    /** Reads unquoted text; finished without a status when the line is used up. */
    method ReadPlain(line: string) returns (finished: bool, result: Option<Status>, rest: string)
      requires line != "" && !separated
      modifies this
      ensures Outcome(Plain(old(Current()), line), Current(), finished, result, rest)
    {
      var i: nat := 0;
      ghost var bare := holdingLine == "";
      ghost var (text, stop) := PlainText(line, bare);
      assert line[0..] == line && line[..0] == "" && PlainSoFar(line, 0, bare, text, stop);
      hide PlainText, PlainSoFar;
      while i < |line|
        invariant i <= |line| && Current() == old(Current())
        invariant PlainSoFar(line, i, bare, text, stop)
      {
        PlainStep(line, i, bare, text, stop);
        if line[i] == '\\' {
          finished, result, rest := TakeEscape(line, i);
          return;
        } else if IsSpace(line[i]) {
          finished, result, rest := TakeSpace(line, i);
          return;
        } else if IsQuote(line[i]) {
          rest := TakeQuote(line, i);
          return false, None, rest;
        } else if line[i] == '#' && (separated || (i == 0 && |holdingLine| == 0)) {
          nextLine := false;
          return true, None, "";
        }
        i := i + 1;
      }
      PlainEnd(line, bare, text, stop);
      TakeAll(line);
      finished, result, rest := true, None, "";
    }

    /** The line ends in unquoted text. */
    method TakeAll(line: string)
      modifies this`nextLine, this`holdingLine, this`blank
      ensures PlainTurn(old(Current()), line, AtEnd) == Stop(Current())
    {
      nextLine := false;
      holdingLine := holdingLine + line;
      blank := false;
    }

    /** A quotation mark ends unquoted text, and is left on the line. */
    method TakeQuote(line: string, i: nat) returns (rest: string)
      requires i < |line|
      modifies this`holdingLine, this`nextLine
      ensures PlainTurn(old(Current()), line[..i], AtQuote(line[i..])) == Go(Current(), rest)
    {
      holdingLine := holdingLine + line[..i];
      rest := line[i..];
      nextLine := false;
    }

    /** Whitespace ends unquoted text. */
    method TakeSpace(line: string, i: nat) returns (finished: bool, result: Option<Status>, rest: string)
      requires i < |line|
      modifies this`holdingLine, this`separated, this`nextLine, this`blank
      ensures Outcome(PlainTurn(old(Current()), line[..i], AtSpace(line[i + 1..])), Current(), finished, result, rest)
    {
      holdingLine := holdingLine + line[..i];
      rest := line[i + 1..];
      separated := true;
      nextLine := false;
      if |rest| == 0 {
        blank := false;
        return true, None, "";
      }
      return false, None, rest;
    }

    /** A backslash in unquoted text. */
    method TakeEscape(line: string, i: nat) returns (finished: bool, result: Option<Status>, rest: string)
      requires i < |line| && line[i] == '\\'
      modifies this`holdingLine, this`nextLine
      ensures var (text, stop) := Escape(line[i + 1..]);
              Outcome(PlainTurn(old(Current()), line[..i] + text, stop), Current(), finished, result, rest)
    {
      ghost var next := line[i + 1..];
      var useNext := i < |line| - 1;
      rest := line[..i] + line[i + 1..];
      assert rest[..i] == line[..i] && rest[i..] == next;
      if useNext {
        useNext := !(rest[i] == '\n' || rest[i] == '\r');
      }
      if useNext {
        assert rest[..i + 1] == line[..i] + [next[0]];
      }
      holdingLine := holdingLine + rest[..i + (if useNext then 1 else 0)];
      rest := rest[i..];
      if |rest| == 0 || (|rest| == 1 && (rest[0] == '\n' || rest[0] == '\r'))
         || (|rest| == 2 && rest[0] == '\r' && rest[1] == '\n') {
        nextLine := true;
        return true, Some(Continue), rest;
      }
      if useNext {
        rest := rest[1..];
      }
      nextLine := false;
      finished, result := false, None;
    }
  }

  /** How a turn of the specification shows in the routine. */
  predicate Outcome(t: Turned, p: Parser, finished: bool, result: Option<Status>, rest: string) {
    match t
    case Go(q, line) => !finished && p == q && rest == line
    case Stop(q) => finished && result.None? && p == q
    case Return(q, status) => finished && p == q && result == Some(status)
  }

  /** The first i characters are read, and the rest of the line decides the outcome. */
  predicate QuotedSoFar(rest: string, i: nat, mark: char, text: string, after: Option<string>)
    requires i <= |rest|
  {
    var (t, a) := Quotation(rest[i..], mark);
    text == rest[..i] + t && after == a
  }

  lemma QuotedStep(rest: string, i: nat, mark: char, text: string, after: Option<string>)
    requires i < |rest| && QuotedSoFar(rest, i, mark, text, after) && rest[i] != '\\' && rest[i] != mark
    ensures QuotedSoFar(rest, i + 1, mark, text, after)
  {
    assert rest[i..][1..] == rest[i + 1..];
    assert rest[..i + 1] == rest[..i] + [rest[i]];
  }

  lemma QuotedMark(rest: string, i: nat, mark: char, text: string, after: Option<string>)
    requires i < |rest| && QuotedSoFar(rest, i, mark, text, after) && rest[i] == mark != '\\'
    ensures text == rest[..i] && after == Some(rest[i + 1..])
  {
    assert rest[i..][1..] == rest[i + 1..];
  }

  lemma QuotedEscape(rest: string, i: nat, mark: char, text: string, after: Option<string>)
    requires i < |rest| && QuotedSoFar(rest, i, mark, text, after) && rest[i] == '\\'
    ensures var erased := rest[..i] + rest[i + 1..];
            if |erased| == i || IsLineEnd(erased[i..]) then text == erased[..i] && after.None?
            else QuotedSoFar(erased, i + 1, mark, text, after)
  {
    var erased := rest[..i] + rest[i + 1..];
    var next := rest[i + 1..];
    assert rest[i..][1..] == next && erased[i..] == next && erased[..i] == rest[..i];
    if next != "" && !IsLineEnd(next) {
      assert next[1..] == erased[i + 1..];
      assert erased[..i + 1] == rest[..i] + [next[0]];
    }
  }

  predicate PlainSoFar(line: string, i: nat, bare: bool, text: string, stop: Halt)
    requires i <= |line|
  {
    var (t, h) := PlainText(line[i..], i == 0 && bare);
    text == line[..i] + t && stop == h
  }

  lemma PlainEnd(line: string, bare: bool, text: string, stop: Halt)
    requires PlainSoFar(line, |line|, bare, text, stop)
    ensures text == line && stop == AtEnd
  {
    assert line[|line|..] == "" && line[..|line|] == line;
  }

  lemma PlainStep(line: string, i: nat, bare: bool, text: string, stop: Halt)
    requires i < |line| && PlainSoFar(line, i, bare, text, stop)
    ensures line[i] == '\\' ==> var (t, s) := Escape(line[i + 1..]); text == line[..i] + t && stop == s
    ensures IsSpace(line[i]) ==> text == line[..i] && stop == AtSpace(line[i + 1..])
    ensures IsQuote(line[i]) ==> text == line[..i] && stop == AtQuote(line[i..])
    ensures line[i] == '#' && i == 0 && bare ==> text == "" && stop == AtComment
    ensures line[i] != '\\' && !IsSpace(line[i]) && !IsQuote(line[i]) && !(line[i] == '#' && i == 0 && bare)
         ==> PlainSoFar(line, i + 1, bare, text, stop)
  {
    assert line[i..][1..] == line[i + 1..];
    assert line[..i + 1] == line[..i] + [line[i]];
  }
}
