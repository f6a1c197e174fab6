/**
 How far a reader of a configuration line must look to know where a quotation is: at the marks and escapes, and at
 what makes a number sign open a comment and an exclamation mark precede a line that may fail.
 */
module Reader {
  import opened Text
  import opened ConfigParser

  /** Whether the argument at hand has no text so far, and whether no argument is complete. */
  datatype Word = Word(empty: bool, first: bool)

  datatype Mode =
    | Outside(word: Word)
    | OutsideEscape(word: Word)
    | Inside(mark: char, word: Word)
    | InsideEscape(mark: char, word: Word)
    | EscapedReturn(mark: char, word: Word)   // behind an escaped carriage return in a quotation
    | EscapedBreak(mark: char, word: Word)    // behind an escaped line break in a quotation
    | Closed(mark: char, word: Word)          // right behind a closing mark
    | Comment

  /** Whitespace completes an argument that has text. */
  function Spaced(w: Word): Word {
    if w.empty then w else Word(true, false)
  }

  function Filled(w: Word): Word {
    Word(false, w.first)
  }

  /** In a quotation, text belongs to the argument, unless it is that of a command. */
  function Grown(mark: char, w: Word, substitute: bool): Word {
    if mark == '`' && substitute then w else Filled(w)
  }

  /** A quotation before whitespace completes its argument even without text; a command completes none. */
  function Behind(mark: char, w: Word, c: char, substitute: bool): Word {
    if IsSpace(c) then Word(true, mark == '`' && substitute && w.first) else w
  }

  function MoveOutside(w: Word, c: char, fail: bool, substitute: bool): Mode {
    if c == '\\' then OutsideEscape(w)
    else if IsSpace(c) then Outside(Spaced(w))
    else if IsQuote(c) then Inside(c, if c == '`' && substitute then Spaced(w) else w)
    else if c == '#' && w.empty then Comment
    else if c == '!' && fail && w == Word(true, true) then Outside(w)
    else Outside(Filled(w))
  }

  function MoveInside(mark: char, w: Word, c: char, substitute: bool): Mode {
    if c == '\\' then InsideEscape(mark, w)
    else if c == mark then Closed(mark, w)
    else Inside(mark, Grown(mark, w, substitute))
  }

  function Move(mode: Mode, c: char, fail: bool, substitute: bool): Mode {
    match mode
    case Outside(w) => MoveOutside(w, c, fail, substitute)
    case OutsideEscape(w) => Outside(if c == '\n' || c == '\r' then Spaced(w) else Filled(w))
    case Inside(mark, w) => MoveInside(mark, w, c, substitute)
    case InsideEscape(mark, w) =>
      var grown := Grown(mark, w, substitute);
      if c == '\n' then EscapedBreak(mark, grown) else if c == '\r' then EscapedReturn(mark, grown) else Inside(mark, grown)
    case EscapedReturn(mark, w) =>
      if c == '\n' then EscapedBreak(mark, Grown(mark, w, substitute)) else MoveInside(mark, w, c, substitute)
    case EscapedBreak(mark, w) => MoveInside(mark, w, c, substitute)
    case Closed(mark, w) =>
      MoveOutside(Behind(mark, w, c, substitute), c, fail, substitute)
    case Comment => Comment
  }

  function Scan(mode: Mode, text: string, fail: bool, substitute: bool): Mode
    decreases |text|
  {
    if text == "" then mode else Scan(Move(mode, text[0], fail, substitute), text[1..], fail, substitute)
  }

  lemma ScanEmpty(mode: Mode, fail: bool, substitute: bool)
    ensures Scan(mode, "", fail, substitute) == mode
  {
  }

  lemma ScanOn(mode: Mode, text: string, fail: bool, substitute: bool)
    requires text != ""
    ensures Scan(mode, text, fail, substitute) == Scan(Move(mode, text[0], fail, substitute), text[1..], fail, substitute)
  {
  }

  lemma ScanClosed(mark: char, w: Word, rest: string, fail: bool, substitute: bool)
    requires rest != ""
    ensures Scan(Closed(mark, w), rest, fail, substitute)
         == Scan(Outside(Behind(mark, w, rest[0], substitute)), rest, fail, substitute)
  {
  }

  /** What is behind an escaping backslash before a cut. */
  lemma ScanEscape(mode: Mode, rest: string, b: string, fail: bool, substitute: bool)
    requires mode.InsideEscape? || mode.OutsideEscape?
    requires Scan(mode, rest, fail, substitute).Inside?
    ensures rest != "" && !IsLineEnd(rest) && !IsLineEnd(rest + b)
    ensures Scan(mode, rest, fail, substitute)
         == Scan(Move(mode, rest[0], fail, substitute), rest[1..], fail, substitute)
    ensures (rest + b)[0] == rest[0] && (rest + b)[1..] == rest[1..] + b
  {
    var next := Move(mode, rest[0], fail, substitute);
    assert Scan(mode, rest, fail, substitute) == Scan(next, rest[1..], fail, substitute);
    assert |rest| == 1 ==> rest[1..] == "";
    if |rest| == 2 {
      var last := rest[1..];
      assert last[0] == rest[1] && last[1..] == "";
      assert Scan(next, last, fail, substitute) == Scan(Move(next, last[0], fail, substitute), last[1..], fail, substitute);
    }
  }

  /** The argument at hand after some text of a quotation. */
  function WordAfter(mark: char, w: Word, text: string, substitute: bool): Word {
    if text == "" then w else Grown(mark, w, substitute)
  }

  lemma {:induction false} CommentStays(text: string, fail: bool, substitute: bool)
    ensures Scan(Comment, text, fail, substitute) == Comment
    decreases |text|
  {
    if text != "" {
      CommentStays(text[1..], fail, substitute);
    }
  }

  // ---------------------------------------------------------------- longer texts

  predicate InQuotation(mode: Mode, mark: char, w: Word) {
    mode in {Inside(mark, w), EscapedBreak(mark, w), EscapedReturn(mark, w)}
  }

  /** How the scan of a quotation agrees with that of the parser, and how both go on in a longer text. */
  ghost predicate QuotationAgrees(mode: Mode, a: string, mark: char, w: Word, b: string, fail: bool, substitute: bool) {
    var (text, after) := Quotation(a, mark);
    var word := WordAfter(mark, w, text, substitute);
    match after
    case Some(rest) =>
      && Quotation(a + b, mark) == (text, Some(rest + b))
      && Scan(Closed(mark, word), rest, fail, substitute) == Scan(mode, a, fail, substitute)
    case None =>
      && Scan(mode, a, fail, substitute) == Inside(mark, word)
      && Quotation(a + b, mark) == (text + Quotation(b, mark).0, Quotation(b, mark).1)
  }

  lemma {:induction false} QuotationExtends(mode: Mode, a: string, mark: char, w: Word, b: string, fail: bool, substitute: bool)
    requires IsQuote(mark) && InQuotation(mode, mark, w)
    requires Scan(mode, a, fail, substitute).Inside?
    ensures QuotationAgrees(mode, a, mark, w, b, fail, substitute)
    decreases |a|
  {
    if a == "" {
      assert a + b == b && "" + Quotation(b, mark).0 == Quotation(b, mark).0;
    } else if a[0] == '\\' {
      var rest := a[1..];
      ScanOn(mode, a, fail, substitute);
      hide Scan;
      ScanEscape(InsideEscape(mark, w), rest, b, fail, substitute);
      var next := Move(InsideEscape(mark, w), rest[0], fail, substitute);
      QuotationExtends(next, rest[1..], mark, next.word, b, fail, substitute);
      EscapeAgrees(mode, a, mark, w, b, fail, substitute);
    } else if a[0] != mark {
      ScanOn(mode, a, fail, substitute);
      hide Scan;
      var next := Move(mode, a[0], fail, substitute);
      QuotationExtends(next, a[1..], mark, next.word, b, fail, substitute);
      TextAgrees(mode, a, mark, w, b, fail, substitute);
    } else {
      assert (a + b)[1..] == a[1..] + b;
    }
  }

  lemma QuotationOn(line: string, mark: char)
    requires line != "" && line[0] != '\\' && line[0] != mark
    ensures Quotation(line, mark) == ([line[0]] + Quotation(line[1..], mark).0, Quotation(line[1..], mark).1)
  {
  }

  lemma EscapeAgrees(mode: Mode, a: string, mark: char, w: Word, b: string, fail: bool, substitute: bool)
    requires IsQuote(mark) && InQuotation(mode, mark, w) && |a| >= 2 && a[0] == '\\'
    requires !IsLineEnd(a[1..]) && !IsLineEnd(a[1..] + b)
    requires (a[1..] + b)[0] == a[1..][0] && (a[1..] + b)[1..] == a[1..][1..] + b
    requires var next := Move(InsideEscape(mark, w), a[1..][0], fail, substitute);
             QuotationAgrees(next, a[1..][1..], mark, next.word, b, fail, substitute)
    ensures QuotationAgrees(mode, a, mark, w, b, fail, substitute)
  {
    var rest := a[1..];
    assert (a + b)[1..] == rest + b;
    ScanOn(mode, a, fail, substitute);
    ScanOn(InsideEscape(mark, w), rest, fail, substitute);
    hide Scan;
    var (t, _) := Quotation(rest[1..], mark);
    assert [rest[0]] + (t + Quotation(b, mark).0) == [rest[0]] + t + Quotation(b, mark).0;
  }

  lemma MoveText(mode: Mode, c: char, mark: char, w: Word, fail: bool, substitute: bool)
    requires IsQuote(mark) && InQuotation(mode, mark, w) && c != '\\' && c != mark
    ensures var next := Move(mode, c, fail, substitute);
            InQuotation(next, mark, Grown(mark, w, substitute)) && next.word == Grown(mark, w, substitute)
  {
  }

  lemma GrownAfter(mark: char, w: Word, text: string, rest: string, substitute: bool)
    requires text != ""
    ensures WordAfter(mark, Grown(mark, w, substitute), rest, substitute) == WordAfter(mark, w, text, substitute)
  {
  }

  lemma TextAgrees(mode: Mode, a: string, mark: char, w: Word, b: string, fail: bool, substitute: bool)
    requires IsQuote(mark) && InQuotation(mode, mark, w) && a != "" && a[0] != '\\' && a[0] != mark
    requires var next := Move(mode, a[0], fail, substitute);
             QuotationAgrees(next, a[1..], mark, next.word, b, fail, substitute)
    ensures QuotationAgrees(mode, a, mark, w, b, fail, substitute)
  {
    assert (a + b)[1..] == a[1..] + b;
    ScanOn(mode, a, fail, substitute);
    QuotationOn(a, mark);
    QuotationOn(a + b, mark);
    MoveText(mode, a[0], mark, w, fail, substitute);
    var (t, after) := Quotation(a[1..], mark);
    GrownAfter(mark, w, [a[0]] + t, t, substitute);
    hide Scan, Quotation, Move, InQuotation, Grown, WordAfter;
    assert [a[0]] + (t + Quotation(b, mark).0) == [a[0]] + t + Quotation(b, mark).0;
  }

  function Longer(stop: Halt, b: string): Halt {
    match stop
    case AtSpace(rest) => AtSpace(rest + b)
    case AtQuote(rest) => AtQuote(rest + b)
    case AtEscape(rest) => AtEscape(rest + b)
    case _ => stop
  }

  /** The argument at hand after some unquoted text. */
  function Taken(w: Word, text: string): Word {
    if text == "" then w else Filled(w)
  }

  /** The parser does not take an exclamation mark from here. */
  predicate NoMark(w: Word, line: string, fail: bool) {
    !(fail && w == Word(true, true) && line != "" && line[0] == '!')
  }

  /** How the scan of unquoted text agrees with that of the parser, and how both go on in a longer text. */
  predicate PlainAgrees(a: string, w: Word, b: string, fail: bool, substitute: bool) {
    var (text, stop) := PlainText(a, w.empty);
    && (stop.AtSpace? || stop.AtQuote? || stop.AtEscape?)
    && Scan(Outside(if stop.AtSpace? then Spaced(Taken(w, text)) else Taken(w, text)), stop.rest, fail, substitute)
       == Scan(Outside(w), a, fail, substitute)
    && PlainText(a + b, w.empty) == (text, Longer(stop, b))
  }

  lemma PlainEscapeAgrees(a: string, w: Word, b: string, fail: bool, substitute: bool)
    requires a != "" && a[0] == '\\' && Scan(OutsideEscape(w), a[1..], fail, substitute).Inside?
    ensures PlainAgrees(a, w, b, fail, substitute)
  {
    var rest := a[1..];
    assert (a + b)[1..] == rest + b;
    ScanOn(Outside(w), a, fail, substitute);
    ScanEscape(OutsideEscape(w), rest, b, fail, substitute);
    ScanOn(Outside(w), rest, fail, substitute);
    hide Scan;
  }

  lemma PlainTextAgrees(a: string, w: Word, b: string, fail: bool, substitute: bool)
    requires a != "" && a[0] != '\\' && !IsSpace(a[0]) && !IsQuote(a[0]) && !(a[0] == '#' && w.empty)
    requires NoMark(w, a, fail) && PlainAgrees(a[1..], Filled(w), b, fail, substitute)
    ensures PlainAgrees(a, w, b, fail, substitute)
  {
    assert (a + b)[1..] == a[1..] + b;
    ScanOn(Outside(w), a, fail, substitute);
    hide Scan;
  }

  /** Unquoted text before a cut in a quotation ends before the cut. */
  lemma {:induction false} PlainExtends(a: string, w: Word, b: string, fail: bool, substitute: bool)
    requires Scan(Outside(w), a, fail, substitute).Inside? && NoMark(w, a, fail)
    ensures PlainAgrees(a, w, b, fail, substitute)
    decreases |a|
  {
    if a == "" {
      ScanEmpty(Outside(w), fail, substitute);
      assert false;
    }
    ScanOn(Outside(w), a, fail, substitute);
    hide Scan;
    var c, rest := a[0], a[1..];
    if c == '\\' {
      PlainEscapeAgrees(a, w, b, fail, substitute);
    } else if c == '#' && w.empty {
      CommentStays(rest, fail, substitute);
    } else if !IsSpace(c) && !IsQuote(c) {
      PlainExtends(rest, Filled(w), b, fail, substitute);
      PlainTextAgrees(a, w, b, fail, substitute);
    } else {
      assert (a + b)[1..] == rest + b;
    }
  }

  lemma {:induction false} StrippedExtends(w: Word, a: string, b: string, fail: bool, substitute: bool)
    requires Scan(Outside(w), a, fail, substitute).Inside?
    ensures Stripped(a) != "" && Stripped(a + b) == Stripped(a) + b
    ensures Scan(Outside(if Stripped(a) == a then w else Spaced(w)), Stripped(a), fail, substitute)
         == Scan(Outside(w), a, fail, substitute)
    decreases |a|
  {
    if IsSpace(a[0]) {
      assert (a + b)[1..] == a[1..] + b;
      StrippedExtends(Spaced(w), a[1..], b, fail, substitute);
    }
  }
}
