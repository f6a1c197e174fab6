/** Lines of arguments with whitespace between them: each argument is loaded as the text of its parts. */
module WordLines {
  import opened Text
  import opened ConfigParser
  import opened WrittenLines

  // ---------------------------------------------------------------- lines in parts

  lemma {:induction false} SaysConcat(r: Reading, a: seq<Token>, b: seq<Token>, fail: bool, substitute: bool)
    ensures Says(r, a + b, fail, substitute) == Says(Says(r, a, fail, substitute), b, fail, substitute)
    decreases |a|
  {
    if a == [] {
      assert a + b == b;
    } else {
      assert (a + b)[1..] == a[1..] + b;
      SaysConcat(Took(r, a[0], fail, substitute), a[1..], b, fail, substitute);
    }
  }

  lemma {:induction false} SpelledConcat(a: seq<Token>, b: seq<Token>, rest: string)
    ensures Spelled(a + b, rest) == Spelled(a, Spelled(b, rest))
    decreases |a|
  {
    if a == [] {
      assert a + b == b;
    } else {
      assert (a + b)[1..] == a[1..] + b;
      SpelledConcat(a[1..], b, rest);
    }
  }

  lemma {:induction false} ProperConcat(r: Reading, a: seq<Token>, b: seq<Token>, rest: string, fail: bool,
                                        substitute: bool, runs: string -> bool)
    ensures Proper(r, a + b, rest, fail, substitute, runs)
            <==> Proper(r, a, Spelled(b, rest), fail, substitute, runs)
                 && Proper(Says(r, a, fail, substitute), b, rest, fail, substitute, runs)
    decreases |a|
  {
    if a == [] {
      assert a + b == b;
    } else {
      assert (a + b)[1..] == a[1..] + b;
      SpelledConcat(a[1..], b, rest);
      ProperConcat(Took(r, a[0], fail, substitute), a[1..], b, rest, fail, substitute, runs);
    }
  }

  // ---------------------------------------------------------------- arguments

  /** The parts of one argument: no whitespace, and no command. */
  predicate IsWord(word: seq<Token>, substitute: bool) {
    && word != []
    && forall t :: t in word ==> Legal(t) && !t.Gap? && !t.Break? && !(substitute && t.InQuotes? && t.mark == '`')
  }

  /** The text of an argument is that of its parts, one after the other. */
  function Meant(word: seq<Token>): string {
    if word == [] then ""
    else (if word[0].InQuotes? then word[0].text else [word[0].c]) + Meant(word[1..])
  }

  /** No number sign stands as it is before all text. */
  predicate NoComment(word: seq<Token>) {
    forall i :: 0 <= i < |word| && word[i] == Raw('#') ==> Meant(word[..i]) != ""
  }

  /** Exclamation marks stand as they are only behind characters that do. */
  predicate NoMark(word: seq<Token>) {
    forall i :: 0 <= i < |word| && word[i] == Raw('!') ==> i > 0 && word[i - 1].Raw?
  }

  lemma {:induction false} MeantSnoc(word: seq<Token>, i: nat)
    requires i < |word|
    ensures Meant(word[..i + 1]) == Meant(word[..i]) + (if word[i].InQuotes? then word[i].text else [word[i].c])
  {
    if i == 0 {
      assert word[..1] == [word[0]] && [word[0]][1..] == [];
    } else {
      assert word[..i + 1][1..] == word[1..][..i] && word[..i][1..] == word[1..][..i - 1];
      MeantSnoc(word[1..], i - 1);
    }
  }

  /** What is read of an argument's first parts. */
  function Partly(done: seq<string>, word: seq<Token>, i: nat, tolerant: bool): Reading
    requires i <= |word|
  {
    Reading(done, if i == 0 then None else Some(Meant(word[..i])), i > 0 && word[i - 1].Raw?, tolerant)
  }

  lemma PartSays(done: seq<string>, word: seq<Token>, i: nat, tolerant: bool, rest: string, fail: bool,
                 substitute: bool, runs: string -> bool)
    requires i < |word| && IsWord(word, substitute) && NoComment(word) && (fail && done == [] ==> NoMark(word))
    ensures var r := Partly(done, word, i, tolerant);
            && Fits(r, word[i], rest, substitute, runs)
            && Took(r, word[i], fail, substitute) == Partly(done, word, i + 1, tolerant)
  {
    assert word[i] in word && word[..0] == [];
    MeantSnoc(word, i);
    assert TextOf(Partly(done, word, i, tolerant)) == Meant(word[..i]);
  }

  lemma {:induction false} WordSays(done: seq<string>, word: seq<Token>, i: nat, tolerant: bool, rest: string, fail: bool,
                                    substitute: bool, runs: string -> bool)
    requires i <= |word| && IsWord(word, substitute) && NoComment(word) && (fail && done == [] ==> NoMark(word))
    ensures Proper(Partly(done, word, i, tolerant), word[i..], rest, fail, substitute, runs)
    ensures Says(Partly(done, word, i, tolerant), word[i..], fail, substitute) == Partly(done, word, |word|, tolerant)
    decreases |word| - i
  {
    if i < |word| {
      var r := Partly(done, word, i, tolerant);
      assert word[i..][0] == word[i] && word[i..][1..] == word[i + 1..];
      PartSays(done, word, i, tolerant, Spelled(word[i + 1..], rest), fail, substitute, runs);
      hide Took, Fits, IsWord, NoComment, NoMark, Partly;
      WordSays(done, word, i + 1, tolerant, rest, fail, substitute, runs);
    }
  }

  // ---------------------------------------------------------------- lines

  predicate IsGap(gap: seq<Token>) {
    forall t :: t in gap ==> t.Gap? && Legal(t)
  }

  /** Arguments, with whitespace before, between and behind them. */
  function LineOf(words: seq<seq<Token>>, gaps: seq<seq<Token>>): seq<Token>
    requires |gaps| == |words| + 1
  {
    if words == [] then gaps[0] else gaps[0] + (words[0] + LineOf(words[1..], gaps[1..]))
  }

  ghost predicate IsLine(words: seq<seq<Token>>, gaps: seq<seq<Token>>, substitute: bool) {
    && |gaps| == |words| + 1
    && (forall w :: w in words ==> IsWord(w, substitute) && NoComment(w))
    && (forall g :: g in gaps ==> IsGap(g))
    && (forall i :: 0 < i < |words| ==> gaps[i] != [])
  }

  function Meanings(words: seq<seq<Token>>): seq<string> {
    if words == [] then [] else [Meant(words[0])] + Meanings(words[1..])
  }

  lemma {:induction false} GapSays(r: Reading, gap: seq<Token>, rest: string, fail: bool, substitute: bool, runs: string -> bool)
    requires IsGap(gap)
    ensures Proper(r, gap, rest, fail, substitute, runs)
    ensures Says(r, gap, fail, substitute) == if gap == [] then r else Completed(r)
    decreases |gap|
  {
    if gap != [] {
      assert gap[0] in gap;
      GapSays(Completed(r), gap[1..], rest, fail, substitute, runs);
      CompletedTwice(r);
    }
  }

  /** Nothing is at hand, or whitespace follows. */
  predicate Apart(r: Reading, words: seq<seq<Token>>, gaps: seq<seq<Token>>) {
    |gaps| == |words| + 1 && (words != [] && gaps[0] == [] ==> r.current.None? && !r.mid)
  }

  /** What a line says behind what was read before it. */
  ghost predicate LineRead(r: Reading, words: seq<seq<Token>>, gaps: seq<seq<Token>>, rest: string, fail: bool,
                           substitute: bool, runs: string -> bool)
    requires |gaps| == |words| + 1
  {
    var s := Says(r, LineOf(words, gaps), fail, substitute);
    && Proper(r, LineOf(words, gaps), rest, fail, substitute, runs)
    && Completed(s) == Reading(Completed(r).done + Meanings(words), None, false, r.tolerant)
    && (gaps[|words|] != [] ==> s == Completed(s))
  }

  lemma {:induction false} LineSays(r: Reading, words: seq<seq<Token>>, gaps: seq<seq<Token>>, rest: string, fail: bool,
                                    substitute: bool, runs: string -> bool)
    requires IsLine(words, gaps, substitute) && Apart(r, words, gaps)
    requires fail && Completed(r).done == [] && words != [] ==> NoMark(words[0])
    ensures LineRead(r, words, gaps, rest, fail, substitute, runs)
    decreases |words|
  {
    if words == [] {
      assert gaps[0] in gaps;
      GapSays(r, gaps[0], rest, fail, substitute, runs);
      CompletedTwice(r);
      assert Completed(r).done + [] == Completed(r).done;
    } else {
      var next := BehindWord(r, words[0]);
      assert Completed(next).done == Completed(r).done + [Meant(words[0])];
      LineIsLonger(words, gaps, substitute);
      hide LineRead, IsLine, Completed, Meant;
      LineSays(next, words[1..], gaps[1..], rest, fail, substitute, runs);
      LineStep(r, words, gaps, rest, fail, substitute, runs);
    }
  }

  function BehindWord(r: Reading, word: seq<Token>): Reading {
    Reading(Completed(r).done, Some(Meant(word)), word != [] && word[|word| - 1].Raw?, r.tolerant)
  }

  lemma LineIsLonger(words: seq<seq<Token>>, gaps: seq<seq<Token>>, substitute: bool)
    requires IsLine(words, gaps, substitute) && words != []
    ensures IsGap(gaps[0]) && IsWord(words[0], substitute) && NoComment(words[0])
    ensures IsLine(words[1..], gaps[1..], substitute)
    ensures |words| > 1 ==> gaps[1] != []
  {
    assert gaps[0] in gaps && words[0] in words;
    assert forall i :: 0 < i < |words| - 1 ==> gaps[1..][i] == gaps[i + 1];
  }

  lemma LineStep(r: Reading, words: seq<seq<Token>>, gaps: seq<seq<Token>>, rest: string, fail: bool,
                 substitute: bool, runs: string -> bool)
    requires IsLine(words, gaps, substitute) && Apart(r, words, gaps) && words != []
    requires fail && Completed(r).done == [] ==> NoMark(words[0])
    requires LineRead(BehindWord(r, words[0]), words[1..], gaps[1..], rest, fail, substitute, runs)
    ensures LineRead(r, words, gaps, rest, fail, substitute, runs)
  {
    hide IsLine, IsGap, IsWord, NoComment, NoMark, Says, Proper, Meant, Completed;
    var gap, word, line, next := gaps[0], words[0], LineOf(words[1..], gaps[1..]), BehindWord(r, words[0]);
    LineIsLonger(words, gaps, substitute);
    FirstWordJoins(r, gap, word, line, rest, fail, substitute, runs);
    WordIsDone(r, word, words);
    assert LineOf(words, gaps) == gap + (word + line);
    assert gaps[1..][|words| - 1] == gaps[|words|];
  }

  lemma WordIsDone(r: Reading, word: seq<Token>, words: seq<seq<Token>>)
    requires words != [] && word == words[0]
    ensures Completed(BehindWord(r, word)).done + Meanings(words[1..]) == Completed(r).done + Meanings(words)
  {
    var done, texts := Completed(r).done, Meanings(words[1..]);
    assert done + [Meant(word)] + texts == done + ([Meant(word)] + texts);
  }

  lemma FirstWordJoins(r: Reading, gap: seq<Token>, word: seq<Token>, line: seq<Token>, rest: string, fail: bool,
                       substitute: bool, runs: string -> bool)
    requires IsGap(gap) && IsWord(word, substitute) && NoComment(word) && (gap == [] ==> r.current.None? && !r.mid)
    requires fail && Completed(r).done == [] ==> NoMark(word)
    requires Proper(BehindWord(r, word), line, rest, fail, substitute, runs)
    ensures Proper(r, gap + (word + line), rest, fail, substitute, runs)
    ensures Says(r, gap + (word + line), fail, substitute) == Says(BehindWord(r, word), line, fail, substitute)
  {
    hide *;
    FirstWordSays(r, gap, word, Spelled(line, rest), fail, substitute, runs);
    SpelledConcat(word, line, rest);
    Joined(r, gap, word, line, rest, fail, substitute, runs);
  }

  lemma FirstWordSays(r: Reading, gap: seq<Token>, word: seq<Token>, rest: string, fail: bool, substitute: bool,
                      runs: string -> bool)
    requires IsGap(gap) && IsWord(word, substitute) && NoComment(word) && (gap == [] ==> r.current.None? && !r.mid)
    requires fail && Completed(r).done == [] ==> NoMark(word)
    ensures Proper(r, gap, Spelled(word, rest), fail, substitute, runs)
    ensures var r1 := Says(r, gap, fail, substitute);
            && Proper(r1, word, rest, fail, substitute, runs)
            && Says(r1, word, fail, substitute) == BehindWord(r, word)
  {
    GapSays(r, gap, Spelled(word, rest), fail, substitute, runs);
    var done := Completed(r).done;
    assert r.current.None? ==> done == r.done;
    assert Says(r, gap, fail, substitute) == Partly(done, word, 0, r.tolerant);
    assert word[0..] == word && word[..|word|] == word;
    hide Says, Proper;
    WordSays(done, word, 0, r.tolerant, rest, fail, substitute, runs);
  }

  lemma Joined(r: Reading, gap: seq<Token>, word: seq<Token>, more: seq<Token>, rest: string, fail: bool,
               substitute: bool, runs: string -> bool)
    ensures var r1 := Says(r, gap, fail, substitute);
            var r2 := Says(r1, word, fail, substitute);
            && Says(r, gap + (word + more), fail, substitute) == Says(r2, more, fail, substitute)
            && (Proper(r, gap + (word + more), rest, fail, substitute, runs)
                <==> Proper(r, gap, Spelled(word + more, rest), fail, substitute, runs)
                     && Proper(r1, word, Spelled(more, rest), fail, substitute, runs)
                     && Proper(r2, more, rest, fail, substitute, runs))
  {
    var r1 := Says(r, gap, fail, substitute);
    SaysConcat(r, gap, word + more, fail, substitute);
    SaysConcat(r1, word, more, fail, substitute);
    ProperConcat(r, gap, word + more, rest, fail, substitute, runs);
    ProperConcat(r1, word, more, rest, fail, substitute, runs);
  }

  /** Arguments of any parts, with any whitespace around them, are loaded as their texts. */
  lemma LoadWords(p: Parser, words: seq<seq<Token>>, gaps: seq<seq<Token>>, fail: bool, substitute: bool, runs: string -> bool)
    requires !p.nextLine && IsLine(words, gaps, substitute) && (fail && words != [] ==> NoMark(words[0]))
    ensures var (q, status) := Load(p, Some(Spelled(LineOf(words, gaps), "")), fail, substitute, runs);
            q.bufferedData == Meanings(words) && status == Loaded && !q.nextLine
  {
    LineSays(START, words, gaps, "", fail, substitute, runs);
    assert [] + Meanings(words) == Meanings(words);
    LoadWritten(p, LineOf(words, gaps), fail, substitute, runs);
  }

  /** So they are if a comment follows after whitespace. */
  lemma LoadCommented(p: Parser, words: seq<seq<Token>>, gaps: seq<seq<Token>>, comment: string, fail: bool,
                      substitute: bool, runs: string -> bool)
    requires !p.nextLine && IsLine(words, gaps, substitute) && (fail && words != [] ==> NoMark(words[0]))
    requires words == [] || gaps[|words|] != []
    ensures var (q, status) := Load(p, Some(Spelled(LineOf(words, gaps), "#" + comment)), fail, substitute, runs);
            q.bufferedData == Meanings(words) && status == Loaded && !q.nextLine
  {
    LineSays(START, words, gaps, "#" + comment, fail, substitute, runs);
    assert [] + Meanings(words) == Meanings(words);
    if words == [] {
      GapSays(START, gaps[0], "#" + comment, fail, substitute, runs);
    }
    CommentIsLoaded(p, LineOf(words, gaps), comment, fail, substitute, runs);
  }

  /** Where failures are checked, a mark in front makes it a line that may fail, with the same arguments. */
  lemma LoadMarked(p: Parser, words: seq<seq<Token>>, gaps: seq<seq<Token>>, substitute: bool, runs: string -> bool)
    requires !p.nextLine && IsLine(words, gaps, substitute) && (words != [] ==> NoMark(words[0]))
    ensures var (q, status) := Load(p, Some("!" + Spelled(LineOf(words, gaps), "")), true, substitute, runs);
            q.bufferedData == Meanings(words) && status == Fallible && !q.nextLine
  {
    var r, line := START.(tolerant := true), [Raw('!')] + LineOf(words, gaps);
    LineSays(r, words, gaps, "", true, substitute, runs);
    assert [] + Meanings(words) == Meanings(words);
    assert line[0] == Raw('!') && line[1..] == LineOf(words, gaps);
    assert Took(START, Raw('!'), true, substitute) == r;
    assert Proper(START, line, "", true, substitute, runs);
    LoadWritten(p, line, true, substitute, runs);
  }

  // ---------------------------------------------------------------- arguments of any text

  /** An argument, and how it is written: in quotes, or as plain text. */
  datatype Written = Written(style: Quote, text: string)

  predicate Writable(a: Written, substitute: bool) {
    && (a.style == Unquoted ==> a.text != "" && '\r' !in a.text && '\n' !in a.text)
    && (substitute ==> a.style != ExecuteQuote)
  }

  /** Plain text, with a backslash before every character that would mean something. */
  function PlainWord(text: string): seq<Token> {
    if text == "" then []
    else [if text[0] in {' ', '\t', '"', '\'', '`', '\\', '#', '!'} then Kept(text[0]) else Raw(text[0])] + PlainWord(text[1..])
  }

  function WordFor(a: Written): seq<Token> {
    if a.style == Unquoted then PlainWord(a.text) else [InQuotes(Mark(a.style), a.text)]
  }

  function WordsFor(args: seq<Written>): (words: seq<seq<Token>>)
    ensures |words| == |args|
    ensures forall i :: 0 <= i < |args| ==> words[i] == WordFor(args[i])
  {
    if args == [] then [] else [WordFor(args[0])] + WordsFor(args[1..])
  }

  function TextsOf(args: seq<Written>): seq<string> {
    if args == [] then [] else [args[0].text] + TextsOf(args[1..])
  }

  lemma {:induction false} PlainWordMeans(text: string)
    requires '\r' !in text && '\n' !in text
    ensures |PlainWord(text)| == |text| && Meant(PlainWord(text)) == text
    ensures forall t :: t in PlainWord(text) ==> Legal(t) && (t.Raw? || t.Kept?) && t != Raw('#') && t != Raw('!')
    decreases |text|
  {
    if text != "" {
      PlainWordMeans(text[1..]);
    }
  }

  lemma WordForMeans(a: Written, substitute: bool)
    requires Writable(a, substitute)
    ensures IsWord(WordFor(a), substitute) && NoComment(WordFor(a)) && NoMark(WordFor(a)) && Meant(WordFor(a)) == a.text
  {
    if a.style == Unquoted {
      PlainWordMeans(a.text);
      assert forall i :: 0 <= i < |WordFor(a)| ==> WordFor(a)[i] in WordFor(a);
    } else {
      assert WordFor(a)[1..] == [] && a.text + "" == a.text;
    }
  }

  lemma {:induction false} WordsForMean(args: seq<Written>, substitute: bool)
    requires forall a :: a in args ==> Writable(a, substitute)
    ensures Meanings(WordsFor(args)) == TextsOf(args)
    decreases |args|
  {
    if args != [] {
      WordForMeans(args[0], substitute);
      assert WordsFor(args)[1..] == WordsFor(args[1..]);
      WordsForMean(args[1..], substitute);
    }
  }

  /** Any list of arguments, each in quotes or not, comes back from the line in which it is written. */
  lemma LoadArguments(p: Parser, args: seq<Written>, gaps: seq<seq<Token>>, fail: bool, substitute: bool, runs: string -> bool)
    requires !p.nextLine && forall a :: a in args ==> Writable(a, substitute)
    requires |gaps| == |args| + 1
    requires (forall g :: g in gaps ==> IsGap(g)) && forall i :: 0 < i < |args| ==> gaps[i] != []
    ensures var (q, status) := Load(p, Some(Spelled(LineOf(WordsFor(args), gaps), "")), fail, substitute, runs);
            q.bufferedData == TextsOf(args) && status == Loaded && !q.nextLine
  {
    var words := WordsFor(args);
    forall w | w in words
      ensures IsWord(w, substitute) && NoComment(w) && NoMark(w)
    {
      var i :| 0 <= i < |words| && words[i] == w;
      assert args[i] in args;
      WordForMeans(args[i], substitute);
    }
    WordsForMean(args, substitute);
    LoadWords(p, words, gaps, fail, substitute, runs);
  }
}
