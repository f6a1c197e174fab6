/**
 Splitting an argument at the delimiter it starts with (libs/protocol/api-config-parser.cpp, from
 argument_delim_split on). A backslash that makes the run of backslashes before a delimiter odd escapes it.
 */
module DelimSplit {
  import opened Text

  /** How many backslashes stand right before position i. */
  function RunBefore(s: string, i: nat): (n: nat)
    requires i <= |s|
    ensures n <= i
  {
    if i > 0 && s[i - 1] == '\\' then 1 + RunBefore(s, i - 1) else 0
  }

  /** A delimiter after this text is escaped. */
  predicate Escapes(s: string) {
    RunBefore(s, |s|) % 2 == 1
  }

  /** The fields of a text without its leading delimiter. */
  function Fields(text: string, d: char): (fields: seq<string>)
    ensures fields != []
    decreases |text|
  {
    if d !in text then [text]
    else
      var before, more := Before(text, d), Fields(After(text, d), d);
      if Escapes(before) then Prepended(before[..|before| - 1] + [d], more) else [before] + more
  }

  function Prepended(s: string, fields: seq<string>): (r: seq<string>)
    requires fields != []
    ensures |r| == |fields|
  {
    [s + fields[0]] + fields[1..]
  }

  // ---------------------------------------------------------------- the routine

  /** Whether the run of backslashes that ends at the position is odd. */
  method EscapeCheck(s: string, position: int) returns (escaped: bool)
    requires -1 <= position < |s|
    ensures escaped == Escapes(s[..position + 1])
  {
    escaped := false;
    var p := position;
    ghost var all := RunBefore(s[..position + 1], position + 1);
    while p > -1 && s[p] == '\\'
      invariant -1 <= p <= position
      invariant all == RunBefore(s[..position + 1], p + 1) + (position - p)
      invariant escaped == ((position - p) % 2 == 1)
    {
      escaped := !escaped;
      p := p - 1;
    }
  }

  lemma PrependedTwice(a: string, b: string, fields: seq<string>)
    requires fields != []
    ensures Prepended(a, Prepended(b, fields)) == Prepended(a + b, fields)
  {
    assert a + (b + fields[0]) == a + b + fields[0];
  }

  lemma PrependedFirst(s: string, field: string, more: seq<string>)
    ensures Prepended(s, [field] + more) == [s + field] + more
  {
    assert ([field] + more)[1..] == more;
  }

  function Without(s: string, i: nat): (r: string)
    requires i < |s|
    ensures |r| == |s| - 1
  {
    s[..i] + s[i + 1..]
  }

  /** Where the next delimiter is, or the end. */
  function Next(copy: string, current: nat, d: char): (stop: nat)
    requires current <= |copy|
    ensures current <= stop <= |copy|
  {
    current + Find(copy[current..], d)
  }

  /** The fields that are not yet complete, when the current one starts at `start` and is searched from `current`. */
  function ToCome(copy: string, start: nat, current: nat, d: char): (fields: seq<string>)
    requires start <= current <= |copy|
    ensures fields != []
  {
    Prepended(copy[start..current], Fields(copy[current..], d))
  }

  lemma NewField(copy: string, start: nat, d: char)
    requires start <= |copy|
    ensures ToCome(copy, start, start, d) == Fields(copy[start..], d)
  {
    var fields := Fields(copy[start..], d);
    assert copy[start..start] + fields[0] == fields[0];
    assert [fields[0]] + fields[1..] == fields;
  }

  lemma Slices(copy: string, i: nat, j: nat, k: nat)
    requires i <= j <= k <= |copy|
    ensures copy[i..j] + copy[j..k] == copy[i..k]
  {
  }

  lemma WithoutLast(copy: string, i: nat, j: nat)
    requires i < j <= |copy|
    ensures copy[i..j][..|copy[i..j]| - 1] == copy[i..j - 1]
  {
  }

  lemma NoDelimiter(copy: string, start: nat, current: nat, d: char)
    requires start <= current <= |copy| && d !in copy[current..]
    ensures ToCome(copy, start, current, d) == [copy[start..]]
  {
    assert copy[start..current] + copy[current..] == copy[start..];
  }

  lemma FoundDelimiter(copy: string, current: nat, stop: nat, d: char)
    requires current <= stop < |copy| && stop == Next(copy, current, d)
    ensures Before(copy[current..], d) == copy[current..stop] && After(copy[current..], d) == copy[stop + 1..]
    ensures copy[stop] == d && d in copy[current..]
  {
  }

  lemma FieldsAt(text: string, d: char, before: string, after: string)
    requires d in text && before == Before(text, d) && after == After(text, d)
    ensures Fields(text, d) == if Escapes(before) then Prepended(before[..|before| - 1] + [d], Fields(after, d))
                               else [before] + Fields(after, d)
  {
  }

  lemma ToComeIs(copy: string, start: nat, current: nat, d: char, fields: seq<string>)
    requires start <= current <= |copy| && fields == Fields(copy[current..], d)
    ensures ToCome(copy, start, current, d) == Prepended(copy[start..current], fields)
  {
  }

  lemma FieldFound(copy: string, current: nat, stop: nat, d: char)
    requires current <= stop < |copy| && stop == Next(copy, current, d) && !Escapes(copy[current..stop])
    ensures Fields(copy[current..], d) == [copy[current..stop]] + Fields(copy[stop + 1..], d)
  {
    FoundDelimiter(copy, current, stop, d);
    hide *;
    FieldsAt(copy[current..], d, copy[current..stop], copy[stop + 1..]);
  }

  lemma FirstEnds(copy: string, start: nat, current: nat, stop: nat, d: char, more: seq<string>)
    requires start <= current <= stop < |copy| && Fields(copy[current..], d) == [copy[current..stop]] + more
    ensures ToCome(copy, start, current, d) == [copy[start..stop]] + more
  {
    Slices(copy, start, current, stop);
    PrependedFirst(copy[start..current], copy[current..stop], more);
    hide Fields, Prepended;
  }

  /** A delimiter that is not escaped ends the field. */
  lemma FieldEnds(copy: string, start: nat, current: nat, stop: nat, d: char)
    requires start <= current <= stop < |copy| && stop == Next(copy, current, d)
    requires !Escapes(copy[current..stop])
    ensures ToCome(copy, start, current, d) == [copy[start..stop]] + ToCome(copy, stop + 1, stop + 1, d)
  {
    hide *;
    FieldFound(copy, current, stop, d);
    FirstEnds(copy, start, current, stop, d, Fields(copy[stop + 1..], d));
    NewField(copy, stop + 1, d);
  }

  lemma Erased(copy: string, start: nat, current: nat, stop: nat)
    requires start <= current < stop < |copy|
    ensures var erased := Without(copy, stop - 1);
            && erased[stop..] == copy[stop + 1..]
            && erased[start..stop] == copy[start..current] + (copy[current..stop - 1] + [copy[stop]])
  {
  }

  /** An escaped delimiter belongs to the field, and takes the place of the backslash before it. */
  lemma FieldGoesOn(copy: string, start: nat, current: nat, stop: nat, d: char)
    requires start <= current <= stop < |copy| && stop == Next(copy, current, d)
    requires Escapes(copy[current..stop])
    ensures ToCome(copy, start, current, d) == ToCome(Without(copy, stop - 1), start, stop, d)
  {
    assert current < stop;
    FoundDelimiter(copy, current, stop, d);
    hide *;
    FieldsAt(copy[current..], d, copy[current..stop], copy[stop + 1..]);
    WithoutLast(copy, current, stop);
    var field, more := copy[current..stop - 1] + [d], Fields(copy[stop + 1..], d);
    ToComeIs(copy, start, current, d, Prepended(field, more));
    PrependedTwice(copy[start..current], field, more);
    Erased(copy, start, current, stop);
    ToComeIs(Without(copy, stop - 1), start, stop, d, more);
  }

  /** These fields are complete, and the others are to come. */
  predicate Progress(all: seq<string>, done: seq<string>, copy: string, start: nat, current: nat, d: char) {
    start <= current <= |copy| && all == done + ToCome(copy, start, current, d)
  }

  lemma GoesOn(all: seq<string>, done: seq<string>, copy: string, start: nat, current: nat, stop: nat, d: char)
    requires Progress(all, done, copy, start, current, d)
    requires current <= stop < |copy| && stop == Next(copy, current, d)
    requires Escapes(copy[current..][..stop - current])
    ensures Progress(all, done, Without(copy, stop - 1), start, stop, d)
  {
    assert copy[current..][..stop - current] == copy[current..stop];
    FieldGoesOn(copy, start, current, stop, d);
  }

  lemma Ends(all: seq<string>, done: seq<string>, copy: string, start: nat, current: nat, stop: nat, d: char)
    requires Progress(all, done, copy, start, current, d)
    requires current <= stop < |copy| && stop == Next(copy, current, d)
    requires !Escapes(copy[current..][..stop - current])
    ensures Progress(all, done + [copy[start..stop]], copy, stop + 1, stop + 1, d)
  {
    assert copy[current..][..stop - current] == copy[current..stop];
    FieldEnds(copy, start, current, stop, d);
    var field, more := copy[start..stop], ToCome(copy, stop + 1, stop + 1, d);
    assert done + ([field] + more) == (done + [field]) + more;
  }

  lemma Finished(all: seq<string>, done: seq<string>, copy: string, start: nat, current: nat, d: char)
    requires Progress(all, done, copy, start, current, d) && Next(copy, current, d) == |copy|
    ensures all == done + [copy[start..]]
  {
    NoDelimiter(copy, start, current, d);
  }

  lemma Begins(argument: string)
    requires argument != ""
    ensures Progress(Fields(argument[1..], argument[0]), [], argument, 1, 1, argument[0])
  {
    NewField(argument, 1, argument[0]);
  }

  /** One turn of the loop: the text up to the delimiter ends a field, or the delimiter takes a backslash's place. */
  method AtDelimiter(ghost all: seq<string>, done: seq<string>, copy: string, start: nat, current: nat, stop: nat, d: char)
    returns (arguments: seq<string>, rest: string, first: nat, next: nat)
    requires 1 <= start <= current <= stop < |copy| && stop == Next(copy, current, d)
    requires Progress(all, done, copy, start, current, d)
    ensures 1 <= first <= next <= |rest| && |rest| - next < |copy| - current
    ensures Progress(all, arguments, rest, first, next, d)
  {
    hide *;
    arguments, rest, first := done, copy, start;
    var escaped := EscapeCheck(copy[current..], stop - current - 1);
    if !escaped {
      Ends(all, done, copy, start, current, stop, d);
      arguments := arguments + [copy[start..stop]];
      first := stop + 1;
      next := first;
    } else {
      GoesOn(all, done, copy, start, current, stop, d);
      rest := Without(copy, stop - 1);
      next := stop;
    }
  }

  method ArgumentDelimSplit(argument: string) returns (list: Option<seq<string>>)
    ensures list == if argument == "" then None else Some(Fields(argument[1..], argument[0]))
  {
    if |argument| == 0 {
      return None;
    }
    var arguments: seq<string> := [];
    var copy := argument;
    var delimiter := argument[0];
    var start: nat, current: nat := 1, 1;
    ghost var all := Fields(argument[1..], delimiter);
    Begins(argument);
    hide *;
    var stop: nat := Next(copy, current, delimiter);
    while stop < |copy|
      invariant 1 <= start <= current <= |copy|
      invariant Progress(all, arguments, copy, start, current, delimiter)
      invariant stop == Next(copy, current, delimiter)
      decreases |copy| - current
    {
      arguments, copy, start, current := AtDelimiter(all, arguments, copy, start, current, stop, delimiter);
      stop := Next(copy, current, delimiter);
    }
    Finished(all, arguments, copy, start, current, delimiter);
    arguments := arguments + [copy[start..]];
    list := Some(arguments);
  }

  // ---------------------------------------------------------------- its inverse

  /** Escaped fields with a delimiter between them. */
  function Joined(fields: seq<string>, d: char): string
    requires fields != []
  {
    if |fields| == 1 then Escaped(fields[0], {d}) else Escaped(fields[0], {d}) + [d] + Joined(fields[1..], d)
  }

  /** No delimiter in the field follows an odd run of backslashes, and neither does its end if it is not the last. */
  predicate Clean(field: string, d: char, last: bool)
    decreases |field|
  {
    if d in field then !Escapes(Before(field, d)) && Clean(After(field, d), d, last)
    else last || !Escapes(field)
  }

  predicate AllClean(fields: seq<string>, d: char) {
    forall i :: 0 <= i < |fields| ==> Clean(fields[i], d, i == |fields| - 1)
  }

  lemma {:induction false} EscapedPlain(a: string, d: char)
    requires d !in a
    ensures Escaped(a, {d}) == a
    decreases |a|
  {
    if a != "" {
      EscapedPlain(a[1..], d);
    }
  }

  /** The field up to its first delimiter and the rest of it. */
  lemma EscapedParts(a: string, b: string, d: char)
    requires d !in a
    ensures Escaped(a + [d] + b, {d}) == a + ['\\'] + [d] + Escaped(b, {d})
  {
    EscapedConcat(a + [d], b, {d});
    EscapedConcat(a, [d], {d});
    EscapedPlain(a, d);
    assert Escaped([d], {d}) == ['\\', d] + "" == ['\\', d];
    assert a + ['\\', d] == a + ['\\'] + [d];
  }

  /** One more backslash turns an even run into an odd one. */
  lemma OneMore(s: string)
    ensures Escapes(s + ['\\']) == !Escapes(s)
  {
    RunOfPrefix(s, "\\", |s|);
  }

  lemma {:induction false} RunOfPrefix(s: string, t: string, i: nat)
    requires i <= |s|
    ensures RunBefore(s + t, i) == RunBefore(s, i)
  {
    if i > 0 {
      RunOfPrefix(s, t, i - 1);
    }
  }

  lemma JoinedPrepended(a: string, fields: seq<string>, d: char)
    requires fields != []
    ensures Joined(Prepended(a, fields), d) == Escaped(a, {d}) + Joined(fields, d)
  {
    EscapedConcat(a, fields[0], {d});
    assert Prepended(a, fields)[1..] == fields[1..];
  }

  /** A field that starts with an escaped delimiter behind this text. */
  lemma JoinedEscape(kept: string, fields: seq<string>, d: char)
    requires d !in kept && fields != []
    ensures Joined(Prepended(kept + [d], fields), d) == (kept + ['\\']) + [d] + Joined(fields, d)
  {
    EscapedParts(kept, "", d);
    assert kept + [d] + "" == kept + [d];
    assert kept + ['\\'] + [d] + "" == kept + ['\\'] + [d];
    JoinedPrepended(kept + [d], fields, d);
  }

  lemma JoinedPlain(field: string, fields: seq<string>, d: char)
    requires d !in field && fields != []
    ensures Joined([field] + fields, d) == field + [d] + Joined(fields, d)
  {
    EscapedPlain(field, d);
    assert ([field] + fields)[1..] == fields;
  }

  /** The first field of the fields, whether it goes on behind this text or ends there. */
  lemma JoinOfFirst(before: string, more: seq<string>, d: char)
    requires d !in before && more != []
    ensures Joined(if Escapes(before) then Prepended(before[..|before| - 1] + [d], more) else [before] + more, d)
         == before + [d] + Joined(more, d)
  {
    if Escapes(before) {
      var kept := before[..|before| - 1];
      assert before == kept + ['\\'];
      JoinedEscape(kept, more, d);
    } else {
      JoinedPlain(before, more, d);
    }
  }

  lemma CutAt(text: string, d: char)
    requires d in text
    ensures text == Before(text, d) + [d] + After(text, d)
  {
  }

  /** Nothing is lost: every text is the join of its fields. */
  lemma {:induction false} JoinOfFields(text: string, d: char)
    requires d != '\\'
    ensures Joined(Fields(text, d), d) == text
    decreases |text|
  {
    if d !in text {
      EscapedPlain(text, d);
    } else {
      var before, after := Before(text, d), After(text, d);
      var more := Fields(after, d);
      assert Fields(text, d) == if Escapes(before) then Prepended(before[..|before| - 1] + [d], more) else [before] + more;
      CutAt(text, d);
      hide *;
      JoinOfFields(after, d);
      JoinOfFirst(before, more, d);
    }
  }

  lemma CleanPrepended(a: string, fields: seq<string>, d: char)
    requires d !in a && !Escapes(a) && fields != [] && AllClean(fields, d)
    ensures AllClean(Prepended(a + [d], fields), d)
  {
    var r := Prepended(a + [d], fields);
    FindFirst(a, d, fields[0]);
    assert r[0] == a + [d] + fields[0];
    forall i | 0 <= i < |r| ensures Clean(r[i], d, i == |r| - 1) {
      assert Clean(fields[i], d, i == |fields| - 1);
    }
  }

  /** The fields of a text are clean. */
  lemma {:induction false} FieldsAreClean(text: string, d: char)
    requires d != '\\'
    ensures AllClean(Fields(text, d), d)
    decreases |text|
  {
    if d in text {
      var before, after := Before(text, d), After(text, d);
      var more := Fields(after, d);
      FieldsAreClean(after, d);
      if Escapes(before) {
        var kept := before[..|before| - 1];
        assert before == kept + ['\\'];
        OneMore(kept);
        CleanPrepended(kept, more, d);
      } else {
        var r := [before] + more;
        forall i | 0 <= i < |r| ensures Clean(r[i], d, i == |r| - 1) {
          assert i > 0 ==> r[i] == more[i - 1] && Clean(more[i - 1], d, i - 1 == |more| - 1);
        }
      }
    }
  }

  /** The text of a field up to its first delimiter is read back, and the delimiter with it. */
  lemma FieldsOfFirst(before: string, after: string, tail: string, d: char)
    requires d != '\\' && d !in before && !Escapes(before)
    ensures Fields(Escaped(before + [d] + after, {d}) + tail, d)
         == Prepended(before + [d], Fields(Escaped(after, {d}) + tail, d))
  {
    var slashed, inner := before + ['\\'], Escaped(after, {d}) + tail;
    EscapedParts(before, after, d);
    assert slashed + [d] + Escaped(after, {d}) + tail == slashed + [d] + inner;
    FindFirst(slashed, d, inner);
    assert (slashed + [d] + inner)[|slashed|] == d;
    OneMore(before);
    assert slashed[..|before|] == before;
  }

  /** A clean last field. */
  lemma {:induction false} FieldsOfLast(field: string, d: char)
    requires d != '\\' && Clean(field, d, true)
    ensures Fields(Escaped(field, {d}), d) == [field]
    decreases |field|
  {
    if d in field {
      var before, after := Before(field, d), After(field, d);
      assert field == before + [d] + after;
      FieldsOfFirst(before, after, "", d);
      assert Escaped(field, {d}) + "" == Escaped(field, {d}) && Escaped(after, {d}) + "" == Escaped(after, {d});
      FieldsOfLast(after, d);
    } else {
      EscapedPlain(field, d);
    }
  }

  /** A clean field that is followed by a delimiter. */
  lemma {:induction false} FieldsOfNext(field: string, rest: string, d: char)
    requires d != '\\' && Clean(field, d, false)
    ensures Fields(Escaped(field, {d}) + ([d] + rest), d) == [field] + Fields(rest, d)
    decreases |field|
  {
    if d in field {
      var before, after := Before(field, d), After(field, d);
      assert field == before + [d] + after;
      FieldsOfFirst(before, after, [d] + rest, d);
      FieldsOfNext(after, rest, d);
      PrependedFirst(before + [d], after, Fields(rest, d));
    } else {
      EscapedPlain(field, d);
      assert field + ([d] + rest) == field + [d] + rest;
      assert (field + [d] + rest)[|field|] == d;
      FindFirst(field, d, rest);
    }
  }

  lemma {:induction false} CleanFieldsComeBack(fields: seq<string>, d: char)
    requires d != '\\' && fields != [] && AllClean(fields, d)
    ensures Fields(Joined(fields, d), d) == fields
    decreases |fields|
  {
    assert Clean(fields[0], d, |fields| == 1);
    if |fields| == 1 {
      FieldsOfLast(fields[0], d);
    } else {
      var rest := fields[1..];
      forall i | 0 <= i < |rest| ensures Clean(rest[i], d, i == |rest| - 1) {
        assert Clean(fields[i + 1], d, i + 1 == |fields| - 1);
      }
      CleanFieldsComeBack(rest, d);
      FieldsOfNext(fields[0], Joined(rest, d), d);
      assert Escaped(fields[0], {d}) + ([d] + Joined(rest, d)) == Joined(fields, d);
    }
  }

  /** The escaping join is undone exactly if the fields are clean. */
  lemma FieldsComeBackIffClean(fields: seq<string>, d: char)
    requires d != '\\' && fields != []
    ensures Fields(Joined(fields, d), d) == fields <==> AllClean(fields, d)
  {
    if AllClean(fields, d) {
      CleanFieldsComeBack(fields, d);
    }
    FieldsAreClean(Joined(fields, d), d);
  }

  /** A backslash as delimiter cannot be escaped. */
  lemma {:induction false} BackslashSplits(text: string)
    ensures Fields(text, '\\') == Split(text, '\\')
    decreases |text|
  {
    if '\\' in text {
      BackslashSplits(After(text, '\\'));
    }
  }

  // ---------------------------------------------------------------- how many fields

  /** The delimiters before position i that follow an even run of backslashes. */
  function Unescaped(text: string, d: char, i: nat): nat
    requires i <= |text|
  {
    if i == 0 then 0
    else Unescaped(text, d, i - 1) + if text[i - 1] == d && RunBefore(text, i - 1) % 2 == 0 then 1 else 0
  }

  lemma {:induction false} RunBehindDelimiter(a: string, b: string, i: nat)
    requires a != "" && a[|a| - 1] != '\\' && i <= |b|
    ensures RunBefore(a + b, |a| + i) == RunBefore(b, i)
  {
    if i > 0 {
      RunBehindDelimiter(a, b, i - 1);
    }
  }

  lemma {:induction false} UnescapedBehind(a: string, b: string, d: char, i: nat)
    requires a != "" && a[|a| - 1] != '\\' && i <= |b|
    ensures Unescaped(a + b, d, |a| + i) == Unescaped(a + b, d, |a|) + Unescaped(b, d, i)
  {
    if i > 0 {
      UnescapedBehind(a, b, d, i - 1);
      RunBehindDelimiter(a, b, i - 1);
    }
  }

  lemma {:induction false} NoneUnescaped(text: string, d: char, i: nat)
    requires i <= |text| && d !in text[..i]
    ensures Unescaped(text, d, i) == 0
  {
    if i > 0 {
      assert text[i - 1] == text[..i][i - 1];
      assert forall c :: c in text[..i - 1] ==> c in text[..i];
      NoneUnescaped(text, d, i - 1);
    }
  }

  /** The first delimiter counts if the text before it does not escape it. */
  lemma FirstDelimiter(before: string, after: string, d: char)
    requires d != '\\' && d !in before
    ensures var text := before + [d] + after;
            Unescaped(text, d, |text|) == (if Escapes(before) then 0 else 1) + Unescaped(after, d, |after|)
  {
    var a := before + [d];
    UnescapedBehind(a, after, d, |after|);
    assert a + after == before + ([d] + after);
    assert (a + after)[..|before|] == before;
    NoneUnescaped(a + after, d, |before|);
    RunOfPrefix(before, [d] + after, |before|);
  }

  /** There is one field more than there are unescaped delimiters. */
  lemma {:induction false} FieldCount(text: string, d: char)
    requires d != '\\'
    ensures |Fields(text, d)| == 1 + Unescaped(text, d, |text|)
    decreases |text|
  {
    if d !in text {
      assert text[..|text|] == text;
      NoneUnescaped(text, d, |text|);
    } else {
      assert text == Before(text, d) + [d] + After(text, d);
      FieldCount(After(text, d), d);
      FirstDelimiter(Before(text, d), After(text, d), d);
    }
  }
}
