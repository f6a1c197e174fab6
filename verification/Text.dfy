/** Strings as the repository cuts them: at the first occurrence of a one-character separator. */
module Text {
  datatype Option<+T> = None | Some(value: T)

  /** Position of the first `c` in `s`, or the length of `s` when there is none. */
  function Find(s: string, c: char): (i: nat)
    ensures i <= |s|
    ensures c !in s[..i]
    ensures i < |s| <==> c in s
    ensures i < |s| ==> s[i] == c
  {
    if s == "" then 0
    else if s[0] == c then 0
    else
      var i := 1 + Find(s[1..], c);
      assert s[..i] == [s[0]] + s[1..][..i - 1];
      i
  }

  function Before(s: string, c: char): string {
    s[..Find(s, c)]
  }

  function After(s: string, c: char): string
    requires c in s
  {
    s[Find(s, c) + 1..]
  }

  lemma FindFirst(a: string, c: char, b: string)
    requires c !in a
    ensures Find(a + [c] + b, c) == |a|
    ensures Before(a + [c] + b, c) == a
    ensures After(a + [c] + b, c) == b
  {
    var s := a + [c] + b;
    assert s[|a|] == c;
    assert forall k | 0 <= k < |a| :: s[k] == a[k];
    assert forall k | 0 <= k < Find(s, c) :: s[k] in s[..Find(s, c)];
  }

  lemma FindNone(a: string, c: char)
    requires c !in a
    ensures Find(a, c) == |a|
    ensures Before(a, c) == a
  {
  }

  /** All the pieces of `s` between separators; `s` itself when there is no separator. */
  function Split(s: string, c: char): (parts: seq<string>)
    ensures |parts| > 0
    ensures forall p :: p in parts ==> c !in p
    decreases |s|
  {
    if c in s then [Before(s, c)] + Split(After(s, c), c) else [s]
  }

  function Join(parts: seq<string>, c: char): string
    requires |parts| > 0
  {
    if |parts| == 1 then parts[0] else parts[0] + [c] + Join(parts[1..], c)
  }

  lemma {:induction false} SplitConcat(a: string, c: char, b: string)
    ensures Split(a + [c] + b, c) == Split(a, c) + Split(b, c)
    decreases |a|
  {
    var s := a + [c] + b;
    assert s[|a|] == c;
    if c in a {
      var head, rest := Before(a, c), After(a, c);
      assert s == head + [c] + (rest + [c] + b);
      FindFirst(head, c, rest + [c] + b);
      SplitConcat(rest, c, b);
    } else {
      FindFirst(a, c, b);
    }
  }

  lemma {:induction false} SplitJoin(parts: seq<string>, c: char)
    requires |parts| > 0
    requires forall p :: p in parts ==> c !in p
    ensures Split(Join(parts, c), c) == parts
  {
    if |parts| > 1 {
      SplitConcat(parts[0], c, Join(parts[1..], c));
      SplitJoin(parts[1..], c);
    }
  }

  lemma {:induction false} JoinSplit(s: string, c: char)
    ensures Join(Split(s, c), c) == s
    decreases |s|
  {
    if c in s {
      JoinSplit(After(s, c), c);
      assert Split(s, c)[1..] == Split(After(s, c), c);
      assert s == Before(s, c) + [c] + After(s, c);
    }
  }

  /** The text with a backslash before each of the special characters. */
  function Escaped(text: string, special: set<char>): string {
    if text == "" then ""
    else (if text[0] in special then ['\\', text[0]] else [text[0]]) + Escaped(text[1..], special)
  }

  lemma {:induction false} EscapedConcat(a: string, b: string, special: set<char>)
    ensures Escaped(a + b, special) == Escaped(a, special) + Escaped(b, special)
    decreases |a|
  {
    if a == "" {
      assert a + b == b;
    } else {
      assert (a + b)[1..] == a[1..] + b;
      EscapedConcat(a[1..], b, special);
    }
  }

  function Reversed<T>(s: seq<T>): (r: seq<T>)
    ensures |r| == |s|
  {
    if s == [] then [] else Reversed(s[1..]) + [s[0]]
  }

  lemma {:induction false} ReversedConcat<T>(a: seq<T>, b: seq<T>)
    ensures Reversed(a + b) == Reversed(b) + Reversed(a)
  {
    if a == [] {
      assert a + b == b;
    } else {
      assert (a + b)[1..] == a[1..] + b;
      ReversedConcat(a[1..], b);
    }
  }

  lemma {:induction false} ReversedTwice<T>(a: seq<T>)
    ensures Reversed(Reversed(a)) == a
  {
    if a != [] {
      ReversedTwice(a[1..]);
      ReversedConcat(Reversed(a[1..]), [a[0]]);
    }
  }
}
