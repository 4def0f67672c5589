/** Python string operations on ASCII text. */
module AsciiText {

  // ----- Splitting -----

  // The first position of `c`, or the length when it does not occur.
  function IndexOf(s: string, c: char): (i: nat)
    ensures i <= |s| && c !in s[..i] && (i < |s| ==> s[i] == c)
  {
    if s == "" || s[0] == c then 0
    else
      var i := 1 + IndexOf(s[1..], c);
      assert s[..i] == [s[0]] + s[1..][..i - 1];
      i
  }

  // Python's `s.split(c)`.
  function Split(s: string, c: char): (parts: seq<string>)
    ensures parts != []
  {
    var i := IndexOf(s, c);
    if i == |s| then [s] else [s[..i]] + Split(s[i + 1..], c)
  }

  function Join(parts: seq<string>, c: char): string
    requires parts != []
  {
    if |parts| == 1 then parts[0] else parts[0] + [c] + Join(parts[1..], c)
  }

  lemma IndexAfterPrefix(a: string, c: char, b: string)
    requires c !in a
    ensures IndexOf(a + [c] + b, c) == |a|
    ensures (a + [c] + b)[..|a|] == a && (a + [c] + b)[|a| + 1..] == b
  {
    var s := a + [c] + b;
    var i := IndexOf(s, c);
    assert forall k | 0 <= k < |a| :: s[k] == a[k];
    assert s[|a|] == c;
    assert forall k | 0 <= k < i :: s[k] in s[..i];
  }

  lemma IndexWhenAbsent(s: string, c: char)
    requires c !in s
    ensures IndexOf(s, c) == |s|
  {
  }

  lemma {:induction false} SplitOfJoin(parts: seq<string>, c: char)
    requires parts != [] && forall p | p in parts :: c !in p
    ensures Split(Join(parts, c), c) == parts
  {
    if |parts| == 1 {
      IndexWhenAbsent(parts[0], c);
    } else {
      var head, rest := parts[0], parts[1..];
      assert Join(parts, c) == head + [c] + Join(rest, c) && parts == [head] + rest;
      IndexAfterPrefix(head, c, Join(rest, c));
      SplitOfJoin(rest, c);
    }
  }

  // ----- Blanks and words -----

  predicate IsSpace(c: char) {
    c == ' ' || 9 <= c as int <= 13 || 28 <= c as int <= 31
  }

  function WordLength(s: string): (n: nat)
    ensures n <= |s| && (forall i | 0 <= i < n :: !IsSpace(s[i])) && (n < |s| ==> IsSpace(s[n]))
  {
    if s == "" || IsSpace(s[0]) then 0 else 1 + WordLength(s[1..])
  }

  // Python's `s.strip().split()`.
  function Words(s: string): seq<string>
    decreases |s|
  {
    if s == "" then []
    else if IsSpace(s[0]) then Words(s[1..])
    else [s[..WordLength(s)]] + Words(s[WordLength(s)..])
  }

  predicate IsWord(w: string) {
    w != "" && forall i | 0 <= i < |w| :: !IsSpace(w[i])
  }

  /** Space-separated words are recovered exactly. */
  lemma {:induction false} WordsOfJoin(words: seq<string>)
    requires words != [] && forall i | 0 <= i < |words| :: IsWord(words[i])
    ensures Words(Join(words, ' ')) == words
  {
    var w := words[0];
    assert IsWord(w);
    if |words| == 1 {
      assert w[..|w|] == w;
      assert Words(w[|w|..]) == [];
    } else {
      var rest := Join(words[1..], ' ');
      var s := w + [' '] + rest;
      assert forall i | 0 <= i < |w| :: s[i] == w[i];
      assert s[|w|] == ' ';
      assert WordLength(s) == |w|;
      assert s[..|w|] == w;
      var tail := s[|w|..];
      assert tail[0] == ' ' && tail[1..] == rest;
      assert Words(s) == [w] + Words(rest);
      WordsOfJoin(words[1..]);
    }
  }

  // ----- Case -----

  function LowerChar(c: char): char {
    if 'A' <= c <= 'Z' then (c as int + 32) as char else c
  }

  function Lower(s: string): (r: string)
    ensures |r| == |s|
  {
    seq(|s|, i requires 0 <= i < |s| => LowerChar(s[i]))
  }

  function UpperChar(ch: char): char {
    if 'a' <= ch <= 'z' then (ch as int - 32) as char else ch
  }

  function Upper(s: string): string {
    seq(|s|, i requires 0 <= i < |s| => UpperChar(s[i]))
  }

  // ----- Stripping -----

  function TrimLeft(s: string, junk: char -> bool): string {
    if s != "" && junk(s[0]) then TrimLeft(s[1..], junk) else s
  }

  function TrimRight(s: string, junk: char -> bool): string {
    if s != "" && junk(s[|s| - 1]) then TrimRight(s[..|s| - 1], junk) else s
  }

  // What is left is the longest end of s that does not begin with junk.
  lemma {:induction false} TrimLeftExact(s: string, junk: char -> bool)
    ensures var r := TrimLeft(s, junk);
            && |r| <= |s| && r == s[|s| - |r|..] && (r == "" || !junk(r[0]))
            && forall i | 0 <= i < |s| - |r| :: junk(s[i])
  {
    if s != "" && junk(s[0]) {
      TrimLeftExact(s[1..], junk);
      var r := TrimLeft(s[1..], junk);
      assert forall i | 0 < i < |s| - |r| :: s[i] == s[1..][i - 1];
    }
  }

  lemma {:induction false} TrimRightExact(s: string, junk: char -> bool)
    ensures var r := TrimRight(s, junk);
            && |r| <= |s| && r == s[..|r|] && (r == "" || !junk(r[|r| - 1]))
            && forall i | |r| <= i < |s| :: junk(s[i])
  {
    if s != "" && junk(s[|s| - 1]) {
      TrimRightExact(s[..|s| - 1], junk);
    }
  }

  // Trimming only takes characters away.
  lemma TrimChars(s: string, junk: char -> bool)
    ensures forall c | c in Trim(s, junk) :: c in s
  {
    var t := TrimLeft(s, junk);
    TrimLeftExact(s, junk);
    TrimRightExact(t, junk);
    var r := Trim(s, junk);
    forall i | 0 <= i < |r|
      ensures r[i] in s
    {
      assert r[i] == t[i] == s[|s| - |t| + i];
    }
  }

  function Trim(s: string, junk: char -> bool): string {
    TrimRight(TrimLeft(s, junk), junk)
  }

  // ----- The characters -----

  const CAPITALS: string := "ABCDEFGHIJKLMNOPQRSTUVWXYZ"
  const SMALL: string := "abcdefghijklmnopqrstuvwxyz"

  /** Letter by letter, lower and upper case are each other's; no other character changes. */
  lemma CaseOfLetters(c: char)
    ensures |CAPITALS| == |SMALL| == 26
    ensures forall i | 0 <= i < 26 :: LowerChar(CAPITALS[i]) == SMALL[i] && UpperChar(SMALL[i]) == CAPITALS[i]
    ensures (c !in CAPITALS ==> LowerChar(c) == c) && (c !in SMALL ==> UpperChar(c) == c)
  {
    assert forall i | 0 <= i < 26 :: CAPITALS[i] as int == 65 + i && SMALL[i] as int == 97 + i;
    if 'A' <= c <= 'Z' { assert CAPITALS[c as int - 65] == c; }
    if 'a' <= c <= 'z' { assert SMALL[c as int - 97] == c; }
  }

  /** The blanks of Python's `str.isspace` among the ASCII characters. */
  lemma BlanksExactly(c: char)
    ensures IsSpace(c) <==> c in {' ', '\t', '\n', '\r', 0x0B as char, 0x0C as char, 0x1C as char, 0x1D as char,
                                  0x1E as char, 0x1F as char}
  {
  }

  lemma {:induction false} JoinOfSplit(s: string, c: char)
    ensures Join(Split(s, c), c) == s
    ensures forall p | p in Split(s, c) :: c !in p
    decreases |s|
  {
    var i := IndexOf(s, c);
    if i < |s| {
      JoinOfSplit(s[i + 1..], c);
      assert s == s[..i] + [c] + s[i + 1..];
      assert Split(s, c)[1..] == Split(s[i + 1..], c);
    }
  }

  lemma JoinOfThree(parts: seq<string>, c: char)
    requires |parts| == 3
    ensures Join(parts, c) == parts[0] + [c] + parts[1] + [c] + parts[2]
  {
    var rest := parts[1..];
    assert rest[1..] == [parts[2]];
    assert Join(rest, c) == parts[1] + [c] + parts[2];
  }
}
