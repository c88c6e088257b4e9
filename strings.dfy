/**
  The Python `str` operations the dashboard and the exporter rely on:
  formatting a non-negative int, `replace(c, "")`, `isspace`, `strip`,
  `lower` and argument-less `split`.
*/
module Strings {

  /** The character of a decimal digit. */
  function DigitChar(d: nat): char
    requires d < 10
  {
    ('0' as int + d) as char
  }

  predicate IsDigit(ch: char)
  {
    '0' <= ch <= '9'
  }

  /** f"{n}" for a non-negative int: its decimal digits, most significant first. */
  function Decimal(n: nat): (r: string)
    ensures 1 <= |r|
    ensures forall i :: 0 <= i < |r| ==> IsDigit(r[i])
    ensures |r| > 1 ==> r[0] != '0'
    decreases n
  {
    if n < 10 then [DigitChar(n)] else Decimal(n / 10) + [DigitChar(n % 10)]
  }

  /** The number a string of decimal digits denotes. */
  function DigitsValue(s: string): nat
    requires forall i :: 0 <= i < |s| ==> IsDigit(s[i])
  {
    if s == [] then 0 else DigitsValue(s[..|s| - 1]) * 10 + DigitValue(s[|s| - 1])
  }

  function DigitValue(ch: char): nat
    requires IsDigit(ch)
  {
    ch as int - '0' as int
  }

  /** Reading back the digits of f"{n}" gives n, so distinct numbers format differently. */
  lemma {:induction false} DecimalRoundTrip(n: nat)
    ensures DigitsValue(Decimal(n)) == n
    decreases n
  {
    var r := Decimal(n);
    if n >= 10 {
      DecimalRoundTrip(n / 10);
      assert r[..|r| - 1] == Decimal(n / 10);
    }
  }

  /** s.replace(c, ""): s with every occurrence of c deleted and the rest kept in order. */
  function Remove(s: string, c: char): (r: string)
    ensures c !in r
    ensures forall x :: x != c ==> multiset(r)[x] == multiset(s)[x]
  {
    if s == [] then []
    else
      assert s == [s[0]] + s[1..];
      assert multiset(s) == multiset{s[0]} + multiset(s[1..]);
      if s[0] == c then Remove(s[1..], c) else [s[0]] + Remove(s[1..], c)
  }

  /** Replacing in a concatenation replaces in each part: the kept characters stay in order. */
  lemma {:induction false} RemoveAppend(a: string, b: string, c: char)
    ensures Remove(a + b, c) == Remove(a, c) + Remove(b, c)
  {
    if a != [] {
      assert (a + b)[0] == a[0] && (a + b)[1..] == a[1..] + b;
      RemoveAppend(a[1..], b, c);
    } else {
      assert a + b == b;
    }
  }

  /** A single character is deleted when it is c and kept otherwise. */
  lemma RemoveSingle(x: char, c: char)
    ensures Remove([x], c) == if x == c then [] else [x]
  {
    assert [x][1..] == [];
  }

  /** Replacing a character that does not occur changes nothing. */
  lemma {:induction false} RemoveAbsent(s: string, c: char)
    requires c !in s
    ensures Remove(s, c) == s
  {
    if s != [] {
      RemoveAbsent(s[1..], c);
    }
  }

  /** The code points Python's str.isspace accepts (those Py_UNICODE_ISSPACE accepts). */
  const SpaceCodes: set<int> := {
    9, 10, 11, 12, 13, 28, 29, 30, 31, 32, 0x85, 0xA0, 0x1680,
    0x2000, 0x2001, 0x2002, 0x2003, 0x2004, 0x2005, 0x2006, 0x2007, 0x2008, 0x2009, 0x200A,
    0x2028, 0x2029, 0x202F, 0x205F, 0x3000
  }

  /** Python's str.isspace for one character. */
  predicate IsSpace(ch: char)
  {
    ch as int in SpaceCodes
  }

  /** The number of whitespace characters s starts with. */
  function LeadingSpaces(s: string): (n: nat)
    ensures n <= |s|
    ensures forall i :: 0 <= i < n ==> IsSpace(s[i])
    ensures n < |s| ==> !IsSpace(s[n])
  {
    if s != [] && IsSpace(s[0]) then 1 + LeadingSpaces(s[1..]) else 0
  }

  /** The number of whitespace characters s ends with. */
  function TrailingSpaces(s: string): (n: nat)
    ensures n <= |s|
    ensures forall i :: |s| - n <= i < |s| ==> IsSpace(s[i])
    ensures n < |s| ==> !IsSpace(s[|s| - n - 1])
  {
    if s != [] && IsSpace(s[|s| - 1]) then 1 + TrailingSpaces(s[..|s| - 1]) else 0
  }

  /**
    s.strip(): the part of s between its leading and its trailing whitespace;
    it neither starts nor ends with whitespace, and is empty when s is all
    whitespace.
  */
  function Strip(s: string): (r: string)
    ensures LeadingSpaces(s) + |r| <= |s| && r == s[LeadingSpaces(s)..LeadingSpaces(s) + |r|]
    ensures forall i :: LeadingSpaces(s) + |r| <= i < |s| ==> IsSpace(s[i])
    ensures r == [] || (!IsSpace(r[0]) && !IsSpace(r[|r| - 1]))
  {
    var a := LeadingSpaces(s);
    if a == |s| then []
    else
      var n := TrailingSpaces(s);
      assert !IsSpace(s[a]);
      assert n < |s| - a;
      s[a..|s| - n]
  }

  /** A string of whitespace only strips to nothing. */
  lemma {:induction false} StripAllSpace(s: string)
    requires forall i :: 0 <= i < |s| ==> IsSpace(s[i])
    ensures Strip(s) == []
  {
    LeadingAllSpace(s);
  }

  lemma {:induction false} LeadingAllSpace(s: string)
    requires forall i :: 0 <= i < |s| ==> IsSpace(s[i])
    ensures LeadingSpaces(s) == |s|
  {
    if s != [] {
      LeadingAllSpace(s[1..]);
    }
  }

  /** ch.lower() for ASCII letters; every other character is kept. */
  function LowerChar(ch: char): char
  {
    if 'A' <= ch <= 'Z' then (ch as int + 32) as char else ch
  }

  /**
    s.lower() for ASCII: the same length, no upper-case ASCII letter left, each
    upper-case letter replaced by its lower-case one and every other character kept.
  */
  function Lower(s: string): (r: string)
    ensures |r| == |s|
    ensures forall i :: 0 <= i < |s| ==> !('A' <= r[i] <= 'Z')
    ensures forall i :: 0 <= i < |s| ==>
      if 'A' <= s[i] <= 'Z' then r[i] as int == s[i] as int + 32 else r[i] == s[i]
  {
    seq(|s|, i requires 0 <= i < |s| => LowerChar(s[i]))
  }

  /** Stripping and lowering bring in no character that was not already there, up to case. */
  lemma StripLowerKeeps(s: string, c: char)
    requires c !in s && !('A' <= c <= 'Z') && !('a' <= c <= 'z')
    ensures c !in Lower(Strip(s))
  {
    var t := Strip(s);
    var a := LeadingSpaces(s);
    forall i | 0 <= i < |t|
      ensures t[i] != c
    {
      assert t[i] == s[a + i];
    }
    var l := Lower(t);
    forall i | 0 <= i < |l|
      ensures l[i] != c
    {
      if 'A' <= t[i] <= 'Z' {
        assert 'a' <= l[i] <= 'z';
      }
    }
  }

  /** The length of the run of non-whitespace characters that s starts with. */
  function WordEnd(s: string): (k: nat)
    ensures k <= |s|
    ensures forall i :: 0 <= i < k ==> !IsSpace(s[i])
    ensures k < |s| ==> IsSpace(s[k])
  {
    if s == [] || IsSpace(s[0]) then 0 else 1 + WordEnd(s[1..])
  }

  predicate IsWord(w: string)
  {
    |w| > 0 && forall i :: 0 <= i < |w| ==> !IsSpace(w[i])
  }

  /** A non-empty run of printable ASCII characters other than the space is a word. */
  lemma PrintableWord(w: string)
    requires |w| > 0 && forall i :: 0 <= i < |w| ==> 33 <= w[i] as int <= 126
    ensures IsWord(w)
  {
    forall i | 0 <= i < |w|
      ensures !IsSpace(w[i])
    {
      PrintableNotSpace(w[i]);
    }
  }

  lemma PrintableNotSpace(ch: char)
    requires 33 <= ch as int <= 126
    ensures !IsSpace(ch)
  {
  }

  /** s.split() with no argument: the maximal runs of non-whitespace characters, in order. */
  function Split(s: string): seq<string>
    decreases |s|
  {
    if s == [] then []
    else if IsSpace(s[0]) then Split(s[1..])
    else
      var k := WordEnd(s);
      [s[..k]] + Split(s[k..])
  }

  /** Every piece split() returns is a non-empty run without whitespace. */
  lemma {:induction false} SplitWords(s: string)
    ensures forall j :: 0 <= j < |Split(s)| ==> IsWord(Split(s)[j])
    decreases |s|
  {
    if s != [] {
      if IsSpace(s[0]) {
        SplitWords(s[1..]);
      } else {
        var k := WordEnd(s);
        SplitWords(s[k..]);
        assert IsWord(s[..k]);
        var ws := Split(s);
        assert ws == [s[..k]] + Split(s[k..]);
        forall j | 0 <= j < |ws|
          ensures IsWord(ws[j])
        {
          if j > 0 {
            assert ws[j] == Split(s[k..])[j - 1];
          }
        }
      }
    }
  }

  /** A whitespace character splits the string into two parts that split independently. */
  lemma {:induction false} SplitSpace(a: string, x: char, b: string)
    requires IsSpace(x)
    ensures Split(a + [x] + b) == Split(a) + Split(b)
    decreases |a|
  {
    if a == [] {
      assert a + [x] + b == [x] + b;
      assert ([x] + b)[1..] == b;
    } else if IsSpace(a[0]) {
      SplitSpaceFirst(a, x, b);
    } else {
      SplitWordFirst(a, x, b);
    }
  }

  /** SplitSpace when a starts with whitespace: drop that character. */
  lemma {:induction false} SplitSpaceFirst(a: string, x: char, b: string)
    requires IsSpace(x) && a != [] && IsSpace(a[0])
    ensures Split(a + [x] + b) == Split(a) + Split(b)
    decreases |a|, 0
  {
    var s := a + [x] + b;
    assert s[0] == a[0];
    assert s[1..] == a[1..] + [x] + b;
    calc {
      Split(s);
      Split(a[1..] + [x] + b);
      { SplitSpace(a[1..], x, b); }
      Split(a[1..]) + Split(b);
    }
  }

  /** SplitSpace when a starts with a word: that word ends inside a. */
  lemma {:induction false} SplitWordFirst(a: string, x: char, b: string)
    requires IsSpace(x) && a != [] && !IsSpace(a[0])
    ensures Split(a + [x] + b) == Split(a) + Split(b)
    decreases |a|, 0
  {
    var s := a + [x] + b;
    var k := WordEnd(a);
    WordEndBefore(a, x, b);
    assert s[0] == a[0];
    assert s[..k] == a[..k];
    assert s[k..] == a[k..] + [x] + b;
    calc {
      Split(s);
      [a[..k]] + Split(a[k..] + [x] + b);
      { SplitSpace(a[k..], x, b); }
      [a[..k]] + (Split(a[k..]) + Split(b));
    }
  }

  /** A word splits to itself. */
  lemma SplitWord(w: string)
    requires IsWord(w)
    ensures Split(w) == [w]
  {
    WordEndAll(w);
    assert w[..|w|] == w && w[|w|..] == [];
  }

  /** The word a string starts with ends before a whitespace character that follows. */
  lemma {:induction false} WordEndBefore(a: string, x: char, b: string)
    requires IsSpace(x)
    ensures WordEnd(a + [x] + b) == WordEnd(a)
  {
    if a != [] && !IsSpace(a[0]) {
      assert (a + [x] + b)[1..] == a[1..] + [x] + b;
      WordEndBefore(a[1..], x, b);
    }
  }

  /** A string without whitespace is one run. */
  lemma {:induction false} WordEndAll(w: string)
    requires forall i :: 0 <= i < |w| ==> !IsSpace(w[i])
    ensures WordEnd(w) == |w|
  {
    if w != [] {
      WordEndAll(w[1..]);
    }
  }

  /** Each word followed by one space, concatenated in order. */
  function JoinSpaced(ws: seq<string>): string
  {
    if ws == [] then [] else ws[0] + " " + JoinSpaced(ws[1..])
  }

  /** Words joined with a space after each, extended by one more word. */
  lemma {:induction false} JoinSpacedSnoc(ws: seq<string>, w: string)
    ensures JoinSpaced(ws + [w]) == JoinSpaced(ws) + w + " "
  {
    if ws == [] {
      assert [] + [w] == [w];
      assert [w][1..] == [];
    } else {
      assert (ws + [w])[1..] == ws[1..] + [w];
      JoinSpacedSnoc(ws[1..], w);
    }
  }

  lemma SplitSkipsSpace(x: string)
    ensures Split(" " + x) == Split(x)
  {
    assert (" " + x)[1..] == x;
  }

  /** A word followed by a space splits off as the first word. */
  lemma SplitCons(w: string, rest: string)
    requires IsWord(w)
    ensures Split(w + " " + rest) == [w] + Split(rest)
  {
    var s := w + " " + rest;
    assert s[0] == w[0];
    WordEndOfWord(w, " " + rest);
    assert s == w + (" " + rest);
    assert s[..|w|] == w && s[|w|..] == " " + rest;
    SplitSkipsSpace(rest);
  }

  /** Splitting the words joined by single spaces gives the words back. */
  lemma {:induction false} SplitJoinSpaced(ws: seq<string>)
    requires forall j :: 0 <= j < |ws| ==> IsWord(ws[j])
    ensures Split(JoinSpaced(ws)) == ws
  {
    if ws != [] {
      SplitCons(ws[0], JoinSpaced(ws[1..]));
      SplitJoinSpaced(ws[1..]);
      assert ws == [ws[0]] + ws[1..];
    }
  }

  lemma {:induction false} WordEndOfWord(w: string, x: string)
    requires IsWord(w) && x != [] && IsSpace(x[0])
    ensures WordEnd(w + x) == |w|
    decreases |w|
  {
    if |w| > 1 {
      assert (w + x)[1..] == w[1..] + x;
      WordEndOfWord(w[1..], x);
    } else {
      assert (w + x)[1..] == x;
    }
  }
}
