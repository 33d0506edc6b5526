/**
  The string operations of Ruby and ActiveSupport that the credit workflow uses:
  case mapping (`downcase`, `upcase`), `blank?`, `strip`, `squish`, `split`,
  `join`, `end_with?`, `include?`, `gsub` of one character, `Integer#to_s`
  and `String#to_i`.
*/
module Text {
  import opened Wrappers

  // ---------------------------------------------------------------- characters

  /** Unicode White_Space, the class `[[:space:]]` that `blank?` and `squish` use. */
  predicate IsSpace(c: char)
  {
    ('\t' <= c <= '\r') || c == ' ' || c == '\U{0085}' || c == '\U{00A0}' || c == '\U{1680}'
    || ('\U{2000}' <= c <= '\U{200A}') || c == '\U{2028}' || c == '\U{2029}'
    || c == '\U{202F}' || c == '\U{205F}' || c == '\U{3000}'
  }

  /** ASCII whitespace, what `String#split` without an argument splits on. */
  predicate IsAsciiSpace(c: char)
  {
    ('\t' <= c <= '\r') || c == ' '
  }

  /** What `String#strip` removes at either end: ASCII whitespace and NUL. */
  predicate IsStripChar(c: char)
  {
    IsAsciiSpace(c) || c == '\0'
  }

  predicate IsDigit(c: char)
  {
    '0' <= c <= '9'
  }

  /** Lower-case mapping of ASCII and Latin-1 letters (the ones the system's two languages use). */
  function Lower(c: char): char
  {
    if 'A' <= c <= 'Z' || ('\U{00C0}' <= c <= '\U{00DE}' && c != '\U{00D7}') then (c as int + 32) as char else c
  }

  /**
    Upper-case mapping of ASCII and Latin-1 letters. It keeps `ß`, `ÿ` and `µ`,
    whose Ruby up-casings (`SS`, U+0178 and U+039C) lie outside this one-character,
    Latin-1 mapping.
  */
  function Upper(c: char): char
  {
    if 'a' <= c <= 'z' || ('\U{00E0}' <= c <= '\U{00FE}' && c != '\U{00F7}') then (c as int - 32) as char else c
  }

  lemma LowerOfUpper(c: char)
    ensures Lower(Upper(c)) == Lower(c)
    ensures Upper(Lower(c)) == Upper(c)
    ensures Lower(Lower(c)) == Lower(c)
  {
  }

  /** Case mapping leaves every kind of white space alone. */
  lemma LowerKeepsSpaces(c: char)
    ensures IsSpace(Lower(c)) == IsSpace(c)
    ensures IsStripChar(Lower(c)) == IsStripChar(c)
    ensures IsAsciiSpace(Lower(c)) == IsAsciiSpace(c)
  {
  }

  // ---------------------------------------------------------------- whole strings

  function Downcase(s: string): (r: string)
    ensures |r| == |s|
    ensures forall i :: 0 <= i < |s| ==> r[i] == Lower(s[i])
  {
    seq(|s|, i requires 0 <= i < |s| => Lower(s[i]))
  }

  function Upcase(s: string): (r: string)
    ensures |r| == |s|
    ensures forall i :: 0 <= i < |s| ==> r[i] == Upper(s[i])
  {
    seq(|s|, i requires 0 <= i < |s| => Upper(s[i]))
  }

  lemma DowncaseAppend(a: string, b: string)
    ensures Downcase(a + b) == Downcase(a) + Downcase(b)
  {
    assert Downcase(a + b) == Downcase(a) + Downcase(b);
  }

  lemma DowncaseUpcase(s: string)
    ensures Downcase(Upcase(s)) == Downcase(s)
    ensures Upcase(Downcase(s)) == Upcase(s)
    ensures Downcase(Downcase(s)) == Downcase(s)
  {
    forall i | 0 <= i < |s|
      ensures Downcase(Upcase(s))[i] == Downcase(s)[i]
      ensures Upcase(Downcase(s))[i] == Upcase(s)[i]
      ensures Downcase(Downcase(s))[i] == Downcase(s)[i]
    {
      LowerOfUpper(s[i]);
    }
  }

  /** ActiveSupport's `blank?` on a string: empty or only white space. */
  predicate Blank(s: string)
  {
    forall i :: 0 <= i < |s| ==> IsSpace(s[i])
  }

  function StripLeft(s: string): (r: string)
    ensures |r| <= |s| && r == s[|s| - |r|..]
    ensures r == [] || !IsStripChar(r[0])
  {
    if s != [] && IsStripChar(s[0]) then StripLeft(s[1..]) else s
  }

  function StripRight(s: string): (r: string)
    ensures |r| <= |s| && r == s[..|r|]
    ensures r == [] || !IsStripChar(r[|r| - 1])
  {
    if s != [] && IsStripChar(s[|s| - 1]) then StripRight(s[..|s| - 1]) else s
  }

  /** `String#strip`. */
  function Strip(s: string): string
  {
    StripRight(StripLeft(s))
  }

  /** The longest suffix of `s` that does not start with white space. */
  function DropSpaces(s: string): (r: string)
    ensures |r| <= |s| && r == s[|s| - |r|..]
    ensures r == [] || !IsSpace(r[0])
  {
    if s != [] && IsSpace(s[0]) then DropSpaces(s[1..]) else s
  }

  /** Every maximal run of white space replaced by one space (`gsub(/[[:space:]]+/, " ")`). */
  function Collapse(s: string): string
    decreases |s|
  {
    if s == [] then []
    else if IsSpace(s[0]) then [' '] + Collapse(DropSpaces(s[1..]))
    else [s[0]] + Collapse(s[1..])
  }

  /** ActiveSupport's `squish`: collapse white space, then strip. */
  function Squish(s: string): string
  {
    Strip(Collapse(s))
  }

  predicate AllSpace(w: string)
  {
    forall i :: 0 <= i < |w| ==> IsSpace(w[i])
  }

  lemma {:induction false} DropSpacesOfSpaces(w: string, b: string)
    requires AllSpace(w)
    ensures DropSpaces(w + b) == DropSpaces(b)
  {
    if w != [] {
      assert (w + b)[0] == w[0] && IsSpace(w[0]);
      assert (w + b)[1..] == w[1..] + b;
      assert AllSpace(w[1..]);
      DropSpacesOfSpaces(w[1..], b);
    } else {
      assert w + b == b;
    }
  }

  lemma {:induction false} DropSpacesAppend(a: string, b: string)
    requires !AllSpace(a)
    ensures DropSpaces(a + b) == DropSpaces(a) + b
  {
    var i :| 0 <= i < |a| && !IsSpace(a[i]);
    assert (a + b)[0] == a[0];
    if IsSpace(a[0]) {
      assert a[1..][i - 1] == a[i];
      assert (a + b)[1..] == a[1..] + b;
      DropSpacesAppend(a[1..], b);
    }
  }

  lemma CollapseSpaceFirst(c: char, t: string)
    requires IsSpace(c)
    ensures Collapse([c] + t) == [' '] + Collapse(DropSpaces(t))
  {
    assert ([c] + t)[1..] == t;
  }

  lemma CollapseWordFirst(c: char, t: string)
    requires !IsSpace(c)
    ensures Collapse([c] + t) == [c] + Collapse(t)
  {
    assert ([c] + t)[1..] == t;
  }

  /** A run of white space followed by `b` collapses to one space before `b`'s own collapse. */
  lemma CollapseSpacesThen(w: string, b: string)
    requires w != [] && AllSpace(w)
    ensures Collapse(w + b) == [' '] + Collapse(DropSpaces(b))
  {
    assert w + b == [w[0]] + (w[1..] + b);
    CollapseSpaceFirst(w[0], w[1..] + b);
    DropSpacesOfSpaces(w[1..], b);
  }

  /**
    How wide a run of white space is does not matter to `Collapse`: any two
    non-empty runs at the same place give the same result.
  */
  lemma {:induction false} CollapseRun(a: string, w1: string, w2: string, b: string)
    requires w1 != [] && AllSpace(w1) && w2 != [] && AllSpace(w2)
    ensures Collapse(a + w1 + b) == Collapse(a + w2 + b)
    decreases |a|, 1
  {
    if a == [] {
      assert a + w1 + b == w1 + b && a + w2 + b == w2 + b;
      CollapseSpacesThen(w1, b);
      CollapseSpacesThen(w2, b);
    } else if !IsSpace(a[0]) {
      var a' := a[1..];
      assert a + w1 + b == [a[0]] + (a' + w1 + b);
      assert a + w2 + b == [a[0]] + (a' + w2 + b);
      CollapseWordFirst(a[0], a' + w1 + b);
      CollapseWordFirst(a[0], a' + w2 + b);
      CollapseRun(a', w1, w2, b);
    } else {
      CollapseRunAfterSpace(a, w1, w2, b);
    }
  }

  lemma {:induction false} CollapseRunAfterSpace(a: string, w1: string, w2: string, b: string)
    requires w1 != [] && AllSpace(w1) && w2 != [] && AllSpace(w2)
    requires a != [] && IsSpace(a[0])
    ensures Collapse(a + w1 + b) == Collapse(a + w2 + b)
    decreases |a|, 0
  {
    var a' := a[1..];
    assert a + w1 + b == [a[0]] + (a' + w1 + b);
    assert a + w2 + b == [a[0]] + (a' + w2 + b);
    CollapseSpaceFirst(a[0], a' + w1 + b);
    CollapseSpaceFirst(a[0], a' + w2 + b);
    if AllSpace(a') {
      SpacesThenRun(a', w1, b);
      SpacesThenRun(a', w2, b);
    } else {
      WordThenRun(a', w1, b);
      WordThenRun(a', w2, b);
      CollapseRun(DropSpaces(a'), w1, w2, b);
    }
  }

  lemma SpacesThenRun(a: string, w: string, b: string)
    requires AllSpace(a) && AllSpace(w)
    ensures DropSpaces(a + w + b) == DropSpaces(b)
  {
    assert a + w + b == a + (w + b);
    DropSpacesOfSpaces(a, w + b);
    DropSpacesOfSpaces(w, b);
  }

  lemma WordThenRun(a: string, w: string, b: string)
    requires !AllSpace(a)
    ensures DropSpaces(a + w + b) == DropSpaces(a) + w + b
  {
    var d, t := DropSpaces(a), w + b;
    DropSpacesAppend(a, t);
    Append3(a, w, b);
    Append3(d, w, b);
  }

  /** `Collapse` commutes with lower-casing, since lower-casing keeps white space. */
  lemma {:induction false} CollapseDowncase(s: string)
    ensures Collapse(Downcase(s)) == Downcase(Collapse(s))
    decreases |s|
  {
    var d := Downcase(s);
    if s != [] {
      LowerKeepsSpaces(s[0]);
      assert d[1..] == Downcase(s[1..]);
      if IsSpace(s[0]) {
        DropSpacesDowncase(s[1..]);
        CollapseDowncase(DropSpaces(s[1..]));
        DowncaseAppend([' '], Collapse(DropSpaces(s[1..])));
        assert Downcase([' ']) == [' '];
      } else {
        CollapseDowncase(s[1..]);
        DowncaseAppend([s[0]], Collapse(s[1..]));
        assert Downcase([s[0]]) == [Lower(s[0])];
      }
    }
  }

  lemma {:induction false} DropSpacesDowncase(s: string)
    ensures DropSpaces(Downcase(s)) == Downcase(DropSpaces(s))
  {
    if s != [] {
      LowerKeepsSpaces(s[0]);
      assert Downcase(s)[1..] == Downcase(s[1..]);
      DropSpacesDowncase(s[1..]);
    }
  }

  lemma {:induction false} StripDowncase(s: string)
    ensures Strip(Downcase(s)) == Downcase(Strip(s))
  {
    StripLeftDowncase(s);
    StripRightDowncase(StripLeft(s));
  }

  lemma {:induction false} StripLeftDowncase(s: string)
    ensures StripLeft(Downcase(s)) == Downcase(StripLeft(s))
  {
    if s != [] {
      LowerKeepsSpaces(s[0]);
      assert Downcase(s)[1..] == Downcase(s[1..]);
      StripLeftDowncase(s[1..]);
    }
  }

  lemma {:induction false} StripRightDowncase(s: string)
    ensures StripRight(Downcase(s)) == Downcase(StripRight(s))
  {
    if s != [] {
      LowerKeepsSpaces(s[|s| - 1]);
      assert Downcase(s)[..|s| - 1] == Downcase(s[..|s| - 1]);
      StripRightDowncase(s[..|s| - 1]);
    }
  }

  /** The longest suffix of `s` that does not start with ASCII white space. */
  function DropAsciiSpaces(s: string): (r: string)
    ensures |r| <= |s| && r == s[|s| - |r|..]
    ensures r == [] || !IsAsciiSpace(r[0])
  {
    if s != [] && IsAsciiSpace(s[0]) then DropAsciiSpaces(s[1..]) else s
  }

  /** The longest prefix of `s` without ASCII white space. */
  function TakeWord(s: string): (w: string)
    ensures |w| <= |s| && w == s[..|w|]
    ensures s != [] && !IsAsciiSpace(s[0]) ==> |w| >= 1
    ensures forall i :: 0 <= i < |w| ==> !IsAsciiSpace(w[i])
    ensures |w| < |s| ==> IsAsciiSpace(s[|w|])
  {
    if s != [] && !IsAsciiSpace(s[0]) then [s[0]] + TakeWord(s[1..]) else []
  }

  /** A word of `String#split`: non-empty and free of ASCII white space. */
  predicate IsWord(w: string)
  {
    w != [] && forall i :: 0 <= i < |w| ==> !IsAsciiSpace(w[i])
  }

  /** `String#split` with no argument. */
  function Words(s: string): (ws: seq<string>)
    ensures forall k :: 0 <= k < |ws| ==> IsWord(ws[k])
    decreases |s|
  {
    var t := DropAsciiSpaces(s);
    if t == [] then []
    else
      var w := TakeWord(t);
      assert |w| >= 1 && IsWord(w);
      var rest := Words(t[|w|..]);
      WordsCons(w, rest);
      [w] + rest
  }

  lemma WordsCons(w: string, rest: seq<string>)
    requires IsWord(w) && forall k :: 0 <= k < |rest| ==> IsWord(rest[k])
    ensures forall k :: 0 <= k < |[w] + rest| ==> IsWord(([w] + rest)[k])
  {
    forall k | 0 <= k < |[w] + rest| ensures IsWord(([w] + rest)[k]) {
      if k > 0 {
        assert ([w] + rest)[k] == rest[k - 1];
      }
    }
  }

  /** `Array#join(sep)`. */
  function Join(ws: seq<string>, sep: string): string
  {
    if ws == [] then ""
    else if |ws| == 1 then ws[0]
    else ws[0] + sep + Join(ws[1..], sep)
  }

  lemma {:induction false} TakeWordOfWord(w: string, rest: string)
    requires forall i :: 0 <= i < |w| ==> !IsAsciiSpace(w[i])
    requires rest == [] || IsAsciiSpace(rest[0])
    ensures TakeWord(w + rest) == w
  {
    if w != [] {
      assert (w + rest)[0] == w[0] && !IsAsciiSpace(w[0]);
      assert (w + rest)[1..] == w[1..] + rest;
      assert forall i :: 0 <= i < |w[1..]| ==> !IsAsciiSpace(w[1..][i]);
      TakeWordOfWord(w[1..], rest);
    }
  }

  /** A word followed by white space (or nothing) is split off as the first word. */
  lemma WordsOfWordThen(w: string, rest: string)
    requires IsWord(w)
    requires rest == [] || IsAsciiSpace(rest[0])
    ensures Words(w + rest) == [w] + Words(rest)
  {
    var s := w + rest;
    assert s[0] == w[0];
    assert DropAsciiSpaces(s) == s;
    TakeWordOfWord(w, rest);
    assert s[|w|..] == rest;
  }

  lemma WordsOfSpace(j: string)
    ensures Words(" " + j) == Words(j)
  {
    assert (" " + j)[1..] == j;
    assert DropAsciiSpaces(" " + j) == DropAsciiSpaces(j);
  }

  lemma JoinCons(ws: seq<string>, sep: string)
    requires |ws| >= 2
    ensures Join(ws, sep) == ws[0] + (sep + Join(ws[1..], sep))
  {
  }

  /** Splitting words joined with single spaces gives back those words. */
  lemma {:induction false} WordsOfJoin(ws: seq<string>)
    requires forall k :: 0 <= k < |ws| ==> IsWord(ws[k])
    ensures Words(Join(ws, " ")) == ws
  {
    if ws == [] {
      assert Join(ws, " ") == [];
    } else if |ws| == 1 {
      WordsOfOneWord(ws);
    } else {
      WordsTail(ws);
      WordsOfJoin(ws[1..]);
      WordsOfJoinStep(ws);
    }
  }

  lemma WordsOfOneWord(ws: seq<string>)
    requires |ws| == 1 && IsWord(ws[0])
    ensures Words(Join(ws, " ")) == ws
  {
    var w := ws[0];
    assert Join(ws, " ") == w;
    WordsOfWord(w);
    assert [w] == ws;
  }

  lemma WordsOfWord(w: string)
    requires IsWord(w)
    ensures Words(w) == [w]
  {
    WordsOfWordThen(w, []);
    assert w + [] == w;
    assert Words([]) == [];
  }

  lemma WordsTail(ws: seq<string>)
    requires ws != [] && forall k :: 0 <= k < |ws| ==> IsWord(ws[k])
    ensures forall k :: 0 <= k < |ws[1..]| ==> IsWord(ws[1..][k])
  {
    forall k | 0 <= k < |ws[1..]| ensures IsWord(ws[1..][k]) {
      assert ws[1..][k] == ws[k + 1];
    }
  }

  /** One more word in front of a join that splits back gives a join that splits back. */
  lemma WordsOfJoinStep(ws: seq<string>)
    requires |ws| >= 2 && IsWord(ws[0])
    requires Words(Join(ws[1..], " ")) == ws[1..]
    ensures Words(Join(ws, " ")) == ws
  {
    var j := Join(ws[1..], " ");
    var spaced := " " + j;
    JoinCons(ws, " ");
    assert Join(ws, " ") == ws[0] + spaced;
    assert IsAsciiSpace(spaced[0]);
    WordsOfWordThen(ws[0], spaced);
    WordsOfSpace(j);
    assert Words(spaced) == ws[1..];
    assert [ws[0]] + ws[1..] == ws;
  }

  lemma JoinStartsWith(ws: seq<string>)
    requires ws != [] && ws[0] != []
    ensures Join(ws, " ") != [] && Join(ws, " ")[0] == ws[0][0]
  {
  }

  /** `String#end_with?`. */
  predicate EndsWith(s: string, suffix: string)
  {
    |suffix| <= |s| && s[|s| - |suffix|..] == suffix
  }

  /** `String#include?`, scanning from the left. */
  predicate Contains(s: string, p: string)
    decreases |s|
  {
    |p| <= |s| && (s[..|p|] == p || (s != [] && Contains(s[1..], p)))
  }

  /** `p` occurs in `s` starting at position i. */
  predicate OccursAt(s: string, p: string, i: int)
  {
    0 <= i <= |s| - |p| && s[i..i + |p|] == p
  }

  /** `Contains` holds exactly when `p` occurs at some position of `s`. */
  lemma {:induction false} ContainsAt(s: string, p: string)
    ensures Contains(s, p) <==> exists i :: OccursAt(s, p, i)
    decreases |s|
  {
    if |p| <= |s| && s != [] {
      ContainsAt(s[1..], p);
      if s[..|p|] == p {
        assert OccursAt(s, p, 0);
      }
      if Contains(s[1..], p) {
        var i :| OccursAt(s[1..], p, i);
        assert s[i + 1..i + 1 + |p|] == s[1..][i..i + |p|];
        assert OccursAt(s, p, i + 1);
      }
      if exists i :: OccursAt(s, p, i) {
        var i :| OccursAt(s, p, i);
        if i > 0 {
          assert s[1..][i - 1..i - 1 + |p|] == s[i..i + |p|];
          assert OccursAt(s[1..], p, i - 1);
        } else {
          assert s[..|p|] == p;
        }
      }
    } else if |p| <= |s| {
      assert OccursAt(s, p, 0) <==> s[..|p|] == p;
    }
  }

  /** `gsub(from, to)` for a one-character pattern. */
  function ReplaceChar(s: string, from: char, to: char): (r: string)
    ensures |r| == |s|
    ensures forall i :: 0 <= i < |s| ==> r[i] == (if s[i] == from then to else s[i])
  {
    seq(|s|, i requires 0 <= i < |s| => if s[i] == from then to else s[i])
  }

  // ---------------------------------------------------------------- numbers

  function DigitChar(d: nat): char
    requires d < 10
  {
    ('0' as int + d) as char
  }

  function DigitValue(c: char): nat
    requires IsDigit(c)
  {
    c as int - '0' as int
  }

  /** `Integer#to_s` on a non-negative integer. */
  function NatToString(n: nat): (s: string)
    ensures s != [] && forall i :: 0 <= i < |s| ==> IsDigit(s[i])
    decreases n
  {
    if n < 10 then [DigitChar(n)] else NatToString(n / 10) + [DigitChar(n % 10)]
  }

  /** `Integer#to_s`. */
  function IntToString(n: int): string
  {
    if n < 0 then "-" + NatToString(-n) else NatToString(n)
  }

  /** The number a string of decimal digits denotes. */
  function DigitsValue(s: string): nat
    requires forall i :: 0 <= i < |s| ==> IsDigit(s[i])
  {
    if s == [] then 0 else DigitsValue(s[..|s| - 1]) * 10 + DigitValue(s[|s| - 1])
  }

  /** Reads an unsigned decimal numeral; None for anything else. */
  function ParseNat(s: string): Option<nat>
  {
    if s != [] && forall i :: 0 <= i < |s| ==> IsDigit(s[i]) then Some(DigitsValue(s)) else None
  }

  /** Printing a number and reading it back gives the number. */
  lemma {:induction false} ParseNatToString(n: nat)
    ensures ParseNat(NatToString(n)) == Some(n)
    decreases n
  {
    var s := NatToString(n);
    if n >= 10 {
      ParseNatToString(n / 10);
      assert s[..|s| - 1] == NatToString(n / 10);
      assert DigitValue(s[|s| - 1]) == n % 10;
      assert DigitsValue(s) == (n / 10) * 10 + n % 10;
    } else {
      assert DigitsValue(s) == DigitsValue([]) * 10 + DigitValue(s[0]);
    }
  }

  lemma NatToStringInjective(m: nat, n: nat)
    requires NatToString(m) == NatToString(n)
    ensures m == n
  {
    ParseNatToString(m);
    ParseNatToString(n);
  }

  function Pow10(k: nat): nat
  {
    if k == 0 then 1 else 10 * Pow10(k - 1)
  }

  /** A number with k digits prints as k characters. */
  lemma {:induction false} NatToStringLength(n: nat, k: nat)
    requires k >= 1 && Pow10(k - 1) <= n < Pow10(k)
    ensures |NatToString(n)| == k
    decreases k
  {
    if k > 1 {
      assert Pow10(k - 1) == 10 * Pow10(k - 2);
      NatToStringLength(n / 10, k - 1);
    } else {
      assert n < 10;
    }
  }

  /** The longest prefix of decimal digits. */
  function TakeDigits(s: string): (d: string)
    ensures |d| <= |s| && d == s[..|d|]
    ensures forall i :: 0 <= i < |d| ==> IsDigit(d[i])
  {
    if s != [] && IsDigit(s[0]) then [s[0]] + TakeDigits(s[1..]) else []
  }

  /**
    `String#to_i`: leading ASCII white space is skipped, an optional sign is read,
    then the longest run of digits; a string without leading digits gives 0.
  */
  function StringToI(s: string): int
  {
    var t := DropAsciiSpaces(s);
    if t != [] && t[0] == '-' then -(DigitsValue(TakeDigits(t[1..])) as int)
    else if t != [] && t[0] == '+' then DigitsValue(TakeDigits(t[1..]))
    else DigitsValue(TakeDigits(t))
  }

  /** `to_i` reads back what `to_s` printed. */
  lemma StringToIOfNat(n: nat)
    ensures StringToI(NatToString(n)) == n
  {
    ParseNatToString(n);
    StringToIOfDigits(NatToString(n));
  }

  /** A numeral without sign or spacing reads as its digits. */
  lemma StringToIOfDigits(s: string)
    requires s != [] && forall i :: 0 <= i < |s| ==> IsDigit(s[i])
    ensures StringToI(s) == DigitsValue(s)
  {
    assert IsDigit(s[0]);
    AllDigitsTaken(s);
    NoSpacesToDrop(s);
    StringToIUnsigned(s);
  }

  lemma NoSpacesToDrop(s: string)
    requires s != [] && !IsAsciiSpace(s[0])
    ensures DropAsciiSpaces(s) == s
  {
  }

  /** Without leading space or sign, `to_i` reads the leading digits. */
  lemma StringToIUnsigned(s: string)
    requires DropAsciiSpaces(s) == s && (s == [] || (s[0] != '-' && s[0] != '+'))
    ensures StringToI(s) == DigitsValue(TakeDigits(s))
  {
  }

  /** `to_i` reads a numeral up to the first character that is not a digit. */
  lemma NumeralReads(n: nat, tail: string)
    requires tail == [] || !IsDigit(tail[0])
    ensures StringToI(NatToString(n) + tail) == n
  {
    var w := NatToString(n);
    var s := w + tail;
    ParseNatToString(n);
    DigitsPrefix(w, tail);
    assert s[0] == w[0];
    NoSpacesToDrop(s);
    StringToIUnsigned(s);
  }

  /** A minus sign before such a numeral negates it. */
  lemma NegativeNumeralReads(n: nat, tail: string)
    requires tail == [] || !IsDigit(tail[0])
    ensures StringToI("-" + (NatToString(n) + tail)) == -(n as int)
  {
    var w := NatToString(n);
    var s := "-" + (w + tail);
    ParseNatToString(n);
    DigitsPrefix(w, tail);
    assert DropAsciiSpaces(s) == s;
    assert s[1..] == w + tail;
  }

  /** `to_i` stops at the first character that is not a digit. */
  lemma {:induction false} DigitsPrefix(d: string, rest: string)
    requires forall i :: 0 <= i < |d| ==> IsDigit(d[i])
    requires rest == [] || !IsDigit(rest[0])
    ensures TakeDigits(d + rest) == d
    decreases |d|
  {
    if d != [] {
      assert (d + rest)[1..] == d[1..] + rest;
      DigitsPrefix(d[1..], rest);
    }
  }

  lemma AllDigitsTaken(s: string)
    requires forall i :: 0 <= i < |s| ==> IsDigit(s[i])
    ensures TakeDigits(s) == s
  {
    if s != [] {
      AllDigitsTaken(s[1..]);
    }
  }

  // ---------------------------------------------------------------- proof helpers

  lemma Append3(x: string, y: string, z: string)
    ensures x + (y + z) == x + y + z
  {
  }

  /** Multiplying both sides of an inequality by the same count keeps it. */
  lemma ScaleLe(x: nat, y: nat, k: nat)
    requires x <= y
    ensures x * k <= y * k
  {
  }
}
