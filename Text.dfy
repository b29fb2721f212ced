/** The fragment of Python's `str` methods and `re` character classes the
    service relies on, restricted to ASCII: `isspace`, `\d`, `lower`, `upper`,
    `title`, `strip`, `split()`, `split(sep)`, `' '.join`, substring search and
    the `int()` conversion of a decimal string. */
module Text {
  import opened Wrappers

  predicate IsDigit(c: char) { '0' <= c <= '9' }

  /** `str.isspace` on ASCII: space, \t, \n, \v, \f, \r and the separators 0x1c-0x1f. */
  predicate IsSpace(c: char) {
    c == ' ' || c == '\t' || c == '\n' || c == '\r' || c == '\U{b}' || c == '\U{c}'
    || ('\U{1c}' <= c <= '\U{1f}')
  }

  predicate IsUpper(c: char) { 'A' <= c <= 'Z' }
  predicate IsLower(c: char) { 'a' <= c <= 'z' }
  predicate IsLetter(c: char) { IsUpper(c) || IsLower(c) }

  function LowerChar(c: char): (r: char)
    ensures !IsUpper(r)
    ensures IsLetter(c) <==> IsLetter(r)
    ensures IsDigit(c) <==> IsDigit(r)
    ensures IsSpace(c) <==> IsSpace(r)
  {
    if IsUpper(c) then (c as int + 32) as char else c
  }

  function UpperChar(c: char): (r: char)
    ensures !IsLower(r)
    ensures IsLetter(c) <==> IsLetter(r)
    ensures IsDigit(c) <==> IsDigit(r)
    ensures IsSpace(c) <==> IsSpace(r)
  {
    if IsLower(c) then (c as int - 32) as char else c
  }

  /** `str.lower()` */
  function Lower(s: string): (r: string)
    ensures |r| == |s|
    ensures forall i :: 0 <= i < |s| ==> r[i] == LowerChar(s[i])
  {
    if s == [] then [] else [LowerChar(s[0])] + Lower(s[1..])
  }

  lemma LowerIdempotent(s: string)
    ensures Lower(Lower(s)) == Lower(s)
  {
    assert forall i :: 0 <= i < |s| ==> LowerChar(LowerChar(s[i])) == LowerChar(s[i]);
  }

  /** `str.upper()` */
  function Upper(s: string): (r: string)
    ensures |r| == |s|
    ensures forall i :: 0 <= i < |s| ==> r[i] == UpperChar(s[i])
  {
    if s == [] then [] else [UpperChar(s[0])] + Upper(s[1..])
  }

  /** `str.title()`: a letter that follows a letter is lower-cased, any other
      letter is upper-cased, every other character is kept. */
  function TitleFrom(s: string, afterLetter: bool): (r: string)
    ensures |r| == |s|
    ensures forall i :: 0 <= i < |s| ==> (IsLetter(r[i]) <==> IsLetter(s[i]))
    ensures forall i :: 0 <= i < |s| ==> (IsDigit(r[i]) <==> IsDigit(s[i]))
    ensures forall i :: 0 <= i < |s| ==> (IsSpace(r[i]) <==> IsSpace(s[i]))
    ensures forall i :: 0 <= i < |s| && !IsLetter(s[i]) ==> r[i] == s[i]
  {
    if s == [] then []
    else
      var c := if !IsLetter(s[0]) then s[0]
               else if afterLetter then LowerChar(s[0]) else UpperChar(s[0]);
      [c] + TitleFrom(s[1..], IsLetter(s[0]))
  }

  function Title(s: string): (r: string)
    ensures |r| == |s|
    ensures HasDigit(r) <==> HasDigit(s)
  {
    var r := TitleFrom(s, false);
    assert HasDigit(r) ==> HasDigit(s) by {
      if HasDigit(r) { var i :| 0 <= i < |r| && IsDigit(r[i]); assert IsDigit(s[i]); }
    }
    r
  }

  /** Title-casing twice is title-casing once: every name the extractor
      returns is a fixed point of `Title`. */
  lemma {:induction false} TitleFromIdempotent(s: string, b: bool)
    ensures TitleFrom(TitleFrom(s, b), b) == TitleFrom(s, b)
    decreases |s|
  {
    if s != [] {
      var t := TitleFrom(s, b);
      assert t[1..] == TitleFrom(s[1..], IsLetter(s[0]));
      TitleFromIdempotent(s[1..], IsLetter(s[0]));
    }
  }

  lemma TitleIdempotent(s: string)
    ensures Title(Title(s)) == Title(s)
  {
    TitleFromIdempotent(s, false);
  }

  predicate IsBlank(s: string) { forall i :: 0 <= i < |s| ==> IsSpace(s[i]) }

  /** The number of leading whitespace characters. */
  function LeadingSpaces(s: string): (k: nat)
    ensures k <= |s|
    ensures forall i :: 0 <= i < k ==> IsSpace(s[i])
    ensures k < |s| ==> !IsSpace(s[k])
  {
    if s != [] && IsSpace(s[0]) then 1 + LeadingSpaces(s[1..]) else 0
  }

  /** The length of `s` once its trailing whitespace is dropped. */
  function TrimmedEnd(s: string): (e: nat)
    ensures e <= |s|
    ensures forall i :: e <= i < |s| ==> IsSpace(s[i])
    ensures e > 0 ==> !IsSpace(s[e - 1])
  {
    if s != [] && IsSpace(s[|s| - 1]) then TrimmedEnd(s[..|s| - 1]) else |s|
  }

  /** `str.lstrip()` */
  function StripLeft(s: string): (r: string)
    ensures r == [] || !IsSpace(r[0])
  {
    s[LeadingSpaces(s)..]
  }

  /** `str.strip()` */
  function Strip(s: string): (r: string)
    ensures r == [] || (!IsSpace(r[0]) && !IsSpace(r[|r| - 1]))
  {
    var t := StripLeft(s);
    t[..TrimmedEnd(t)]
  }

  /** The whitespace test that `if text.strip():` performs. */
  lemma StripEmptyIffBlank(s: string)
    ensures Strip(s) == [] <==> IsBlank(s)
  {
    var a := LeadingSpaces(s);
    if !IsBlank(s) {
      assert a < |s|;
      assert TrimmedEnd(s[a..]) > 0;
    }
  }

  /** `strip()` keeps a contiguous slice of its input, starting at `a`. */
  lemma StripIsSlice(s: string) returns (a: nat)
    ensures a + |Strip(s)| <= |s| && Strip(s) == s[a..a + |Strip(s)|]
  {
    a := LeadingSpaces(s);
    var t := StripLeft(s);
    assert t[..TrimmedEnd(t)] == s[a..a + TrimmedEnd(t)];
  }

  /** The length of the leading run of non-space characters. */
  function TokenLength(s: string): (k: nat)
    ensures k <= |s|
    ensures forall i :: 0 <= i < k ==> !IsSpace(s[i])
    ensures k < |s| ==> IsSpace(s[k])
  {
    if s == [] || IsSpace(s[0]) then 0 else 1 + TokenLength(s[1..])
  }

  predicate IsWord(w: string) { w != [] && forall i :: 0 <= i < |w| ==> !IsSpace(w[i]) }

  /** `str.split()` with no separator: the maximal runs of non-whitespace. */
  function Words(s: string): (ws: seq<string>)
    ensures forall i :: 0 <= i < |ws| ==> IsWord(ws[i])
    decreases |s|
  {
    var t := StripLeft(s);
    if t == [] then []
    else
      var k := TokenLength(t);
      [t[..k]] + Words(t[k..])
  }

  /** `' '.join(ws)` */
  function JoinSpace(ws: seq<string>): (r: string)
    ensures HasDigit(r) ==> exists k :: 0 <= k < |ws| && HasDigit(ws[k])
  {
    if ws == [] then "" else if |ws| == 1 then ws[0]
    else
      var rest := JoinSpace(ws[1..]);
      var r := ws[0] + " " + rest;
      assert HasDigit(r) ==> HasDigit(ws[0]) || HasDigit(rest) by {
        if HasDigit(r) {
          var i :| 0 <= i < |r| && IsDigit(r[i]);
          if i < |ws[0]| { assert r[i] == ws[0][i]; }
          else if i > |ws[0]| { assert r[i] == rest[i - |ws[0]| - 1]; }
        }
      }
      assert HasDigit(rest) ==> exists k :: 0 <= k < |ws| && HasDigit(ws[k]) by {
        if HasDigit(rest) { var k :| 0 <= k < |ws[1..]| && HasDigit(ws[1..][k]); assert ws[k + 1] == ws[1..][k]; }
      }
      r
  }

  /** The first index of `c` in `s`, or `|s|` when absent. */
  function IndexOf(s: string, c: char): (k: nat)
    ensures k <= |s|
    ensures forall i :: 0 <= i < k ==> s[i] != c
    ensures k < |s| ==> s[k] == c
  {
    if s == [] then 0 else if s[0] == c then 0 else 1 + IndexOf(s[1..], c)
  }

  /** `s.split(c)` for a one-character separator: always at least one piece,
      and no piece contains the separator. */
  function SplitOn(s: string, c: char): (parts: seq<string>)
    ensures |parts| >= 1
    ensures forall j :: 0 <= j < |parts| ==> c !in parts[j]
    decreases |s|
  {
    var k := IndexOf(s, c);
    if k == |s| then [s] else [s[..k]] + SplitOn(s[k + 1..], c)
  }

  predicate StartsWith(s: string, prefix: string) {
    |prefix| <= |s| && s[..|prefix|] == prefix
  }

  predicate EndsWith(s: string, suffix: string) {
    |suffix| <= |s| && s[|s| - |suffix|..] == suffix
  }

  /** `sub in s` */
  predicate Contains(s: string, sub: string)
    decreases |s|
  {
    StartsWith(s, sub) || (s != [] && Contains(s[1..], sub))
  }

  lemma {:induction false} ContainsAt(s: string, sub: string, i: nat)
    requires i + |sub| <= |s| && s[i..i + |sub|] == sub
    ensures Contains(s, sub)
    decreases i
  {
    if i > 0 {
      assert s[1..][i - 1..i - 1 + |sub|] == sub;
      ContainsAt(s[1..], sub, i - 1);
    }
  }

  predicate HasDigit(s: string) { exists i :: 0 <= i < |s| && IsDigit(s[i]) }

  /** The number of characters matched by `\d`: what `re.sub(r'\D', '', v)` keeps. */
  function CountDigits(s: string): (n: nat)
    ensures n <= |s|
    ensures n == 0 <==> !HasDigit(s)
  {
    if s == [] then 0
    else
      var rest := CountDigits(s[1..]);
      assert HasDigit(s) <==> IsDigit(s[0]) || HasDigit(s[1..]) by {
        if HasDigit(s[1..]) {
          var i :| 0 <= i < |s[1..]| && IsDigit(s[1..][i]);
          assert IsDigit(s[i + 1]);
        }
        if HasDigit(s) && !IsDigit(s[0]) {
          var i :| 0 <= i < |s| && IsDigit(s[i]);
          assert s[1..][i - 1] == s[i];
        }
      }
      (if IsDigit(s[0]) then 1 else 0) + rest
  }

  predicate AllDigits(s: string) { forall i :: 0 <= i < |s| ==> IsDigit(s[i]) }

  function DigitsValue(d: string): (n: nat)
    requires AllDigits(d)
  {
    if d == [] then 0 else 10 * DigitsValue(d[..|d| - 1]) + (d[|d| - 1] as int - '0' as int)
  }

  lemma DigitsValue1(d: string)
    requires |d| == 1 && AllDigits(d)
    ensures DigitsValue(d) == d[0] as int - '0' as int
  {
    assert d[..0] == [];
  }

  lemma DigitsValue2(d: string)
    requires |d| == 2 && AllDigits(d)
    ensures DigitsValue(d) == 10 * (d[0] as int - '0' as int) + (d[1] as int - '0' as int)
  {
    var h := d[..1];
    assert AllDigits(h) && h[0] == d[0];
    assert h[..0] == [];
    assert DigitsValue(h) == d[0] as int - '0' as int;
  }

  lemma DigitsValue4(d: string)
    requires |d| == 4 && AllDigits(d)
    ensures DigitsValue(d) == 1000 * (d[0] as int - '0' as int) + 100 * (d[1] as int - '0' as int)
                            + 10 * (d[2] as int - '0' as int) + (d[3] as int - '0' as int)
  {
    assert d[..3][..2] == d[..2];
    DigitsValue2(d[..2]);
  }

  /** A run of digits in which single underscores may separate digits. */
  predicate IsUnderscoredDigits(b: string) {
    && b != []
    && IsDigit(b[0]) && IsDigit(b[|b| - 1])
    && (forall i :: 0 <= i < |b| ==> IsDigit(b[i]) || b[i] == '_')
    && (forall i :: 0 <= i < |b| - 1 ==> b[i] != '_' || b[i + 1] != '_')
  }

  function RemoveUnderscores(b: string): (d: string)
    requires forall i :: 0 <= i < |b| ==> IsDigit(b[i]) || b[i] == '_'
    ensures AllDigits(d)
  {
    if b == [] then [] else (if b[0] == '_' then [] else [b[0]]) + RemoveUnderscores(b[1..])
  }

  /** Python's `int(s)` for a base-10 string: surrounding whitespace is
      ignored, one sign is allowed, and digits may be grouped by single
      underscores. `None` stands for the `ValueError` it raises otherwise. */
  function ParseInt(s: string): (r: Option<int>)
    ensures r.Some? ==> exists i :: 0 <= i < |s| && IsDigit(s[i])
  {
    var t := Strip(s);
    var signed := t != [] && (t[0] == '+' || t[0] == '-');
    var body := if signed then t[1..] else t;
    if !IsUnderscoredDigits(body) then None
    else
      assert body[0] in s by {
        assert body[0] in t;
        assert t == s[LeadingSpaces(s)..][..|t|];
      }
      var n: int := DigitsValue(RemoveUnderscores(body));
      Some(if signed && t[0] == '-' then -n else n)
  }

  lemma SplitOnAbsent(a: string, c: char)
    requires c !in a
    ensures SplitOn(a, c) == [a]
  {
    assert IndexOf(a, c) == |a|;
  }

  /** Splitting peels off the text before the first separator. */
  lemma SplitOnFirst(a: string, b: string, c: char)
    requires c !in a
    ensures SplitOn(a + [c] + b, c) == [a] + SplitOn(b, c)
  {
    var s := a + [c] + b;
    var k := IndexOf(s, c);
    assert forall i :: 0 <= i < |a| ==> s[i] == a[i];
    assert s[|a|] == c;
    assert k == |a|;
    assert s[..k] == a;
    assert s[k + 1..] == b;
  }

  lemma {:induction false} RemoveUnderscoresOfDigits(d: string)
    requires AllDigits(d)
    ensures RemoveUnderscores(d) == d
  {
    if d != [] { RemoveUnderscoresOfDigits(d[1..]); }
  }

  lemma StripOfTrimmed(d: string)
    requires d != [] && !IsSpace(d[0]) && !IsSpace(d[|d| - 1])
    ensures Strip(d) == d
  {
    assert LeadingSpaces(d) == 0;
    assert StripLeft(d) == d;
    assert TrimmedEnd(d) == |d|;
  }

  /** `int()` of a plain run of digits is its decimal value. */
  lemma ParseIntOfDigits(d: string)
    requires d != [] && AllDigits(d)
    ensures ParseInt(d) == Some(DigitsValue(d) as int)
  {
    StripOfTrimmed(d);
    assert !(d[0] == '+' || d[0] == '-');
    assert IsUnderscoredDigits(d) by {
      assert forall i :: 0 <= i < |d| - 1 ==> d[i] != '_';
    }
    RemoveUnderscoresOfDigits(d);
    var n: int := DigitsValue(RemoveUnderscores(d));
    assert n == DigitsValue(d);
  }

  lemma WordsSkipSpace(s: string)
    requires s != [] && IsSpace(s[0])
    ensures Words(s) == Words(s[1..])
  {
    assert LeadingSpaces(s) == 1 + LeadingSpaces(s[1..]);
    assert StripLeft(s) == StripLeft(s[1..]);
  }

  lemma {:induction false} TokenLengthOf(w: string, rest: string)
    requires forall i :: 0 <= i < |w| ==> !IsSpace(w[i])
    requires rest == [] || IsSpace(rest[0])
    ensures TokenLength(w + rest) == |w|
    decreases |w|
  {
    if w == [] {
      assert w + rest == rest;
    } else {
      assert (w + rest)[1..] == w[1..] + rest;
      TokenLengthOf(w[1..], rest);
    }
  }

  /** A word followed by whitespace or nothing is the first element of the split. */
  lemma WordsTake(w: string, rest: string)
    requires IsWord(w) && (rest == [] || IsSpace(rest[0]))
    ensures Words(w + rest) == [w] + Words(rest)
  {
    var s := w + rest;
    assert LeadingSpaces(s) == 0;
    assert StripLeft(s) == s;
    var k := TokenLength(s);
    TokenLengthOf(w, rest);
    assert s[..k] == w;
    assert s[k..] == rest;
    if rest != [] { WordsSkipSpace(rest); }
  }

  lemma WordsOfWordSpace(w: string, rest: string)
    requires IsWord(w)
    ensures Words(w + " " + rest) == [w] + Words(rest)
  {
    var tail := " " + rest;
    assert w + " " + rest == w + tail;
    WordsTake(w, tail);
    WordsSkipSpace(tail);
    assert tail[1..] == rest;
  }

  /** `str.split()` undoes `' '.join` on words: the round trip of the two. */
  lemma {:induction false} WordsOfJoin(ws: seq<string>)
    requires forall k :: 0 <= k < |ws| ==> IsWord(ws[k])
    ensures Words(JoinSpace(ws)) == ws
  {
    if ws == [] {
    } else if |ws| == 1 {
      assert ws[0] + [] == ws[0];
      WordsTake(ws[0], []);
    } else {
      WordsOfWordSpace(ws[0], JoinSpace(ws[1..]));
      WordsOfJoin(ws[1..]);
      assert [ws[0]] + ws[1..] == ws;
    }
  }

  /** A capitalised word such as "Smith" is its own title case. */
  lemma {:induction false} TitleOfCapitalised(w: string)
    requires w != [] && IsUpper(w[0])
    requires forall i :: 1 <= i < |w| ==> IsLower(w[i])
    ensures Title(w) == w
  {
    TitleFromLower(w[1..]);
  }

  lemma {:induction false} TitleFromLower(w: string)
    requires forall i :: 0 <= i < |w| ==> IsLower(w[i])
    ensures TitleFrom(w, true) == w
    decreases |w|
  {
    if w != [] { TitleFromLower(w[1..]); }
  }

  function DigitChar(d: nat): (c: char)
    requires d < 10
    ensures IsDigit(c)
  {
    ('0' as int + d) as char
  }

  /** `str(n)` for a natural number. */
  function DecimalString(n: nat): (s: string)
    ensures s != [] && AllDigits(s)
    ensures DigitsValue(s) == n
  {
    if n < 10 then [DigitChar(n)]
    else
      var s := DecimalString(n / 10) + [DigitChar(n % 10)];
      assert s[..|s| - 1] == DecimalString(n / 10);
      assert s[|s| - 1] as int - '0' as int == n % 10;
      assert DigitsValue(s) == 10 * (n / 10) + n % 10;
      s
  }

  /** `str(n)` for any integer: a minus sign before the digits of `|n|`. */
  function IntString(n: int): (s: string)
    ensures s != [] && (n >= 0 <==> IsDigit(s[0]))
  {
    if n < 0 then "-" + DecimalString(-n) else DecimalString(n)
  }

  /** `int(str(n)) == n`. */
  lemma ParseIntString(n: int)
    ensures ParseInt(IntString(n)) == Some(n)
  {
    if n >= 0 {
      ParseIntOfDigits(DecimalString(n));
    } else {
      var d := DecimalString(-n);
      var s := "-" + d;
      assert s[1..] == d;
      StripOfTrimmed(s);
      assert IsUnderscoredDigits(d) by {
        assert forall i :: 0 <= i < |d| - 1 ==> d[i] != '_';
      }
      RemoveUnderscoresOfDigits(d);
    }
  }

  lemma BlankConcat(a: string, b: string)
    ensures IsBlank(a + b) <==> IsBlank(a) && IsBlank(b)
  {
    assert forall i :: 0 <= i < |b| ==> b[i] == (a + b)[|a| + i];
    assert forall i :: 0 <= i < |a + b| ==> (a + b)[i] == if i < |a| then a[i] else b[i - |a|];
  }
}
