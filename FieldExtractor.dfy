/** Pattern-based extraction of the patient fields from OCR text
    (`_is_valid_date_format`, `_extract_date_of_birth`,
    `_extract_patient_name_ocr`). The regular expressions themselves are not
    modelled: each pattern is represented by the list of matches
    `re.findall` returned for it, in the order the patterns are listed. */
module FieldExtractor {
  import opened Wrappers
  import opened Text
  import opened Patient

  // ---------------------------------------------------------------------
  // Date plausibility
  // ---------------------------------------------------------------------

  predicate InMonth(n: int) { 1 <= n <= 12 }
  predicate InDay(n: int) { 1 <= n <= 31 }
  predicate InYear(n: int) { 1900 <= n <= 2030 }

  /** The range tests on three fields `int()` has read: month/day/year when
      the third field is four characters long, year/month/day when the first
      is. A field `int()` refuses makes the test false. */
  predicate FieldsPlausible(p0: string, p1: string, p2: string) {
    var n0, n1, n2 := ParseInt(p0), ParseInt(p1), ParseInt(p2);
    && n0.Some? && n1.Some? && n2.Some?
    && ((|p2| == 4 && InMonth(n0.value) && InDay(n1.value) && InYear(n2.value))
        || (|p0| == 4 && InYear(n0.value) && InMonth(n1.value) && InDay(n2.value)))
  }

  /** True iff `s` splits on '/' into exactly three fields that pass
      `FieldsPlausible`; a refused field yields false, not an exception. */
  function IsValidDateFormat(s: string): (ok: bool)
    ensures ok ==> '/' in s
  {
    var parts := SplitOn(s, '/');
    assert '/' !in s ==> |parts| == 1 by {
      if '/' !in s { SplitOnAbsent(s, '/'); }
    }
    |parts| == 3 && FieldsPlausible(parts[0], parts[1], parts[2])
  }

  lemma SplitDate(a: string, b: string, c: string)
    requires '/' !in a && '/' !in b && '/' !in c
    ensures SplitOn(a + "/" + b + "/" + c, '/') == [a, b, c]
  {
    assert a + "/" + b + "/" + c == a + ['/'] + (b + ['/'] + c);
    SplitOnFirst(a, b + ['/'] + c, '/');
    SplitOnFirst(b, c, '/');
    SplitOnAbsent(c, '/');
  }

  lemma NoSlashInDigits(a: string)
    requires AllDigits(a)
    ensures '/' !in a
  {
    assert forall i :: 0 <= i < |a| ==> a[i] != '/';
  }

  /** For three runs of digits joined by '/', the check is exactly the two
      range tests on the fields' values. */
  lemma DateFields(a: string, b: string, c: string)
    requires a != [] && b != [] && c != []
    requires AllDigits(a) && AllDigits(b) && AllDigits(c)
    ensures IsValidDateFormat(a + "/" + b + "/" + c) <==>
      (|c| == 4 && InMonth(DigitsValue(a)) && InDay(DigitsValue(b)) && InYear(DigitsValue(c)))
      || (|a| == 4 && InYear(DigitsValue(a)) && InMonth(DigitsValue(b)) && InDay(DigitsValue(c)))
  {
    NoSlashInDigits(a);
    NoSlashInDigits(b);
    NoSlashInDigits(c);
    SplitDate(a, b, c);
    ParseIntOfDigits(a);
    ParseIntOfDigits(b);
    ParseIntOfDigits(c);
  }

  /** A month of 13 is refused even though a day-first reading would fit. */
  lemma RejectsMonth13()
    ensures !IsValidDateFormat("13/40/1990")
  {
    var a, b, c := "13", "40", "1990";
    DigitsValue2(a);
    DigitsValue2(b);
    DigitsValue4(c);
    assert DigitsValue(a) == 13;
    DateFields(a, b, c);
    assert a + "/" + b + "/" + c == "13/40/1990";
  }

  /** The day range is not checked against the month: 30 February passes. */
  lemma AcceptsFebruary30(m: string, d: string, y: string)
    requires m == "02" && d == "30" && y == "1990"
    ensures IsValidDateFormat(m + "/" + d + "/" + y)
  {
    DigitsValue2(m);
    DigitsValue2(d);
    DigitsValue4(y);
    assert DigitsValue(m) == 2 && DigitsValue(d) == 30 && DigitsValue(y) == 1990;
    DateFields(m, d, y);
  }

  /** A four-character first field is read as the year. */
  lemma AcceptsYearFirst(y: string, m: string, d: string)
    requires y == "1980" && m == "01" && d == "15"
    ensures IsValidDateFormat(y + "/" + m + "/" + d)
  {
    DigitsValue4(y);
    DigitsValue2(m);
    DigitsValue2(d);
    assert DigitsValue(y) == 1980 && DigitsValue(m) == 1 && DigitsValue(d) == 15;
    DateFields(y, m, d);
  }

  // ---------------------------------------------------------------------
  // Date of birth
  // ---------------------------------------------------------------------

  /** `re.sub(r'[/-]', '/', s)` */
  function NormalizeSeparators(s: string): (r: string)
    ensures |r| == |s|
    ensures '-' !in r
    ensures forall i :: 0 <= i < |s| ==> r[i] == (if s[i] == '-' then '/' else s[i])
  {
    if s == [] then [] else [if s[0] == '-' then '/' else s[0]] + NormalizeSeparators(s[1..])
  }

  lemma NormalizeWithoutDash(s: string)
    requires '-' !in s
    ensures NormalizeSeparators(s) == s
  {
  }

  /** The candidate one pattern offers: its first match only, stripped and
      normalised. */
  function Candidate(matches: seq<string>): string
    requires matches != []
  {
    NormalizeSeparators(Strip(matches[0]))
  }

  /** Whether a pattern's matches offer a candidate that `plausible` accepts. */
  predicate YieldsBy(matches: seq<string>, plausible: string -> bool) {
    matches != [] && plausible(Candidate(matches))
  }

  /** The selection loop, for any plausibility test: the candidate of the
      first pattern whose first match passes, or `None`. */
  function FirstPlausible(patternMatches: seq<seq<string>>, plausible: string -> bool): (r: Option<string>)
    ensures r.None? <==> forall i :: 0 <= i < |patternMatches| ==> !YieldsBy(patternMatches[i], plausible)
    ensures r.Some? ==> plausible(r.value) && '-' !in r.value
    decreases |patternMatches|
  {
    if patternMatches == [] then None
    else if YieldsBy(patternMatches[0], plausible) then Some(Candidate(patternMatches[0]))
    else
      var r := FirstPlausible(patternMatches[1..], plausible);
      assert forall i :: 1 <= i < |patternMatches| ==> patternMatches[i] == patternMatches[1..][i - 1];
      r
  }

  /** Patterns are tried in order: the first one that yields decides. */
  lemma {:induction false} FirstYieldWins(patternMatches: seq<seq<string>>, plausible: string -> bool, i: nat)
    requires i < |patternMatches| && YieldsBy(patternMatches[i], plausible)
    requires forall j :: 0 <= j < i ==> !YieldsBy(patternMatches[j], plausible)
    ensures FirstPlausible(patternMatches, plausible) == Some(Candidate(patternMatches[i]))
    decreases i
  {
    if i > 0 {
      var rest := patternMatches[1..];
      assert rest[i - 1] == patternMatches[i];
      assert forall j :: 0 <= j < i - 1 ==> rest[j] == patternMatches[j + 1];
      FirstYieldWins(rest, plausible, i - 1);
    }
  }

  /** `_extract_date_of_birth` on the matches of each DOB pattern: the first
      pattern whose first match, stripped and with '-' turned into '/', is a
      plausible date decides; the result never holds a '-'. */
  function ExtractDob(patternMatches: seq<seq<string>>): (r: Option<string>)
    ensures r.None? <==> forall i :: 0 <= i < |patternMatches| ==> !YieldsBy(patternMatches[i], IsValidDateFormat)
    ensures r.Some? ==> IsValidDateFormat(r.value) && '-' !in r.value
  {
    FirstPlausible(patternMatches, IsValidDateFormat)
  }

  lemma {:induction false} NormalizeConcat(x: string, y: string)
    ensures NormalizeSeparators(x + y) == NormalizeSeparators(x) + NormalizeSeparators(y)
    decreases |x|
  {
    if x != [] {
      assert (x + y)[1..] == x[1..] + y;
      NormalizeConcat(x[1..], y);
    }
  }

  lemma DashedCandidate(y: string, m: string, d: string)
    requires y == "1980" && m == "01" && d == "15"
    ensures Candidate([y + "-" + m + "-" + d]) == y + "/" + m + "/" + d
  {
    var s := y + "-" + m + "-" + d;
    assert s[0] == '1' && s[|s| - 1] == '5';
    StripOfTrimmed(s);
    NormalizeConcat(y + "-" + m + "-", d);
    NormalizeConcat(y + "-" + m, "-");
    NormalizeConcat(y + "-", m);
    NormalizeConcat(y, "-");
    NormalizeWithoutDash(y);
    NormalizeWithoutDash(m);
    NormalizeWithoutDash(d);
    assert NormalizeSeparators("-") == "/";
  }

  /** A dash-separated year-first date is returned with slashes. */
  lemma DashedDateNormalised(y: string, m: string, d: string)
    requires y == "1980" && m == "01" && d == "15"
    ensures ExtractDob([[], [y + "-" + m + "-" + d]]) == Some(y + "/" + m + "/" + d)
  {
    var s := y + "-" + m + "-" + d;
    DashedCandidate(y, m, d);
    AcceptsYearFirst(y, m, d);
    assert YieldsBy([s], IsValidDateFormat);
    assert !YieldsBy([], IsValidDateFormat);
    FirstYieldWins([[], [s]], IsValidDateFormat, 1);
  }

  /** Only the first match of a pattern is examined: a later plausible match
      of the same pattern is never used. */
  lemma OnlyFirstMatchExamined(first: string, m: string, d: string, y: string)
    requires first == "13/40/1990" && m == "02" && d == "03" && y == "1990"
    ensures IsValidDateFormat(m + "/" + d + "/" + y)
    ensures ExtractDob([[first, m + "/" + d + "/" + y]]) == None
  {
    AcceptsFebruary3(m, d, y);
    FirstMatchDecides([first, m + "/" + d + "/" + y], [first]);
    RejectsLoneMonth13(first);
  }

  /** "02/03/1990" passes. */
  lemma AcceptsFebruary3(m: string, d: string, y: string)
    requires m == "02" && d == "03" && y == "1990"
    ensures IsValidDateFormat(m + "/" + d + "/" + y)
  {
    DigitsValue2(m);
    DigitsValue2(d);
    DigitsValue4(y);
    assert DigitsValue(m) == 2 && DigitsValue(d) == 3 && DigitsValue(y) == 1990;
    DateFields(m, d, y);
  }

  /** A pattern's later matches never change the date found. */
  lemma FirstMatchDecides(ms: seq<string>, ms': seq<string>)
    requires ms != [] && ms' != [] && ms[0] == ms'[0]
    ensures ExtractDob([ms]) == ExtractDob([ms'])
  {
    assert Candidate(ms) == Candidate(ms');
  }

  /** A lone "13/40/1990" yields no date. */
  lemma RejectsLoneMonth13(first: string)
    requires first == "13/40/1990"
    ensures ExtractDob([[first]]) == None
  {
    StripOfTrimmed(first);
    NormalizeWithoutDash(first);
    assert Candidate([first]) == first;
    RejectsMonth13();
    assert !YieldsBy([first], IsValidDateFormat);
  }

  // ---------------------------------------------------------------------
  // Patient name
  // ---------------------------------------------------------------------

  /** One element of `re.findall`'s result: a tuple of groups, or the text of
      the single group. */
  datatype NameMatch = Groups(groups: seq<string>) | Single(text: string)

  datatype NameState = NameState(first: Option<string>, last: Option<string>)

  /** A token that ends the last name: one holding a digit, or one of the
      words "person", "number", "id" in any case. */
  predicate IsArtifactToken(t: string) {
    var l := Lower(t);
    HasDigit(t) || l == "person" || l == "number" || l == "id"
  }

  /** The tokens before the first artifact token. */
  function ArtifactFreePrefix(parts: seq<string>): (r: seq<string>)
    ensures |r| <= |parts| && r == parts[..|r|]
    ensures forall i :: 0 <= i < |r| ==> !IsArtifactToken(r[i])
    ensures |r| < |parts| ==> IsArtifactToken(parts[|r|])
  {
    if parts == [] || IsArtifactToken(parts[0]) then []
    else [parts[0]] + ArtifactFreePrefix(parts[1..])
  }

  /** The outcome of handling one match: the names afterwards, and whether
      the match loop stops there. */
  datatype Step = Step(state: NameState, stop: bool)

  function ApplyMatch(m: NameMatch, st: NameState): (r: Step)
    ensures r.stop <==> (m.Groups? && |m.groups| >= 2) || (m.Single? && |Words(m.text)| >= 2)
    ensures !r.stop ==> r.state == st
    ensures r.stop && m.Single? ==> r.state.first == Some(Title(Words(m.text)[0]))
    ensures r.stop && m.Single? && IsArtifactToken(Words(m.text)[1]) ==> r.state.last == st.last
    ensures r.stop && m.Single? && !IsArtifactToken(Words(m.text)[1]) ==>
      r.state.last.Some? && !HasDigit(r.state.last.value)
  {
    match m
    case Groups(gs) =>
      if |gs| >= 2 then Step(NameState(Some(Title(Strip(gs[0]))), Some(Title(Strip(gs[1])))), true)
      else Step(st, false)
    case Single(t) =>
      var parts := Words(t);
      if |parts| >= 2 then
        var cleaned := ArtifactFreePrefix(parts[1..]);
        var last := if cleaned != [] then Some(Title(JoinSpace(cleaned))) else st.last;
        assert forall k :: 0 <= k < |cleaned| ==> !HasDigit(cleaned[k]);
        Step(NameState(Some(Title(parts[0])), last), true)
      else Step(st, false)
  }

  /** The match loop of one pattern. */
  function ScanMatches(ms: seq<NameMatch>, st: NameState): NameState
    decreases |ms|
  {
    if ms == [] then st
    else
      var s := ApplyMatch(ms[0], st);
      if s.stop then s.state else ScanMatches(ms[1..], s.state)
  }

  /** The pattern loop: stops after the first pattern with matches that
      leaves both names truthy. */
  function ScanPatterns(pms: seq<seq<NameMatch>>, st: NameState): NameState
    decreases |pms|
  {
    if pms == [] then st
    else
      var st' := if pms[0] != [] then ScanMatches(pms[0], st) else st;
      if pms[0] != [] && Truthy(st'.first) && Truthy(st'.last) then st'
      else ScanPatterns(pms[1..], st')
  }

  /** The names: the pattern scan, then the "Last, First" fallback when a
      name is still unset and a comma match exists. */
  function ExtractName(pms: seq<seq<NameMatch>>, commas: seq<(string, string)>): NameState {
    var st := ScanPatterns(pms, NameState(None, None));
    if (!Truthy(st.first) || !Truthy(st.last)) && commas != [] then
      NameState(Some(Title(commas[0].1)), Some(Title(commas[0].0)))
    else st
  }

  predicate TitleFixed(v: Option<string>) { v.Some? ==> Title(v.value) == v.value }

  predicate TitleCased(st: NameState) { TitleFixed(st.first) && TitleFixed(st.last) }

  lemma ApplyMatchTitleCased(m: NameMatch, st: NameState)
    requires TitleCased(st)
    ensures TitleCased(ApplyMatch(m, st).state)
  {
    match m
    case Groups(gs) =>
      if |gs| >= 2 { TitleIdempotent(Strip(gs[0])); TitleIdempotent(Strip(gs[1])); }
    case Single(t) =>
      var parts := Words(t);
      if |parts| >= 2 {
        TitleIdempotent(parts[0]);
        TitleIdempotent(JoinSpace(ArtifactFreePrefix(parts[1..])));
      }
  }

  lemma {:induction false} ScanMatchesTitleCased(ms: seq<NameMatch>, st: NameState)
    requires TitleCased(st)
    ensures TitleCased(ScanMatches(ms, st))
    decreases |ms|
  {
    if ms != [] {
      ApplyMatchTitleCased(ms[0], st);
      ScanMatchesTitleCased(ms[1..], ApplyMatch(ms[0], st).state);
    }
  }

  lemma {:induction false} ScanPatternsTitleCased(pms: seq<seq<NameMatch>>, st: NameState)
    requires TitleCased(st)
    ensures TitleCased(ScanPatterns(pms, st))
    decreases |pms|
  {
    if pms != [] {
      if pms[0] != [] { ScanMatchesTitleCased(pms[0], st); }
      var st' := if pms[0] != [] then ScanMatches(pms[0], st) else st;
      ScanPatternsTitleCased(pms[1..], st');
    }
  }

  /** Every name the extractor returns, whichever path produced it, is
      already title-cased. */
  lemma ExtractedNamesTitleCased(pms: seq<seq<NameMatch>>, commas: seq<(string, string)>)
    ensures TitleCased(ExtractName(pms, commas))
  {
    ScanPatternsTitleCased(pms, NameState(None, None));
    if commas != [] {
      TitleIdempotent(commas[0].0);
      TitleIdempotent(commas[0].1);
    }
  }

  /** A comma match with two non-empty words always completes the names, and
      when the pattern scan already found both it is ignored. */
  lemma CommaFallback(pms: seq<seq<NameMatch>>, commas: seq<(string, string)>)
    ensures var st := ScanPatterns(pms, NameState(None, None));
      Truthy(st.first) && Truthy(st.last) ==> ExtractName(pms, commas) == st
    ensures commas != [] && commas[0].0 != "" && commas[0].1 != "" ==>
      Truthy(ExtractName(pms, commas).first) && Truthy(ExtractName(pms, commas).last)
  {
  }

  lemma ApplySingle(t: string, ws: seq<string>, st: NameState)
    requires |ws| >= 2 && Words(t) == ws
    ensures var c := ArtifactFreePrefix(ws[1..]);
      ApplyMatch(Single(t), st)
        == Step(NameState(Some(Title(ws[0])), if c != [] then Some(Title(JoinSpace(c))) else st.last), true)
  {
  }

  lemma PrefixBeforeArtifact(ws: seq<string>)
    requires |ws| >= 3 && !IsArtifactToken(ws[1]) && IsArtifactToken(ws[2])
    ensures ArtifactFreePrefix(ws[1..]) == [ws[1]]
  {
    var p := ws[1..];
    assert p[0] == ws[1] && p[1..][0] == ws[2];
    assert ArtifactFreePrefix(p[1..]) == [];
  }

  /** A single-group match whose tokens are, say, "John Smith Person
      Number": the first token becomes the first name and the last name is
      the second token alone, because the third is an artifact; whatever
      follows and whatever names were set before do not matter. */
  lemma SingleMatchStopsAtArtifact(ws: seq<string>, st: NameState)
    requires |ws| >= 3 && forall k :: 0 <= k < |ws| ==> IsWord(ws[k])
    requires !IsArtifactToken(ws[1]) && IsArtifactToken(ws[2])
    ensures ApplyMatch(Single(JoinSpace(ws)), st)
         == Step(NameState(Some(Title(ws[0])), Some(Title(ws[1]))), true)
  {
    WordsOfJoin(ws);
    PrefixBeforeArtifact(ws);
    assert JoinSpace([ws[1]]) == ws[1];
    ApplySingle(JoinSpace(ws), ws, st);
  }

  /** When the token after the first name is an artifact, e.g. "John 12345",
      the first name is set and the last name is left as it was. */
  lemma SingleMatchKeepsLastName(ws: seq<string>, st: NameState)
    requires |ws| >= 2 && forall k :: 0 <= k < |ws| ==> IsWord(ws[k])
    requires IsArtifactToken(ws[1])
    ensures ApplyMatch(Single(JoinSpace(ws)), st) == Step(NameState(Some(Title(ws[0])), st.last), true)
  {
    WordsOfJoin(ws);
    assert ws[1..][0] == ws[1];
    ApplySingle(JoinSpace(ws), ws, st);
  }

  // ---------------------------------------------------------------------
  // The loops as written
  // ---------------------------------------------------------------------

  /** Collects tokens until the first artifact token. */
  method CleanLastNameParts(parts: seq<string>) returns (cleaned: seq<string>)
    ensures cleaned == ArtifactFreePrefix(parts)
  {
    cleaned := [];
    var i := 0;
    while i < |parts|
      invariant 0 <= i <= |parts|
      invariant cleaned == parts[..i]
      invariant forall j :: 0 <= j < i ==> !IsArtifactToken(parts[j])
    {
      if !IsArtifactToken(parts[i]) {
        cleaned := cleaned + [parts[i]];
      } else {
        break;
      }
      i := i + 1;
    }
    PrefixUnique(parts, cleaned);
  }

  lemma PrefixUnique(parts: seq<string>, c: seq<string>)
    requires |c| <= |parts| && c == parts[..|c|]
    requires forall i :: 0 <= i < |c| ==> !IsArtifactToken(parts[i])
    requires |c| < |parts| ==> IsArtifactToken(parts[|c|])
    ensures c == ArtifactFreePrefix(parts)
  {
    var r := ArtifactFreePrefix(parts);
    assert |r| == |c|;
  }

  /** The match loop of one pattern, as written. */
  method ScanMatchList(ms: seq<NameMatch>, first0: Option<string>, last0: Option<string>)
    returns (first: Option<string>, last: Option<string>)
    ensures NameState(first, last) == ScanMatches(ms, NameState(first0, last0))
  {
    first, last := first0, last0;
    var j := 0;
    while j < |ms|
      invariant 0 <= j <= |ms|
      invariant ScanMatches(ms[j..], NameState(first, last)) == ScanMatches(ms, NameState(first0, last0))
    {
      assert ms[j..][1..] == ms[j + 1..];
      match ms[j] {
      case Groups(gs) =>
        if |gs| >= 2 {
          first := Some(Title(Strip(gs[0])));
          last := Some(Title(Strip(gs[1])));
          return;
        }
      case Single(t) =>
        var parts := Words(t);
        if |parts| >= 2 {
          first := Some(Title(parts[0]));
          var cleaned := CleanLastNameParts(parts[1..]);
          if cleaned != [] {
            last := Some(Title(JoinSpace(cleaned)));
          }
          return;
        }
      }
      j := j + 1;
    }
  }

  /** `_extract_patient_name_ocr`, with the whitespace-collapsed text already
      matched: the matches of each name pattern in order, and those of the
      "Last, First" pattern. */
  method ExtractPatientName(pms: seq<seq<NameMatch>>, commas: seq<(string, string)>)
    returns (first: Option<string>, last: Option<string>)
    ensures NameState(first, last) == ExtractName(pms, commas)
  {
    first, last := None, None;
    ghost var scanned := ScanPatterns(pms, NameState(None, None));
    var i := 0;
    var done := false;
    while i < |pms| && !done
      invariant 0 <= i <= |pms|
      invariant !done ==> ScanPatterns(pms[i..], NameState(first, last)) == scanned
      invariant done ==> NameState(first, last) == scanned
    {
      assert pms[i..][1..] == pms[i + 1..];
      if pms[i] != [] {
        first, last := ScanMatchList(pms[i], first, last);
        done := Truthy(first) && Truthy(last);
      }
      i := i + 1;
    }
    if (!Truthy(first) || !Truthy(last)) && commas != [] {
      last := Some(Title(commas[0].0));
      first := Some(Title(commas[0].1));
    }
  }
}
