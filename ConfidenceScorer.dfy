/** The additive confidence rubric (`_calculate_confidence`), in tenths:
    4 for a first name, 4 for a last name plus 1 when the lower-cased last
    name holds no digit and none of "person", "number", "id", 2 for a date
    of birth, capped at 10. */
module ConfidenceScorer {
  import opened Wrappers
  import opened Text
  import opened Patient

  /** `re.search(r'\d|person|number|id', last_name.lower())` */
  predicate HasArtifactMarker(lastName: string) {
    var l := Lower(lastName);
    HasDigit(l) || Contains(l, "person") || Contains(l, "number") || Contains(l, "id")
  }

  function Points(present: bool, weight: nat): nat { if present then weight else 0 }

  /** The rubric score of a patient dict, in tenths. An empty dict reads as
      `EmptyInfo` and scores 0. */
  function ConfidenceTenths(info: PatientInfo): (r: nat)
    ensures r <= 10
    ensures r == 0 <==> !Truthy(info.firstName) && !Truthy(info.lastName) && !Truthy(info.dateOfBirth)
    ensures r == 10 <==> Truthy(info.firstName) && Truthy(info.lastName) && Truthy(info.dateOfBirth)
    ensures Truthy(info.firstName) && Truthy(info.lastName) ==> r >= 8
  {
    var sum := Points(Truthy(info.firstName), 4)
             + Points(Truthy(info.lastName), 4)
             + Points(Truthy(info.lastName) && !HasArtifactMarker(info.lastName.value), 1)
             + Points(Truthy(info.dateOfBirth), 2);
    if sum > 10 then 10 else sum
  }

  /** Supplying a field that was missing never lowers the score, and keeps
      the others' contributions: the rubric is monotone in the fields present. */
  lemma ConfidenceMonotone(a: PatientInfo, b: PatientInfo)
    requires Truthy(a.firstName) ==> Truthy(b.firstName)
    requires Truthy(a.lastName) ==> b.lastName == a.lastName
    requires Truthy(a.dateOfBirth) ==> Truthy(b.dateOfBirth)
    ensures ConfidenceTenths(a) <= ConfidenceTenths(b)
  {
  }

  /** The score depends on which fields are present and on the bonus test
      only, never on the first name's or the date's text. */
  lemma ConfidenceIgnoresText(a: PatientInfo, b: PatientInfo)
    requires Truthy(a.firstName) == Truthy(b.firstName)
    requires Truthy(a.dateOfBirth) == Truthy(b.dateOfBirth)
    requires a.lastName == b.lastName
    ensures ConfidenceTenths(a) == ConfidenceTenths(b)
  {
  }

  /** A clean last name earns the bonus: "Smith" scores 9 with a first name. */
  lemma {:induction false} SmithEarnsBonus()
    ensures ConfidenceTenths(PatientInfo(Some("John"), Some("Smith"), None)) == 9
  {
    var l := Lower("Smith");
    assert l == "smith";
    assert !HasDigit(l);
    NotContainsShort(l, "person");
    NotContainsShort(l, "number");
    assert !Contains(l, "id") by {
      assert l[1..][1..][1..][1..] == "h";
    }
  }

  /** The bonus test is a substring test, so "Davidson" (it contains "id")
      scores 8 with a first name, not 9. */
  lemma {:induction false} DavidsonLosesBonus()
    ensures ConfidenceTenths(PatientInfo(Some("John"), Some("Davidson"), None)) == 8
  {
    var l := Lower("Davidson");
    assert l == "davidson";
    assert l[3..5] == "id";
    ContainsAt(l, "id", 3);
  }

  lemma NotContainsShort(s: string, sub: string)
    requires |s| < |sub|
    ensures !Contains(s, sub)
    decreases |s|
  {
    if s != [] { NotContainsShort(s[1..], sub); }
  }
}
