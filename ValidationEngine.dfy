/** The correction merge of `_ai_validate_extracted_data`. The language-model
    call and the JSON decoding are not modelled: the reply is given as a
    call failure, an undecodable answer, or the decoded record. */
module ValidationEngine {
  import opened Wrappers
  import opened Text
  import opened Patient

  /** The outcome of one language-model call. `CallFailed` stands for any
      exception the method's own handler turns into `None` (the call raising,
      or a decoded value whose shape makes `.get` raise); `Unparseable` for a
      `JSONDecodeError`. */
  datatype LlmReply<T> = CallFailed | Unparseable | Parsed(value: T)

  /** A `validation_results[field]` entry. A missing `issues` key reads as []. */
  datatype FieldJudgment = FieldJudgment(
    isValid: Option<bool>,
    confidence: Option<real>,
    issues: seq<string>,
    correctedValue: Option<string>)

  /** A `data_quality_score` as decoded: absent, a number, or a value of
      another JSON type (null, a string, ...), named by its Python type. */
  datatype QualityValue = QualityMissing | QualityNumber(score: real) | QualityNotNumber(typeName: string)

  /** The `overall_validation` entry: absent, a dict, or another JSON value. */
  datatype OverallEntry =
    | NoOverall
    | Overall(overallConfidence: Option<real>, dataQuality: QualityValue,
              summaryText: Option<string>, recommendations: seq<string>)
    | OverallNotDict(typeName: string)

  /** The decoded reply: a judgment per field (absent when the key is) and
      the overall entry. */
  datatype ValidationReply = ValidationReply(
    firstName: Option<FieldJudgment>,
    lastName: Option<FieldJudgment>,
    dateOfBirth: Option<FieldJudgment>,
    overall: OverallEntry)

  function JudgmentOf(reply: ValidationReply, f: Field): Option<FieldJudgment> {
    match f
    case FirstName => reply.firstName
    case LastName => reply.lastName
    case DateOfBirth => reply.dateOfBirth
  }

  /** One `corrections_applied` entry. */
  datatype Correction = Correction(field: Field, original: Option<string>, corrected: string, reason: seq<string>)

  /** The `validation_summary` dict; `validation_performed` is always true. */
  datatype ValidationSummary = ValidationSummary(reply: ValidationReply, corrections: seq<Correction>)

  datatype Validated = Validated(correctedInfo: PatientInfo, summary: ValidationSummary)

  const ParsingErrorJudgment: FieldJudgment :=
    FieldJudgment(Some(true), Some(0.5), ["Unable to validate due to parsing error"], None)

  /** The reply used when the answer cannot be decoded. */
  const FallbackReply: ValidationReply := ValidationReply(
    Some(ParsingErrorJudgment), Some(ParsingErrorJudgment), Some(ParsingErrorJudgment),
    Overall(Some(0.5), QualityNumber(0.5), Some("Validation failed due to response parsing error"),
            ["Manual review recommended due to validation error"]))

  /** The correction one field receives: a truthy `corrected_value` that
      differs from the value held. */
  function CorrectionFor(reply: ValidationReply, info: PatientInfo, f: Field): (c: Option<Correction>)
    ensures c.Some? ==> c.value.field == f && c.value.original == Get(info, f)
    ensures c.Some? ==> c.value.corrected != "" && Some(c.value.corrected) != Get(info, f)
    ensures c.None? <==>
      (JudgmentOf(reply, f).None?
       || !Truthy(JudgmentOf(reply, f).value.correctedValue)
       || JudgmentOf(reply, f).value.correctedValue == Get(info, f))
  {
    var j := JudgmentOf(reply, f);
    if j.Some? && Truthy(j.value.correctedValue) && j.value.correctedValue != Get(info, f) then
      Some(Correction(f, Get(info, f), j.value.correctedValue.value, j.value.issues))
    else None
  }

  /** The corrections over `fields`, in order. */
  function Collect(reply: ValidationReply, info: PatientInfo, fields: seq<Field>): seq<Correction>
    decreases |fields|
  {
    if fields == [] then []
    else
      var c := CorrectionFor(reply, info, fields[0]);
      (if c.Some? then [c.value] else []) + Collect(reply, info, fields[1..])
  }

  /** `corrected_info` after the corrections over `fields` have been written
      into `acc`, a copy of the original. */
  function Merge(reply: ValidationReply, info: PatientInfo, fields: seq<Field>, acc: PatientInfo): PatientInfo
    decreases |fields|
  {
    if fields == [] then acc
    else
      var c := CorrectionFor(reply, info, fields[0]);
      var acc' := if c.Some? then Set(acc, fields[0], Some(c.value.corrected)) else acc;
      Merge(reply, info, fields[1..], acc')
  }

  /** `_ai_validate_extracted_data`: `None` when AI is off or the call fails;
      otherwise the corrected copy and the summary, built from the fallback
      reply when the answer could not be decoded. The patient dict it is
      given always holds the three keys, so its `not patient_info` guard
      never fires. */
  function Validate(enableAi: bool, info: PatientInfo, answer: LlmReply<ValidationReply>): Option<Validated> {
    if !enableAi then None
    else match answer
      case CallFailed => None
      case Unparseable => Some(Outcome(FallbackReply, info))
      case Parsed(reply) => Some(Outcome(reply, info))
  }

  function Outcome(reply: ValidationReply, info: PatientInfo): Validated {
    Validated(Merge(reply, info, FieldOrder, info), ValidationSummary(reply, Collect(reply, info, FieldOrder)))
  }

  /** `Merge` writes exactly the corrected fields and keeps the others. */
  lemma {:induction false} MergeFields(reply: ValidationReply, info: PatientInfo, fields: seq<Field>, acc: PatientInfo, g: Field)
    ensures var m := Merge(reply, info, fields, acc);
      Get(m, g) == if g in fields && CorrectionFor(reply, info, g).Some?
                   then Some(CorrectionFor(reply, info, g).value.corrected) else Get(acc, g)
    decreases |fields|
  {
    if fields != [] {
      var c := CorrectionFor(reply, info, fields[0]);
      var acc' := if c.Some? then Set(acc, fields[0], Some(c.value.corrected)) else acc;
      MergeFields(reply, info, fields[1..], acc', g);
      assert g in fields <==> g == fields[0] || g in fields[1..];
    }
  }

  /** Every field of the corrected copy is the correction for it when there
      is one, and the original value otherwise. */
  lemma CorrectedInfoFields(reply: ValidationReply, info: PatientInfo, g: Field)
    ensures Get(Outcome(reply, info).correctedInfo, g)
         == if CorrectionFor(reply, info, g).Some? then Some(CorrectionFor(reply, info, g).value.corrected)
            else Get(info, g)
  {
    MergeFields(reply, info, FieldOrder, info, g);
    assert g in FieldOrder;
  }

  /** The corrections are those of `fields` that have one, in that order. */
  lemma {:induction false} CollectSpec(reply: ValidationReply, info: PatientInfo, fields: seq<Field>)
    ensures |Collect(reply, info, fields)| <= |fields|
    ensures forall c :: c in Collect(reply, info, fields) ==>
      c.field in fields && CorrectionFor(reply, info, c.field) == Some(c)
    ensures forall f :: f in fields && CorrectionFor(reply, info, f).Some? ==>
      CorrectionFor(reply, info, f).value in Collect(reply, info, fields)
    decreases |fields|
  {
    if fields != [] {
      CollectSpec(reply, info, fields[1..]);
    }
  }

  /** Each recorded correction names its field, the value held before, a
      non-empty new value that differs from it, and that new value is what
      the corrected copy holds. */
  lemma CorrectionsRecorded(reply: ValidationReply, info: PatientInfo)
    ensures var v := Outcome(reply, info);
      forall c :: c in v.summary.corrections ==>
        && c.original == Get(info, c.field)
        && c.corrected != "" && Some(c.corrected) != c.original
        && Get(v.correctedInfo, c.field) == Some(c.corrected)
  {
    CollectSpec(reply, info, FieldOrder);
    forall c | c in Outcome(reply, info).summary.corrections
      ensures Get(Outcome(reply, info).correctedInfo, c.field) == Some(c.corrected)
    {
      CorrectedInfoFields(reply, info, c.field);
    }
  }

  /** An undecodable answer yields the fallback summary and changes nothing. */
  lemma FallbackChangesNothing(info: PatientInfo)
    ensures Validate(true, info, Unparseable) == Some(Validated(info, ValidationSummary(FallbackReply, [])))
  {
    forall g: Field ensures CorrectionFor(FallbackReply, info, g).None? { }
    assert Collect(FallbackReply, info, FieldOrder) == [];
    forall g: Field ensures Get(Outcome(FallbackReply, info).correctedInfo, g) == Get(info, g) {
      CorrectedInfoFields(FallbackReply, info, g);
    }
    var m := Outcome(FallbackReply, info).correctedInfo;
    assert m.firstName == Get(m, FirstName) && m.lastName == Get(m, LastName) && m.dateOfBirth == Get(m, DateOfBirth);
  }

  /** Validating the corrected copy against the same reply finds nothing
      more to correct: the merge is idempotent. */
  lemma MergeIdempotent(reply: ValidationReply, info: PatientInfo)
    ensures var corrected := Outcome(reply, info).correctedInfo;
      Collect(reply, corrected, FieldOrder) == [] && Outcome(reply, corrected).correctedInfo == corrected
  {
    var corrected := Outcome(reply, info).correctedInfo;
    forall g: Field ensures CorrectionFor(reply, corrected, g).None? {
      CorrectedInfoFields(reply, info, g);
    }
    forall g: Field ensures Get(Outcome(reply, corrected).correctedInfo, g) == Get(corrected, g) {
      CorrectedInfoFields(reply, corrected, g);
    }
    var m := Outcome(reply, corrected).correctedInfo;
    assert m.firstName == Get(m, FirstName) && m.lastName == Get(m, LastName) && m.dateOfBirth == Get(m, DateOfBirth);
  }

  /** `_ai_validate_extracted_data` as written: copy the dict, then visit
      the three fields in order, overwriting and appending. */
  method ValidateExtractedData(enableAi: bool, info: PatientInfo, answer: LlmReply<ValidationReply>)
    returns (r: Option<Validated>)
    ensures r == Validate(enableAi, info, answer)
  {
    if !enableAi || answer.CallFailed? {
      return None;
    }
    var reply := if answer.Unparseable? then FallbackReply else answer.value;
    var correctedInfo := info;
    var corrections: seq<Correction> := [];
    var i := 0;
    while i < |FieldOrder|
      invariant 0 <= i <= |FieldOrder|
      invariant Merge(reply, info, FieldOrder[i..], correctedInfo) == Merge(reply, info, FieldOrder, info)
      invariant corrections + Collect(reply, info, FieldOrder[i..]) == Collect(reply, info, FieldOrder)
    {
      var field := FieldOrder[i];
      assert FieldOrder[i..][1..] == FieldOrder[i + 1..];
      var judgment := JudgmentOf(reply, field);
      if judgment.Some? && Truthy(judgment.value.correctedValue)
         && judgment.value.correctedValue != Get(info, field) {
        var correctedValue := judgment.value.correctedValue.value;
        correctedInfo := Set(correctedInfo, field, Some(correctedValue));
        corrections := corrections + [Correction(field, Get(info, field), correctedValue, judgment.value.issues)];
      }
      i := i + 1;
    }
    assert FieldOrder[i..] == [];
    assert correctedInfo == Merge(reply, info, FieldOrder, info);
    assert corrections == Collect(reply, info, FieldOrder);
    assert Validate(enableAi, info, answer) == Some(Outcome(reply, info));
    return Some(Validated(correctedInfo, ValidationSummary(reply, corrections)));
  }
}
