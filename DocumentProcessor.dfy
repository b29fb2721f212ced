/** `process_document`: text extraction, pattern extraction, then the AI
    escalation gate. Every foreign call (PDF back-ends, OCR, the language
    model) is an input; the regular expressions are given as their matches.
    The processing time and the timestamp are left out. */
module DocumentProcessor {
  import opened Wrappers
  import opened Text
  import opened Patient
  import opened ConfidenceScorer
  import opened FieldExtractor
  import opened TextExtraction
  import opened ValidationEngine

  /** What the foreign calls of one `process_document` call produce. */
  datatype DocumentInputs = DocumentInputs(
    plumber: BackendRun, pypdf: BackendRun, ocr: OcrRun,
    nameMatches: seq<seq<NameMatch>>, commaMatches: seq<(string, string)>,
    dobMatches: seq<seq<string>>,
    validationAnswer: LlmReply<ValidationReply>,
    textAnalysis: Option<PatientInfo>,
    textValidationAnswer: LlmReply<ValidationReply>,
    visionAnalysis: Option<PatientInfo>,
    visionValidationAnswer: LlmReply<ValidationReply>)

  /** The language-model calls attempted, in order. `VisionCall` is the
      vision attempt: it is recorded also when the page-to-image conversion
      raises before the model is reached, and the vision result is then
      `None`. */
  datatype AiCall = ValidateCall | TextAnalysisCall | VisionCall

  /** The response dict, without `processing_time_ms` and `timestamp`.
      `confidenceTenths` is `confidence_score` times ten. */
  datatype ProcessingResult = ProcessingResult(
    success: bool, message: string,
    patientInfo: Option<PatientInfo>, extractedText: Option<string>,
    extractionMethod: string, confidenceTenths: nat,
    aiValidation: Option<ValidationSummary>)

  datatype Processed = Processed(result: ProcessingResult, calls: seq<AiCall>)

  /** `final_result`, `final_method`, `final_confidence`, `validation_summary`. */
  datatype Stage = Stage(info: PatientInfo, methodName: string, confidence: nat, summary: Option<ValidationSummary>)

  /** The quality the gate compares: a number, or the text of the exception
      the comparison (or the `.get` before it) raises. */
  datatype Quality = QualityScore(score: real) | QualityFailure(reason: string)

  const SuccessMessage: string := "Document processed successfully"
  const FailurePrefix: string := "Failed to process document: "

  function Failure(reason: string): (r: ProcessingResult)
    ensures !r.success && r.patientInfo.None? && r.extractedText.None?
    ensures r.extractionMethod == "error" && r.confidenceTenths == 0 && r.aiValidation.None?
    ensures r.message == FailurePrefix + reason
  {
    ProcessingResult(false, FailurePrefix + reason, None, None, "error", 0, None)
  }

  function Success(text: string, s: Stage): ProcessingResult {
    ProcessingResult(true, SuccessMessage, Some(s.info), Some(Preview(text)), s.methodName, s.confidence, s.summary)
  }

  /** `use_ai if use_ai is not None else self.enable_ai`, and the gate on it. */
  predicate Escalates(enableAi: bool, useAi: Option<bool>) {
    (if useAi.Some? then useAi.value else enableAi) && enableAi
  }

  /** The dict the patterns produce. */
  function OcrInfo(inp: DocumentInputs): PatientInfo {
    var names := ExtractName(inp.nameMatches, inp.commaMatches);
    PatientInfo(names.first, names.last, ExtractDob(inp.dobMatches))
  }

  /** The stage after the first validation: the corrected dict and
      `max(corrected, original)` when validation returned something. */
  function AfterValidation(s0: Stage, backend: string, v: Option<Validated>): (s: Stage)
    ensures v.None? ==> s == s0
    ensures v.Some? ==> s.info == v.value.correctedInfo && s.summary == Some(v.value.summary)
    ensures v.Some? ==> s.confidence >= s0.confidence && s.confidence >= ConfidenceTenths(s.info)
  {
    if v.None? then s0
    else
      var c := ConfidenceTenths(v.value.correctedInfo);
      Stage(v.value.correctedInfo, "ocr_" + backend + "_ai_validated",
            if c > s0.confidence then c else s0.confidence, Some(v.value.summary))
  }

  /** `overall_validation.get("data_quality_score", final_confidence)`. A
      missing entry reads as `{}`; a JSON boolean counts as a number. */
  function QualityOf(summary: Option<ValidationSummary>, confidence: nat): (q: Quality)
    ensures summary.None? ==> q == QualityScore(confidence as real / 10.0)
  {
    if summary.None? then QualityScore(confidence as real / 10.0)
    else match summary.value.reply.overall
      case NoOverall => QualityScore(confidence as real / 10.0)
      case OverallNotDict(t) => QualityFailure("'" + t + "' object has no attribute 'get'")
      case Overall(_, dq, _, _) =>
        match dq
        case QualityMissing => QualityScore(confidence as real / 10.0)
        case QualityNumber(x) => QualityScore(x)
        case QualityNotNumber(t) => QualityFailure(NotComparable(t))
  }

  /** The `TypeError` message of comparing a non-number of type `t` with a float. */
  function NotComparable(t: string): string {
    "'<' not supported between instances of '" + t + "' and 'float'"
  }

  /** An AI result replaces the current one only when it scores strictly more. */
  predicate Improves(candidate: Option<PatientInfo>, s: Stage) {
    candidate.Some? && ConfidenceTenths(candidate.value) > s.confidence
  }

  /** The stage after adopting an AI result, with its own validation summary
      when that validation returns something. The result's corrections are
      not applied. */
  function Adopt(candidate: PatientInfo, methodName: string, v: Option<Validated>, s: Stage): Stage {
    Stage(candidate, methodName, ConfidenceTenths(candidate), if v.Some? then Some(v.value.summary) else s.summary)
  }

  /** Step 4: text analysis below 0.7; vision below 0.6 only when the text
      result was not adopted. */
  function Enhance(enableAi: bool, s: Stage, q: real, inp: DocumentInputs): (r: (Stage, seq<AiCall>))
    ensures r.0.confidence >= s.confidence
    ensures s.confidence >= ConfidenceTenths(s.info) ==> r.0.confidence >= ConfidenceTenths(r.0.info)
    ensures r.0 != s ==> r.0.methodName in {"ai_text_enhanced", "ai_vision_enhanced"}
  {
    if q >= 0.7 then (s, [])
    else if Improves(inp.textAnalysis, s) then
      (Adopt(inp.textAnalysis.value, "ai_text_enhanced",
             Validate(enableAi, inp.textAnalysis.value, inp.textValidationAnswer), s),
       [TextAnalysisCall, ValidateCall])
    else if q >= 0.6 then (s, [TextAnalysisCall])
    else if Improves(inp.visionAnalysis, s) then
      (Adopt(inp.visionAnalysis.value, "ai_vision_enhanced",
             Validate(enableAi, inp.visionAnalysis.value, inp.visionValidationAnswer), s),
       [TextAnalysisCall, VisionCall, ValidateCall])
    else (s, [TextAnalysisCall, VisionCall])
  }

  /** `process_document` as a function of what its foreign calls return. */
  function Process(enableAi: bool, useAi: Option<bool>, inp: DocumentInputs): Processed {
    match Cascade(inp.plumber, inp.pypdf, inp.ocr)
    case Err(e) => Processed(Failure(e), [])
    case Ok(ex) =>
      var info := OcrInfo(inp);
      var s0 := Stage(info, "ocr_" + ex.backend, ConfidenceTenths(info), None);
      if !Escalates(enableAi, useAi) then Processed(Success(ex.text, s0), [])
      else Escalate(enableAi, inp, ex, s0)
  }

  /** Steps 3 and 4 on the pattern stage `s0`: validate, read the quality,
      then try the AI results. */
  function Escalate(enableAi: bool, inp: DocumentInputs, ex: Extracted, s0: Stage): Processed {
    var s1 := AfterValidation(s0, ex.backend, Validate(enableAi, s0.info, inp.validationAnswer));
    match QualityOf(s1.summary, s1.confidence)
    case QualityFailure(reason) => Processed(Failure(reason), [ValidateCall])
    case QualityScore(q) =>
      var (s2, calls) := Enhance(enableAi, s1, q, inp);
      Processed(Success(ex.text, s2), [ValidateCall] + calls)
  }

  // ---------------------------------------------------------------------
  // Properties

  /** A failed extraction gives the error response and calls no model. */
  lemma ExtractionFailure(enableAi: bool, useAi: Option<bool>, inp: DocumentInputs)
    requires Cascade(inp.plumber, inp.pypdf, inp.ocr).Err?
    ensures var p := Process(enableAi, useAi, inp);
      p.calls == [] && !p.result.success && p.result.extractionMethod == "error"
      && p.result.confidenceTenths == 0 && p.result.patientInfo.None?
      && p.result.message == FailurePrefix + Cascade(inp.plumber, inp.pypdf, inp.ocr).error
  {
  }

  /** Without AI for this call the response is the pattern result, scored
      by the rubric, under `ocr_<method>`, and no model is called. */
  lemma NoAiMeansOcrOnly(enableAi: bool, useAi: Option<bool>, inp: DocumentInputs)
    requires !Escalates(enableAi, useAi)
    requires Cascade(inp.plumber, inp.pypdf, inp.ocr).Ok?
    ensures var p := Process(enableAi, useAi, inp);
      var ex := Cascade(inp.plumber, inp.pypdf, inp.ocr).value;
      p.calls == [] && p.result.success && p.result.patientInfo == Some(OcrInfo(inp))
      && p.result.extractionMethod == "ocr_" + ex.backend
      && p.result.confidenceTenths == ConfidenceTenths(OcrInfo(inp))
      && p.result.aiValidation.None? && p.result.extractedText == Some(Preview(ex.text))
  {
  }

  /** An explicit `use_ai` cannot turn AI on when the processor has it off. */
  lemma DisabledProcessorNeverCallsModel(useAi: Option<bool>, inp: DocumentInputs)
    ensures Process(false, useAi, inp).calls == []
  {
  }

  /** The method names a successful call can report. */
  lemma MethodNames(enableAi: bool, useAi: Option<bool>, inp: DocumentInputs)
    ensures var p := Process(enableAi, useAi, inp);
      p.result.success ==>
        var m := Cascade(inp.plumber, inp.pypdf, inp.ocr).value.backend;
        p.result.extractionMethod in {"ocr_" + m, "ocr_" + m + "_ai_validated", "ai_text_enhanced", "ai_vision_enhanced"}
  {
  }

  /** On an escalating call that gets past extraction, the result is
      `Escalate` of the pattern stage. */
  lemma ProcessEscalates(enableAi: bool, useAi: Option<bool>, inp: DocumentInputs)
    requires Escalates(enableAi, useAi)
    requires Cascade(inp.plumber, inp.pypdf, inp.ocr).Ok?
    ensures var ex := Cascade(inp.plumber, inp.pypdf, inp.ocr).value;
      Process(enableAi, useAi, inp)
        == Escalate(enableAi, inp, ex, Stage(OcrInfo(inp), "ocr_" + ex.backend, ConfidenceTenths(OcrInfo(inp)), None))
  {
  }

  /** The reported confidence never falls below the rubric score of the
      pattern result, nor below that of the reported patient dict. */
  lemma ConfidenceNeverDrops(enableAi: bool, useAi: Option<bool>, inp: DocumentInputs)
    ensures var p := Process(enableAi, useAi, inp);
      p.result.success ==>
        && p.result.confidenceTenths >= ConfidenceTenths(OcrInfo(inp))
        && p.result.patientInfo.Some?
        && p.result.confidenceTenths >= ConfidenceTenths(p.result.patientInfo.value)
        && p.result.confidenceTenths <= 10
  {
    var c := Cascade(inp.plumber, inp.pypdf, inp.ocr);
    if c.Ok? && Escalates(enableAi, useAi) {
      var info := OcrInfo(inp);
      var s0 := Stage(info, "ocr_" + c.value.backend, ConfidenceTenths(info), None);
      ProcessEscalates(enableAi, useAi, inp);
      var s1 := AfterValidation(s0, c.value.backend, Validate(enableAi, info, inp.validationAnswer));
      var q := QualityOf(s1.summary, s1.confidence);
      if q.QualityScore? {
        var e := Enhance(enableAi, s1, q.score, inp);
        assert Process(enableAi, useAi, inp).result == Success(c.value.text, e.0);
        assert e.0.confidence <= 10 by {
          if e.0 != s1 { assert e.0.confidence == ConfidenceTenths(e.0.info); }
        }
      }
    }
  }

  /** Step 4 alone: text analysis runs exactly when the quality is below
      0.7; vision runs exactly when it is below 0.6 and the text result was
      not adopted; an adopted result scores strictly more. */
  lemma EnhanceGate(enableAi: bool, s: Stage, q: real, inp: DocumentInputs)
    requires s.methodName != "ai_text_enhanced" && s.methodName != "ai_vision_enhanced"
    ensures var (s2, calls) := Enhance(enableAi, s, q, inp);
      && (TextAnalysisCall in calls <==> q < 0.7)
      && (VisionCall in calls <==> q < 0.6 && !Improves(inp.textAnalysis, s))
      && (s2.methodName == "ai_text_enhanced" <==> q < 0.7 && Improves(inp.textAnalysis, s))
      && (s2.methodName == "ai_vision_enhanced" <==> q < 0.6 && !Improves(inp.textAnalysis, s) && Improves(inp.visionAnalysis, s))
      && (s2.methodName == "ai_text_enhanced" ==> Some(s2.info) == inp.textAnalysis && s2.confidence > s.confidence)
      && (s2.methodName == "ai_vision_enhanced" ==> Some(s2.info) == inp.visionAnalysis && s2.confidence > s.confidence)
  {
    assert "ai_text_enhanced" != "ai_vision_enhanced";
  }

  /** The gate, on a call that escalates and whose quality is a number:
      the first call validates, and then `EnhanceGate` holds of the stage
      after validation. */
  lemma EscalationGate(enableAi: bool, useAi: Option<bool>, inp: DocumentInputs)
    requires Escalates(enableAi, useAi)
    requires Cascade(inp.plumber, inp.pypdf, inp.ocr).Ok?
    ensures var info := OcrInfo(inp);
      var ex := Cascade(inp.plumber, inp.pypdf, inp.ocr).value;
      var s0 := Stage(info, "ocr_" + ex.backend, ConfidenceTenths(info), None);
      var s1 := AfterValidation(s0, ex.backend, Validate(enableAi, info, inp.validationAnswer));
      var p := Process(enableAi, useAi, inp);
      QualityOf(s1.summary, s1.confidence).QualityScore? ==>
        var q := QualityOf(s1.summary, s1.confidence).score;
        && p.result.success && |p.calls| >= 1 && p.calls[0] == ValidateCall
        && (TextAnalysisCall in p.calls <==> q < 0.7)
        && (VisionCall in p.calls <==> q < 0.6 && !Improves(inp.textAnalysis, s1))
        && (p.result.extractionMethod == "ai_text_enhanced" <==> q < 0.7 && Improves(inp.textAnalysis, s1))
        && (p.result.extractionMethod == "ai_vision_enhanced" ==> Improves(inp.visionAnalysis, s1))
        && (p.result.extractionMethod == "ai_text_enhanced" ==>
              p.result.patientInfo == inp.textAnalysis && p.result.confidenceTenths > s1.confidence)
  {
    var info := OcrInfo(inp);
    var ex := Cascade(inp.plumber, inp.pypdf, inp.ocr).value;
    var s0 := Stage(info, "ocr_" + ex.backend, ConfidenceTenths(info), None);
    var s1 := AfterValidation(s0, ex.backend, Validate(enableAi, info, inp.validationAnswer));
    ProcessEscalates(enableAi, useAi, inp);
    var quality := QualityOf(s1.summary, s1.confidence);
    if quality.QualityScore? {
      var e := Enhance(enableAi, s1, quality.score, inp);
      var p := Process(enableAi, useAi, inp);
      assert p == Processed(Success(ex.text, e.0), [ValidateCall] + e.1);
      assert s1.methodName[0] == 'o';
      EnhanceGate(enableAi, s1, quality.score, inp);
      assert forall c :: c in p.calls <==> c == ValidateCall || c in e.1;
    }
  }

  /** A quality score that is not a number ends the call with the error
      response (the `TypeError` of the comparison). */
  lemma QualityNotNumberFails(enableAi: bool, useAi: Option<bool>, inp: DocumentInputs, t: string)
    requires Escalates(enableAi, useAi)
    requires Cascade(inp.plumber, inp.pypdf, inp.ocr).Ok?
    requires inp.validationAnswer.Parsed?
    requires inp.validationAnswer.value.overall.Overall?
    requires inp.validationAnswer.value.overall.dataQuality == QualityNotNumber(t)
    ensures var p := Process(enableAi, useAi, inp);
      !p.result.success && p.calls == [ValidateCall]
      && p.result.message == FailurePrefix + NotComparable(t)
  {
    ProcessEscalates(enableAi, useAi, inp);
  }

  /** The reported confidence is not the rubric score of the reported dict:
      after a correction that lowers the score (a last name containing "id"
      loses the bonus), `max` keeps the original score. */
  lemma ReportedConfidenceCanExceedRubric(before: PatientInfo, after: PatientInfo)
    requires before == PatientInfo(Some("John"), Some("Smith"), None)
    requires after == PatientInfo(Some("John"), Some("Davidson"), None)
    ensures var s0 := Stage(before, "ocr_pdfplumber", ConfidenceTenths(before), None);
      var s := AfterValidation(s0, "pdfplumber", Some(Validated(after, ValidationSummary(FallbackReply, []))));
      s.info == after && s.confidence == 9 && ConfidenceTenths(s.info) == 8
  {
    SmithEarnsBonus();
    DavidsonLosesBonus();
  }

  // ---------------------------------------------------------------------
  // The method, step by step

  /** Step 4 of `process_document`: text analysis, then (the `elif`) vision,
      each adopted only when it scores strictly more, each followed by a
      validation whose summary replaces the current one. */
  method TryEnhancement(enableAi: bool, dataQualityScore: real, inp: DocumentInputs,
                        result0: PatientInfo, method0: string, confidence0: nat, summary0: Option<ValidationSummary>)
    returns (finalResult: PatientInfo, finalMethod: string, finalConfidence: nat,
             validationSummary: Option<ValidationSummary>, calls: seq<AiCall>)
    ensures (Stage(finalResult, finalMethod, finalConfidence, validationSummary), calls)
         == Enhance(enableAi, Stage(result0, method0, confidence0, summary0), dataQualityScore, inp)
  {
    finalResult, finalMethod, finalConfidence, validationSummary := result0, method0, confidence0, summary0;
    calls := [];
    if dataQualityScore < 0.7 {
      calls := calls + [TextAnalysisCall];
      assert calls == [TextAnalysisCall];
      var aiResult := inp.textAnalysis;
      if aiResult.Some? && ConfidenceTenths(aiResult.value) > finalConfidence {
        finalResult := aiResult.value;
        finalMethod := "ai_text_enhanced";
        finalConfidence := ConfidenceTenths(aiResult.value);
        var enhanced := ValidateExtractedData(enableAi, aiResult.value, inp.textValidationAnswer);
        calls := calls + [ValidateCall];
        assert calls == [TextAnalysisCall, ValidateCall];
        if enhanced.Some? {
          validationSummary := Some(enhanced.value.summary);
        }
      } else if dataQualityScore < 0.6 {
        calls := calls + [VisionCall];
        assert calls == [TextAnalysisCall, VisionCall];
        var visionResult := inp.visionAnalysis;
        if visionResult.Some? && ConfidenceTenths(visionResult.value) > finalConfidence {
          finalResult := visionResult.value;
          finalMethod := "ai_vision_enhanced";
          finalConfidence := ConfidenceTenths(visionResult.value);
          var visionValidation := ValidateExtractedData(enableAi, visionResult.value, inp.visionValidationAnswer);
          calls := calls + [ValidateCall];
          assert calls == [TextAnalysisCall, VisionCall, ValidateCall];
          if visionValidation.Some? {
            validationSummary := Some(visionValidation.value.summary);
          }
        }
      }
    }
  }

  /** Steps 3 and 4 of `process_document`, from the pattern result onwards:
      the first validation and `max`, the quality read, then step 4. */
  method ValidateAndEnhance(enableAi: bool, inp: DocumentInputs, text: string, ocrMethod: string,
                            ocrResult: PatientInfo, method0: string, confidence0: nat)
    returns (r: ProcessingResult, calls: seq<AiCall>)
    ensures Processed(r, calls)
         == Escalate(enableAi, inp, Extracted(text, ocrMethod), Stage(ocrResult, method0, confidence0, None))
  {
    ghost var s0 := Stage(ocrResult, method0, confidence0, None);
    var finalResult, finalMethod, finalConfidence := ocrResult, method0, confidence0;
    var validationSummary: Option<ValidationSummary> := None;
    var validation := ValidateExtractedData(enableAi, ocrResult, inp.validationAnswer);
    calls := [ValidateCall];
    if validation.Some? {
      validationSummary := Some(validation.value.summary);
      var correctedConfidence := ConfidenceTenths(validation.value.correctedInfo);
      finalResult := validation.value.correctedInfo;
      finalConfidence := if correctedConfidence > finalConfidence then correctedConfidence else finalConfidence;
      finalMethod := "ocr_" + ocrMethod + "_ai_validated";
    }
    ghost var s1 := Stage(finalResult, finalMethod, finalConfidence, validationSummary);
    assert s1 == AfterValidation(s0, ocrMethod, validation);

    var quality := QualityOf(validationSummary, finalConfidence);
    if quality.QualityFailure? {
      return Failure(quality.reason), calls;
    }
    ghost var e := Enhance(enableAi, s1, quality.score, inp);
    var more;
    finalResult, finalMethod, finalConfidence, validationSummary, more :=
      TryEnhancement(enableAi, quality.score, inp, finalResult, finalMethod, finalConfidence, validationSummary);
    calls := calls + more;
    assert Stage(finalResult, finalMethod, finalConfidence, validationSummary) == e.0;
    r := ProcessingResult(true, SuccessMessage, Some(finalResult), Some(Preview(text)),
                          finalMethod, finalConfidence, validationSummary);
  }

  /** `process_document`, reassigning the final result, method, confidence
      and summary as the source does. */
  method ProcessDocument(enableAi: bool, useAi: Option<bool>, inp: DocumentInputs)
    returns (r: ProcessingResult, calls: seq<AiCall>)
    ensures Processed(r, calls) == Process(enableAi, useAi, inp)
  {
    calls := [];
    var extracted := ExtractTextFromPdf(inp.plumber, inp.pypdf, inp.ocr);
    if extracted.Err? {
      return Failure(extracted.error), calls;
    }
    var text := extracted.value.text;
    var ocrMethod := extracted.value.backend;

    var firstName, lastName := ExtractPatientName(inp.nameMatches, inp.commaMatches);
    var dateOfBirth := ExtractDob(inp.dobMatches);
    var ocrResult := PatientInfo(firstName, lastName, dateOfBirth);
    assert ocrResult == OcrInfo(inp);

    var finalResult := ocrResult;
    var finalMethod := "ocr_" + ocrMethod;
    var finalConfidence := ConfidenceTenths(ocrResult);
    var validationSummary: Option<ValidationSummary> := None;

    var useAiForThisCall := if useAi.Some? then useAi.value else enableAi;
    if useAiForThisCall && enableAi {
      r, calls := ValidateAndEnhance(enableAi, inp, text, ocrMethod, finalResult, finalMethod, finalConfidence);
      return;
    }
    r := ProcessingResult(true, SuccessMessage, Some(finalResult), Some(Preview(text)),
                          finalMethod, finalConfidence, validationSummary);
  }
}
