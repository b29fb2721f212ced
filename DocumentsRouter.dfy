/** The document endpoints: upload (with an optional order made from the
    extracted patient), process only, and validate. Each upload first
    passes the same gate on the file name and size. The file content is
    given as its size and the foreign-call outcomes the processor works
    from; the random part of a generated order number is a parameter. */
module DocumentsRouter {
  import opened Wrappers
  import opened Text
  import opened Patient
  import opened TextExtraction
  import opened ValidationEngine
  import opened DocumentProcessor
  import OrderSchemas
  import OrdersRouter

  const MaxUploadBytes: nat := 10 * 1024 * 1024
  const NotPdf := HttpError(400, "Only PDF files are supported")
  const TooLarge := HttpError(400, "File size must be less than 10MB")
  const EmptyFile := HttpError(400, "File is empty")
  const ValidationUnavailable := HttpError(503, "AI validation service is not available")
  const ValidateFailurePrefix := "Failed to validate data: "
  const DefaultOrderType := "Document Processing"
  const OrderNumberPrefix := "DOC-"

  // ---- the upload gate ----

  /** The checks each endpoint makes before reading the document, in the
      order made: the extension (case-insensitive), then too large, then
      empty. */
  function UploadGate(filename: string, size: nat): (r: Option<HttpError>)
    ensures r.None? <==> EndsWith(Lower(filename), ".pdf") && 0 < size <= MaxUploadBytes
    ensures r == Some(NotPdf) <==> !EndsWith(Lower(filename), ".pdf")
    ensures r == Some(TooLarge) <==> EndsWith(Lower(filename), ".pdf") && size > MaxUploadBytes
    ensures r == Some(EmptyFile) <==> EndsWith(Lower(filename), ".pdf") && size == 0
  {
    if !EndsWith(Lower(filename), ".pdf") then Some(NotPdf)
    else if size > MaxUploadBytes then Some(TooLarge)
    else if size == 0 then Some(EmptyFile)
    else None
  }

  /** The extension test ignores case: "scan.PDF" passes and "scan.pdf.txt"
      does not; exactly 10 MiB passes and one byte more does not. */
  lemma GateExamples(upper: string, wrong: string)
    requires upper == "scan.PDF" && wrong == "scan.pdf.txt"
    ensures UploadGate(upper, MaxUploadBytes).None?
    ensures UploadGate(upper, MaxUploadBytes + 1) == Some(TooLarge)
    ensures UploadGate(wrong, 1) == Some(NotPdf)
  {
    assert Lower(upper)[4..] == ".pdf";
    assert Lower(wrong)[8..] == ".txt";
  }

  // ---- upload ----

  /** The `DocumentUploadResponse` (the timestamp is not modelled). */
  datatype UploadResponse = UploadResponse(
    success: bool, message: string, filename: string, fileSize: nat,
    patientInfo: Option<PatientInfo>)

  /** A generated order number: "DOC-" and the first eight hex digits of a
      random UUID, upper-cased. */
  function DocumentOrderNumber(hex8: string): string {
    OrderNumberPrefix + Upper(hex8)
  }

  predicate IsLowerHex(c: char) { '0' <= c <= '9' || 'a' <= c <= 'f' }
  predicate IsUpperHex(c: char) { '0' <= c <= '9' || 'A' <= c <= 'F' }

  /** Eight lower-case hex digits (what `uuid4().hex[:8]` gives) make a
      twelve-character number: the prefix, then eight upper-case hex
      digits. */
  lemma DocumentOrderNumberShape(hex8: string)
    requires |hex8| == 8 && forall i :: 0 <= i < 8 ==> IsLowerHex(hex8[i])
    ensures var n := DocumentOrderNumber(hex8);
      && |n| == 12 && n[..4] == "DOC-"
      && forall i :: 4 <= i < 12 ==> IsUpperHex(n[i])
  {
    var n := DocumentOrderNumber(hex8);
    forall i | 4 <= i < 12
      ensures IsUpperHex(n[i])
    {
      assert n[i] == UpperChar(hex8[i - 4]);
    }
  }

  /** The row an upload asks for: the extracted names and birth date, the
      order type sent or the default when it is not truthy, status
      "pending", and a note naming the file. No schema validation runs. */
  function DocumentOrder(info: PatientInfo, filename: string, orderType: Option<string>, hex8: string): OrderSchemas.OrderFields {
    OrderSchemas.OrderFields(
      DocumentOrderNumber(hex8), info.firstName, info.lastName, info.dateOfBirth,
      if Truthy(orderType) then orderType.value else DefaultOrderType,
      Some("pending"), None, Some("Created from document: " + filename))
  }

  /** The `patient_info` of the response: present iff processing succeeded
      with a patient dict. */
  function ResponseInfo(p: ProcessingResult): Option<PatientInfo> {
    if p.success && p.patientInfo.Some? then p.patientInfo else None
  }

  /** `upload_document`: the gate, the processor with AI available and
      `use_ai` as sent, then, when asked for and a patient was found, one
      insert into the order table. A failed insert (the number already
      held) is swallowed: the table stays as it was and the answer is the
      same. */
  function Upload(orders: seq<OrdersRouter.Order>, filename: string, size: nat, createOrder: bool,
                  orderType: Option<string>, useAi: bool, hex8: string, inp: DocumentInputs, now: Instant)
    : (Result<UploadResponse, HttpError>, seq<OrdersRouter.Order>)
  {
    var gate := UploadGate(filename, size);
    if gate.Some? then (Err(gate.value), orders)
    else
      var p := Process(true, Some(useAi), inp).result;
      var info := ResponseInfo(p);
      var orders' :=
        if createOrder && p.success && info.Some? then
          OrdersRouter.Create(orders, DocumentOrder(info.value, filename, orderType, hex8), now).1
        else orders;
      (Ok(UploadResponse(p.success, p.message, filename, size, info)), orders')
  }

  /** The response of an upload does not depend on the order table: an
      order that could not be made never fails the upload. */
  lemma UploadAnswerIgnoresOrders(orders1: seq<OrdersRouter.Order>, orders2: seq<OrdersRouter.Order>, filename: string,
                                  size: nat, createOrder: bool, orderType: Option<string>, useAi: bool, hex8: string,
                                  inp: DocumentInputs, now: Instant)
    ensures Upload(orders1, filename, size, createOrder, orderType, useAi, hex8, inp, now).0
         == Upload(orders2, filename, size, createOrder, orderType, useAi, hex8, inp, now).0
  {
  }

  /** A refused file changes nothing. The response carries a patient iff
      processing succeeded, and then processing's own patient. An order is
      added iff one was asked for, processing succeeded and the generated
      number is free; it is then the last row, holds the extracted patient,
      the order type (or "Document Processing") and status "pending", and
      the table keeps its keys. */
  lemma UploadRules(orders: seq<OrdersRouter.Order>, filename: string, size: nat, createOrder: bool,
                    orderType: Option<string>, useAi: bool, hex8: string, inp: DocumentInputs, now: Instant)
    requires OrdersRouter.TableInvariant(orders)
    ensures var (r, orders') := Upload(orders, filename, size, createOrder, orderType, useAi, hex8, inp, now);
      var p := Process(true, Some(useAi), inp).result;
      && (r.Err? <==> UploadGate(filename, size).Some?)
      && (r.Err? ==> orders' == orders && r.error.status == 400)
      && (r.Ok? ==> r.value.success == p.success && r.value.message == p.message && r.value.fileSize == size
                    && (r.value.patientInfo.Some? <==> p.success && p.patientInfo.Some?)
                    && (r.value.patientInfo.Some? ==> r.value.patientInfo == p.patientInfo))
      && (orders' != orders <==>
            r.Ok? && createOrder && r.value.patientInfo.Some?
            && forall o :: o in orders ==> o.orderNumber != DocumentOrderNumber(hex8))
      && (orders' != orders ==>
            var info := r.value.patientInfo.value;
            && |orders'| == |orders| + 1 && orders'[..|orders|] == orders
            && orders'[|orders|].orderNumber == DocumentOrderNumber(hex8)
            && orders'[|orders|].firstName == info.firstName
            && orders'[|orders|].lastName == info.lastName
            && orders'[|orders|].dateOfBirth == info.dateOfBirth
            && orders'[|orders|].orderType == (if Truthy(orderType) then orderType.value else DefaultOrderType)
            && orders'[|orders|].status == "pending"
            && orders'[|orders|].notes == Some("Created from document: " + filename))
      && OrdersRouter.TableInvariant(orders')
  {
    var p := Process(true, Some(useAi), inp).result;
    var info := ResponseInfo(p);
    if UploadGate(filename, size).None? && createOrder && p.success && info.Some? {
      var f := DocumentOrder(info.value, filename, orderType, hex8);
      OrdersRouter.CreateRules(orders, f, now);
      var (c, orders') := OrdersRouter.Create(orders, f, now);
      if c.Ok? {
        assert orders'[..|orders|] == orders;
        assert orders'[|orders|] == c.value;
      }
    }
  }

  /** `upload_document` on a live order table: the insert, when made, goes
      through the table's own create. */
  method UploadDocument(table: OrdersRouter.OrderTable, filename: string, size: nat, createOrder: bool,
                        orderType: Option<string>, useAi: bool, hex8: string, inp: DocumentInputs, now: Instant)
    returns (r: Result<UploadResponse, HttpError>)
    requires table.Valid()
    modifies table
    ensures (r, table.orders) == Upload(old(table.orders), filename, size, createOrder, orderType, useAi, hex8, inp, now)
    ensures table.Valid()
  {
    var gate := UploadGate(filename, size);
    if gate.Some? {
      return Err(gate.value);
    }
    var p := Process(true, Some(useAi), inp).result;
    var info := ResponseInfo(p);
    if createOrder && p.success && info.Some? {
      var _ := table.CreateOrder(DocumentOrder(info.value, filename, orderType, hex8), now);
    }
    r := Ok(UploadResponse(p.success, p.message, filename, size, info));
  }

  // ---- process only ----

  /** `process_document_only`: the gate, then the processor's result as it
      is (the timestamp and processing time are not modelled). */
  function ProcessOnly(filename: string, size: nat, useAiValidation: bool, inp: DocumentInputs): Result<ProcessingResult, HttpError> {
    var gate := UploadGate(filename, size);
    if gate.Some? then Err(gate.value) else Ok(Process(true, Some(useAiValidation), inp).result)
  }

  /** The two processing endpoints agree: for the same file and inputs,
      both refuse it or neither does, and then they report the same
      success, message and patient. */
  lemma UploadAgreesWithProcessOnly(orders: seq<OrdersRouter.Order>, filename: string, size: nat, createOrder: bool,
                                    orderType: Option<string>, useAi: bool, hex8: string, inp: DocumentInputs, now: Instant)
    ensures var u := Upload(orders, filename, size, createOrder, orderType, useAi, hex8, inp, now).0;
      var q := ProcessOnly(filename, size, useAi, inp);
      && (u.Err? <==> q.Err?)
      && (u.Err? ==> u.error == q.error)
      && (u.Ok? ==> u.value.success == q.value.success && u.value.message == q.value.message
                    && (q.value.success ==> u.value.patientInfo == q.value.patientInfo))
  {
  }

  // ---- validate ----

  /** The answer of `validate_extracted_data` (the timestamp is not
      modelled). */
  datatype ValidationResponse = ValidationResponse(
    success: bool, message: string, filename: string, originalData: PatientInfo, validation: Validated)

  /** `validate_extracted_data`: the gate; the text cascade, whose failure
      is a 500 naming the reason; then the validation with AI enabled,
      whose absence is a 503. */
  function ValidateData(filename: string, size: nat, info: PatientInfo, plumber: BackendRun, pypdf: BackendRun,
                        ocr: OcrRun, answer: LlmReply<ValidationReply>): (r: Result<ValidationResponse, HttpError>)
    ensures UploadGate(filename, size).Some? ==> r == Err(UploadGate(filename, size).value)
    ensures UploadGate(filename, size).None? && Cascade(plumber, pypdf, ocr).Err? ==>
      r == Err(HttpError(500, ValidateFailurePrefix + Cascade(plumber, pypdf, ocr).error))
    ensures r.Err? && r.error.status == 503 <==>
      UploadGate(filename, size).None? && Cascade(plumber, pypdf, ocr).Ok? && answer.CallFailed?
    ensures r.Ok? ==> r.value.success && r.value.originalData == info && r.value.filename == filename
    ensures r.Ok? && answer.Unparseable? ==> r.value.validation.correctedInfo == info
  {
    var gate := UploadGate(filename, size);
    if gate.Some? then Err(gate.value)
    else match Cascade(plumber, pypdf, ocr)
      case Err(e) => Err(HttpError(500, ValidateFailurePrefix + e))
      case Ok(_) =>
        var v := Validate(true, info, answer);
        if v.None? then Err(ValidationUnavailable)
        else
          FallbackChangesNothing(info);
          Ok(ValidationResponse(true, "Validation completed successfully", filename, info, v.value))
  }
}
