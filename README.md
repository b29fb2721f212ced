# GenHealth backend: a verified Dafny model

The GenHealth backend is a FastAPI service for medical orders. Users upload a
PDF, and the service extracts the patient's first name, last name and date of
birth. It can ask a language model to validate and correct what was
extracted, and it can turn the result into an order. Around that sit user
accounts with bearer tokens and roles, an order table with create, list,
update, delete and search, a per-model quota on language-model calls, an
in-memory cache with expiry, request-body validators, and error
classification.

This project models that core in Dafny and proves what each part promises.

- **The document pipeline.** This is `DocumentProcessor`, `TextExtraction`, `FieldExtractor`, `ValidationEngine`, `ConfidenceScorer` and `Patient`.
  - Foreign calls are inputs: the PDF back-ends, tesseract, and the language model's replies.
  - Regular expressions are given as their matches.
  - Confidence is kept in integer tenths.
  - The loops of the source stay loops: the name scan, page accumulation, and the staged escalation of `process_document`. Each is proved equal to a specification function, and the properties are proved about that function.
- **The quota limiter and the cache.** These are `RateLimiter` and `Cache`.
  - They are classes whose methods update a map of trackers or entries in place.
  - The clock is a `now` parameter, in microseconds.
- **Request validators.** These are `Schema`, `UserSchemas` and `OrderSchemas`. Each validator is a function that returns the stored value or a rejection.
- **The user and order tables.** These are `UserService` and `OrdersRouter`, backed by `Rows` and `Paging`.
  - A table is a sequence of rows in insertion order.
  - A new row's id is one more than the last id, as SQLite assigns row ids.
  - `created_at desc` lists newest first.
  - Each table is also a class (`UserService.UserService`, `OrdersRouter.OrderTable`) whose methods keep the table's keys unique as an invariant.
- **The endpoints.** These are `AuthRouter`, `DocumentsRouter` and `AuthHandler`. Each endpoint is a function from the table and its inputs to its answer and the new table.
- **Error handling.** This is `ErrorHandler`: exception classification, client-IP extraction and the database session manager.

Python semantics are modelled where they decide an outcome:
- `$` in `re.match` also matches before a final newline;
- `d.get(k, default)` returns a stored `null`, not the default;
- truthiness of empty strings;
- `int()` on a string accepts surrounding spaces, a sign and underscores;
- SQLite treats a negative `OFFSET` as 0 and a negative `LIMIT` as no limit.

## Model

| member | source | states |
|---|---|---|
| Patient.Set | app/services/unified_document_processor.py:648-653 | writing one field of the patient dict sets that field and leaves the other two as they were |
| ConfidenceScorer.ConfidenceTenths | app/services/unified_document_processor.py:683-706 | the score is at most 1.0; it is 0 iff no field is truthy and 1.0 iff all three are; two names score at least 0.8 |
| ConfidenceScorer.ConfidenceMonotone | app/services/unified_document_processor.py:683-706 | gaining a field (last name kept) never lowers the score |
| ConfidenceScorer.ConfidenceIgnoresText | app/services/unified_document_processor.py:683-706 | the score depends only on which names and date are truthy and on the last name's artifact test |
| ConfidenceScorer.SmithEarnsBonus | app/services/unified_document_processor.py:694-700 | John Smith scores 0.9: both names and the clean-surname bonus |
| ConfidenceScorer.DavidsonLosesBonus | app/services/unified_document_processor.py:694-700 | "Davidson" contains "id", so John Davidson scores 0.8 without the bonus |
| FieldExtractor.IsValidDateFormat | app/services/unified_document_processor.py:479-505 | a plausible date contains '/' |
| FieldExtractor.DateFields | app/services/unified_document_processor.py:479-505 | for three digit fields, plausible iff month/day/year with a 4-character year or year/month/day with a 4-character first field, with months 1-12, days 1-31 and years 1900-2030 |
| FieldExtractor.RejectsMonth13 | app/services/unified_document_processor.py:488-494 | "13/40/1990" is rejected |
| FieldExtractor.AcceptsFebruary30 | app/services/unified_document_processor.py:488-494 | "02/30/1990" is accepted (no calendar check) |
| FieldExtractor.AcceptsYearFirst | app/services/unified_document_processor.py:497-500 | "1980/01/15" is accepted in year-month-day order |
| FieldExtractor.NormalizeSeparators | app/services/unified_document_processor.py:470-471 | every '-' becomes '/', every other character is kept, and no '-' remains |
| FieldExtractor.NormalizeWithoutDash | app/services/unified_document_processor.py:470-471 | a string without '-' is unchanged |
| FieldExtractor.FirstPlausible | app/services/unified_document_processor.py:463-477 | no result iff no pattern's first match is plausible; a result is plausible and has no '-' |
| FieldExtractor.FirstYieldWins | app/services/unified_document_processor.py:463-477 | the first pattern whose first match is plausible gives the result |
| FieldExtractor.ExtractDob | app/services/unified_document_processor.py:458-477 | the date of birth is a plausible date without '-', and is absent iff no pattern yields one |
| FieldExtractor.DashedDateNormalised | app/services/unified_document_processor.py:463-475 | a dashed "1980-01-15" found by a later pattern is returned as "1980/01/15" |
| FieldExtractor.OnlyFirstMatchExamined | app/services/unified_document_processor.py:466-475 | an implausible first match hides a plausible second match of the same pattern |
| FieldExtractor.FirstMatchDecides | app/services/unified_document_processor.py:466-475 | for any pattern's matches, only the first decides the date found: two match lists with the same first element give the same result |
| FieldExtractor.AcceptsFebruary3 | app/services/unified_document_processor.py:488-494 | "02/03/1990" is accepted |
| FieldExtractor.RejectsLoneMonth13 | app/services/unified_document_processor.py:466-475 | a lone match "13/40/1990" yields no date |
| FieldExtractor.ArtifactFreePrefix | app/services/unified_document_processor.py:430-438 | the kept tokens are the longest prefix without an artifact token, and the token after it is an artifact |
| FieldExtractor.ApplyMatch | app/services/unified_document_processor.py:417-442 | a match stops the scan iff it has two groups or two words; a single match sets the first name to the title-cased first word, and the last name is unchanged when the second token is an artifact |
| FieldExtractor.SingleMatchStopsAtArtifact | app/services/unified_document_processor.py:430-441 | "John Smith id ..." gives last name "Smith" |
| FieldExtractor.SingleMatchKeepsLastName | app/services/unified_document_processor.py:426-442 | an artifact second token leaves the last name unset |
| FieldExtractor.PrefixBeforeArtifact | app/services/unified_document_processor.py:430-436 | a clean second token followed by an artifact keeps just the second token |
| FieldExtractor.ExtractedNamesTitleCased | app/services/unified_document_processor.py:405-456 | extracted names are title-cased |
| FieldExtractor.CommaFallback | app/services/unified_document_processor.py:448-454 | the comma pattern is not used when both names were found; a "Last, First" match completes both names |
| FieldExtractor.CleanLastNameParts | app/services/unified_document_processor.py:430-438 | the token loop with its early break computes the artifact-free prefix |
| FieldExtractor.ScanMatchList | app/services/unified_document_processor.py:416-445 | the loop over one pattern's matches computes the specification scan |
| FieldExtractor.ExtractPatientName | app/services/unified_document_processor.py:405-456 | the pattern loop and the comma fallback compute `ExtractName` |
| TextExtraction.AccumulateBlank | app/services/unified_document_processor.py:317-322 | the accumulated text is blank iff every page piece is blank |
| TextExtraction.OcrAccumulateBlank | app/services/unified_document_processor.py:375-379 | the OCR text is blank iff every page's text is blank |
| TextExtraction.CascadeOutcome | app/services/unified_document_processor.py:309-358 | a success has non-blank text and a known method; a failure carries one of the two fixed messages |
| TextExtraction.PdfplumberFirst | app/services/unified_document_processor.py:314-325 | a pdfplumber run with one non-blank page wins |
| TextExtraction.MethodNoneOnlyAfterFailures | app/services/unified_document_processor.py:342-358 | method "none" appears only when PyPDF2 raised after text was collected and OCR failed for a reason not naming tesseract |
| TextExtraction.AllBlankFails | app/services/unified_document_processor.py:342-356 | all-blank back-ends fail, with the install hint iff the OCR error names tesseract |
| TextExtraction.AppendPages | app/services/unified_document_processor.py:317-322 | the page loop computes the accumulated text |
| TextExtraction.ExtractTextWithOcr | app/services/unified_document_processor.py:360-381 | the OCR page loop computes the numbered page text |
| TextExtraction.ExtractTextFromPdf | app/services/unified_document_processor.py:309-358 | the cascade method computes `Cascade` |
| TextExtraction.Preview | app/services/unified_document_processor.py:281 | text up to 500 characters is kept; longer text becomes its first 500 characters plus "..." |
| ValidationEngine.CorrectionFor | app/services/unified_document_processor.py:648-652 | a correction records the original value and a truthy corrected value that differs from it; there is none iff the judgment is missing, its corrected value is falsy, or it equals the original |
| ValidationEngine.MergeFields | app/services/unified_document_processor.py:639-653 | after the merge loop, a visited field with a correction holds the corrected value; every other field keeps its value |
| ValidationEngine.CorrectedInfoFields | app/services/unified_document_processor.py:639-653 | the corrected copy differs from the input exactly in the corrected fields |
| ValidationEngine.CollectSpec | app/services/unified_document_processor.py:648-659 | the corrections list holds exactly one correction per corrected field |
| ValidationEngine.CorrectionsRecorded | app/services/unified_document_processor.py:648-659 | each recorded correction matches the original and the value written |
| ValidationEngine.FallbackChangesNothing | app/services/unified_document_processor.py:620-664 | an undecodable reply yields the fallback summary with no corrections and the data unchanged |
| ValidationEngine.MergeIdempotent | app/services/unified_document_processor.py:648-653 | validating the corrected copy against the same reply corrects nothing more |
| ValidationEngine.ValidateExtractedData | app/services/unified_document_processor.py:594-668 | the method with its copy-and-overwrite loop computes `Validate` |
| DocumentProcessor.Failure | app/services/unified_document_processor.py:294-307 | a failure has no patient, method "error", confidence 0 and the reason in its message |
| DocumentProcessor.AfterValidation | app/services/unified_document_processor.py:220-232 | after validation the corrected dict is used and the confidence is the larger of the corrected score and the original |
| DocumentProcessor.QualityOf | app/services/unified_document_processor.py:240-241 | with no summary, the quality is the current confidence |
| DocumentProcessor.Enhance | app/services/unified_document_processor.py:243-272 | enhancement never lowers the confidence and changes the stage only to a text- or vision-enhanced one |
| DocumentProcessor.ExtractionFailure | app/services/unified_document_processor.py:199-307 | when extraction fails, processing reports failure and calls no model |
| DocumentProcessor.NoAiMeansOcrOnly | app/services/unified_document_processor.py:197-218 | without AI, the result is the pattern extraction with method "ocr_<backend>" and its rubric score |
| DocumentProcessor.DisabledProcessorNeverCallsModel | app/services/unified_document_processor.py:197-220 | a processor built with AI disabled never calls the model, whatever `use_ai` says |
| DocumentProcessor.MethodNames | app/services/unified_document_processor.py:216-266 | a success reports one of the four method names |
| DocumentProcessor.ProcessEscalates | app/services/unified_document_processor.py:214-272 | once extraction succeeds on an escalating call, the result is the escalation of the pattern stage (pattern info, method "ocr_<backend>", rubric score) |
| DocumentProcessor.ConfidenceNeverDrops | app/services/unified_document_processor.py:215-272 | the reported confidence is at least the pattern score and the final dict's score, and at most 1.0 |
| DocumentProcessor.EnhanceGate | app/services/unified_document_processor.py:243-272 | text analysis runs iff quality < 0.7 and is adopted iff it scores strictly higher; vision runs iff quality < 0.6 and text was not adopted |
| DocumentProcessor.EscalationGate | app/services/unified_document_processor.py:220-272 | the gate over the whole process: validation first, then the two thresholds as above, and the method name that follows |
| DocumentProcessor.QualityNotNumberFails | app/services/unified_document_processor.py:240-300 | a non-numeric quality score makes the comparison raise, and processing reports failure |
| DocumentProcessor.ReportedConfidenceCanExceedRubric | app/services/unified_document_processor.py:227-231 | a correction that loses the surname bonus still reports the higher original confidence |
| DocumentProcessor.TryEnhancement | app/services/unified_document_processor.py:239-272 | the step-by-step reassignments compute `Enhance` |
| DocumentProcessor.ValidateAndEnhance | app/services/unified_document_processor.py:214-292 | validation followed by enhancement computes `Escalate` |
| DocumentProcessor.ProcessDocument | app/services/unified_document_processor.py:187-307 | the method computes `Process` |
| RateLimiter.ResetIdempotent | app/services/llm_rate_limiter.py:59-65 | resetting twice at the same instant is resetting once |
| RateLimiter.ResetBoundary | app/services/llm_rate_limiter.py:59-65 | at exactly the window's length nothing resets; one microsecond later both counts are 0 and `last_reset` is now |
| RateLimiter.UnlimitedModelAlwaysAdmitted | app/services/llm_rate_limiter.py:67-138 | a model without limits is admitted and both trackers are still charged |
| RateLimiter.AdmissionRule | app/services/llm_rate_limiter.py:75-92 | admitted iff requests are below the limit and tokens plus the estimate are within it, in both windows |
| RateLimiter.MinuteChecksFirst | app/services/llm_rate_limiter.py:75-82 | a full minute window denies with the minute message before the daily tracker is touched |
| RateLimiter.AdmittedCharges | app/services/llm_rate_limiter.py:121-138 | admission adds one request and the estimate to both windows and changes no other model |
| RateLimiter.DeniedOnlyResets | app/services/llm_rate_limiter.py:121-138 | a denial changes nothing beyond window resets |
| RateLimiter.RecordAdjustsTokens | app/services/llm_rate_limiter.py:140-160 | recording adds actual minus estimated tokens to both windows and never changes request counts |
| RateLimiter.ReserveThenRecordNetsActual | app/services/llm_rate_limiter.py:121-160 | acquire then record nets one request and the actual tokens |
| RateLimiter.TouchWithinLimits | app/services/llm_rate_limiter.py:49-65 | fetching or resetting a tracker never takes counts above the limits |
| RateLimiter.AcquireKeepsWithinLimits | app/services/llm_rate_limiter.py:78-136 | with only `acquire` charging, counts stay within the limits |
| RateLimiter.EstimateTokens | app/services/llm_rate_limiter.py:252-257 | the estimate is len/4 rounded down, plus 100 |
| RateLimiter.EstimateMonotone | app/services/llm_rate_limiter.py:252-257 | longer text never gets a smaller estimate |
| RateLimiter.FailedCallRefundsTokens | app/services/llm_rate_limiter.py:244-250 | a call that raises is re-raised with its tokens refunded and its request still counted |
| RateLimiter.RefusedCallNotMade | app/services/llm_rate_limiter.py:231-237 | a denied call returns None without calling the function |
| RateLimiter.LLMRateLimiter.constructor | app/services/llm_rate_limiter.py:37-47 | starts with the given limits and no trackers |
| RateLimiter.LLMRateLimiter.GetTracker | app/services/llm_rate_limiter.py:49-57 | creates a missing tracker lazily and stores it |
| RateLimiter.LLMRateLimiter.TouchTracker | app/services/llm_rate_limiter.py:59-65 | fetches and resets a tracker in place |
| RateLimiter.LLMRateLimiter.CanMakeRequestNow | app/services/llm_rate_limiter.py:67-94 | computes `CanMakeRequest` on the live trackers |
| RateLimiter.LLMRateLimiter.AcquireNow | app/services/llm_rate_limiter.py:110-138 | computes `Acquire` on the live trackers |
| RateLimiter.LLMRateLimiter.RecordActualUsageNow | app/services/llm_rate_limiter.py:140-160 | computes `RecordActualUsage` on the live trackers |
| RateLimiter.RateLimitedLlmCall | app/services/llm_rate_limiter.py:217-250 | computes `RateLimitedCall` on the live limiter |
| Cache.EffectiveTtl | app/services/cache_service.py:45-47 | a truthy TTL is used; None or 0 falls back to the default |
| Cache.Unexpired | app/services/cache_service.py:70-79 | cleanup keeps exactly the unexpired entries, unchanged |
| Cache.GetMissing | app/services/cache_service.py:29-33 | an absent key gives None and changes nothing |
| Cache.GetExpiredDrops | app/services/cache_service.py:34-37 | an expired entry is deleted and gives None; other keys are unchanged |
| Cache.SetThenGet | app/services/cache_service.py:29-53 | a value set is returned until its expiry, and the read refreshes `last_accessed` |
| Cache.SetThenExpire | app/services/cache_service.py:23-37 | one microsecond past expiry the entry is gone |
| Cache.SetOverwrites | app/services/cache_service.py:43-53 | a second set of the same key wins |
| Cache.SetSmallKeepsOthers | app/services/cache_service.py:55-57 | at most 1000 entries, a set leaves other keys alone |
| Cache.SetLargeCleansUp | app/services/cache_service.py:55-79 | above 1000 entries, a set removes exactly the expired other entries |
| Cache.SecondCallHitsCache | app/services/cache_service.py:186-201 | a second cached call within the TTL returns the first result without calling the function |
| Cache.CachedNoneIsAMiss | app/services/cache_service.py:186-201 | a stored None is a miss, so the function is called again |
| Cache.InMemoryCache.constructor | app/services/cache_service.py:19-21 | an empty cache with the given default TTL |
| Cache.InMemoryCache.GetNow | app/services/cache_service.py:29-41 | computes `Get` on the live entries |
| Cache.InMemoryCache.SetNow | app/services/cache_service.py:43-57 | computes `Set` on the live entries |
| Cache.InMemoryCache.Delete | app/services/cache_service.py:59-64 | returns true iff the key was present, and afterwards only that key is gone |
| Cache.InMemoryCache.Clear | app/services/cache_service.py:66-68 | empties the cache |
| Cache.InMemoryCache.CleanupExpired | app/services/cache_service.py:70-79 | the deletion loop leaves exactly the unexpired entries |
| Cache.CachedResult | app/services/cache_service.py:186-201 | computes `CachedCall` on the live cache |
| Schema.Bounds | app/schemas/user.py:12 | a length inside the field's bounds passes; otherwise the bound broken is reported |
| Schema.BeforeFinalNewline | app/schemas/user.py:22 | the text `$` sees is the value or the value without one final newline |
| Schema.PlusToEndWithoutNewline | app/schemas/user.py:22 | `^[class]+$`, with a class excluding newline, accepts a non-empty run optionally followed by one newline |
| Schema.PlusToEndWithNewline | app/schemas/user.py:38 | with a class including newline, the pattern accepts exactly the non-empty strings of the class |
| UserSchemas.UsernameAccepted | app/schemas/user.py:12-24 | accepted iff 3-50 characters with a non-empty run of letters, digits, '_' or '-' (a final newline allowed); the stored value is lower-cased and valid again |
| UserSchemas.LowerKeepsPattern | app/schemas/user.py:20-24 | lower-casing keeps the username pattern |
| UserSchemas.UsernameWithTrailingNewline | app/schemas/user.py:22 | "ab\n" passes and is stored with its newline |
| UserSchemas.UsernameWholeAccepted | app/schemas/user.py:20-24 | the whole-string check stores no newline and agrees with the source on every value not ending in a newline |
| UserSchemas.PhoneAccepted | app/schemas/user.py:26-34 | None passes; a phone passes iff at most 20 characters with 10-15 digits, and it is stored unchanged |
| UserSchemas.NormalisedName | app/schemas/user.py:36-40 | stripping and title-casing keeps the name characters and leaves no outer space |
| UserSchemas.NameAccepted | app/schemas/user.py:14-40 | accepted iff 1-50 characters of letters, spaces, apostrophes and hyphens; stored stripped and title-cased, and valid again when non-empty |
| UserSchemas.BlankNameStoredEmpty | app/schemas/user.py:38-40 | "   " passes and is stored as "" |
| UserSchemas.NameNonBlankAccepted | app/schemas/user.py:36-40 | the corrected check also refuses blank names and so never stores an empty name |
| UserSchemas.ValidateOptionalName | app/schemas/user.py:99-105 | an omitted update name passes; a sent one follows the create rules |
| UserSchemas.PasswordAccepted | app/schemas/user.py:44-63 | accepted iff strong, stored unchanged; each missing requirement gives its own message, in the source's order |
| UserSchemas.ShortPasswordRefused | tests/test_auth.py:107-128 | "short" is refused for length |
| UserSchemas.NoUppercaseRefused | tests/test_auth.py:107-128 | "nouppercase123!" is refused for the missing capital |
| UserSchemas.NoLowercaseRefused | tests/test_auth.py:107-128 | "NOLOWERCASE123!" is refused for the missing lower-case letter |
| UserSchemas.NoDigitRefused | tests/test_auth.py:107-128 | "NoNumbers!" is refused for the missing digit |
| UserSchemas.NoSpecialRefused | tests/test_auth.py:107-128 | "NoSpecial123" is refused for the missing special character |
| UserSchemas.ConfirmationRule | app/schemas/user.py:65-69 | the confirmation is refused iff the password passed and differs; so an accepted strong password matches its confirmation |
| UserSchemas.MismatchRefused | tests/test_auth.py:130-142 | a different confirmation is refused with the mismatch message |
| UserSchemas.RoleAccepted | app/schemas/user.py:71-76 | an accepted role is one of the three; an omitted role is "user" |
| UserSchemas.LoginNormalised | app/schemas/user.py:83-88 | refused iff blank; stored stripped and lower-cased, and valid again |
| OrderSchemas.DobAccepted | app/schemas/order.py:21-36 | None passes; a date passes iff it matches one of the three shapes, and is stored unchanged |
| OrderSchemas.OutOfRangeDatePasses | app/schemas/order.py:27-34 | "13/45/1990" passes: the check counts digits only (the date test of tests/test_orders.py:218-240 expects a refusal) |
| OrderSchemas.FutureIsoDatePasses | app/schemas/order.py:27-34 | "2025-01-01" passes: there is no check against today (the same test expects a refusal) |
| OrderSchemas.WordDateRefused | app/schemas/order.py:27-36 | "invalid-date" is refused |
| OrderSchemas.DobDate | app/schemas/order.py:27-31 | a value has numbers iff it has one of the three shapes |
| OrderSchemas.DobCheckedRefinesShape | app/schemas/order.py:22-36 | the corrected check refuses whatever the shape check refuses, with the same message, and of the shaped values refuses exactly those out of range or after today |
| OrderSchemas.SlashDate | app/schemas/order.py:29-30 | a slash date reads as month, day, year |
| OrderSchemas.IsoDate | app/schemas/order.py:28 | an ISO date reads as year, month, day |
| OrderSchemas.CheckedRefusesOutOfRange | tests/test_orders.py:218-240 | the corrected check refuses "13/45/1990" |
| OrderSchemas.CheckedRefusesFuture | tests/test_orders.py:218-240 | before 2025, the corrected check refuses "2025-01-01" |
| OrderSchemas.CheckedAcceptsIso | tests/test_orders.py:218-240 | the corrected check keeps "1980-01-15" |
| OrderSchemas.CheckedAcceptsTwoDigitSlash | tests/test_orders.py:218-240 | the corrected check keeps "12/25/1990" |
| OrderSchemas.CheckedAcceptsOneDigitSlash | tests/test_orders.py:218-240 | the corrected check keeps "1/1/2000" |
| OrderSchemas.StatusAccepted | app/schemas/order.py:38-43 | an accepted status is one of the six; an omitted status is "pending"; on update None passes and the same list applies |
| OrderSchemas.MaxLength | app/schemas/order.py:13-14 | an optional string passes iff absent or within its maximum |
| OrderSchemas.NonNegative | app/schemas/order.py:18 | an amount passes iff absent or at least 0 |
| OrderSchemas.OrderCreateAccepted | app/schemas/order.py:10-47 | a create body is accepted iff every field check passes, and the parsed order holds the values sent |
| OrderSchemas.InvalidOrdersRefused | tests/test_orders.py:189-213 | an invalid status and a negative amount are each refused on their own field |
| OrderSchemas.OptionalBounds | app/schemas/order.py:50-57 | an optional update string passes iff absent or within its bounds |
| OrderSchemas.OrderUpdateAccepted | app/schemas/order.py:49-83 | an update body is accepted iff every sent field passes, and it is kept as sent |
| Paging.PageSlice | app/services/user_service.py:315-316 | OFFSET/LIMIT: at most `limit` rows, taken in order from the offset |
| Paging.NewestFirst | app/services/user_service.py:316 | `created_at desc` reverses insertion order |
| Paging.PageCount | app/routers/orders.py:87 | the ceiling: the pages cover the total, with no spare page |
| Paging.PagesTile | app/routers/orders.py:83-84 | consecutive pages tile the listing |
| Paging.PageNonEmptyIffCounted | app/routers/orders.py:83-87 | a page has rows iff its number is at most the page count |
| Paging.ItemOnItsPage | app/routers/orders.py:83-84 | every row appears on page `j / page_size + 1` |
| Rows.FirstWhere | app/services/user_service.py:152 | `.first()` finds the earliest matching row, or reports that none matches |
| Rows.Filter | app/services/user_service.py:303-309 | the filtered rows are exactly the matching rows |
| Rows.PageOfMatches | app/services/user_service.py:312-316 | a page holds at most `page_size` matching rows |
| Rows.FirstPageHoldsAll | app/services/user_service.py:312-316 | when all matches fit, the first page holds them all |
| UserService.GetUserById | app/services/user_service.py:122-129 | the user found has the id; None iff no row has it |
| UserService.GetUserByUsername | app/services/user_service.py:131-138 | lookup by lower-cased username; None iff no row has it |
| UserService.GetUserByEmail | app/services/user_service.py:140-147 | lookup by lower-cased email; None iff no row has it |
| UserService.CreateRules | app/services/user_service.py:31-66 | refused iff the lower-cased username or email is held; a clash on the username alone is "Username already registered", on the email alone "Email already registered"; a new user has the lower-cased username and email, the given role and hash, is active and unverified, and has never logged in |
| UserService.CreateKeepsInvariant | app/services/user_service.py:54-66 | a created row has the largest id, and the table keeps unique ids, usernames and emails |
| UserService.AuthenticateKeepsInvariant | app/services/user_service.py:108-112 | a login changes only `last_login`, so ids, usernames and addresses stay unique |
| UserService.AuthenticateRules | app/services/user_service.py:86-114 | an unknown login or a wrong password gives None and changes nothing; an inactive account is refused before its password is checked; success sets only `last_login` |
| UserService.ApplyPatchInTurn | app/services/user_service.py:171-177 | the setattr loop over the sent fields is the field-by-field patch |
| UserService.NoNullsRequired | app/services/user_service.py:171-180 | when no NOT NULL column is sent `null`, sent names and email carry values |
| UserService.PatchWritesSentFields | app/services/user_service.py:171-177 | exactly the fields sent are written, and the email is lower-cased |
| UserService.UpdateRules | app/services/user_service.py:152-191 | a missing id is 404; an email held by another user is 400; otherwise only the sent fields and `updated_at` change |
| UserService.UpdateKeepsInvariant | app/services/user_service.py:152-191 | an update keeps ids, usernames and emails unique |
| UserService.ChangePasswordRules | app/services/user_service.py:196-216 | a missing id is 404; a wrong current password changes nothing; otherwise only the hash and `updated_at` change |
| UserService.NewPasswordChecks | app/services/user_service.py:196-216 | after a successful change, a password that checks against the new hash checks against the row the change wrote |
| UserService.SetFlagRules | app/services/user_service.py:228-298 | a missing id is 404; otherwise exactly the one flag and `updated_at` of that row change; a deactivated account can no longer log in |
| UserService.PaginateRules | app/services/user_service.py:300-318 | a page holds at most `page_size` users passing the filters; the total counts all of them |
| UserService.SearchRules | app/services/user_service.py:324-346 | every user found contains the lower-cased term; the total is the number of all hits; a first page that fits holds every hit |
| UserService.ApplySetItems | app/services/user_service.py:171-177 | the setattr loop computes the patched row and whether a required column got `null` |
| UserService.UserService.constructor | app/services/user_service.py:23-25 | wraps a table satisfying the invariant |
| UserService.UserService.CreateUser | app/services/user_service.py:27-80 | computes `Create`, appends the new row on success, keeps the invariant |
| UserService.UserService.AuthenticateUser | app/services/user_service.py:82-120 | computes `Authenticate` on the live table and keeps the table invariant |
| UserService.UserService.UpdateUser | app/services/user_service.py:149-191 | computes `Update` on the live table and keeps the invariant |
| UserService.UserService.ChangeUserPassword | app/services/user_service.py:193-226 | computes `ChangePassword` on the live table and keeps the invariant |
| UserService.UserService.DeactivateUser | app/services/user_service.py:228-250 | clears `is_active` of the row, 404 for a missing id |
| UserService.UserService.ActivateUser | app/services/user_service.py:252-274 | sets `is_active` of the row, 404 for a missing id |
| UserService.UserService.VerifyUserEmail | app/services/user_service.py:276-298 | sets `is_verified` of the row, 404 for a missing id |
| UserService.UserService.SetAccountFlag | app/services/user_service.py:228-298 | the shared flag update, computing `SetFlag` |
| OrdersRouter.CreateRules | app/routers/orders.py:35-49 | a held number is refused with 400 and nothing changes; otherwise the order is appended with the values sent (a `null` status takes the column default "pending") and the largest id, and numbers stay unique |
| OrdersRouter.ListRules | app/routers/orders.py:69-95 | a page holds at most `page_size` orders passing the filters; the total counts them; `total_pages` is the ceiling |
| OrdersRouter.Get | app/routers/orders.py:111-115 | the order found has the id; 404 iff none has it |
| OrdersRouter.ApplyPatchInTurn | app/routers/orders.py:152-154 | the setattr loop over the sent fields is the field-by-field patch |
| OrdersRouter.NoNullsRequired | app/routers/orders.py:152-156 | when no NOT NULL column is sent `null`, a sent number, type or status carries a value |
| OrdersRouter.PatchWritesSentFields | app/routers/orders.py:152-154 | exactly the fields sent are written |
| OrdersRouter.UpdateRules | app/routers/orders.py:135-160 | a missing id is 404; a refusal changes nothing; 400 only for a changed number held by another order; otherwise only the sent fields change |
| OrdersRouter.ChangedToHeldNumberRefused | app/routers/orders.py:140-149 | changing the number to one held by another order is refused and changes nothing |
| OrdersRouter.UpdateKeepsInvariant | app/routers/orders.py:135-160 | an update keeps ids ascending and numbers unique |
| OrdersRouter.RemovedRow | app/routers/orders.py:183-184 | removing a row leaves exactly the orders with other ids |
| OrdersRouter.RemovedRowKeepsInvariant | app/routers/orders.py:183-184 | removing a row keeps ids ascending and numbers unique |
| OrdersRouter.DeleteRules | app/routers/orders.py:179-187 | a missing id is 404 and changes nothing; otherwise exactly that order is removed |
| OrdersRouter.SearchRules | app/routers/orders.py:206-221 | 400 iff neither name is truthy; otherwise the hits are exactly the orders matching each name given, and the count is their number |
| OrdersRouter.ApplyOrderItems | app/routers/orders.py:152-154 | the setattr loop computes the patched row and whether a required column got `null` |
| OrdersRouter.OrderTable.constructor | app/routers/orders.py:26-30 | wraps a table satisfying the invariant |
| OrdersRouter.OrderTable.CreateOrder | app/routers/orders.py:26-55 | computes `Create` on the live table and keeps the invariant |
| OrdersRouter.OrderTable.UpdateOrder | app/routers/orders.py:125-166 | computes `Update` on the live table and keeps the invariant |
| OrdersRouter.OrderTable.DeleteOrder | app/routers/orders.py:170-193 | computes `Delete` on the live table and keeps the invariant |
| AuthHandler.Get | app/auth/auth_handler.py:73-78 | `dict.get` returns a stored value, including `null`, and the default only for a missing key |
| AuthHandler.CreateAccessToken | app/auth/auth_handler.py:36-46 | the token is the data plus `exp` = now + lifetime; no other key changes |
| AuthHandler.LifetimeRules | app/auth/auth_handler.py:38-42 | a truthy delta is the lifetime; otherwise 30 minutes |
| AuthHandler.GetCurrentUser | app/auth/auth_handler.py:62-80 | 401 iff the token is rejected or has no `sub`; otherwise the four claims, with role defaulting to "user" |
| AuthHandler.CheckRole | app/auth/auth_handler.py:89-96 | passes iff the role, "user" when absent, is allowed; otherwise 403 |
| AuthHandler.RoleCheckers | app/auth/auth_handler.py:99-101 | admin passes all three checkers; a user only `user_required`; a healthcare worker is refused by `user_required` and `admin_required` |
| AuthHandler.MissingRoleIsUser | app/auth/auth_handler.py:75-96 | a token without a role passes `user_required` and is refused by `admin_required`; a token whose role is `null` is refused by `user_required` |
| AuthHandler.NoSubjectIsUnauthorized | app/auth/auth_handler.py:67-72 | no subject, or a rejected token, is 401 before roles are looked at |
| AuthRouter.SignupRules | app/routers/auth.py:29-61 | sign-up is 400 iff the username or email is held, and then creates nothing; otherwise the new active account is appended |
| AuthRouter.LoginTokenReadsBack | app/routers/auth.py:96-121 | the token expires exactly `expires_in` (1800) seconds after login; read back, it yields the user's id, username and role |
| AuthRouter.LoginTokenClaims | app/routers/auth.py:97-106 | the login token carries `sub` as the decimal string of the user id, and the user's username and role |
| AuthRouter.LoginRules | app/routers/auth.py:65-132 | failures are 401 and change nothing; every failure but a deactivated account is "Invalid username/email or password", and an unknown login gets it; a success is a bearer token expiring in 1800 s for an active account holding the login whose password verified, and only its `last_login` changes |
| AuthRouter.ByIdAt | app/services/user_service.py:122-129 | in a table with ascending ids, looking a row's id up finds that row |
| AuthRouter.Me | app/routers/auth.py:136-161 | an unreadable id is 500; 404 iff no user has the id; otherwise that user |
| AuthRouter.MeAfterLogin | app/routers/auth.py:96-152 | `/me` with a fresh login token returns the account that logged in |
| AuthRouter.OwnAccountOnly | app/routers/auth.py:165-227 | profile and password changes touch only the token's account, and a refusal changes nothing |
| AuthRouter.ClampPage | app/routers/auth.py:269-270 | page < 1 becomes 1; others are kept |
| AuthRouter.ClampPageSize | app/routers/auth.py:271-272 | a size outside 1-100 becomes 10; others are kept |
| AuthRouter.ListUsersRules | app/routers/auth.py:258-285 | paging is clamped, never refused; a page holds only filtered users; `total_pages` is the ceiling |
| AuthRouter.SearchUsersRules | app/routers/auth.py:308-330 | 400 iff the stripped term is shorter than 2; hits contain the stripped, lower-cased term |
| AuthRouter.DeactivationRules | app/routers/auth.py:343-408 | an admin cannot deactivate their own id (400); a missing id is 404; otherwise only that account is switched off; activation has no self check |
| DocumentsRouter.UploadGate | app/routers/documents.py:39-59 | passes iff the lower-cased name ends in ".pdf" and 0 < size <= 10 MiB; each refusal, in that order of checks, is its own 400 |
| DocumentsRouter.GateExamples | app/routers/documents.py:39-53 | "scan.PDF" passes at exactly 10 MiB and not one byte more; "scan.pdf.txt" is refused |
| DocumentsRouter.DocumentOrderNumberShape | app/routers/documents.py:77 | the generated number is "DOC-" followed by eight upper-case hex digits |
| DocumentsRouter.UploadAnswerIgnoresOrders | app/routers/documents.py:97-108 | the upload answer does not depend on the order table, so a failed insert never fails the upload |
| DocumentsRouter.UploadRules | app/routers/documents.py:62-108 | an order is added iff asked for, processing found a patient and the number is free; it holds the patient, the order type or "Document Processing", and "pending" |
| DocumentsRouter.UploadDocument | app/routers/documents.py:27-117 | computes `Upload` on the live order table and keeps its invariant |
| DocumentsRouter.UploadAgreesWithProcessOnly | app/routers/documents.py:119-166 | upload and process-only refuse the same files and report the same outcome |
| DocumentsRouter.ValidateData | app/routers/documents.py:168-240 | gate refusals pass through; an extraction failure is 500 naming its reason; 503 iff the model call failed; an undecodable reply leaves the data unchanged |
| ErrorHandler.ClientIp | app/utils/error_handler.py:29-37 | the first x-forwarded-for hop, stripped; else x-real-ip; else the client host |
| ErrorHandler.FirstForwardedHop | app/utils/error_handler.py:32-33 | the hop is the text before the first comma and contains no comma |
| ErrorHandler.MessagesHideInternals | app/utils/error_handler.py:95-128 | fixed messages per kind; HTTP and processing errors pass their own text; an HTTP code is "HTTP_" and the status |
| ErrorHandler.CreateErrorResponse | app/utils/error_handler.py:58-92 | the body carries the friendly message and the given or derived code; details iff asked for, where an HTTP error's text is "<status>: <detail>" and a `ValueError` subclass keeps its class name |
| ErrorHandler.HandlingRules | app/utils/error_handler.py:190-213 | HTTP errors are re-raised; value errors 400, file and permission errors 403, the rest 500 |
| ErrorHandler.DatabaseManager.constructor | app/utils/error_handler.py:151-153 | no session yet |
| ErrorHandler.DatabaseManager.Enter | app/utils/error_handler.py:155-160 | a failing session factory raises a database error naming the reason |
| ErrorHandler.DatabaseManager.Exit | app/utils/error_handler.py:162-174 | appends exactly `ExitActions`: commit iff no exception, else rollback; a failing step rolls back and raises; the session is always closed |
| ErrorHandler.DatabaseManager.SafeExecute | app/utils/error_handler.py:176-188 | database failures roll back and are re-raised as database errors |
| ErrorHandler.SessionLifecycle | app/utils/error_handler.py:162-174 | close is always the last action and happens once; commit iff no exception |
| ErrorHandler.IntegrityMessages | app/utils/error_handler.py:180-185 | a UNIQUE failure is "A record with this information already exists"; any other integrity failure is the generic message |

## Left out

- Image preprocessing (OpenCV) and the page-to-image conversion: these are numeric library calls. OCR output is an input.
- pdfplumber, PyPDF2, tesseract and the language-model calls: their outputs are inputs (`BackendRun`, `OcrRun`, `LlmReply`). The greedy JSON extraction and `json.loads` are a decoded reply or `Unparseable`.
- ValidationEngine and DocumentProcessor: the names and corrected values in a language-model reply are strings or absent. A non-string JSON value, such as a number for `last_name`, is not modelled. In the source such a value raises AttributeError at the `.lower()` of unified_document_processor.py:699, and the document then fails through the outer `except`; `PatientInfo(**…)` in the documents router would refuse it too.
- The regular-expression engine of the name and date patterns: the matches are given in pattern order. Only what the code does with them is modelled.
- Floating point: confidence is in integer tenths. Model-supplied scores are exact reals compared with 0.7 and 0.6.
- The processing time, timestamps and `datetime.now`: time is a `now` parameter in microseconds.
- The asyncio lock of the quota limiter: its critical sections run one at a time.
- `_record_usage` in the quota limiter: it is never called and writes an attribute the tracker does not have.
- `get_usage_stats`: reporting only.
- `DocumentProcessingCache`: disk files, pickling and SHA-256 keys.
- bcrypt hashing and JWT signing and decoding: these are the `verify` parameter, the hash string and the `decoded` payload. A rejected or expired token is `None`.
- SQLAlchemy sessions: a table is a sequence of rows. LIKE wildcards in search terms are matched literally, and `created_at` ties are not modelled.
- The activity log: `log_activity` catches every exception itself, so it never changes an endpoint's answer. For the same reason logout always answers "Successfully logged out", and its "Logged out" fallback cannot be reached.
- Database failures of the user list and search ("Failed to retrieve users", "Search failed") and of order listing: the reads are modelled as never failing.
- Response re-validation through `UserResponse.from_orm`: not modelled.
- EmailStr address syntax: not modelled.
- Pydantic's own error text: rejections are named by kind.
- Non-ASCII letters, digits and spaces: character classes are ASCII.
- The per-minute request limits on routes (slowapi): not modelled.
- Authentication dependencies on routes other than the role checks: not modelled.
- `main.py`: app wiring, CORS and the global handler.
- The supported-formats endpoint: it returns a constant.
- Upload failures outside processing: `process_document` catches its own errors, and the endpoint's generic 500 is not modelled.
- DocumentsRouter.DocumentOrderNumberShape: the eight hex digits of `uuid4()` are a parameter, so the lemma assumes they are lower-case hex.

## Findings

| source | as written | input that shows it | evidently intended | confidence | as-written member | corrected member |
|---|---|---|---|---|---|---|
| app/schemas/user.py:22 | `re.match(r'^[a-zA-Z0-9_-]+$', v)` lets `$` match before a final newline | username "ab\n" is accepted and stored as "ab\n" | usernames of letters, digits, '_' and '-' only | not executed | UserSchemas.UsernameWithTrailingNewline | UserSchemas.UsernameWholeAccepted |
| app/schemas/order.py:27-34 | the date check looks at digit counts and separators only | "13/45/1990" is accepted and stored | a real month (1-12) and day (1-31), as tests/test_orders.py:218-240 expects | not executed | OrderSchemas.OutOfRangeDatePasses | OrderSchemas.CheckedRefusesOutOfRange |
| app/schemas/order.py:27-34 | there is no comparison with today | "2025-01-01" is accepted as a date of birth when the test was written (before 2025) | no date of birth after today, as tests/test_orders.py:218-240 expects | not executed | OrderSchemas.FutureIsoDatePasses | OrderSchemas.CheckedRefusesFuture |
| app/schemas/user.py:38-40 | the name pattern admits whitespace-only names, and the value is then stripped | first name "   " passes `min_length=1` and is stored as "", which a later `UserResponse` of that row refuses | non-blank names | not executed | UserSchemas.BlankNameStoredEmpty | UserSchemas.NameNonBlankAccepted |
