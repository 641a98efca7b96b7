# Resume processing API — a Dafny model

The service accepts an uploaded resume (PDF or DOCX), stores the file in a
storage bucket, records a metadata row, extracts the text, asks a language
model to structure it into a fixed record schema, and stores the record in a
document collection keyed by the metadata row's id. It also lists and fetches
stored records and answers questions about a candidate through the same model.

This project models the two pieces of that pipeline that have behaviour of
their own:

- **Record normalisation** (`app/processing.py`). The model's reply is an input:
  either the transport failed, or it returned a string that `json.loads` turns
  into an object, some other JSON value, or a decode error. `Processing.Processed`
  says what `process_resume_text` returns or raises in each case, and
  `Processing.ProcessResumeText` performs the source's in-place `setdefault`
  sequence and is proved to compute it. The PDF extractor is a loop that appends
  page texts (`Processing.ExtractTextFromPdf`). The DOCX extractor is a
  newline join (`Processing.ExtractTextFromDocx`).
- **Request handling** (`app/main.py`). A `Api.Backend` object holds the three
  external stores as fields: `blobs` is the storage bucket, `rows` the
  `resume_metadata` table with its id counter `nextId`, and `docs` the
  `candidates` collection. Each handler is a method whose external calls are
  given as success/failure inputs. `UploadResume` states which writes stay
  behind after each failure point (nothing is rolled back) and that its reply
  is the pure `Api.UploadReply`, whose stage-by-stage behaviour is proved in
  separate lemmas. The part of the handler after the metadata insert is the
  method `ExtractAndStore`, which can only change the collection.

Supporting modules: `JsonValue` covers decoded JSON values, Python truthiness
and type names. `PyText` covers `str.strip()`, `'\n'.join` with its inverse
`split`, concatenation, and `str(n)` with its inverse.

Error outcomes are values. `Processing.Result` is `Ok(record)` or
`Err(exception)`. `Api.Reply` is `Done(value)`, `Raised(status, detail)` for
an `HTTPException`, or `Crashed(exception)` for an exception no handler
catches; the framework answers that last case with a 500.

## Model

Several helpers model the Python or MongoDB operations these members use and have no row of their own: `PyText.IsSpace` is `str.isspace()`, `PyText.Join` is `'\n'.join` (app/processing.py:23), `PyText.Concat` is the `+=` accumulation (app/processing.py:11-13), `JsonValue.Get` is `dict.get` (app/main.py:79, 111), and `Api.Matches` is the filter `{"candidate_id": candidate_id}` (app/main.py:100, 116).

| member | source | states |
|---|---|---|
| `JsonValue.Truthy` | app/main.py:111-113 | Python's truth value of the question: None is false, a bool is itself, a number is true exactly when non-zero; `FalsyValues` lists every false value |
| `JsonValue.FalsyValues` | app/main.py:111-113 | `if not question` rejects exactly null, false, 0, "", [] and {}; every other JSON value passes |
| `PyText.Strip` | app/processing.py:61 | `.strip()` never lengthens the text; its full characterisation is `StripIsTrimmedInfix` |
| `PyText.StripIsTrimmedInfix` | app/processing.py:61 | `.strip()` returns the infix of the reply left after removing whitespace at both ends: it neither starts nor ends with whitespace, and everything removed is whitespace |
| `PyText.StripIdempotent` | app/main.py:138 | stripping an already stripped answer changes nothing |
| `PyText.StripStart` | app/processing.py:61 | the leading-whitespace half of `.strip()`: the result is a suffix of the input, all dropped characters are whitespace, the first kept one is not |
| `PyText.StripEnd` | app/processing.py:61 | the trailing-whitespace half of `.strip()`: the result is a prefix, all dropped characters are whitespace, the last kept one is not |
| `PyText.JoinSplit` | app/processing.py:23 | splitting the joined text at newlines and joining again gives the text back |
| `PyText.SplitJoin` | app/processing.py:22-23 | splitting a newline join of one or more newline-free paragraphs gives back the paragraphs in order; with no paragraph the join is "", which splits into one empty part |
| `PyText.JoinEmpty` | app/processing.py:23 | a join is empty exactly when there is no paragraph or one empty paragraph |
| `PyText.ConcatAppend` | app/processing.py:11-13 | appending page texts one at a time concatenates them in page order |
| `PyText.ConcatEmpty` | app/processing.py:11-13 | the concatenation is empty exactly when every page text is empty |
| `PyText.NatToString` | app/main.py:66 | `str(id)` is a non-empty string of decimal digits without a leading zero |
| `PyText.ParseNatToString` | app/main.py:78 | reading the decimal string `str(id)` back gives the id |
| `PyText.NatToStringInjective` | app/main.py:66 | distinct ids give distinct `candidate_id` strings |
| `Processing.PdfText` | app/processing.py:8-17 | the text `extract_text_from_pdf` returns: "" when the document cannot be opened or any page cannot be read, and the page's own text for a one-page document |
| `Processing.ExtractTextFromPdf` | app/processing.py:8-17 | returns the page texts concatenated in page order, or "" when opening the document or reading any page fails |
| `Processing.PdfTextEmpty` | app/processing.py:8-17 | the PDF text is empty exactly when extraction failed or every page's text is empty |
| `Processing.ExtractTextFromDocx` | app/processing.py:19-26 | "" when the document cannot be opened; a single paragraph is returned as it is, and the text always starts with the first paragraph |
| `Processing.DocxParagraphsRecovered` | app/processing.py:19-26 | the DOCX text is the paragraphs in order separated by single newlines: when there is at least one paragraph and no paragraph contains a newline, splitting it at newlines recovers them. A line break inside a paragraph, which python-docx renders as a newline, breaks the round trip |
| `Processing.DocxTextEmpty` | app/processing.py:19-26 | the DOCX text is empty exactly when extraction failed, there is no paragraph, or one empty paragraph; two empty paragraphs give "\n", which is not empty |
| `Processing.Introduction` | app/processing.py:82 | `text[:250] + "..."` is the first min(250, len) characters of the text followed by "...", at most 253 long, and the whole text plus "..." when the text has at most 250 characters |
| `Processing.DegradedRecord` | app/processing.py:64-70 | the transport-failure record has exactly the seven keys, empty `{}`/`[]` values, empty hobbies and the local introduction |
| `Processing.Normalised` | app/processing.py:76-82 | keys the model returned for the five model fields keep their values, missing ones get `{}` or `[]`, hobbies is `[]`, introduction is the local one, and every other key keeps its value |
| `Processing.SetDefault` | app/processing.py:76-80 | `setdefault` adds the key with the default only when it is absent and changes no other key |
| `Processing.Processed` | app/processing.py:50-93 | a record is returned exactly when the transport fails or the stripped reply parses to an object, and every returned record has the full schema and the local introduction |
| `Processing.ProcessResumeText` | app/processing.py:29-93 | the in-place sequence of five `setdefault` calls and two assignments computes `Processed` on every reply |
| `Processing.NormaliseInPlace` | app/processing.py:76-84 | the success branch's in-place updates produce exactly `Normalised` |
| `Processing.TransportFailureDegrades` | app/processing.py:64-70 | a transport failure returns the degraded record, which has exactly seven keys |
| `Processing.IntroductionBounded` | app/processing.py:82 | every returned record's introduction is at most 253 characters and is a prefix of the text followed by "..." |
| `Processing.ModelHobbiesAndIntroductionIgnored` | app/processing.py:81-82 | whatever the model returned for hobbies and introduction has no effect on the record |
| `Processing.NormalisationNeverDeletes` | app/processing.py:74-84 | every key of the parsed object stays, and all but hobbies and introduction keep their values |
| `Processing.ObjectReplyNormalised` | app/processing.py:72-84 | a reply that parses to an object returns `Normalised` of that object, so every normalisation property holds of `process_resume_text`'s record |
| `Processing.NonObjectRaises` | app/processing.py:74-76 | a reply that parses to a list, number, string, boolean or null raises AttributeError naming its type, and nothing catches it |
| `Processing.InvalidJsonRaises` | app/processing.py:86-93 | a reply that is not valid JSON raises TypeError (unhashable dict): no degraded record is returned |
| `Processing.SkillsOnlyNormalised` | app/processing.py:76-82 | normalising `{"skills": ["Go", "Rust"]}` for the text "Skills: Go, Rust" gives the seven-key record with that list, empty defaults, empty hobbies and introduction "Skills: Go, Rust..." |
| `Processing.SkillsOnlyReply` | app/processing.py:72-84 | for the text "Skills: Go, Rust" and a reply holding only the skills list, the record is that list plus empty defaults, empty hobbies and introduction "Skills: Go, Rust..." |
| `Processing.InvalidJsonRecord` | app/processing.py:88-93 | the fallback record the code evidently means to build: full schema, the raw reply inside the education summary, a fixed experience summary, empty lists |
| `Processing.ProcessedIntended` | app/processing.py:86-93 | with the fallback fixed, every reply except a non-object JSON value yields a record of the full schema |
| `Api.AcceptedType` | app/main.py:28 | a file is accepted exactly when its content type is `application/pdf` or the DOCX media type |
| `Api.StatusCode` | app/main.py:24-143 | the framework's status for a handler's outcome: 200 for a returned value, the raised `HTTPException`'s own status, 500 for an uncaught exception |
| `Api.HttpExceptionText` | app/main.py:104-107 | `str(e)` of the caught 404 is the status digits, ": ", then the detail. This assumes Starlette's rendering of `HTTPException` |
| `Api.StoragePath` | app/main.py:33 | the storage path starts with "public/" and ends with "_" followed by the file name |
| `Api.StoragePathAfterPrefix` | app/main.py:33 | after "public/" the storage path is the timestamp's digits, "_", then the file name |
| `Api.DigitsHoldNoUnderscore` | app/main.py:33 | the timestamp's digits hold no "_", so the first "_" in the path ends the timestamp |
| `Api.StoragePathCollision` | app/main.py:33 | two uploads share a storage path exactly when they have the same timestamp second and the same file name |
| `Api.CandidateDocument` | app/main.py:65-68 | the stored document is the extracted record plus `candidate_id`; a `candidate_id` in the record overrides the generated one |
| `Api.FirstMatch` | app/main.py:99-102 | the lookup finds the first document whose `candidate_id` equals the requested id, or reports that none does |
| `Api.FindCandidate` | app/main.py:115-118 | a candidate is found exactly when some document has that `candidate_id`, and the one found is the first such document in collection order; a found document is non-empty, so `if not candidate` only fires when none is found |
| `Api.Listed` | app/main.py:85-91 | the listing projection keeps only `candidate_id`, `introduction` and `skills`, with their values |
| `Api.ExtractedText` | app/main.py:54-58 | the upload's text is "" when the parser for its type cannot open the file |
| `Api.ExtractedTextEmpty` | app/main.py:54-61 | the upload's text is empty (which, once the metadata row exists, makes the reply 400) exactly when the PDF cannot be opened, a page cannot be read or every page is blank, or, for a DOCX, when it cannot be opened, has no paragraph, or has one empty paragraph |
| `Api.UploadReply` | app/main.py:28-80 | the reply of `upload_resume`: a success carries the fixed message and `str(id)`, and an uncaught exception only happens once text was extracted |
| `Api.UploadReplyOutcome` | app/main.py:60-80 | the upload replies with a value exactly when the type is accepted and the storage upload, the metadata insert, text extraction, structuring and the document insert all succeed; the reply then carries `str(id)` and the record's `skills` |
| `Api.UploadReplyStatus` | app/main.py:28-62 | the status is always 200, 400 or 500, and it is 400 exactly for a rejected file type or, once the row exists, an empty extracted text |
| `Api.UploadReplyStages` | app/main.py:28-76 | the reply at each failure point: 400 invalid type, 500 "Supabase storage error: …", 500 "Supabase DB error: …", 400 no text, the processing exception uncaught, 500 "MongoDB insert error: …" |
| `Api.StoredRecordIsCandidateDocument` | app/main.py:65-68 | a record of the full schema stored with its `candidate_id` is a document of the collection's shape |
| `Api.AppendRowKeepsValid` | app/main.py:44-49 | a metadata row that takes the generated id, with the counter advanced, keeps ids increasing and below the counter |
| `Api.AppendDocumentKeepsValid` | app/main.py:65-71 | inserting a document built from a full-schema record keeps every document of the collection's shape |
| `Api.Backend.UploadResume` | app/main.py:24-80 | the reply is `UploadReply`; the blob is added exactly when the type is accepted and the storage upload succeeds, the row (with the counter's id) exactly when the metadata insert also succeeds, the document exactly when every stage succeeds; nothing is rolled back, and the store invariant is preserved |
| `Api.Backend.ExtractAndStore` | app/main.py:52-80 | once the row exists, only the collection changes: the document is appended exactly when text is extracted, structured and inserted, and the reply is `UploadReply` for that id |
| `Api.Backend.CandidateIdsDistinct` | app/main.py:44-49 | different metadata rows have different `candidate_id` strings, so uploading the same file twice gives two candidates |
| `Api.Backend.GetAllCandidates` | app/main.py:82-94 | lists every document, in order, projected to exactly the three listing fields; a failing query gives 500 |
| `Api.Backend.GetCandidate` | app/main.py:96-107 | returns the first matching document; a missing candidate's 404 is caught and re-raised as 500 "MongoDB error: 404: Candidate not found", so the status is never 404 |
| `Api.Backend.GetCandidateIntended` | app/main.py:103-104 | the corrected handler: a missing candidate gives 404 "Candidate not found" |
| `Api.Backend.AskQuestion` | app/main.py:109-143 | a falsy question gives 400 before any lookup; an unknown id gives 404 and the model is never called; a model failure gives 500; otherwise the reply holds the id, the question and the stripped answer; a failing lookup is not caught |

## Left out

- The contents of the prompts and the model transport (app/processing.py:31-59, app/main.py:122-136). The transport's reply is an input; the answer's dependence on the prompt and on `str(candidate_data)` is not modelled.
- `json.loads`, PyMuPDF and python-docx are foreign libraries. Their outcomes are inputs (`Api.Parsers`). Their failures are modelled as values (an unreadable PDF or page, an unreadable DOCX, a decode error). The only failures not modelled are `json.loads` exceptions other than `JSONDecodeError`, such as a RecursionError on deeply nested input.
- JSON numbers are integers. Floating-point values, whose Python type name is `float`, are not modelled.
- Dict key order is not modelled: records are maps. Python keeps insertion order, which only affects how the record is serialised.
- `time.time()` is the input `now`. `print` logging, FastAPI routing, request validation and response serialisation are I/O.
- Client construction and environment variables (app/services.py) are configuration. The stores are the fields of `Api.Backend`, and the model client is the `LlmReply` input.
- Supabase and MongoDB wire semantics beyond append, scan and lookup are out of scope. That covers the `data[1][0]['id']` unpacking, the id generator's behaviour on a failed insert, and whether the bucket refuses an existing path. It also covers Mongo's `_id` injection, array matching in `find_one` and cursor failures partway through a listing.
- `Api.Backend.UploadResume`: the bucket name "resumes" is not part of `Blob`; the model has one bucket. The file bytes and the content type are stored as given.
- `Api.FirstMatch`, `Api.FindCandidate` and `Api.Backend.GetAllCandidates` take MongoDB's natural order to be insertion order, which MongoDB does not guarantee. It only decides the answer when two documents share a `candidate_id`, which a record's own `candidate_id` key can cause.
- `Api.HttpExceptionText` assumes Starlette's `HTTPException.__str__` renders `f"{status_code}: {detail}"`, as current releases do. Older releases defined only `__repr__`, and with them the 500 detail of `get_candidate` would differ.
- `resume_metadata.id` is taken to be an integer identity column that counts up from 1, so `str(id)` is its decimal form (`Api.MetadataRow`, `PyText.NatToString`). The table's schema is not part of the code, which only unpacks `data[1][0]['id']`.
- The root endpoint `GET /` returns a constant message and is not modelled.

## Findings

| source | as written | input that shows it | evidently intended | confidence | as-written member | corrected member |
|---|---|---|---|---|---|---|
| app/processing.py:86-93 | the fallback's `{{"summary": ...}}` is outside an f-string, so it builds a set holding a dict and raises `TypeError: unhashable type: 'dict'` | any reply that `json.loads` rejects, e.g. the content `not json` | return the partially degraded record with the raw reply in `education.summary` | high (not executed) | `Processing.InvalidJsonRaises` | `Processing.ProcessedIntended` |
| app/main.py:98-107 | the 404 for a missing candidate is raised inside the `try` and caught by `except Exception`, becoming 500 "MongoDB error: 404: Candidate not found" | `GET /candidate/x` when no document has `candidate_id` "x" | respond 404 "Candidate not found" | high (not executed) | `Api.Backend.GetCandidate` | `Api.Backend.GetCandidateIntended` |

`Api.Backend.UploadResume` deliberately uses the as-written `Processing.Processed`. An upload whose model reply is not valid JSON therefore ends in an uncaught TypeError. That is a 500 after the blob and the metadata row have been written, and no document is inserted. `Processing.ProcessedIntended` is what the upload would store with the fallback fixed.
