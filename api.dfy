/**
 * app/main.py: the HTTP handlers. The three external stores are the fields
 * of a `Backend` object: the "resumes" storage bucket (a sequence of blobs),
 * the `resume_metadata` table (rows with generated ids) and the `candidates`
 * collection (a sequence of documents). Each external call's success or
 * failure, the clock and the document parsers are inputs.
 */
module Api {
  import opened Options
  import opened JsonValue
  import opened PyText
  import opened Processing

  type Bytes = seq<bv8>

  const PdfMime := "application/pdf"
  const DocxMime := "application/vnd.openxmlformats-officedocument.wordprocessingml.document"

  const CandidateIdKey := "candidate_id"
  const QuestionKey := "question"

  const InvalidTypeDetail := "Invalid file type. Please upload a .pdf or .docx"
  const NoTextDetail := "Could not extract text from file. File might be empty or corrupt."
  const UploadedMessage := "File uploaded and processed successfully"
  const NoQuestionDetail := "No 'question' field in request body."
  const NotFoundDetail := "Candidate not found"

  /** An uploaded file as FastAPI hands it over. */
  datatype UploadFile = UploadFile(filename: string, contentType: string, bytes: Bytes)

  /** The outcome of one call to an external service. */
  datatype Call = Succeeds | Fails(message: string)

  /** An object in the "resumes" bucket. */
  datatype Blob = Blob(path: string, bytes: Bytes, contentType: string)

  /** A row of the `resume_metadata` table. */
  datatype MetadataRow = MetadataRow(id: nat, fileName: string, storagePath: string)

  /**
   * How a handler ends: a value (status 200), an HTTPException it raises,
   * or an exception it does not catch (which the framework turns into 500).
   */
  datatype Reply<+T> = Done(value: T) | Raised(status: int, detail: string) | Crashed(error: PyError)

  /** The HTTP status the framework answers with: 200 for a value, the exception's own status, 500 for an uncaught exception. */
  function StatusCode<T>(r: Reply<T>): (code: int)
    ensures code == 200 <==> r.Done? || (r.Raised? && r.status == 200)
    ensures r.Raised? ==> code == r.status
    ensures r.Crashed? ==> code == 500
  {
    match r
    case Done(_) => 200
    case Raised(status, _) => status
    case Crashed(_) => 500
  }

  /** `str(HTTPException(status, detail))`, as the framework renders it. */
  function HttpExceptionText(status: nat, detail: string): (text: string)
    ensures |text| == |NatToString(status)| + 2 + |detail|
    ensures text[..|NatToString(status)|] == NatToString(status)
    ensures text[|NatToString(status)|..|NatToString(status)| + 2] == ": "
    ensures text[|NatToString(status)| + 2..] == detail
  {
    NatToString(status) + ": " + detail
  }

  datatype UploadResponse = UploadResponse(message: string, candidateId: string, dataPreview: Json)

  datatype AskResponse = AskResponse(candidateId: string, question: Json, answer: string)

  /** The foreign parsers: PyMuPDF, python-docx and `json.loads`. */
  datatype Parsers = Parsers(
    openPdf: Bytes -> PdfSource,
    openDocx: Bytes -> DocxSource,
    jsonLoads: string -> JsonParse)

  /** The outcomes of the external calls one upload makes, in order. */
  datatype UploadCalls = UploadCalls(storage: Call, metadata: Call, llm: LlmReply, insert: Call)

  // ---------------------------------------------------------------------------
  // Upload helpers

  /** `file.content_type in [...]`: only the PDF and DOCX media types are accepted. */
  predicate AcceptedType(contentType: string)
    ensures AcceptedType(contentType) <==> contentType == PdfMime || contentType == DocxMime
  {
    contentType in [PdfMime, DocxMime]
  }

  /** `f"public/{int(time.time())}_{file.filename}"`. */
  function StoragePath(now: nat, filename: string): (path: string)
    ensures |path| > 7 + |filename| && path[..7] == "public/"
    ensures path[|path| - |filename|..] == filename && path[|path| - |filename| - 1] == '_'
  {
    "public/" + NatToString(now) + "_" + filename
  }

  /**
   * Two uploads get the same storage path only when they happen in the same
   * second with the same file name.
   */
  lemma StoragePathCollision(now: nat, filename: string, now': nat, filename': string)
    ensures StoragePath(now, filename) == StoragePath(now', filename') <==> now == now' && filename == filename'
  {
    if StoragePath(now, filename) == StoragePath(now', filename') {
      var a, b := NatToString(now), NatToString(now');
      StoragePathAfterPrefix(now, filename);
      StoragePathAfterPrefix(now', filename');
      DigitsHoldNoUnderscore(now);
      DigitsHoldNoUnderscore(now');
      SeparatorSplitsUniquely(a, filename, b, filename', '_');
      ParseNatToString(now);
      ParseNatToString(now');
    }
  }

  /** What follows "public/" in a storage path. */
  lemma StoragePathAfterPrefix(now: nat, filename: string)
    ensures StoragePath(now, filename)[7..] == NatToString(now) + "_" + filename
  {
    var rest := NatToString(now) + "_" + filename;
    assert StoragePath(now, filename) == "public/" + rest;
  }

  /** A rendered number holds no '_', so the first '_' of a storage path ends the timestamp. */
  lemma DigitsHoldNoUnderscore(n: nat)
    ensures '_' !in NatToString(n)
  {
    var s := NatToString(n);
    forall i | 0 <= i < |s| ensures s[i] != '_' {
      assert IsDigit(s[i]);
    }
  }


  /** The text extracted from the upload: PDF for the PDF type, DOCX for anything else. */
  function ExtractedText(file: UploadFile, parsers: Parsers): (text: string)
    ensures file.contentType == PdfMime && parsers.openPdf(file.bytes).PdfUnreadable? ==> text == ""
    ensures file.contentType != PdfMime && parsers.openDocx(file.bytes).DocxUnreadable? ==> text == ""
  {
    if file.contentType == PdfMime then PdfText(parsers.openPdf(file.bytes))
    else ExtractTextFromDocx(parsers.openDocx(file.bytes))
  }

  /**
   * The upload's text is empty exactly when extraction failed or found no
   * text: for a PDF when the file or a page cannot be read or every page is
   * blank, otherwise when the file cannot be opened, has no paragraph, or one
   * empty paragraph.
   */
  lemma ExtractedTextEmpty(file: UploadFile, parsers: Parsers)
    ensures file.contentType == PdfMime ==>
              (ExtractedText(file, parsers) == "" <==>
                 var src := parsers.openPdf(file.bytes);
                 || src.PdfUnreadable?
                 || !AllPagesRead(src.pages)
                 || (forall i :: 0 <= i < |src.pages| ==> src.pages[i].value == ""))
    ensures file.contentType != PdfMime ==>
              (ExtractedText(file, parsers) == "" <==>
                 var src := parsers.openDocx(file.bytes);
                 || src.DocxUnreadable?
                 || |src.paragraphs| == 0
                 || (|src.paragraphs| == 1 && src.paragraphs[0] == ""))
  {
    PdfTextEmpty(parsers.openPdf(file.bytes));
    DocxTextEmpty(parsers.openDocx(file.bytes));
  }

  /** `{"candidate_id": id, **record}`: the record's own `candidate_id`, if any, wins. */
  function CandidateDocument(id: string, rec: Record): (doc: Record)
    ensures doc.Keys == rec.Keys + {CandidateIdKey}
    ensures doc[CandidateIdKey] == if CandidateIdKey in rec then rec[CandidateIdKey] else JStr(id)
    ensures forall k :: k in rec ==> doc[k] == rec[k]
  {
    map[CandidateIdKey := JStr(id)] + rec
  }

  /** The shape of every document in the collection. */
  predicate IsCandidateDocument(doc: Record)
  {
    CandidateIdKey in doc && HasSchema(doc)
  }

  /** A record of the full schema, stored under an id, is a candidate document. */
  lemma StoredRecordIsCandidateDocument(id: string, rec: Record)
    requires HasSchema(rec)
    ensures IsCandidateDocument(CandidateDocument(id, rec))
  {
  }

  // The stages an upload reaches, given the outcomes of its external calls.

  predicate StoresBlob(file: UploadFile, calls: UploadCalls)
  {
    AcceptedType(file.contentType) && calls.storage.Succeeds?
  }

  predicate StoresRow(file: UploadFile, calls: UploadCalls)
  {
    StoresBlob(file, calls) && calls.metadata.Succeeds?
  }

  predicate HasText(file: UploadFile, calls: UploadCalls, parsers: Parsers)
  {
    StoresRow(file, calls) && ExtractedText(file, parsers) != ""
  }

  predicate HasRecord(file: UploadFile, calls: UploadCalls, parsers: Parsers)
  {
    HasText(file, calls, parsers) && Processed(ExtractedText(file, parsers), calls.llm, parsers.jsonLoads).Ok?
  }

  predicate StoresDocument(file: UploadFile, calls: UploadCalls, parsers: Parsers)
  {
    HasRecord(file, calls, parsers) && calls.insert.Succeeds?
  }

  /** The record extracted for an upload that got that far. */
  function UploadRecord(file: UploadFile, calls: UploadCalls, parsers: Parsers): Record
    requires HasRecord(file, calls, parsers)
  {
    Processed(ExtractedText(file, parsers), calls.llm, parsers.jsonLoads).value
  }

  /**
   * The reply of `upload_resume` when the metadata table would give the row
   * the id `id`. The upload succeeds exactly when every stage does, and only
   * a rejected file type or an empty text is the client's fault (400).
   */
  function UploadReply(file: UploadFile, calls: UploadCalls, parsers: Parsers, id: nat)
    : (r: Reply<UploadResponse>)
    ensures r.Done? ==> r.value.message == UploadedMessage && r.value.candidateId == NatToString(id)
    ensures r.Crashed? ==> HasText(file, calls, parsers)
  {
    if !AcceptedType(file.contentType) then Raised(400, InvalidTypeDetail)
    else if calls.storage.Fails? then Raised(500, "Supabase storage error: " + calls.storage.message)
    else if calls.metadata.Fails? then Raised(500, "Supabase DB error: " + calls.metadata.message)
    else if ExtractedText(file, parsers) == "" then Raised(400, NoTextDetail)
    else match Processed(ExtractedText(file, parsers), calls.llm, parsers.jsonLoads)
      case Err(e) => Crashed(e)
      case Ok(rec) =>
        if calls.insert.Fails? then Raised(500, "MongoDB insert error: " + calls.insert.message)
        else Done(UploadResponse(UploadedMessage, NatToString(id), Get(rec, Skills)))
  }

  /** The upload succeeds exactly when every stage does, and replies with the new id and the record's skills. */
  lemma UploadReplyOutcome(file: UploadFile, calls: UploadCalls, parsers: Parsers, id: nat)
    ensures var r := UploadReply(file, calls, parsers, id);
      && (r.Done? <==> StoresDocument(file, calls, parsers))
      && (r.Done? ==> && r.value.candidateId == NatToString(id)
                      && r.value.dataPreview == UploadRecord(file, calls, parsers)[Skills])
  {
    if StoresDocument(file, calls, parsers) {
      var rec := UploadRecord(file, calls, parsers);
      assert Skills in rec;
    }
  }

  /** Only a rejected file type or an empty text is the client's fault (400); every other failure is a 500. */
  lemma UploadReplyStatus(file: UploadFile, calls: UploadCalls, parsers: Parsers, id: nat)
    ensures var status := StatusCode(UploadReply(file, calls, parsers, id));
      && status in {200, 400, 500}
      && (status == 400 <==> !AcceptedType(file.contentType) || (StoresRow(file, calls) && !HasText(file, calls, parsers)))
  {
  }

  /** The reply at each failure point of the upload, in the order the stages run. */
  lemma UploadReplyStages(file: UploadFile, calls: UploadCalls, parsers: Parsers, id: nat)
    ensures var r := UploadReply(file, calls, parsers, id);
      && (!AcceptedType(file.contentType) ==> r == Raised(400, InvalidTypeDetail))
      && (AcceptedType(file.contentType) && calls.storage.Fails?
          ==> r == Raised(500, "Supabase storage error: " + calls.storage.message))
      && (StoresBlob(file, calls) && calls.metadata.Fails?
          ==> r == Raised(500, "Supabase DB error: " + calls.metadata.message))
      && (StoresRow(file, calls) && !HasText(file, calls, parsers) ==> r == Raised(400, NoTextDetail))
      && (HasText(file, calls, parsers) && !HasRecord(file, calls, parsers)
          ==> r == Crashed(Processed(ExtractedText(file, parsers), calls.llm, parsers.jsonLoads).error))
      && (HasRecord(file, calls, parsers) && calls.insert.Fails?
          ==> r == Raised(500, "MongoDB insert error: " + calls.insert.message))
  {
  }

  // ---------------------------------------------------------------------------
  // Candidate lookup

  predicate Matches(doc: Record, candidateId: string)
  {
    CandidateIdKey in doc && doc[CandidateIdKey] == JStr(candidateId)
  }

  /** The position of the first document whose `candidate_id` is `candidateId`. */
  function FirstMatch(docs: seq<Record>, candidateId: string): (r: Option<nat>)
    ensures r.Some? ==> r.value < |docs| && Matches(docs[r.value], candidateId)
    ensures r.Some? ==> forall i :: 0 <= i < r.value ==> !Matches(docs[i], candidateId)
    ensures r.None? ==> forall i :: 0 <= i < |docs| ==> !Matches(docs[i], candidateId)
  {
    if |docs| == 0 then None
    else if Matches(docs[0], candidateId) then Some(0)
    else match FirstMatch(docs[1..], candidateId)
      case None => None
      case Some(i) => Some(i + 1)
  }

  /** `find_one({"candidate_id": candidateId})`: the first matching document, if any. */
  function FindCandidate(docs: seq<Record>, candidateId: string): (r: Option<Record>)
    ensures r.Some? <==> exists i :: 0 <= i < |docs| && Matches(docs[i], candidateId)
    ensures r.Some? ==> FirstMatch(docs, candidateId).Some? && r.value == docs[FirstMatch(docs, candidateId).value]
    ensures r.Some? ==> r.value in docs && Matches(r.value, candidateId) && r.value != map[]
  {
    match FirstMatch(docs, candidateId)
    case None => None
    case Some(i) => Some(docs[i])
  }

  /** The fields the listing keeps. */
  const ListedKeys: set<string> := {CandidateIdKey, IntroductionKey, Skills}

  /** The projection `{"_id": 0, "candidate_id": 1, "introduction": 1, "skills": 1}` of one document. */
  function Listed(doc: Record): (entry: Record)
    ensures entry.Keys == doc.Keys * ListedKeys
    ensures forall k :: k in entry ==> entry[k] == doc[k]
  {
    map k | k in doc && k in ListedKeys :: doc[k]
  }

  // ---------------------------------------------------------------------------
  // The service

  /** The invariant of the stores: ids below the counter and increasing, documents of the record schema. */
  ghost predicate StoresValid(rows: seq<MetadataRow>, nextId: nat, docs: seq<Record>)
  {
    && (forall i :: 0 <= i < |rows| ==> rows[i].id < nextId)
    && (forall i, j :: 0 <= i < j < |rows| ==> rows[i].id < rows[j].id)
    && (forall i :: 0 <= i < |docs| ==> IsCandidateDocument(docs[i]))
  }

  /** A row that takes the counter's id, with the counter advanced, keeps the invariant. */
  lemma AppendRowKeepsValid(rows: seq<MetadataRow>, nextId: nat, docs: seq<Record>, row: MetadataRow)
    requires StoresValid(rows, nextId, docs) && row.id == nextId
    ensures StoresValid(rows + [row], nextId + 1, docs)
  {
  }

  /** Appending a record of the full schema under an id keeps the invariant. */
  lemma AppendDocumentKeepsValid(rows: seq<MetadataRow>, nextId: nat, docs: seq<Record>, id: string, rec: Record)
    requires StoresValid(rows, nextId, docs) && HasSchema(rec)
    ensures StoresValid(rows, nextId, docs + [CandidateDocument(id, rec)])
  {
    StoredRecordIsCandidateDocument(id, rec);
  }

  class Backend {
    /** The "resumes" storage bucket. */
    var blobs: seq<Blob>
    /** The `resume_metadata` table, in insertion order. */
    var rows: seq<MetadataRow>
    /** The id the table generates for its next row. */
    var nextId: nat
    /** The `candidates` collection, in insertion order. */
    var docs: seq<Record>

    /** Row ids are generated in increasing order; every document has the record schema. */
    ghost predicate Valid()
      reads this
    {
      StoresValid(rows, nextId, docs)
    }

    constructor ()
      ensures Valid()
      ensures blobs == [] && rows == [] && docs == [] && nextId == 1
    {
      blobs, rows, docs, nextId := [], [], [], 1;
    }

    /**
     * `upload_resume`: type check, blob upload, metadata insert, text
     * extraction, structuring, document insert. Every failure ends the
     * request and leaves the earlier writes in place.
     */
    method UploadResume(file: UploadFile, now: nat, calls: UploadCalls, parsers: Parsers)
      returns (r: Reply<UploadResponse>)
      requires Valid()
      modifies this
      ensures Valid()
      ensures blobs == old(blobs)
                       + (if StoresBlob(file, calls) then [Blob(StoragePath(now, file.filename), file.bytes, file.contentType)] else [])
      ensures rows == old(rows)
                      + (if StoresRow(file, calls) then [MetadataRow(old(nextId), file.filename, StoragePath(now, file.filename))] else [])
      ensures nextId == old(nextId) + (if StoresRow(file, calls) then 1 else 0)
      ensures docs == old(docs)
                      + (if StoresDocument(file, calls, parsers)
                         then [CandidateDocument(NatToString(old(nextId)), UploadRecord(file, calls, parsers))] else [])
      ensures r == UploadReply(file, calls, parsers, old(nextId))
    {
      if !AcceptedType(file.contentType) {
        return Raised(400, InvalidTypeDetail);
      }
      var storagePath := StoragePath(now, file.filename);
      if calls.storage.Fails? {
        return Raised(500, "Supabase storage error: " + calls.storage.message);
      }
      blobs := blobs + [Blob(storagePath, file.bytes, file.contentType)];
      if calls.metadata.Fails? {
        return Raised(500, "Supabase DB error: " + calls.metadata.message);
      }
      var candidateId := nextId;
      AppendRowKeepsValid(rows, nextId, docs, MetadataRow(candidateId, file.filename, storagePath));
      rows := rows + [MetadataRow(candidateId, file.filename, storagePath)];
      nextId := nextId + 1;

      r := ExtractAndStore(file, candidateId, calls, parsers);
    }

    /**
     * The rest of `upload_resume` once the metadata row exists: text
     * extraction, structuring and the document insert. Only the collection
     * can change.
     */
    method ExtractAndStore(file: UploadFile, candidateId: nat, calls: UploadCalls, parsers: Parsers)
      returns (r: Reply<UploadResponse>)
      requires StoresRow(file, calls)
      requires Valid()
      modifies this`docs
      ensures Valid()
      ensures docs == old(docs)
                      + (if StoresDocument(file, calls, parsers)
                         then [CandidateDocument(NatToString(candidateId), UploadRecord(file, calls, parsers))] else [])
      ensures r == UploadReply(file, calls, parsers, candidateId)
    {
      var text := "";
      if file.contentType == PdfMime {
        text := ExtractTextFromPdf(parsers.openPdf(file.bytes));
      } else {
        text := ExtractTextFromDocx(parsers.openDocx(file.bytes));
      }
      if text == "" {
        return Raised(400, NoTextDetail);
      }
      var extracted := ProcessResumeText(text, calls.llm, parsers.jsonLoads);
      if extracted.Err? {
        return Crashed(extracted.error);
      }
      var document := CandidateDocument(NatToString(candidateId), extracted.value);
      if calls.insert.Fails? {
        return Raised(500, "MongoDB insert error: " + calls.insert.message);
      }
      AppendDocumentKeepsValid(rows, nextId, docs, NatToString(candidateId), extracted.value);
      docs := docs + [document];
      return Done(UploadResponse(UploadedMessage, NatToString(candidateId), Get(extracted.value, Skills)));
    }

    /** Distinct metadata rows have distinct candidate ids once rendered as strings. */
    lemma CandidateIdsDistinct()
      requires Valid()
      ensures forall i, j :: 0 <= i < j < |rows| ==> NatToString(rows[i].id) != NatToString(rows[j].id)
    {
      forall i, j | 0 <= i < j < |rows| ensures NatToString(rows[i].id) != NatToString(rows[j].id) {
        NatToStringInjective(rows[i].id, rows[j].id);
      }
    }

    /** `get_all_candidates`: every document projected to its id, introduction and skills. */
    method GetAllCandidates(find: Call) returns (r: Reply<seq<Record>>)
      ensures find.Fails? ==> r == Raised(500, "MongoDB error: " + find.message)
      ensures find.Succeeds? ==> r.Done? && |r.value| == |docs|
      ensures find.Succeeds? ==> forall i :: 0 <= i < |docs| ==> r.value[i] == Listed(docs[i])
      ensures find.Succeeds? && Valid() ==> forall i :: 0 <= i < |docs| ==> r.value[i].Keys == ListedKeys
    {
      if find.Fails? {
        return Raised(500, "MongoDB error: " + find.message);
      }
      var all := docs;
      r := Done(seq(|all|, i requires 0 <= i < |all| => Listed(all[i])));
    }

    /**
     * `get_candidate`: the 404 for a missing candidate is raised inside the
     * `try`, caught by `except Exception` and re-raised as a 500.
     */
    method GetCandidate(candidateId: string, find: Call) returns (r: Reply<Record>)
      ensures r.Done? <==> find.Succeeds? && FindCandidate(docs, candidateId).Some?
      ensures r.Done? ==> r == Done(FindCandidate(docs, candidateId).value)
      ensures find.Fails? ==> r == Raised(500, "MongoDB error: " + find.message)
      ensures find.Succeeds? && FindCandidate(docs, candidateId).None?
              ==> r == Raised(500, "MongoDB error: " + HttpExceptionText(404, NotFoundDetail))
      ensures StatusCode(r) in {200, 500}
    {
      var caught: string;
      if find.Fails? {
        caught := find.message;
      } else {
        var candidate := FindCandidate(docs, candidateId);
        if candidate.None? || candidate.value == map[] {
          caught := HttpExceptionText(404, NotFoundDetail);
        } else {
          return Done(candidate.value);
        }
      }
      return Raised(500, "MongoDB error: " + caught);
    }

    /** `get_candidate` with the not-found exception passed through: a missing candidate is a 404. */
    method GetCandidateIntended(candidateId: string, find: Call) returns (r: Reply<Record>)
      ensures r.Done? <==> find.Succeeds? && FindCandidate(docs, candidateId).Some?
      ensures r.Done? ==> r == Done(FindCandidate(docs, candidateId).value)
      ensures find.Fails? ==> r == Raised(500, "MongoDB error: " + find.message)
      ensures find.Succeeds? && FindCandidate(docs, candidateId).None? ==> r == Raised(404, NotFoundDetail)
    {
      if find.Fails? {
        return Raised(500, "MongoDB error: " + find.message);
      }
      var candidate := FindCandidate(docs, candidateId);
      if candidate.None? || candidate.value == map[] {
        return Raised(404, NotFoundDetail);
      }
      return Done(candidate.value);
    }

    /**
     * `ask_question`: the question is checked before the lookup, the lookup
     * before the model call; `modelCalled` says whether the model was asked.
     * A failing lookup is not caught.
     */
    method AskQuestion(candidateId: string, payload: Dict, find: Call, llm: LlmReply)
      returns (r: Reply<AskResponse>, modelCalled: bool)
      ensures modelCalled <==> Truthy(Get(payload, QuestionKey)) && find.Succeeds?
                               && FindCandidate(docs, candidateId).Some?
      ensures !Truthy(Get(payload, QuestionKey)) ==> r == Raised(400, NoQuestionDetail)
      ensures Truthy(Get(payload, QuestionKey)) && find.Fails? ==> r == Crashed(Upstream(find.message))
      ensures Truthy(Get(payload, QuestionKey)) && find.Succeeds? && FindCandidate(docs, candidateId).None?
              ==> r == Raised(404, NotFoundDetail)
      ensures modelCalled && llm.LlmFails? ==> r == Raised(500, "HF API Error: " + llm.message)
      ensures modelCalled && llm.LlmReplies?
              ==> r == Done(AskResponse(candidateId, payload[QuestionKey], Strip(llm.content)))
    {
      modelCalled := false;
      var question := Get(payload, QuestionKey);
      if !Truthy(question) {
        return Raised(400, NoQuestionDetail), modelCalled;
      }
      if find.Fails? {
        return Crashed(Upstream(find.message)), modelCalled;
      }
      var candidate := FindCandidate(docs, candidateId);
      if candidate.None? || candidate.value == map[] {
        return Raised(404, NotFoundDetail), modelCalled;
      }
      modelCalled := true;
      if llm.LlmFails? {
        return Raised(500, "HF API Error: " + llm.message), modelCalled;
      }
      var answer := Strip(llm.content);
      return Done(AskResponse(candidateId, question, answer)), modelCalled;
    }
  }
}
