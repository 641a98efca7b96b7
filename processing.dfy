/**
 * app/processing.py: text extraction from PDF and DOCX documents, and the
 * normalisation of the language model's answer into a candidate record.
 *
 * The document libraries, the model transport and `json.loads` are not part
 * of this model: their outcomes are inputs (an opened document, an
 * `LlmReply`, a `jsonLoads` function from the reply text to a `JsonParse`).
 */
module Processing {
  import opened Options
  import opened JsonValue
  import opened PyText

  // ---------------------------------------------------------------------------
  // Text extraction

  /** A PDF as PyMuPDF opens it: unreadable, or pages whose text extraction may fail. */
  datatype PdfSource = PdfUnreadable | PdfPages(pages: seq<Option<string>>)

  /** A DOCX as python-docx opens it: unreadable, or its paragraph texts in document order. */
  datatype DocxSource = DocxUnreadable | DocxParagraphs(paragraphs: seq<string>)

  predicate AllPagesRead(pages: seq<Option<string>>)
  {
    forall i :: 0 <= i < |pages| ==> pages[i].Some?
  }

  function PageTexts(pages: seq<Option<string>>): (texts: seq<string>)
    requires AllPagesRead(pages)
    ensures |texts| == |pages|
    ensures forall i :: 0 <= i < |pages| ==> texts[i] == pages[i].value
  {
    if |pages| == 0 then [] else [pages[0].value] + PageTexts(pages[1..])
  }

  /**
   * The text `extract_text_from_pdf` returns: the page texts concatenated in
   * page order, or "" when opening the document or reading any page raises.
   */
  function PdfText(src: PdfSource): (text: string)
    ensures src.PdfUnreadable? ==> text == ""
    ensures src.PdfPages? && !AllPagesRead(src.pages) ==> text == ""
    ensures src.PdfPages? && |src.pages| == 1 && src.pages[0].Some? ==> text == src.pages[0].value
  {
    match src
    case PdfUnreadable => ""
    case PdfPages(pages) =>
      if AllPagesRead(pages) then
        var texts := PageTexts(pages);
        assert |texts| == 1 ==> Concat(texts) == texts[0] + Concat([]) && texts[0] + "" == texts[0];
        Concat(texts)
      else ""
  }

  /** `extract_text_from_pdf`: appends each page's text in turn; any failure yields "". */
  method ExtractTextFromPdf(src: PdfSource) returns (text: string)
    ensures text == PdfText(src)
  {
    if src.PdfUnreadable? {
      return "";
    }
    var pages := src.pages;
    text := "";
    var i := 0;
    while i < |pages|
      invariant 0 <= i <= |pages|
      invariant AllPagesRead(pages[..i])
      invariant text == Concat(PageTexts(pages[..i]))
    {
      if pages[i].None? {
        return "";
      }
      assert pages[..i + 1] == pages[..i] + [pages[i]];
      PageTextsAppend(pages[..i], pages[i].value);
      ConcatAppend(PageTexts(pages[..i]), [pages[i].value]);
      text := text + pages[i].value;
      i := i + 1;
    }
    assert pages[..i] == pages;
  }

  lemma PageTextsAppend(pages: seq<Option<string>>, t: string)
    requires AllPagesRead(pages)
    ensures AllPagesRead(pages + [Some(t)])
    ensures PageTexts(pages + [Some(t)]) == PageTexts(pages) + [t]
  {
  }

  /** The PDF text is empty exactly when extraction failed or every page has empty text. */
  lemma PdfTextEmpty(src: PdfSource)
    ensures PdfText(src) == "" <==>
              || src.PdfUnreadable?
              || !AllPagesRead(src.pages)
              || (forall i :: 0 <= i < |src.pages| ==> src.pages[i].value == "")
  {
    if src.PdfPages? && AllPagesRead(src.pages) {
      ConcatEmpty(PageTexts(src.pages));
    }
  }

  /** `extract_text_from_docx`: the paragraph texts joined with newlines, or "" when the document is unreadable. */
  function ExtractTextFromDocx(src: DocxSource): (text: string)
    ensures src.DocxUnreadable? ==> text == ""
    ensures src.DocxParagraphs? && |src.paragraphs| == 1 ==> text == src.paragraphs[0]
    ensures src.DocxParagraphs? && |src.paragraphs| >= 1
            ==> |src.paragraphs[0]| <= |text| && text[..|src.paragraphs[0]|] == src.paragraphs[0]
  {
    match src
    case DocxUnreadable => ""
    case DocxParagraphs(paragraphs) => Join(paragraphs, '\n')
  }

  /** Splitting the DOCX text at newlines gives back the paragraphs, when none of them holds a newline. */
  lemma DocxParagraphsRecovered(src: DocxSource)
    requires src.DocxParagraphs? && |src.paragraphs| >= 1
    requires forall i :: 0 <= i < |src.paragraphs| ==> '\n' !in src.paragraphs[i]
    ensures Split(ExtractTextFromDocx(src), '\n') == src.paragraphs
  {
    SplitJoin(src.paragraphs, '\n');
  }

  /**
   * The DOCX text is empty exactly when extraction failed, the document has no
   * paragraph, or it has a single empty one: two empty paragraphs give "\n".
   */
  lemma DocxTextEmpty(src: DocxSource)
    ensures ExtractTextFromDocx(src) == "" <==>
              || src.DocxUnreadable?
              || |src.paragraphs| == 0
              || (|src.paragraphs| == 1 && src.paragraphs[0] == "")
  {
    if src.DocxParagraphs? {
      JoinEmpty(src.paragraphs, '\n');
    }
  }

  // ---------------------------------------------------------------------------
  // The candidate record

  type Record = Dict

  const Education := "education"
  const Experience := "experience"
  const Skills := "skills"
  const Certifications := "certifications"
  const Projects := "projects"
  const Hobbies := "hobbies"
  const IntroductionKey := "introduction"

  /**
   * The five keys the model is asked for, each with the empty value
   * `setdefault` gives it when the model left it out: `{}` for the two
   * summaries, `[]` for the three lists.
   */
  const ModelDefaults: Record := map[
    Education := JObj(map[]), Experience := JObj(map[]),
    Skills := JArr([]), Certifications := JArr([]), Projects := JArr([])]

  const ModelKeys: set<string> := {Education, Experience, Skills, Certifications, Projects}

  /** The seven keys every record carries. */
  const RecordKeys: set<string> := ModelKeys + {Hobbies, IntroductionKey}

  /** `text[:250] + "..."`. */
  function Introduction(text: string): (intro: string)
    ensures |intro| == (if |text| < 250 then |text| else 250) + 3
    ensures intro[..|intro| - 3] == text[..|intro| - 3]
    ensures intro[|intro| - 3..] == "..."
    ensures |text| <= 250 ==> intro == text + "..."
  {
    (if |text| < 250 then text else text[..250]) + "..."
  }

  /** The shape every record returned by `process_resume_text` has. */
  predicate HasSchema(rec: Record)
  {
    && RecordKeys <= rec.Keys
    && rec[Hobbies] == JArr([])
    && rec[IntroductionKey].JStr?
  }

  /** The record returned when the model call raises: every field empty, the introduction computed locally. */
  function DegradedRecord(text: string): (rec: Record)
    ensures rec.Keys == RecordKeys
    ensures forall k :: k in ModelKeys ==> rec[k] == ModelDefaults[k]
    ensures rec[Hobbies] == JArr([]) && rec[IntroductionKey] == JStr(Introduction(text))
  {
    map[Education := JObj(map[]), Experience := JObj(map[]), Skills := JArr([]),
        Certifications := JArr([]), Projects := JArr([]), Hobbies := JArr([]),
        IntroductionKey := JStr(Introduction(text))]
  }

  /**
   * The parsed object after the model keys have been defaulted and `hobbies`
   * and `introduction` overwritten: keys the model returned keep their value,
   * missing model keys get their empty default, and nothing is removed.
   */
  function Normalised(parsed: Record, text: string): (rec: Record)
    ensures rec.Keys == parsed.Keys + RecordKeys
    ensures forall k :: k in ModelKeys && k in parsed ==> rec[k] == parsed[k]
    ensures forall k :: k in ModelKeys && k !in parsed ==> rec[k] == ModelDefaults[k]
    ensures rec[Hobbies] == JArr([]) && rec[IntroductionKey] == JStr(Introduction(text))
    ensures forall k :: k in parsed && k !in RecordKeys ==> rec[k] == parsed[k]
  {
    map k | k in parsed.Keys + RecordKeys ::
      if k == Hobbies then JArr([])
      else if k == IntroductionKey then JStr(Introduction(text))
      else if k in parsed then parsed[k]
      else ModelDefaults[k]
  }

  // ---------------------------------------------------------------------------
  // process_resume_text

  /** What the model transport gives back: an exception, or the message content. */
  datatype LlmReply = LlmFails(message: string) | LlmReplies(content: string)

  /**
   * The Python exceptions the model lets escape a handler: the TypeError and
   * AttributeError raised inside `process_resume_text`, and `Upstream` for a
   * failing database call that no handler catches.
   */
  datatype PyError = TypeError(message: string) | AttributeError(message: string) | Upstream(message: string)

  datatype Result<+T> = Ok(value: T) | Err(error: PyError)

  /** Raised by the invalid-JSON fallback, whose doubled braces build a set holding a dict. */
  const UnhashableDict := "unhashable type: 'dict'"

  /** The message of the AttributeError raised by `.setdefault` on a non-dict value. */
  function NoSetdefault(v: Json): string
  {
    "'" + TypeName(v) + "' object has no attribute 'setdefault'"
  }

  /**
   * What `process_resume_text` returns or raises, given the transport's reply
   * and what `json.loads` makes of the stripped reply.
   */
  function Processed(text: string, reply: LlmReply, jsonLoads: string -> JsonParse): (r: Result<Record>)
    ensures r.Ok? ==> HasSchema(r.value) && r.value[IntroductionKey] == JStr(Introduction(text))
    ensures r.Err? <==> reply.LlmReplies? && !(jsonLoads(Strip(reply.content)).Decoded?
                                                && jsonLoads(Strip(reply.content)).value.JObj?)
  {
    match reply
    case LlmFails(_) => Ok(DegradedRecord(text))
    case LlmReplies(content) =>
      match jsonLoads(Strip(content))
      case DecodeError => Err(TypeError(UnhashableDict))
      case Decoded(v) =>
        if v.JObj? then Ok(Normalised(v.fields, text)) else Err(AttributeError(NoSetdefault(v)))
  }

  /** `d.setdefault(k, v)` as an update of `d`: adds `k` with `v` only when `k` is absent. */
  function SetDefault(d: Dict, k: string, v: Json): (d': Dict)
    ensures d'.Keys == d.Keys + {k}
    ensures d'[k] == if k in d then d[k] else v
    ensures forall j :: j in d && j != k ==> d'[j] == d[j]
  {
    if k in d then d else d[k := v]
  }

  /**
   * `process_resume_text`: on a parsed object, defaults the five model keys
   * one by one, then overwrites `hobbies` and `introduction`, in place.
   */
  method ProcessResumeText(text: string, reply: LlmReply, jsonLoads: string -> JsonParse)
    returns (r: Result<Record>)
    ensures r == Processed(text, reply, jsonLoads)
  {
    if reply.LlmFails? {
      return Ok(DegradedRecord(text));
    }
    var jsonString := Strip(reply.content);
    var parsed := jsonLoads(jsonString);
    if parsed.DecodeError? {
      return Err(TypeError(UnhashableDict));
    }
    if !parsed.value.JObj? {
      return Err(AttributeError(NoSetdefault(parsed.value)));
    }
    var data := NormaliseInPlace(parsed.value.fields, text);
    return Ok(data);
  }

  /** The seven record keys are pairwise distinct (they differ in length). */
  lemma RecordKeysDistinct()
    ensures |Education| == 9 && |Experience| == 10 && |Skills| == 6 && |Certifications| == 14
    ensures |Projects| == 8 && |Hobbies| == 7 && |IntroductionKey| == 12
  {
  }

  /** `parsed` after `setdefault(k, defaults[k])` for each key of `defaults`. */
  function Defaulted(parsed: Record, defaults: Record): Record
  {
    map k | k in parsed.Keys + defaults.Keys :: if k in parsed then parsed[k] else defaults[k]
  }

  lemma DefaultedNothing(parsed: Record)
    ensures Defaulted(parsed, map[]) == parsed
  {
  }

  /** One more `setdefault` on a key not yet defaulted adds it to the defaults. */
  lemma SetDefaultStep(parsed: Record, defaults: Record, k: string, v: Json)
    requires k !in defaults
    ensures SetDefault(Defaulted(parsed, defaults), k, v) == Defaulted(parsed, defaults[k := v])
  {
  }

  /** Once the model keys are defaulted, the two overwrites give exactly `Normalised`. */
  lemma OverwritesComplete(parsed: Record, text: string)
    ensures Defaulted(parsed, ModelDefaults)[Hobbies := JArr([])][IntroductionKey := JStr(Introduction(text))]
            == Normalised(parsed, text)
  {
    RecordKeysDistinct();
    var d := Defaulted(parsed, ModelDefaults)[Hobbies := JArr([])][IntroductionKey := JStr(Introduction(text))];
    var n := Normalised(parsed, text);
    assert d.Keys == n.Keys;
    forall k | k in d ensures d[k] == n[k] {
      if k == Hobbies || k == IntroductionKey {
      } else if k in ModelKeys {
      } else {
        assert d[k] == parsed[k];
      }
    }
  }

  /** The success branch: `setdefault` on each model key, then the two overwrites, on the parsed dict. */
  method NormaliseInPlace(parsed: Record, text: string) returns (data: Record)
    ensures data == Normalised(parsed, text)
  {
    RecordKeysDistinct();
    data := parsed;
    ghost var defaults: Record := map[];
    DefaultedNothing(parsed);
    SetDefaultStep(parsed, defaults, Education, JObj(map[]));
    data, defaults := SetDefault(data, Education, JObj(map[])), defaults[Education := JObj(map[])];
    SetDefaultStep(parsed, defaults, Experience, JObj(map[]));
    data, defaults := SetDefault(data, Experience, JObj(map[])), defaults[Experience := JObj(map[])];
    SetDefaultStep(parsed, defaults, Skills, JArr([]));
    data, defaults := SetDefault(data, Skills, JArr([])), defaults[Skills := JArr([])];
    SetDefaultStep(parsed, defaults, Certifications, JArr([]));
    data, defaults := SetDefault(data, Certifications, JArr([])), defaults[Certifications := JArr([])];
    SetDefaultStep(parsed, defaults, Projects, JArr([]));
    data, defaults := SetDefault(data, Projects, JArr([])), defaults[Projects := JArr([])];
    assert defaults == ModelDefaults;
    OverwritesComplete(parsed, text);
    data := data[Hobbies := JArr([])];
    data := data[IntroductionKey := JStr(Introduction(text))];
  }

  // ---------------------------------------------------------------------------
  // Properties of the normalisation

  /** A transport failure yields exactly the seven-key degraded record. */
  lemma TransportFailureDegrades(text: string, message: string, jsonLoads: string -> JsonParse)
    ensures Processed(text, LlmFails(message), jsonLoads) == Ok(DegradedRecord(text))
    ensures |DegradedRecord(text).Keys| == 7
  {
    assert DegradedRecord(text).Keys == RecordKeys;
  }

  /** Every record returned carries the locally computed introduction, at most 253 characters. */
  lemma IntroductionBounded(text: string, reply: LlmReply, jsonLoads: string -> JsonParse)
    requires Processed(text, reply, jsonLoads).Ok?
    ensures var intro := Processed(text, reply, jsonLoads).value[IntroductionKey].s;
            && |intro| <= 253
            && intro == text[..|intro| - 3] + "..."
  {
  }

  /** On a parsed object the model's `hobbies` and `introduction` are discarded whatever they were. */
  lemma ModelHobbiesAndIntroductionIgnored(text: string, parsed: Record, parsed': Record)
    requires forall k :: k !in {Hobbies, IntroductionKey} ==> (k in parsed <==> k in parsed')
    requires forall k :: k in parsed && k !in {Hobbies, IntroductionKey} ==> parsed[k] == parsed'[k]
    ensures Normalised(parsed, text) == Normalised(parsed', text)
  {
  }

  /** The normalisation only adds or overwrites the seven record keys: every other key is untouched. */
  lemma NormalisationNeverDeletes(text: string, parsed: Record)
    ensures parsed.Keys <= Normalised(parsed, text).Keys
    ensures forall k :: k in parsed && k !in {Hobbies, IntroductionKey} ==> Normalised(parsed, text)[k] == parsed[k]
  {
  }

  /** A reply that parses to anything but an object raises AttributeError naming the value's type. */
  lemma NonObjectRaises(text: string, content: string, jsonLoads: string -> JsonParse)
    requires jsonLoads(Strip(content)).Decoded? && !jsonLoads(Strip(content)).value.JObj?
    ensures Processed(text, LlmReplies(content), jsonLoads)
              == Err(AttributeError(NoSetdefault(jsonLoads(Strip(content)).value)))
  {
  }

  /** A reply that parses to an object is normalised: the record is `Normalised` of that object. */
  lemma ObjectReplyNormalised(text: string, content: string, jsonLoads: string -> JsonParse)
    requires jsonLoads(Strip(content)).Decoded? && jsonLoads(Strip(content)).value.JObj?
    ensures Processed(text, LlmReplies(content), jsonLoads)
              == Ok(Normalised(jsonLoads(Strip(content)).value.fields, text))
  {
  }

  /** A reply that is not valid JSON raises TypeError: no degraded record is returned. */
  lemma InvalidJsonRaises(text: string, content: string, jsonLoads: string -> JsonParse)
    requires jsonLoads(Strip(content)).DecodeError?
    ensures Processed(text, LlmReplies(content), jsonLoads) == Err(TypeError(UnhashableDict))
  {
  }

  /** The record the example below expects: the skills list, empty defaults, empty hobbies, the introduction. */
  const SkillsOnlyRecord: Record := map[
    Education := JObj(map[]), Experience := JObj(map[]),
    Skills := JArr([JStr("Go"), JStr("Rust")]),
    Certifications := JArr([]), Projects := JArr([]), Hobbies := JArr([]),
    IntroductionKey := JStr("Skills: Go, Rust...")]

  /** Normalising `{"skills": ["Go", "Rust"]}` for the text "Skills: Go, Rust". */
  lemma SkillsOnlyNormalised()
    ensures Normalised(map[Skills := JArr([JStr("Go"), JStr("Rust")])], "Skills: Go, Rust") == SkillsOnlyRecord
  {
    RecordKeysDistinct();
    var parsed := map[Skills := JArr([JStr("Go"), JStr("Rust")])];
    var rec := Normalised(parsed, "Skills: Go, Rust");
    assert Introduction("Skills: Go, Rust") == "Skills: Go, Rust...";
    assert rec.Keys == SkillsOnlyRecord.Keys;
    forall k | k in rec ensures rec[k] == SkillsOnlyRecord[k] {
      if k in ModelKeys && k != Skills {
        assert k !in parsed;
      }
    }
  }

  /**
   * The end-to-end example: the model answers only `{"skills": ["Go", "Rust"]}`
   * for the text "Skills: Go, Rust".
   */
  lemma SkillsOnlyReply(content: string, jsonLoads: string -> JsonParse)
    requires jsonLoads(Strip(content)) == Decoded(JObj(map[Skills := JArr([JStr("Go"), JStr("Rust")])]))
    ensures Processed("Skills: Go, Rust", LlmReplies(content), jsonLoads) == Ok(SkillsOnlyRecord)
  {
    SkillsOnlyNormalised();
  }

  // ---------------------------------------------------------------------------
  // The invalid-JSON fallback as evidently intended

  /** The partially degraded record the fallback evidently meant to build. */
  function InvalidJsonRecord(text: string, jsonString: string): (rec: Record)
    ensures rec.Keys == RecordKeys && HasSchema(rec)
    ensures rec[Education] == JObj(map["summary" := JStr("LLM returned invalid JSON: " + jsonString)])
    ensures rec[Experience] == JObj(map["summary" := JStr("LLM response was not valid JSON.")])
    ensures forall k :: k in {Skills, Certifications, Projects} ==> rec[k] == JArr([])
  {
    map[Education := JObj(map["summary" := JStr("LLM returned invalid JSON: " + jsonString)]),
        Experience := JObj(map["summary" := JStr("LLM response was not valid JSON.")]),
        Skills := JArr([]), Certifications := JArr([]), Projects := JArr([]), Hobbies := JArr([]),
        IntroductionKey := JStr(Introduction(text))]
  }

  /**
   * `process_resume_text` with the fallback returning its record: every reply
   * except a non-object JSON value yields a record of the full schema, and an
   * unparseable reply keeps the raw text for diagnosis.
   */
  function ProcessedIntended(text: string, reply: LlmReply, jsonLoads: string -> JsonParse): (r: Result<Record>)
    ensures r.Ok? ==> HasSchema(r.value)
    ensures r.Err? <==> reply.LlmReplies? && jsonLoads(Strip(reply.content)).Decoded?
                        && !jsonLoads(Strip(reply.content)).value.JObj?
    ensures (reply.LlmReplies? && jsonLoads(Strip(reply.content)).DecodeError?)
            ==> r == Ok(InvalidJsonRecord(text, Strip(reply.content)))
    ensures !(reply.LlmReplies? && jsonLoads(Strip(reply.content)).DecodeError?)
            ==> r == Processed(text, reply, jsonLoads)
  {
    if reply.LlmReplies? && jsonLoads(Strip(reply.content)).DecodeError? then
      Ok(InvalidJsonRecord(text, Strip(reply.content)))
    else
      Processed(text, reply, jsonLoads)
  }
}
