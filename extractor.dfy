/**
 * Turning resume text into a `ResumeData` record (backend/extractor.py): choosing the LLM
 * provider, guarding and truncating the text, removing Markdown fences from the answer and
 * mapping the parsed dictionary to typed records. The LLM endpoints and `json.loads` are outside
 * the model: the answers of the two providers and the JSON parser are given as functions.
 */
module Extractor {
  import opened Wrappers
  import opened Text
  import opened ResumeModel

  // ---------------------------------------------------------------------------------------------
  // The parsed JSON object. `None` stands for an absent key.

  datatype RawContact = RawContact(
    name: Option<string>,
    email: Option<string>,
    phone: Option<string>,
    location: Option<string>,
    linkedin: Option<string>,
    github: Option<string>,
    website: Option<string>)

  datatype RawExperience = RawExperience(
    company: Option<string>,
    role: Option<string>,
    duration: Option<string>,
    location: Option<string>,
    highlights: Option<seq<string>>)

  datatype RawProject = RawProject(
    name: Option<string>,
    description: Option<string>,
    techStack: Option<seq<string>>,
    url: Option<string>,
    githubUrl: Option<string>)

  datatype RawEducation = RawEducation(
    institution: Option<string>,
    degree: Option<string>,
    fieldOfStudy: Option<string>,
    graduationYear: Option<string>,
    gpa: Option<string>)

  datatype RawResume = RawResume(
    contact: Option<RawContact>,
    summary: Option<string>,
    skills: Option<seq<string>>,
    experience: Option<seq<RawExperience>>,
    projects: Option<seq<RawProject>>,
    education: Option<seq<RawEducation>>,
    certifications: Option<seq<string>>,
    languages: Option<seq<string>>)

  /** `json.loads`: the parsed object, or the message of the decode error. */
  type JsonParser = string -> Result<RawResume, string>

  /** What each provider answers for the text it is sent: the JSON text, or the exception raised. */
  datatype LlmServices = LlmServices(
    ollama: string -> Result<string, Exception>,
    groq: string -> Result<string, Exception>)

  // ---------------------------------------------------------------------------------------------
  // __init__: provider selection

  /** The extractor's settings; `__init__` sets them once and nothing reassigns them. */
  datatype ResumeExtractor = ResumeExtractor(
    provider: string,
    model: string,
    apiKey: Option<string>,
    baseUrl: Option<string>)

  const GroqKeyMessage := "GROQ_API_KEY is not set. Add it to your .env file."

  /** `os.environ.get(name, default)`. */
  function EnvGet(env: map<string, string>, name: string, default: string): string {
    if name in env then env[name] else default
  }

  /**
   * `ResumeExtractor.__init__`: the provider is `LLM_PROVIDER` lowercased (default "ollama");
   * "groq" needs a non-empty `GROQ_API_KEY`, and every other value becomes "ollama".
   */
  function NewExtractor(env: map<string, string>): (r: Result<ResumeExtractor, Exception>)
    ensures var requested := Lower(EnvGet(env, "LLM_PROVIDER", "ollama"));
      && (r.Failure? <==> requested == "groq" && EnvGet(env, "GROQ_API_KEY", "") == "")
      && (r.Failure? ==> r.error == ValueError(GroqKeyMessage))
      && (r.Success? ==> r.value.provider == (if requested == "groq" then "groq" else "ollama"))
      && (r.Success? && r.value.provider == "groq" ==> r.value.apiKey.Some? && r.value.apiKey.value != "")
  {
    var provider := Lower(EnvGet(env, "LLM_PROVIDER", "ollama"));
    if provider == "groq" then
      var apiKey := EnvGet(env, "GROQ_API_KEY", "");
      var model := EnvGet(env, "GROQ_MODEL", "llama-3.1-8b-instant");
      if apiKey == "" then Failure(ValueError(GroqKeyMessage))
      else Success(ResumeExtractor("groq", model, Some(apiKey), None))
    else
      Success(ResumeExtractor(
        "ollama", EnvGet(env, "OLLAMA_MODEL", "llama3.1"), None,
        Some(EnvGet(env, "OLLAMA_BASE_URL", "http://localhost:11434"))))
  }

  /** With `LLM_PROVIDER` unset the provider is Ollama with its default model and URL. */
  lemma DefaultProvider(env: map<string, string>)
    requires "LLM_PROVIDER" !in env && "OLLAMA_MODEL" !in env && "OLLAMA_BASE_URL" !in env
    ensures NewExtractor(env)
      == Success(ResumeExtractor("ollama", "llama3.1", None, Some("http://localhost:11434")))
  {
    assert Lower("ollama") == "ollama";
  }

  // ---------------------------------------------------------------------------------------------
  // extract: the guard and the truncation

  const EmptyTextMessage := "Resume text is empty — PDF extraction may have failed."
  const MaxChars := 12000
  const TruncationMarker := "\n[truncated...]"

  predicate IsBlank(s: string) {
    Strip(s) == ""
  }

  /** Lines 176-177: text over 12000 characters keeps its first 12000 and gets a marker. */
  function Truncate(s: string): (r: string)
    ensures |r| <= MaxChars + |TruncationMarker|
    ensures |s| <= MaxChars ==> r == s
    ensures |s| > MaxChars ==>
      |r| == MaxChars + |TruncationMarker| && r[..MaxChars] == s[..MaxChars] && r[MaxChars..] == TruncationMarker
  {
    if |s| > MaxChars then s[..MaxChars] + TruncationMarker else s
  }

  /** Truncating twice is truncating once. */
  lemma TruncateIdempotent(s: string)
    ensures Truncate(Truncate(s)) == Truncate(s)
  {
    if |s| > MaxChars {
      var t := Truncate(s);
      assert t[..MaxChars] + TruncationMarker == t;
    }
  }

  // ---------------------------------------------------------------------------------------------
  // _parse_response

  const Fence := "```"

  /** `re.sub(r"^```(?:json)?\n?", "", t)` on a text that starts with the fence. */
  function DropOpeningFence(t: string): (r: string)
    requires StartsWith(t, Fence)
    ensures |r| <= |t| - 3 && r == t[|t| - |r|..]
    ensures StartsWith(t, "```json\n") ==> r == t[8..]
    ensures StartsWith(t, "```json") && !StartsWith(t, "```json\n") ==> r == t[7..]
    ensures !StartsWith(t, "```json") && StartsWith(t, "```\n") ==> r == t[4..]
    ensures !StartsWith(t, "```json") && !StartsWith(t, "```\n") ==> r == t[3..]
  {
    var u := t[3..];
    StartsAfter(t, Fence, "json");
    StartsAfter(t, Fence, "\n");
    if StartsWith(u, "json") then
      StartsAfter(t, "```json", "\n");
      var v := u[4..];
      assert v == t[7..];
      if StartsWith(v, "\n") then v[1..] else v
    else
      assert !StartsWith(t, "```json\n");
      if StartsWith(u, "\n") then u[1..] else u
  }

  /** Past a prefix `p` of `t`, the text starts with `q` exactly when `t` starts with `p + q`. */
  lemma StartsAfter(t: string, p: string, q: string)
    requires StartsWith(t, p)
    ensures StartsWith(t, p + q) <==> StartsWith(t[|p|..], q)
  {
    if StartsWith(t[|p|..], q) {
      assert t[..|p + q|] == t[..|p|] + t[|p|..][..|q|];
    }
    if StartsWith(t, p + q) {
      assert t[|p|..][..|q|] == t[..|p + q|][|p|..];
    }
  }

  /**
   * `re.sub(r"\n?```$", "", u)` on a text whose last character is not a newline: the pattern can
   * only match at the very end, with the newline when there is one.
   */
  function DropClosingFence(u: string): (r: string)
    ensures |r| <= |u| && r == u[..|r|]
    ensures EndsWith(u, "\n" + Fence) ==> r == u[..|u| - 4]
    ensures EndsWith(u, Fence) && !EndsWith(u, "\n" + Fence) ==> r == u[..|u| - 3]
    ensures !EndsWith(u, Fence) ==> r == u
  {
    if EndsWith(u, "\n" + Fence) then u[..|u| - 4]
    else if EndsWith(u, Fence) then u[..|u| - 3]
    else u
  }

  /** Lines 235-238: the answer stripped, and unwrapped when it starts with a fence. */
  function StripFences(raw: string): string {
    var t := Strip(raw);
    if StartsWith(t, Fence) then DropClosingFence(DropOpeningFence(t)) else t
  }

  const InvalidJsonPrefix := "LLM returned invalid JSON: "

  /** What `_parse_response` returns or raises. */
  function ParseResult(raw: string, parse: JsonParser): (r: Result<RawResume, Exception>)
    ensures r.Failure? ==> r.error.ValueError? && StartsWith(r.error.message, InvalidJsonPrefix)
    ensures parse(StripFences(raw)).Success? ==> r == Success(parse(StripFences(raw)).value)
    ensures parse(StripFences(raw)).Failure? ==> r == Failure(ValueError(
      InvalidJsonPrefix + parse(StripFences(raw)).error + "\n\nRaw response:\n" + StripFences(raw)))
  {
    var text := StripFences(raw);
    match parse(text)
    case Success(d) => Success(d)
    case Failure(e) =>
      var message := InvalidJsonPrefix + e + "\n\nRaw response:\n" + text;
      assert message[..|InvalidJsonPrefix|] == InvalidJsonPrefix;
      Failure(ValueError(message))
  }

  /** `_parse_response`, step by step. */
  method ParseResponse(raw: string, parse: JsonParser) returns (r: Result<RawResume, Exception>)
    ensures r == ParseResult(raw, parse)
  {
    var text := Strip(raw);
    if StartsWith(text, Fence) {
      text := DropOpeningFence(text);
      text := DropClosingFence(text);
    }
    match parse(text)
    case Success(d) =>
      r := Success(d);
    case Failure(e) =>
      r := Failure(ValueError(InvalidJsonPrefix + e + "\n\nRaw response:\n" + text));
  }

  /** A fenced answer, as a model may wrap its JSON: the opening fence with or without `json`. */
  function Fenced(body: string, tagged: bool): string {
    Fence + (if tagged then "json" else "") + "\n" + body + "\n" + Fence
  }

  /** Unwrapping a fenced answer gives back exactly the body, whatever the body is. */
  lemma StripFencesFenced(body: string, tagged: bool)
    ensures StripFences(Fenced(body, tagged)) == body
  {
    FencedIsStripped(body, tagged);
    OpeningOfFenced(body, tagged);
    ClosingOfFenced(body);
  }

  lemma FencedIsStripped(body: string, tagged: bool)
    ensures Strip(Fenced(body, tagged)) == Fenced(body, tagged)
  {
    var f := Fenced(body, tagged);
    assert f[0] == '`' && f[|f| - 1] == '`';
    LStripStopsAtNonSpace(f);
    RStripStopsAtNonSpace(f);
  }

  lemma OpeningOfFenced(body: string, tagged: bool)
    ensures StartsWith(Fenced(body, tagged), Fence)
    ensures DropOpeningFence(Fenced(body, tagged)) == body + "\n" + Fence
  {
    var rest := body + "\n" + Fence;
    var u := (if tagged then "json" else "") + ("\n" + rest);
    assert Fenced(body, tagged) == Fence + u;
    DropPrefix(Fence, u);
    if tagged {
      AfterTag(rest);
    } else {
      AfterNoTag(rest);
    }
  }

  lemma AfterTag(rest: string)
    ensures StartsWith(Fence + ("json" + ("\n" + rest)), Fence)
    ensures DropOpeningFence(Fence + ("json" + ("\n" + rest))) == rest
  {
    var u := "json" + ("\n" + rest);
    DropPrefix(Fence, u);
    DropPrefix("json", "\n" + rest);
    DropPrefix("\n", rest);
  }

  lemma AfterNoTag(rest: string)
    ensures StartsWith(Fence + ("" + ("\n" + rest)), Fence)
    ensures DropOpeningFence(Fence + ("" + ("\n" + rest))) == rest
  {
    var u := "\n" + rest;
    assert "" + u == u;
    DropPrefix(Fence, u);
    assert !StartsWith(u, "json") by {
      assert u[0] == '\n';
    }
    DropPrefix("\n", rest);
  }

  lemma DropPrefix(p: string, rest: string)
    ensures StartsWith(p + rest, p) && (p + rest)[|p|..] == rest
  {
  }

  lemma ClosingOfFenced(body: string)
    ensures DropClosingFence(body + "\n" + Fence) == body
  {
    var w := body + "\n" + Fence;
    assert w[|w| - 4..] == "\n" + Fence;
  }

  /** An answer that does not start with a fence once stripped is only stripped. */
  lemma StripFencesUnfenced(raw: string)
    requires !StartsWith(Strip(raw), Fence)
    ensures StripFences(raw) == Strip(raw)
  {
  }

  lemma LStripStopsAtNonSpace(s: string)
    requires s != [] && !IsSpace(s[0])
    ensures LStrip(s) == s
  {
  }

  lemma RStripStopsAtNonSpace(s: string)
    requires s != [] && !IsSpace(s[|s| - 1])
    ensures RStrip(s) == s
  {
  }

  // ---------------------------------------------------------------------------------------------
  // _dict_to_resume_data

  function ToContact(c: RawContact): Contact {
    Contact(
      c.name.GetOr(""), c.email.GetOr(""), c.phone.GetOr(""), c.location.GetOr(""),
      c.linkedin.GetOr(""), c.github.GetOr(""), c.website.GetOr(""))
  }

  function ToExperience(e: RawExperience): Experience {
    Experience(
      e.company.GetOr(""), e.role.GetOr(""), e.duration.GetOr(""), e.location.GetOr(""),
      e.highlights.GetOr([]))
  }

  function ToProject(p: RawProject): Project {
    Project(
      p.name.GetOr(""), p.description.GetOr(""), p.techStack.GetOr([]), p.url.GetOr(""),
      p.githubUrl.GetOr(""))
  }

  function ToEducation(e: RawEducation): Education {
    Education(
      e.institution.GetOr(""), e.degree.GetOr(""), e.fieldOfStudy.GetOr(""),
      e.graduationYear.GetOr(""), e.gpa.GetOr(""))
  }

  /**
   * `_dict_to_resume_data`: every absent key becomes "" or []; the experience, project and
   * education lists keep their length and order, entry by entry.
   */
  function DictToResumeData(d: RawResume): (r: ResumeData)
    ensures d.contact.None? ==> r.contact == EmptyContact
    ensures d.contact.Some? ==> r.contact == ToContact(d.contact.value)
    ensures r.summary == d.summary.GetOr("")
    ensures r.skills == d.skills.GetOr([])
    ensures r.certifications == d.certifications.GetOr([])
    ensures r.languages == d.languages.GetOr([])
    ensures |r.experience| == |d.experience.GetOr([])|
    ensures forall i :: 0 <= i < |r.experience| ==> r.experience[i] == ToExperience(d.experience.value[i])
    ensures |r.projects| == |d.projects.GetOr([])|
    ensures forall i :: 0 <= i < |r.projects| ==> r.projects[i] == ToProject(d.projects.value[i])
    ensures |r.education| == |d.education.GetOr([])|
    ensures forall i :: 0 <= i < |r.education| ==> r.education[i] == ToEducation(d.education.value[i])
  {
    var contact := ToContact(d.contact.GetOr(RawContact(None, None, None, None, None, None, None)));
    var exps := d.experience.GetOr([]);
    var projs := d.projects.GetOr([]);
    var edus := d.education.GetOr([]);
    ResumeData(
      contact,
      d.summary.GetOr(""),
      d.skills.GetOr([]),
      seq(|exps|, i requires 0 <= i < |exps| => ToExperience(exps[i])),
      seq(|projs|, i requires 0 <= i < |projs| => ToProject(projs[i])),
      seq(|edus|, i requires 0 <= i < |edus| => ToEducation(edus[i])),
      d.certifications.GetOr([]),
      d.languages.GetOr([]))
  }

  /** An object with no keys at all maps to the record with every default. */
  lemma EmptyDictDefaults()
    ensures DictToResumeData(RawResume(None, None, None, None, None, None, None, None)) == EmptyResume
  {
  }

  /** `ResumeData.to_dict`: every key present. */
  function ToDict(r: ResumeData): RawResume {
    var c := r.contact;
    RawResume(
      Some(RawContact(
        Some(c.name), Some(c.email), Some(c.phone), Some(c.location), Some(c.linkedin),
        Some(c.github), Some(c.website))),
      Some(r.summary),
      Some(r.skills),
      Some(seq(|r.experience|, i requires 0 <= i < |r.experience| =>
        var e := r.experience[i];
        RawExperience(Some(e.company), Some(e.role), Some(e.duration), Some(e.location), Some(e.highlights)))),
      Some(seq(|r.projects|, i requires 0 <= i < |r.projects| =>
        var p := r.projects[i];
        RawProject(Some(p.name), Some(p.description), Some(p.techStack), Some(p.url), Some(p.githubUrl)))),
      Some(seq(|r.education|, i requires 0 <= i < |r.education| =>
        var e := r.education[i];
        RawEducation(Some(e.institution), Some(e.degree), Some(e.fieldOfStudy), Some(e.graduationYear), Some(e.gpa)))),
      Some(r.certifications),
      Some(r.languages))
  }

  /** Mapping the dictionary of a record back gives the record: no field is lost or altered. */
  lemma DictRoundTrip(r: ResumeData)
    ensures DictToResumeData(ToDict(r)) == r
  {
    var back := DictToResumeData(ToDict(r));
    assert back.experience == r.experience;
    assert back.projects == r.projects;
    assert back.education == r.education;
  }

  // ---------------------------------------------------------------------------------------------
  // extract

  /** The answer of the provider the extractor selected. */
  function CallProvider(ex: ResumeExtractor, llm: LlmServices, text: string): Result<string, Exception> {
    if ex.provider == "groq" then llm.groq(text) else llm.ollama(text)
  }

  /** What `extract` returns or raises. */
  function ExtractResult(ex: ResumeExtractor, text: string, llm: LlmServices, parse: JsonParser)
    : (r: Result<ResumeData, Exception>)
    ensures IsBlank(text) ==> r == Failure(ValueError(EmptyTextMessage))
    ensures !IsBlank(text) && CallProvider(ex, llm, Truncate(text)).Failure? ==>
      r == Failure(CallProvider(ex, llm, Truncate(text)).error)
    ensures r.Success? ==>
      && !IsBlank(text)
      && CallProvider(ex, llm, Truncate(text)).Success?
      && ParseResult(CallProvider(ex, llm, Truncate(text)).value, parse).Success?
      && r.value == DictToResumeData(ParseResult(CallProvider(ex, llm, Truncate(text)).value, parse).value)
    ensures !IsBlank(text) && CallProvider(ex, llm, Truncate(text)).Success? ==>
      var parsed := ParseResult(CallProvider(ex, llm, Truncate(text)).value, parse);
      && (parsed.Success? ==> r == Success(DictToResumeData(parsed.value)))
      && (parsed.Failure? ==> r == Failure(parsed.error))
  {
    if IsBlank(text) then Failure(ValueError(EmptyTextMessage))
    else
      match CallProvider(ex, llm, Truncate(text))
      case Failure(e) => Failure(e)
      case Success(raw) =>
        match ParseResult(raw, parse)
        case Failure(e) => Failure(e)
        case Success(d) => Success(DictToResumeData(d))
  }

  /**
   * `extract`: blank text is refused before any provider is called; otherwise the provider is
   * sent the text, truncated, and its answer is parsed and mapped. `sent` is what the provider
   * received, `None` when no call was made.
   */
  method Extract(ex: ResumeExtractor, resumeText: string, llm: LlmServices, parse: JsonParser)
    returns (r: Result<ResumeData, Exception>, sent: Option<string>)
    ensures sent.None? <==> IsBlank(resumeText)
    ensures sent.Some? ==> sent.value == Truncate(resumeText)
    ensures r == ExtractResult(ex, resumeText, llm, parse)
  {
    if Strip(resumeText) == "" {
      return Failure(ValueError(EmptyTextMessage)), None;
    }
    var text := resumeText;
    if |text| > MaxChars {
      text := text[..MaxChars] + TruncationMarker;
    }
    sent := Some(text);
    var answer := CallProvider(ex, llm, text);
    if answer.Failure? {
      return Failure(answer.error), sent;
    }
    var parsed := ParseResponse(answer.value, parse);
    if parsed.Failure? {
      return Failure(parsed.error), sent;
    }
    r := Success(DictToResumeData(parsed.value));
  }
}
