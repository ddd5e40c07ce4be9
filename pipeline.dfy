/**
 * The top-level pipeline of backend/pipeline.py: PDF text, LLM extraction and GitHub enrichment,
 * with the merge of GitHub repositories into the resume's projects and the output dictionary.
 */
module Pipeline {
  import opened Wrappers
  import opened Text
  import opened ResumeModel
  import PdfText
  import GitHub
  import Extractor
  import Files

  // ---------------------------------------------------------------------------------------------
  // PortfolioData and to_dict

  datatype PortfolioData = PortfolioData(
    resume: ResumeData,
    github: Option<GitHub.GitHubProfile>,
    rawText: string)

  /** A value of the output dictionary. */
  datatype Value =
    | Null
    | ResumeValue(resume: Extractor.RawResume)
    | ProfileValue(profile: GitHub.GitHubProfile)

  /**
   * `PortfolioData.to_dict`: exactly the keys "resume" and "github", an absent profile as None,
   * and the resume as a dictionary from which the record is read back unchanged.
   */
  function ToDict(data: PortfolioData): (d: map<string, Value>)
    ensures d.Keys == {"resume", "github"}
    ensures d["resume"].ResumeValue? && Extractor.DictToResumeData(d["resume"].resume) == data.resume
    ensures d["github"] == Null <==> data.github.None?
    ensures data.github.Some? ==> d["github"] == ProfileValue(data.github.value)
  {
    Extractor.DictRoundTrip(data.resume);
    map[
      "resume" := ResumeValue(Extractor.ToDict(data.resume)),
      "github" := if data.github.Some? then ProfileValue(data.github.value) else Null]
  }

  /** The raw text never reaches the dictionary. */
  lemma ToDictOmitsRawText(data: PortfolioData, rawText: string)
    ensures ToDict(data.(rawText := rawText)) == ToDict(data)
  {
  }

  // ---------------------------------------------------------------------------------------------
  // _merge_github_projects

  /** A resume object; `_merge_github_projects` appends to its project list in place. */
  class ResumeObject {
    var data: ResumeData

    constructor (data: ResumeData)
      ensures this.data == data
    {
      this.data := data;
    }
  }

  /** The lowercased names of the projects, as the set of line 111. */
  function ProjectNames(projects: seq<Project>): set<string> {
    set p | p in projects :: Lower(p.name)
  }

  /** The project a repository becomes (lines 115-120). */
  function RepoProject(repo: GitHub.GitHubRepo): (p: Project)
    ensures p.name == repo.name && p.description == repo.description
    ensures p.githubUrl == repo.url && p.url == ""
    ensures repo.language == "" <==> p.techStack == []
    ensures repo.language != "" ==> p.techStack == [repo.language]
  {
    Project(repo.name, repo.description, if repo.language != "" then [repo.language] else [], "", repo.url)
  }

  /** The names known after the repositories were visited: the existing ones and all of theirs. */
  function Seen(existing: set<string>, repos: seq<GitHub.GitHubRepo>): (r: set<string>)
    ensures forall x :: x in r <==> x in existing || exists i :: 0 <= i < |repos| && Lower(repos[i].name) == x
  {
    if repos == [] then existing
    else
      var prev := repos[..|repos| - 1];
      var r := Seen(existing, prev) + {Lower(repos[|repos| - 1].name)};
      assert forall i :: 0 <= i < |prev| ==> prev[i] == repos[i];
      r
  }

  /** The projects the merge appends, in the order of the repositories. */
  function NewProjects(existing: set<string>, repos: seq<GitHub.GitHubRepo>): seq<Project> {
    if repos == [] then []
    else
      var prev := repos[..|repos| - 1];
      var repo := repos[|repos| - 1];
      NewProjects(existing, prev)
        + (if Lower(repo.name) in Seen(existing, prev) then [] else [RepoProject(repo)])
  }

  /**
   * `_merge_github_projects`: every top repository whose lowercased name is not yet known is
   * appended as a project; the resume object itself is updated and returned.
   */
  method MergeGithubProjects(resume: ResumeObject, github: GitHub.GitHubProfile) returns (merged: ResumeObject)
    modifies resume
    ensures merged == resume
    ensures resume.data == old(resume.data).(projects :=
      old(resume.data.projects) + NewProjects(ProjectNames(old(resume.data.projects)), github.topRepos))
  {
    var existingNames := set p | p in resume.data.projects :: Lower(p.name);
    ghost var names0 := existingNames;
    ghost var before := resume.data.projects;
    var repos := github.topRepos;
    for i := 0 to |repos|
      invariant existingNames == Seen(names0, repos[..i])
      invariant resume.data.projects == before + NewProjects(names0, repos[..i])
      invariant resume.data == old(resume.data).(projects := resume.data.projects)
    {
      var repo := repos[i];
      MergeStep(names0, repos, i);
      if Lower(repo.name) !in existingNames {
        resume.data := resume.data.(projects := resume.data.projects + [RepoProject(repo)]);
        assert resume.data.projects == before + (NewProjects(names0, repos[..i]) + [RepoProject(repo)]);
        existingNames := existingNames + {Lower(repo.name)};
      }
    }
    assert repos[..|repos|] == repos;
    merged := resume;
  }

  /** One repository more: its name becomes known, and its project is added if the name was not. */
  lemma MergeStep(existing: set<string>, repos: seq<GitHub.GitHubRepo>, i: nat)
    requires i < |repos|
    ensures Seen(existing, repos[..i + 1]) == Seen(existing, repos[..i]) + {Lower(repos[i].name)}
    ensures NewProjects(existing, repos[..i + 1]) == NewProjects(existing, repos[..i])
      + (if Lower(repos[i].name) in Seen(existing, repos[..i]) then [] else [RepoProject(repos[i])])
  {
    assert repos[..i + 1][..i] == repos[..i];
  }

  /** The merge appends at most one project per repository, each made from one of them. */
  lemma {:induction false} NewProjectsFromRepos(existing: set<string>, repos: seq<GitHub.GitHubRepo>)
    ensures |NewProjects(existing, repos)| <= |repos|
    ensures forall p :: p in NewProjects(existing, repos) ==>
      exists i :: 0 <= i < |repos| && p == RepoProject(repos[i])
  {
    if repos != [] {
      var prev := repos[..|repos| - 1];
      NewProjectsFromRepos(existing, prev);
      forall p | p in NewProjects(existing, prev)
        ensures exists i :: 0 <= i < |repos| && p == RepoProject(repos[i])
      {
        var i :| 0 <= i < |prev| && p == RepoProject(prev[i]);
        assert prev[i] == repos[i];
      }
    }
  }

  /**
   * After the merge the known names are exactly the existing ones and those of the appended
   * projects, and no appended project reuses an existing name.
   */
  lemma {:induction false} NewProjectsNames(existing: set<string>, repos: seq<GitHub.GitHubRepo>)
    ensures Seen(existing, repos) == existing + ProjectNames(NewProjects(existing, repos))
    ensures existing * ProjectNames(NewProjects(existing, repos)) == {}
  {
    if repos != [] {
      var prev := repos[..|repos| - 1];
      var repo := repos[|repos| - 1];
      NewProjectsNames(existing, prev);
      var added := if Lower(repo.name) in Seen(existing, prev) then [] else [RepoProject(repo)];
      assert NewProjects(existing, repos) == NewProjects(existing, prev) + added;
      ProjectNamesAppend(NewProjects(existing, prev), added);
    }
  }

  lemma ProjectNamesAppend(a: seq<Project>, b: seq<Project>)
    ensures ProjectNames(a + b) == ProjectNames(a) + ProjectNames(b)
  {
    assert forall p :: p in a + b <==> p in a || p in b;
  }

  /** No two projects of `ps` share a lowercased name. */
  predicate DistinctNames(ps: seq<Project>) {
    forall k, l :: 0 <= k < l < |ps| ==> Lower(ps[k].name) != Lower(ps[l].name)
  }

  /** No two appended projects share a lowercased name. */
  lemma {:induction false} NewProjectsDistinct(existing: set<string>, repos: seq<GitHub.GitHubRepo>)
    ensures DistinctNames(NewProjects(existing, repos))
  {
    if repos != [] {
      var prev := repos[..|repos| - 1];
      var repo := repos[|repos| - 1];
      var ps0 := NewProjects(existing, prev);
      NewProjectsDistinct(existing, prev);
      if Lower(repo.name) !in Seen(existing, prev) {
        NewProjectsNames(existing, prev);
        DistinctSnoc(ps0, RepoProject(repo));
      } else {
        assert ps0 + [] == ps0;
      }
    }
  }

  lemma DistinctSnoc(ps: seq<Project>, p: Project)
    requires DistinctNames(ps)
    requires Lower(p.name) !in ProjectNames(ps)
    ensures DistinctNames(ps + [p])
  {
    assert forall k :: 0 <= k < |ps| ==> Lower(ps[k].name) in ProjectNames(ps);
  }

  /**
   * Lines 113-121 as one step: a repository is appended exactly when its lowercased name matches
   * no existing project and no project appended before it.
   */
  lemma AppendedIff(existing: set<string>, repos: seq<GitHub.GitHubRepo>, repo: GitHub.GitHubRepo)
    ensures var before := NewProjects(existing, repos);
      NewProjects(existing, repos + [repo])
        == if Lower(repo.name) in existing + ProjectNames(before) then before else before + [RepoProject(repo)]
  {
    assert (repos + [repo])[..|repos|] == repos;
    NewProjectsNames(existing, repos);
  }

  /** Repositories whose names are all known already add nothing. */
  lemma {:induction false} NothingNewWhenKnown(existing: set<string>, repos: seq<GitHub.GitHubRepo>)
    requires forall i :: 0 <= i < |repos| ==> Lower(repos[i].name) in existing
    ensures NewProjects(existing, repos) == []
  {
    if repos != [] {
      var prev := repos[..|repos| - 1];
      NothingNewWhenKnown(existing, prev);
      assert Lower(repos[|repos| - 1].name) in Seen(existing, prev);
    }
  }

  /** Merging the same profile a second time appends nothing. */
  lemma MergeIdempotent(projects: seq<Project>, repos: seq<GitHub.GitHubRepo>)
    ensures var once := projects + NewProjects(ProjectNames(projects), repos);
      NewProjects(ProjectNames(once), repos) == []
  {
    var existing := ProjectNames(projects);
    var added := NewProjects(existing, repos);
    NewProjectsNames(existing, repos);
    ProjectNamesAppend(projects, added);
    assert forall i :: 0 <= i < |repos| ==> Lower(repos[i].name) in Seen(existing, repos);
    NothingNewWhenKnown(ProjectNames(projects + added), repos);
  }

  /** With no name known and no two repositories alike, every repository is appended, in order. */
  lemma {:induction false} AllAppended(existing: set<string>, repos: seq<GitHub.GitHubRepo>)
    requires forall i :: 0 <= i < |repos| ==> Lower(repos[i].name) !in existing
    requires forall i, j :: 0 <= i < j < |repos| ==> Lower(repos[i].name) != Lower(repos[j].name)
    ensures NewProjects(existing, repos) == seq(|repos|, i requires 0 <= i < |repos| => RepoProject(repos[i]))
  {
    if repos != [] {
      var prev := repos[..|repos| - 1];
      AllAppended(existing, prev);
      assert Lower(repos[|repos| - 1].name) !in Seen(existing, prev);
    }
  }

  // ---------------------------------------------------------------------------------------------
  // run

  /** The two PDF libraries: the text each extracts from a file's bytes. */
  datatype PdfReaders = PdfReaders(
    pdfplumber: seq<Files.byte> -> string,
    pymupdf: seq<Files.byte> -> string)

  /** Line 85: the given username when it is non-empty, else the handle found in the resume. */
  function Handle(githubUsername: Option<string>, resume: ResumeData): (h: string)
    ensures githubUsername.Some? && githubUsername.value != "" ==> h == githubUsername.value
    ensures githubUsername.None? || githubUsername.value == "" ==> h == resume.contact.github
  {
    if githubUsername.Some? && githubUsername.value != "" then githubUsername.value
    else resume.contact.github
  }

  /** `extract_text_from_pdf` on the bytes of a file. */
  function ExtractedText(bytes: seq<Files.byte>, readers: PdfReaders): string {
    var primary := readers.pdfplumber(bytes);
    PdfText.Clean(if |Strip(primary)| < 100 then readers.pymupdf(bytes) else primary)
  }

  const PdfNotFound := "PDF not found: "

  /** Lines 86-89: the profile fetched for the handle, none when there is no handle. */
  function FetchFor(handle: string, token: string, api: GitHub.GitHubApi): Option<GitHub.GitHubProfile> {
    if handle == "" then None else GitHub.Profile(token, GitHub.ExtractUsername(handle), api)
  }

  /** Lines 90-92: the resume, merged with the profile's top repositories when there is one. */
  function Merged(resume: ResumeData, profile: Option<GitHub.GitHubProfile>): (r: ResumeData)
    ensures r == resume.(projects := r.projects)
    ensures |resume.projects| <= |r.projects| && r.projects[..|resume.projects|] == resume.projects
    ensures profile.None? ==> r == resume
  {
    if profile.Some? then
      var added := NewProjects(ProjectNames(resume.projects), profile.value.topRepos);
      assert (resume.projects + added)[..|resume.projects|] == resume.projects;
      resume.(projects := resume.projects + added)
    else resume
  }

  /** What `run` returns or raises. */
  function RunResult(
    extractor: Extractor.ResumeExtractor, token: string, pdfPath: string, githubUsername: Option<string>,
    files: map<string, seq<Files.byte>>, readers: PdfReaders, llm: Extractor.LlmServices,
    parse: Extractor.JsonParser, api: GitHub.GitHubApi): (r: Result<PortfolioData, Exception>)
    ensures pdfPath !in files ==> r == Failure(FileNotFoundError(PdfNotFound + pdfPath))
  {
    if pdfPath !in files then Failure(FileNotFoundError(PdfNotFound + pdfPath))
    else
      var rawText := ExtractedText(files[pdfPath], readers);
      match Extractor.ExtractResult(extractor, rawText, llm, parse)
      case Failure(e) => Failure(e)
      case Success(resume) =>
        var profile := FetchFor(Handle(githubUsername, resume), token, api);
        Success(PortfolioData(Merged(resume, profile), profile, rawText))
  }

  /**
   * A successful run carries the extracted text and the extracted record, whose projects it may
   * only extend; without a handle or without a profile the record is returned as extracted. With
   * the file present, the run fails exactly when the extraction does, with the extraction's
   * exception: the GitHub step never fails the run.
   */
  lemma RunResultSpec(
    extractor: Extractor.ResumeExtractor, token: string, pdfPath: string, githubUsername: Option<string>,
    files: map<string, seq<Files.byte>>, readers: PdfReaders, llm: Extractor.LlmServices,
    parse: Extractor.JsonParser, api: GitHub.GitHubApi)
    ensures var r := RunResult(extractor, token, pdfPath, githubUsername, files, readers, llm, parse, api);
      r.Success? ==>
        && pdfPath in files
        && r.value.rawText == ExtractedText(files[pdfPath], readers)
        && var extracted := Extractor.ExtractResult(extractor, r.value.rawText, llm, parse);
        && extracted.Success?
        && r.value.resume == extracted.value.(projects := r.value.resume.projects)
        && r.value.resume.projects[..|extracted.value.projects|] == extracted.value.projects
        && (r.value.github.None? ==> r.value.resume == extracted.value)
        && (Handle(githubUsername, extracted.value) == "" ==> r.value.github.None?)
    ensures var r := RunResult(extractor, token, pdfPath, githubUsername, files, readers, llm, parse, api);
      pdfPath in files ==>
        var extracted := Extractor.ExtractResult(extractor, ExtractedText(files[pdfPath], readers), llm, parse);
        && (r.Failure? <==> extracted.Failure?)
        && (extracted.Failure? ==> r.error == extracted.error)
  {
  }

  class ResumePipeline {
    var extractor: Extractor.ResumeExtractor
    var enricher: GitHub.GitHubEnricher

    /** `__init__` with an extractor already built from the environment. */
    constructor (extractor: Extractor.ResumeExtractor, githubToken: Option<string>, envToken: Option<string>)
      ensures this.extractor == extractor
      ensures enricher.token
        == if githubToken.Some? && githubToken.value != "" then githubToken.value else envToken.GetOr("")
    {
      this.extractor := extractor;
      this.enricher := new GitHub.GitHubEnricher(githubToken, envToken);
    }

    /**
     * `ResumePipeline.__init__`: the extractor reads the environment and may refuse it, in which
     * case no pipeline is made.
     */
    static method New(env: map<string, string>, githubToken: Option<string>)
      returns (r: Result<ResumePipeline, Exception>)
      ensures r.Failure? <==> Extractor.NewExtractor(env).Failure?
      ensures r.Failure? ==> r.error == Extractor.NewExtractor(env).error
      ensures r.Success? ==> fresh(r.value) && r.value.extractor == Extractor.NewExtractor(env).value
      ensures r.Success? ==>
        r.value.enricher.token == if githubToken.Some? && githubToken.value != "" then githubToken.value
          else Extractor.EnvGet(env, "GITHUB_TOKEN", "")
    {
      var extractor := Extractor.NewExtractor(env);
      if extractor.Failure? {
        return Failure(extractor.error);
      }
      var envToken := if "GITHUB_TOKEN" in env then Some(env["GITHUB_TOKEN"]) else None;
      var pipeline := new ResumePipeline(extractor.value, githubToken, envToken);
      r := Success(pipeline);
    }

    /** Lines 85-92: the handle, the profile fetched for it, and the merge when there is one. */
    method Enrich(extracted: ResumeData, githubUsername: Option<string>, api: GitHub.GitHubApi)
      returns (resumeData: ResumeData, githubData: Option<GitHub.GitHubProfile>)
      ensures githubData == FetchFor(Handle(githubUsername, extracted), enricher.token, api)
      ensures resumeData == Merged(extracted, githubData)
    {
      resumeData := extracted;
      var handle := if githubUsername.Some? && githubUsername.value != "" then githubUsername.value
        else resumeData.contact.github;
      githubData := None;
      if handle != "" {
        var requests;
        githubData, requests := enricher.Fetch(handle, api);
        if githubData.Some? {
          var resume := new ResumeObject(resumeData);
          resume := MergeGithubProjects(resume, githubData.value);
          resumeData := resume.data;
        }
      }
    }

    /**
     * `run`: a missing PDF is refused before anything else; otherwise the text is extracted and
     * structured, and enriched from GitHub when there is a handle and a profile.
     */
    method Run(
      pdfPath: string, githubUsername: Option<string>, fs: Files.FileSystem, readers: PdfReaders,
      llm: Extractor.LlmServices, parse: Extractor.JsonParser, api: GitHub.GitHubApi)
      returns (r: Result<PortfolioData, Exception>)
      ensures r == RunResult(extractor, enricher.token, pdfPath, githubUsername, fs.files, readers, llm, parse, api)
    {
      if !fs.Exists(pdfPath) {
        return Failure(FileNotFoundError(PdfNotFound + pdfPath));
      }
      var bytes := fs.files[pdfPath];
      var rawText, usedFallback := PdfText.ExtractTextFromPdf(readers.pdfplumber(bytes), readers.pymupdf(bytes));
      var extracted, sent := Extractor.Extract(extractor, rawText, llm, parse);
      if extracted.Failure? {
        return Failure(extracted.error);
      }
      var resumeData, githubData := Enrich(extracted.value, githubUsername, api);
      r := Success(PortfolioData(resumeData, githubData, rawText));
    }
  }
}
