# Resume to portfolio: a Dafny model

The system turns an uploaded PDF resume into a portfolio page. Its backend does four things:

- It reads the text out of the PDF with pdfplumber, falling back to PyMuPDF when too little text comes back, and cleans that text.
- It asks a language model (Ollama or Groq) to turn the text into a typed resume record.
- It enriches the record with the owner's GitHub profile: languages, pinned or most-starred repositories, and repositories merged into the project list.
- It serves all of this from one FastAPI upload endpoint.

The frontend shows the record in one of three templates: Minimal, Classic or Bold.

The model has one Dafny module per concern:

- **`Text`** (`text.dfy`): the Python string operations the backend relies on: `strip`, `split`, `join`, `lower` and `replace`.
- **`Sorting`** (`sorting.dfy`): Python's stable `sorted` with a key, proved sorted, a permutation, and order-preserving among equal keys.
- **`ResumeModel`** (`resume.dfy`): the resume dataclasses.
- **`Files`** (`files.dfy`): the file system as a map from paths to bytes.
- **`PdfText`** (`parser.dfy`): grouping positioned words into lines, `_clean_text`, and the choice between the two PDF readers.
- **`GitHub`** (`github.dfy`): username extraction, fork filtering, the language ranking, the top-repository fallback, and the enricher with its token and headers.
- **`Extractor`** (`extractor.dfy`): provider selection, the empty-text guard, truncation, fence stripping, and the dictionary-to-record mapping.
- **`Pipeline`** (`pipeline.dfy`): the in-place project merge, `run`, and `PortfolioData.to_dict`.
- **`Api`** (`api.dfy`): upload validation, status mapping, and removal of the temporary file.
- **`View`** (`view.dfy`): what the three templates share: contact links, href normalisation, project cards and section visibility.
- **`MinimalTemplate`**, **`ClassicTemplate`** and **`BoldTemplate`** (`minimal.dfy`, `classic.dfy`, `bold.dfy`): each template's own layout, as a pure function from a resume record to a page of abstract blocks.

Code that changes state step by step is modelled as methods proved against specification functions:

- the line-grouping loop;
- the ligature replacement loop;
- the language count;
- the repository loop;
- the project merge, which appends to a `ResumeObject`'s record in place;
- the pipeline's `run`;
- the upload handler, which writes and removes a file in a `FileSystem` object.

The pure parts are functions with lemmas about them.

## Model

| member | source | states |
|---|---|---|
| Text.SplitJoin | resume_parser/parser.py:119-121 | splitting a join of separator-free lines at the separator gives the lines back |
| Text.JoinSplit | frontend/app/components/templates/Bold.tsx:47-49 | joining the pieces of a split with the separator gives the original string back |
| Text.StripIdem | resume_parser/parser.py:123 | stripping twice is stripping once |
| Sorting.StableSort | resume_parser/parser.py:69 | the sorted sequence has the input's length and is a permutation of it |
| Sorting.StableSortSorted | resume_parser/parser.py:69 | the result is ordered by the key |
| Sorting.StableSortStable | resume_parser/github_enricher.py:207 | for every key, the elements with that key keep their input order (Python's sort is stable) |
| Sorting.InsertWithKey | resume_parser/github_enricher.py:207 | inserting an element adds it to the sub-sequence of its key only, in front of the equal elements already there |
| Sorting.WithKeyPrefix | resume_parser/github_enricher.py:82 | the elements of a prefix with one key form a prefix of the whole sequence's elements with that key |
| PdfText.RoundDiv | resume_parser/parser.py:69 | `round(n / d)` is within half of `d` from `n`, and on an exact tie it is even (banker's rounding) |
| PdfText.GroupWordsIntoLines | resume_parser/parser.py:64-82 | no words give no lines; the lines concatenate to exactly the words in sort-key order; every line is non-empty, consecutive words in a line are at most the tolerance apart vertically, and every line break is a gap above the tolerance |
| PdfText.CutLines | resume_parser/parser.py:70-81 | the loop over sorted words produces lines that concatenate to its input, each non-empty and close, with a gap above the tolerance between lines |
| PdfText.SortedWordsOrdered | resume_parser/parser.py:69 | the sorted words are a permutation of the words, ordered by rounded `top` and then `x0` |
| PdfText.CleanText | resume_parser/parser.py:98-123 | the replacement loop, collapse, filter and strip compute `Clean` of the text |
| PdfText.ReplaceAllRemoves | resume_parser/parser.py:112-113 | after the first n replacements none of those n characters is left, and every character is from the input or ASCII |
| PdfText.CleanHasNoLigature | resume_parser/parser.py:106-113 | the cleaned text holds none of the twelve mapped ligature and punctuation characters |
| PdfText.CleanIsStripped | resume_parser/parser.py:123 | the cleaned text neither starts nor ends with whitespace |
| PdfText.CleanHasNoBlankLine | resume_parser/parser.py:119-123 | every line of non-empty cleaned text has more than one non-space character or is one letter |
| PdfText.FilterLines | resume_parser/parser.py:118-120 | a line is kept exactly when it passes the keep test (more than one character once stripped, or alphabetic) |
| PdfText.FilterLinesCount | resume_parser/parser.py:120 | a passing line is kept as many times as it occurs; any other line is dropped |
| PdfText.FilterLinesAppend | resume_parser/parser.py:120 | filtering goes line by line: the kept lines of two parts are kept in order, one part after the other |
| PdfText.FilterLinesKeepsPassing | resume_parser/parser.py:120 | lines that all pass are kept unchanged |
| PdfText.CollapseKeepsChars | resume_parser/parser.py:116 | collapsing introduces no character that was not in the text |
| PdfText.CollapseRun | resume_parser/parser.py:115-116 | a run of three or more newlines becomes two newlines; a shorter run stays as it is |
| PdfText.CollapseAround | resume_parser/parser.py:116 | a character other than a newline splits the text into two parts that collapse separately; together with `CollapseRun`, this fixes the result for every text |
| PdfText.ExtractTextFromPdf | resume_parser/parser.py:13-25 | the PyMuPDF text is used exactly when the stripped pdfplumber text is shorter than 100 characters, and the result is always the cleaned text |
| GitHub.UserRun | resume_parser/github_enricher.py:107-109 | the longest prefix made of `[A-Za-z0-9-]` characters |
| GitHub.SearchFrom | resume_parser/github_enricher.py:107 | the first position at or after the start where `github.com/` is followed by a `[A-Za-z0-9-]` character, or none when there is no such position; a `github.com/` with no such character after it is not a match, as for `re.search` with the `+` group |
| GitHub.SearchFindsFirst | resume_parser/github_enricher.py:107 | the search from the start finds exactly the leftmost position where `github.com/` is followed by a `[A-Za-z0-9-]` character |
| GitHub.ExtractUsername | resume_parser/github_enricher.py:98-111 | empty input gives ""; when some `github.com/` is followed by a `[A-Za-z0-9-]` character, the non-empty user-name run after the leftmost such one; otherwise the stripped input with its leading `@`s removed |
| GitHub.BareHostSkipped | resume_parser/github_enricher.py:107-109 | "github.com/ github.com/bob" gives "bob", and "github.com/" alone has no match: the first occurrence of the host is not always the match |
| GitHub.ReposFromExact | resume_parser/github_enricher.py:128-141 | a repository is returned exactly when it comes from a non-fork entry, with missing fields defaulted |
| GitHub.ReposFromDefaults | resume_parser/github_enricher.py:130-140 | no returned repository is marked pinned, and there are at most as many as entries |
| GitHub.PinnedRepos | resume_parser/github_enricher.py:143-198 | nothing without a token; every returned repository is marked pinned; with a token and a well-formed answer, one repository per node |
| GitHub.Langs | resume_parser/github_enricher.py:202-205 | a language is counted if and only if it is non-empty and some repository has it |
| GitHub.LangsCount | resume_parser/github_enricher.py:202-205 | a non-empty language is counted once for each repository that has it |
| GitHub.FirstSeen | resume_parser/github_enricher.py:202-205 | the dictionary's keys are exactly the languages seen |
| GitHub.FirstSeenDistinct | resume_parser/github_enricher.py:202-205 | the dictionary's keys are distinct |
| GitHub.RankingSpec | resume_parser/github_enricher.py:200-208 | the ranking holds each language once, exactly the languages seen, none empty, by count descending, ties in first-seen order |
| GitHub.GetTopLanguages | resume_parser/github_enricher.py:200-208 | the counting loop returns the first `top_n` of the ranking |
| GitHub.Take | resume_parser/github_enricher.py:208 | a slice `s[:n]` is a prefix of length `min(n, len(s))` |
| GitHub.TopReposSpec | resume_parser/github_enricher.py:80-82 | pinned repositories when there are any; otherwise six of the fetched repositories (all of them when there are fewer), by stars descending, equal stars in original order, and no repository left out has more stars than one kept |
| GitHub.StarsDescending | resume_parser/github_enricher.py:81 | any prefix of the star-sorted repositories is in non-increasing star order |
| GitHub.LeftOutFewerStars | resume_parser/github_enricher.py:81 | any repository past a cut of the star-sorted list has no more stars than any repository before the cut |
| GitHub.GitHubEnricher.constructor | resume_parser/github_enricher.py:51-58 | the given token, else `GITHUB_TOKEN`; the Authorization header is present exactly when there is a token, as `Bearer` plus the token |
| GitHub.GitHubEnricher.GetRepos | resume_parser/github_enricher.py:119-141 | the loop returns the non-fork repositories of the answer, none marked pinned |
| GitHub.GitHubEnricher.Fetch | resume_parser/github_enricher.py:60-96 | no profile and no request for an empty user name; otherwise the profile for the extracted name, with no pinned repositories without a token |
| Extractor.NewExtractor | backend/extractor.py:154-168 | the lowercased provider; `groq` with no key is a ValueError; any other value is `ollama`; a groq extractor holds a non-empty key |
| Extractor.DefaultProvider | backend/extractor.py:155-166 | with nothing set, the extractor is Ollama's `llama3.1` at `http://localhost:11434` |
| Extractor.Truncate | backend/extractor.py:176-177 | text up to 12000 characters is unchanged; longer text becomes its first 12000 characters plus the truncation marker |
| Extractor.TruncateIdempotent | backend/extractor.py:176-177 | truncating twice is truncating once |
| Extractor.DropOpeningFence | backend/extractor.py:237 | removes exactly the longest of the prefixes ```` ```json\n ````, ```` ```json ````, ```` ```\n ```` and ```` ``` ```` that the text starts with, as the greedy `^```(?:json)?\n?` does |
| Extractor.DropClosingFence | backend/extractor.py:238 | removes a trailing ```` \n``` ```` or, without the newline, a trailing ```` ``` ````; a text without a closing fence is unchanged |
| Extractor.ParseResult | backend/extractor.py:233-243 | parseable fence-stripped text gives the parsed object; unparseable text gives a ValueError with the invalid-JSON prefix, the decoder message and the raw response |
| Extractor.ParseResponse | backend/extractor.py:233-243 | the step-by-step stripping computes `ParseResult` |
| Extractor.StripFencesFenced | backend/extractor.py:235-238 | a body wrapped in a fence, with or without the `json` tag, is recovered exactly |
| Extractor.FencedIsStripped | backend/extractor.py:235 | a fenced answer has no surrounding whitespace to strip |
| Extractor.OpeningOfFenced | backend/extractor.py:237 | the opening fence, tag and newline of a fenced answer are removed exactly |
| Extractor.ClosingOfFenced | backend/extractor.py:238 | the closing newline and fence are removed exactly |
| Extractor.StripFencesUnfenced | backend/extractor.py:236 | text that does not start with a fence is only stripped |
| Extractor.DictToResumeData | backend/extractor.py:245-300 | a missing contact gives empty fields and a present one has every absent field defaulted; summary, skills, certifications and languages default to "" or []; the experience, project and education lists keep their length and order, entry by entry |
| Extractor.EmptyDictDefaults | backend/extractor.py:245-300 | an empty dictionary gives the all-default record |
| Extractor.DictRoundTrip | backend/extractor.py:245-300 | mapping the dictionary of a record gives the record back |
| Extractor.ExtractResult | backend/extractor.py:170-185 | blank text is a ValueError; a provider failure is passed through; after a provider answer, a parse failure is passed through and a parsed dictionary gives its mapped record |
| Extractor.Extract | backend/extractor.py:170-185 | no provider call for blank text; otherwise the provider is sent the truncated text; the result is `ExtractResult` |
| Files.WriteThenUnlink | backend/api.py:59-77 | writing a new path and unlinking it leaves the file system as it was |
| Files.FileSystem.Write | backend/api.py:59-61 | the path now holds the contents; nothing else changes |
| Files.FileSystem.Unlink | backend/api.py:76-77 | the path is gone; nothing else changes |
| Pipeline.ToDict | backend/pipeline.py:23-28 | exactly the keys `resume` and `github`; the resume entry maps back to the record; `github` is None exactly when there is no profile |
| Pipeline.ToDictOmitsRawText | backend/pipeline.py:23-28 | the raw text does not affect the dictionary |
| Pipeline.ResumeObject.constructor | backend/pipeline.py:102-104 | the mutable resume object passed to the merge holds the given record |
| Pipeline.RepoProject | backend/pipeline.py:115-120 | name, description and GitHub URL from the repository, an empty URL, and the language as the only technology, or none when it is empty |
| Pipeline.Seen | backend/pipeline.py:111-121 | the names seen are the existing ones plus every lowercased repository name |
| Pipeline.MergeGithubProjects | backend/pipeline.py:102-123 | the same object is returned; its projects are the old projects followed by the new ones; nothing else in the record changes |
| Pipeline.MergeStep | backend/pipeline.py:113-121 | one loop step adds the repository's name to the seen set and appends its project exactly when the name was unseen |
| Pipeline.NewProjectsFromRepos | backend/pipeline.py:113-121 | every appended project comes from one of the repositories, and there are no more of them than repositories |
| Pipeline.NewProjectsNames | backend/pipeline.py:111-121 | the seen names are the existing names plus the appended projects' names, and no appended name was already there |
| Pipeline.NewProjectsDistinct | backend/pipeline.py:114-121 | no two appended projects share a name, case-insensitively |
| Pipeline.AppendedIff | backend/pipeline.py:113-121 | a repository is appended exactly when its lowercased name matches no existing project and no earlier appended one |
| Pipeline.NothingNewWhenKnown | backend/pipeline.py:114 | repositories whose names are all known add nothing |
| Pipeline.MergeIdempotent | backend/pipeline.py:102-123 | merging the same repositories a second time adds nothing |
| Pipeline.AllAppended | backend/pipeline.py:113-121 | new, distinct names are all appended, in order |
| Pipeline.Handle | backend/pipeline.py:85 | the non-empty `github_username` wins; otherwise the contact's GitHub handle |
| Pipeline.Merged | backend/pipeline.py:90-92 | the extracted projects stay an unchanged prefix; no profile means no change |
| Pipeline.RunResult | backend/pipeline.py:73-74 | a missing PDF is a FileNotFoundError before anything else |
| Pipeline.RunResultSpec | backend/pipeline.py:58-100 | a successful run carries the extracted text and the extracted record, whose projects it only extends; no handle means no profile; with the file present, the run fails exactly when extraction fails, with the same exception, so the GitHub step never fails the run |
| Pipeline.ResumePipeline.constructor | backend/pipeline.py:42-47 | the extractor as given and the enricher's token as `GitHubEnricher` chooses it |
| Pipeline.ResumePipeline.New | backend/pipeline.py:42-47 | construction fails exactly when the extractor's does, with its error; otherwise it holds that extractor and the chosen token |
| Pipeline.ResumePipeline.Enrich | backend/pipeline.py:85-92 | the profile fetched for the chosen handle, and the record merged with it |
| Pipeline.ResumePipeline.Run | backend/pipeline.py:58-100 | the sequence of steps computes `RunResult` |
| Api.Rejection | backend/api.py:49-56 | a name not ending in `.pdf` is refused first; a PDF is refused exactly when it is over 10 MiB; every refusal is a 400 |
| Api.ExactLimitAccepted | backend/api.py:53-56 | exactly 10 MiB is accepted |
| Api.ErrorResponse | backend/api.py:70-74 | ValueError is a 422 with its message; anything else is a 500 with `Parsing failed: ` and the message |
| Api.UsernameArg | backend/api.py:66 | an empty user name is passed on as None |
| Api.ParseResumeResult | backend/api.py:43-77 | a refused upload is answered with its refusal; otherwise the run gets the upload and `UsernameArg` of the user name, a failure of the run is answered with `ErrorResponse` of its exception, and a success with `ToDict` of its data; a success has exactly the keys `resume` and `github` |
| Api.ParseResume | backend/api.py:43-77 | the file system is as it was before, whatever the outcome, and the answer is `ParseResumeResult` |
| View.Shown | frontend/app/components/templates/Minimal.tsx:48 | a string is shown exactly when it is non-empty |
| View.Filter | frontend/app/components/templates/Minimal.tsx:39-46 | the kept items are exactly the input items that pass the test |
| View.FilterOrdered | frontend/app/components/templates/Minimal.tsx:39-46 | filtering keeps the input order |
| View.FilterNone | frontend/app/components/templates/Minimal.tsx:39-46 | when nothing passes the test, nothing is kept |
| View.LinkOrText | frontend/app/components/templates/Bold.tsx:213-227 | a link exactly when an href is given and non-empty, else plain text with the same label |
| View.WithScheme | frontend/app/components/templates/Minimal.tsx:43-44 | a value starting with `http` is used as-is; otherwise it is appended to the profile base |
| View.WithSchemeIsUrl | frontend/app/components/templates/Minimal.tsx:43-44 | with an `http` base, the href always starts with `http` |
| View.WithSchemeIdempotent | frontend/app/components/templates/Minimal.tsx:43-44 | normalising an href twice is normalising once |
| View.ContactEntry | frontend/app/components/templates/Minimal.tsx:39-46 | email is a `mailto:` link captioned with the address; phone and location are plain text; GitHub is a link captioned `GitHub` to the value, or to `https://github.com/` plus the value when it does not start with `http`; LinkedIn is the same with `https://linkedin.com/in/`; the website is a link to its raw value |
| View.ContactRowSpec | frontend/app/components/templates/Classic.tsx:24-31 | a contact kind is in the row exactly when its field is non-empty, with its entry, in the fixed email, phone, location, GitHub, LinkedIn, website order |
| View.RowSpec | frontend/app/components/templates/Bold.tsx:58-65 | the same for any ranked order listing every kind |
| View.NoContactsNoRow | frontend/app/components/templates/Minimal.tsx:39-46 | no contact fields give an empty row |
| View.InContactOrder | frontend/app/components/templates/Minimal.tsx:39-46 | every contact kind has a place in the row order |
| View.JobOf | frontend/app/components/templates/Classic.tsx:131 | the highlight list exists exactly when there are highlights |
| View.CardOf | frontend/app/components/templates/Minimal.tsx:102-113 | the GitHub and URL links exist exactly when set; tech chips exist in Minimal only for a non-empty stack, and always in the other templates |
| View.SchoolOf | frontend/app/components/templates/Minimal.tsx:128-135 | field of study only in Minimal and only when set; the year when set; `GPA: ` and the GPA when set |
| View.SectionOf | frontend/app/components/templates/Minimal.tsx:52-163 | a section carries its kind and its title |
| View.ShownKindsSpec | frontend/app/components/templates/Minimal.tsx:52-163 | a section kind is shown exactly when it is in the template's order and has content, in that order |
| View.SectionsSpec | frontend/app/components/templates/Bold.tsx:70-196 | each shown section is the section of its kind, exactly the kinds with content, in the template's order |
| View.NoContentNoSections | frontend/app/components/templates/Classic.tsx:39-170 | a record without content shows no section |
| View.FirstRole | frontend/app/components/templates/Minimal.tsx:32-34 | the first experience's role, exactly when there is one and it is non-empty |
| MinimalTemplate.Initial | frontend/app/components/templates/Minimal.tsx:28 | one character: the name's first, or `?` for an empty name |
| MinimalTemplate.NavLinksFixed | frontend/app/components/templates/Minimal.tsx:16-17 | always the four links `#about`, `#experience`, `#projects` and `#education` |
| MinimalTemplate.RankIncreasing | frontend/app/components/templates/Minimal.tsx:52-163 | the section order runs Skills, Experience, Projects, Education, Languages, Certifications |
| MinimalTemplate.EveryKindButProfile | frontend/app/components/templates/Minimal.tsx:52-163 | every section kind except the profile paragraph has a place |
| MinimalTemplate.KindsShown | frontend/app/components/templates/Minimal.tsx:52-163 | each of the six sections is shown exactly when its list is non-empty, in the fixed order |
| MinimalTemplate.NameOnly | frontend/app/components/templates/Minimal.tsx:39-163 | a record with only a name has no contact row and no section |
| ClassicTemplate.Subtitle | frontend/app/components/templates/Classic.tsx:18-21 | `role · company` of the first experience, exactly when that role is non-empty |
| ClassicTemplate.RankIncreasing | frontend/app/components/templates/Classic.tsx:39-170 | the sidebar order is Skills, Languages, Certifications, Education; the main order is Profile, Experience, Projects |
| ClassicTemplate.OneColumnEach | frontend/app/components/templates/Classic.tsx:39-170 | every section kind is in exactly one column |
| ClassicTemplate.SidebarShown | frontend/app/components/templates/Classic.tsx:39-100 | each sidebar section is shown exactly when its list is non-empty, in the sidebar order |
| ClassicTemplate.MainShown | frontend/app/components/templates/Classic.tsx:103-170 | Profile is shown exactly when there is a summary; Experience and Projects exactly when non-empty, in that order |
| ClassicTemplate.NoFieldOfStudy | frontend/app/components/templates/Classic.tsx:88-94 | no education entry shows a field of study |
| ClassicTemplate.TechAlwaysShown | frontend/app/components/templates/Classic.tsx:159-163 | every project has a chip row, even with an empty stack |
| ClassicTemplate.NameOnly | frontend/app/components/templates/Classic.tsx:18-170 | a record with only a name has no subtitle and no section in either column |
| BoldTemplate.Badge | frontend/app/components/templates/Bold.tsx:42 | the first role, or `Developer` when there is none; never empty |
| BoldTemplate.NameWords | frontend/app/components/templates/Bold.tsx:47-49 | at least one word; only the first is not accented; no word holds a space |
| BoldTemplate.NameWordsRoundTrip | frontend/app/components/templates/Bold.tsx:47-49 | the words joined with spaces give the name back |
| BoldTemplate.SingleWord | frontend/app/components/templates/Bold.tsx:47-49 | a name without a space is one plain word |
| BoldTemplate.Number | frontend/app/components/templates/Bold.tsx:74-185 | each number is two digits, `0` and then a digit from `1`, up to `6` for every section Bold shows |
| BoldTemplate.NumbersByPosition | frontend/app/components/templates/Bold.tsx:74-185 | the numbers run from `01` for Skills to `06` for Certifications |
| BoldTemplate.RankIncreasing | frontend/app/components/templates/Bold.tsx:70-196 | the section order runs Skills, Experience, Projects, Education, Languages, Certifications |
| BoldTemplate.EveryKindButProfile | frontend/app/components/templates/Bold.tsx:70-196 | every section kind except the profile paragraph has a place |
| BoldTemplate.KindsShown | frontend/app/components/templates/Bold.tsx:70-196 | each of the six sections is shown exactly when its list is non-empty, in the fixed order |
| BoldTemplate.NumbersRise | frontend/app/components/templates/Bold.tsx:74-185 | numbers are not renumbered: those shown rise strictly, with gaps for missing sections |
| BoldTemplate.OpensAtTwo | frontend/app/components/templates/Bold.tsx:72-97 | without skills but with experience, the first number is `02` |
| BoldTemplate.NameOnly | frontend/app/components/templates/Bold.tsx:42-196 | a record with only a name shows the `Developer` badge, no contact pills and no section |

## Left out

- Network calls are inputs of the model. These are `_get_user`, the repository listing, the GraphQL request, `_call_ollama` and `_call_groq`. `GitHubApi` and `LlmServices` hold their answers. `GitHubEnricher.Fetch` records the URLs it requests, but not their parameters or headers.
- The PDF libraries are two functions from file bytes to text (`Pipeline.PdfReaders`). This covers page iteration, the 5% crop with float arithmetic, `extract_words`, and joining words, lines and pages (resume_parser/parser.py:28-61, 85-95). Exceptions raised by the libraries are not modelled.
- Word coordinates are integers, not floats. `round(top / y_tolerance)` is modelled exactly for integers by `PdfText.RoundDiv`.
- `json.loads` is a parameter (`Extractor.JsonParser`) that returns the parsed dictionary or an error message. JSON `null` values and wrongly typed fields are not modelled: a key is either present with the right type or absent. The same holds for the GitHub answers (`UserData`, `RawRepo`, `PinnedNode`): a `null` that Python would read as `None` through `.get(key, default)` is modelled as the default.
- The regular expressions are written out as the functions they compute: `github\.com/([A-Za-z0-9-]+)` in `GitHub.ExtractUsername`, and `\n{3,}` in `PdfText.CollapseNewlines`. A match is the leftmost `github.com/` followed by a user-name character. That is not always the leftmost `github.com/`, and `GitHub.BareHostSkipped` shows the difference.
- `str.lower` and `str.isalpha` are modelled on ASCII letters only. `str.strip` and `str.isspace` use Python's full whitespace set.
- Module-level construction of the pipeline in backend/api.py:37-40 is left out. It passes `anthropic_api_key`, which `ResumePipeline.__init__` (backend/pipeline.py:42-45) does not accept. `Api.ParseResume` takes an already-constructed `ResumePipeline` instead.
- The relative import at backend/pipeline.py:109 is not modelled. The merge uses the same `Project` record as the rest of the model.
- The temporary file's name is a parameter, `tmpPath`, assumed not to exist yet. The `tempfile` machinery is not modelled.
- These are left out: FastAPI and CORS wiring, the health endpoint, and `print` logging.
- Template styling, icons and hover handlers are left out. The page records (`Render` in each template) compose the modelled parts and have no contract of their own.
- The Minimal navigation links always point to the four anchors, even when the target section is not rendered. The model states this fact (`MinimalTemplate.NavLinksFixed`) but does not model the page's anchors.
- `BoldTemplate.NameWords` takes the name as a string. A name that is entirely absent (`contact.name` undefined, which gives no words) cannot arise, because `Extractor.DictToResumeData` defaults a missing name to "". For an empty name, the model gives one empty word, as `"".split(" ")` does.
- MinimalTemplate.Initial: it takes the name's first code point. `contact.name?.[0]` takes the first UTF-16 code unit, so for a name starting with a character outside the Basic Multilingual Plane the page shows half a surrogate pair instead.
- Pipeline.MergeGithubProjects: its contract uses `old` and `modifies`, so it states the new record through `NewProjects`. The merge's properties are proved about `NewProjects` by the lemmas beside it.
- `GitHubProfile` is returned as a value. Its conversion with `asdict` inside `to_dict` is a `ProfileValue` wrapper.
- The frontend hand-off through `sessionStorage`, the theme table and the upload form are not part of this model.
