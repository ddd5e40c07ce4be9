/**
 * GitHub enrichment (resume_parser/github_enricher.py): reading a user name out of what the
 * resume or the form gave, ranking the user's languages, choosing the repositories to show, and
 * the token rules. The HTTP requests are outside the model: `GitHubApi` holds what the REST and
 * GraphQL endpoints answer for each user name.
 */
module GitHub {
  import opened Wrappers
  import opened Text
  import opened Sorting

  datatype GitHubRepo = GitHubRepo(
    name: string,
    description: string,
    url: string,
    stars: int,
    forks: int,
    language: string,
    topics: seq<string>,
    isPinned: bool)

  datatype GitHubProfile = GitHubProfile(
    username: string,
    avatarUrl: string,
    bio: string,
    followers: int,
    publicRepos: int,
    topLanguages: seq<string>,
    pinnedRepos: seq<GitHubRepo>,
    topRepos: seq<GitHubRepo>)

  // ---------------------------------------------------------------------------------------------
  // What the endpoints answer. `None` stands for an absent key; a JSON null is read as the key's default.

  /** The body of a 200 answer to `GET /users/{name}`. */
  datatype UserData = UserData(
    avatarUrl: Option<string>,
    bio: Option<string>,
    followers: Option<int>,
    publicRepos: Option<int>)

  /** One element of the body of a 200 answer to `GET /users/{name}/repos`. */
  datatype RawRepo = RawRepo(
    fork: bool,
    name: Option<string>,
    description: Option<string>,
    htmlUrl: Option<string>,
    stargazersCount: Option<int>,
    forksCount: Option<int>,
    language: Option<string>,
    topics: Option<seq<string>>)

  /** One pinned repository node of a 200 answer to the GraphQL query. */
  datatype PinnedNode = PinnedNode(
    name: Option<string>,
    description: Option<string>,
    url: Option<string>,
    stargazerCount: Option<int>,
    forkCount: Option<int>,
    primaryLanguageName: Option<string>,
    topicNames: seq<string>)

  /**
   * The GitHub service, by user name. A name missing from `user` got a non-200 status or an
   * empty body; missing from `repos` or `pinned`, a non-200 status. A `pinned` entry of `None`
   * is a body without the expected keys. `unreachable` means the client raised.
   */
  datatype GitHubApi = GitHubApi(
    unreachable: bool,
    user: map<string, UserData>,
    repos: map<string, seq<RawRepo>>,
    pinned: map<string, Option<seq<PinnedNode>>>)

  const BaseUrl := "https://api.github.com"
  const GraphQlUrl := "https://api.github.com/graphql"

  // ---------------------------------------------------------------------------------------------
  // _extract_username

  /** A character of `[a-zA-Z0-9\-]`. */
  predicate IsUserChar(c: char) {
    'a' <= c <= 'z' || 'A' <= c <= 'Z' || '0' <= c <= '9' || c == '-'
  }

  /** The greedy `[a-zA-Z0-9\-]*` at the start of `s`: the longest prefix of user-name characters. */
  function UserRun(s: string): (r: string)
    ensures |r| <= |s| && r == s[..|r|]
    ensures forall i :: 0 <= i < |r| ==> IsUserChar(r[i])
    ensures |r| < |s| ==> !IsUserChar(s[|r|])
  {
    if s != [] && IsUserChar(s[0]) then [s[0]] + UserRun(s[1..]) else []
  }

  const Host := "github.com/"

  /** The pattern `github\.com/([a-zA-Z0-9\-]+)` matches starting at position `i`. */
  predicate MatchAt(raw: string, i: nat) {
    i + |Host| < |raw| && raw[i..i + |Host|] == Host && IsUserChar(raw[i + |Host|])
  }

  /** `re.search` from position `from`: the first position at or after it where the pattern matches. */
  function SearchFrom(raw: string, from: nat): (r: Option<nat>)
    ensures r.Some? ==> from <= r.value && MatchAt(raw, r.value)
    ensures r.Some? ==> forall j :: from <= j < r.value ==> !MatchAt(raw, j)
    ensures r.None? ==> forall j :: from <= j ==> !MatchAt(raw, j)
    decreases |raw| - from
  {
    if from >= |raw| then None
    else if MatchAt(raw, from) then Some(from)
    else SearchFrom(raw, from + 1)
  }

  /** The search from the start finds the first match, if there is one. */
  lemma SearchFindsFirst(raw: string)
    ensures forall i: nat :: MatchAt(raw, i) && (forall j: nat :: j < i ==> !MatchAt(raw, j)) ==>
      SearchFrom(raw, 0) == Some(i)
  {
    forall i: nat | MatchAt(raw, i) && (forall j: nat :: j < i ==> !MatchAt(raw, j))
      ensures SearchFrom(raw, 0) == Some(i)
    {
    }
  }

  /**
   * `_extract_username`: the user name after the first `github.com/` that is followed by one,
   * otherwise the input stripped of surrounding whitespace and then of leading `@`.
   */
  function ExtractUsername(raw: string): (r: string)
    ensures raw == "" ==> r == ""
    ensures forall i: nat :: MatchAt(raw, i) && (forall j: nat :: j < i ==> !MatchAt(raw, j)) ==>
      r == UserRun(raw[i + |Host|..]) && r != ""
    ensures (forall i: nat :: !MatchAt(raw, i)) ==> r == LStripChar(Strip(raw), '@')
  {
    SearchOutcome(raw);
    if raw == "" then ""
    else
      match SearchFrom(raw, 0)
      case Some(i) => UserRun(raw[i + |Host|..])
      case None => LStripChar(Strip(raw), '@')
  }

  /** The search's answer: the first match with its non-empty run, or none when nothing matches. */
  lemma SearchOutcome(raw: string)
    ensures forall i: nat :: MatchAt(raw, i) && (forall j: nat :: j < i ==> !MatchAt(raw, j)) ==>
      SearchFrom(raw, 0) == Some(i) && UserRun(raw[i + |Host|..]) != ""
    ensures (forall i: nat :: !MatchAt(raw, i)) ==> SearchFrom(raw, 0).None?
  {
    SearchFindsFirst(raw);
    forall i: nat | MatchAt(raw, i) ensures UserRun(raw[i + |Host|..]) != "" {
      assert raw[i + |Host|..][0] == raw[i + |Host|];
    }
  }

  /**
   * A `github.com/` followed by no user-name character is not a match: the search goes on to the
   * next one, and the host alone matches nowhere.
   */
  lemma BareHostSkipped()
    ensures ExtractUsername("github.com/ github.com/bob") == "bob"
    ensures SearchFrom("github.com/", 0).None?
  {
    var raw := "github.com/ github.com/bob";
    assert raw[12..12 + |Host|] == Host;
    assert MatchAt(raw, 12);
    forall j: nat | j < 12 ensures !MatchAt(raw, j) {
      if j > 0 {
        assert raw[j] != 'g';
        assert j + |Host| < |raw| ==> raw[j..j + |Host|][0] == raw[j];
      }
    }
    assert raw[12 + |Host|..] == "bob";
    assert UserRun("bob") == "bob";
  }

  // ---------------------------------------------------------------------------------------------
  // _get_repos

  /** One repository of the REST answer, with its defaults (`or ""` turns a null into ""). */
  function ToRepo(x: RawRepo): GitHubRepo {
    GitHubRepo(
      x.name.GetOr(""), x.description.GetOr(""), x.htmlUrl.GetOr(""),
      x.stargazersCount.GetOr(0), x.forksCount.GetOr(0), x.language.GetOr(""),
      x.topics.GetOr([]), false)
  }

  /** The repositories of the REST answer that are not forks, converted, in order. */
  function ReposFrom(raw: seq<RawRepo>): seq<GitHubRepo> {
    if raw == [] then []
    else
      var last := raw[|raw| - 1];
      ReposFrom(raw[..|raw| - 1]) + (if last.fork then [] else [ToRepo(last)])
  }

  /** What `_get_repos` returns for a user name: nothing unless the status was 200. */
  function Repos(username: string, api: GitHubApi): seq<GitHubRepo> {
    if username in api.repos then ReposFrom(api.repos[username]) else []
  }

  /** A repository is kept exactly when it comes from a non-fork entry of the answer. */
  lemma {:induction false} ReposFromExact(raw: seq<RawRepo>)
    ensures forall r :: r in ReposFrom(raw) <==> exists x :: x in raw && !x.fork && r == ToRepo(x)
  {
    if raw != [] {
      var init, last := raw[..|raw| - 1], raw[|raw| - 1];
      ReposFromExact(init);
      assert raw == init + [last];
      forall r | r in ReposFrom(raw) ensures exists x :: x in raw && !x.fork && r == ToRepo(x) {
        if r in ReposFrom(init) {
          var x :| x in init && !x.fork && r == ToRepo(x);
          assert x in raw;
        } else {
          assert last in raw;
        }
      }
      forall r | exists x :: x in raw && !x.fork && r == ToRepo(x) ensures r in ReposFrom(raw) {
        var x :| x in raw && !x.fork && r == ToRepo(x);
        if x in init {
          assert r in ReposFrom(init);
        } else {
          assert x == last;
        }
      }
    }
  }

  /** No converted repository is marked pinned, and there are no more of them than entries. */
  lemma {:induction false} ReposFromDefaults(raw: seq<RawRepo>)
    ensures forall i :: 0 <= i < |ReposFrom(raw)| ==> !ReposFrom(raw)[i].isPinned
    ensures |ReposFrom(raw)| <= |raw|
  {
    if raw != [] {
      ReposFromDefaults(raw[..|raw| - 1]);
    }
  }

  // ---------------------------------------------------------------------------------------------
  // _get_pinned_repos

  function ToPinned(n: PinnedNode): GitHubRepo {
    GitHubRepo(
      n.name.GetOr(""), n.description.GetOr(""), n.url.GetOr(""),
      n.stargazerCount.GetOr(0), n.forkCount.GetOr(0), n.primaryLanguageName.GetOr(""),
      n.topicNames, true)
  }

  /**
   * `_get_pinned_repos`: nothing without a token (the GraphQL API needs one), on a non-200
   * status or on a body without the expected keys; otherwise every node, marked pinned.
   */
  function PinnedRepos(token: string, username: string, api: GitHubApi): (r: seq<GitHubRepo>)
    ensures token == "" ==> r == []
    ensures forall i :: 0 <= i < |r| ==> r[i].isPinned
    ensures username in api.pinned && api.pinned[username].Some? && token != "" ==>
      |r| == |api.pinned[username].value|
  {
    if token == "" || username !in api.pinned then []
    else
      match api.pinned[username]
      case None => []
      case Some(nodes) => seq(|nodes|, i requires 0 <= i < |nodes| => ToPinned(nodes[i]))
  }

  // ---------------------------------------------------------------------------------------------
  // _get_top_languages

  /** The non-empty languages of the repositories, in order. */
  function Langs(repos: seq<GitHubRepo>): (r: seq<string>)
    ensures forall i :: 0 <= i < |r| ==> r[i] != ""
    ensures forall l :: l in r <==> l != "" && exists i :: 0 <= i < |repos| && repos[i].language == l
  {
    if repos == [] then []
    else
      var init, last := repos[..|repos| - 1], repos[|repos| - 1];
      assert forall i :: 0 <= i < |init| ==> init[i] == repos[i];
      Langs(init) + (if last.language != "" then [last.language] else [])
  }

  /** How many of the repositories have language `l`. */
  function ReposWith(repos: seq<GitHubRepo>, l: string): nat {
    if repos == [] then 0
    else ReposWith(repos[..|repos| - 1], l) + (if repos[|repos| - 1].language == l then 1 else 0)
  }

  /** Each repository with a language counts once for it: the tally of lines 203-205. */
  lemma {:induction false} LangsCount(repos: seq<GitHubRepo>, l: string)
    requires l != ""
    ensures Count(Langs(repos), l) == ReposWith(repos, l)
  {
    if repos != [] {
      var init, last := repos[..|repos| - 1], repos[|repos| - 1];
      LangsCount(init, l);
      var xs := Langs(repos);
      if last.language != "" {
        assert xs[..|xs| - 1] == Langs(init);
      } else {
        assert xs == Langs(init);
      }
    }
  }

  /** How many times `x` occurs in `xs`. */
  function Count(xs: seq<string>, x: string): nat {
    if xs == [] then 0
    else Count(xs[..|xs| - 1], x) + (if xs[|xs| - 1] == x then 1 else 0)
  }

  /** The distinct elements of `xs` in the order they are first seen (a dict's key order). */
  function FirstSeen(xs: seq<string>): (r: seq<string>)
    ensures forall x :: x in r <==> x in xs
  {
    if xs == [] then []
    else
      var init, last := xs[..|xs| - 1], xs[|xs| - 1];
      assert xs == init + [last];
      FirstSeen(init) + (if last in FirstSeen(init) then [] else [last])
  }

  predicate Distinct<T(==)>(s: seq<T>) {
    forall i, j :: 0 <= i < j < |s| ==> s[i] != s[j]
  }

  lemma {:induction false} FirstSeenDistinct(xs: seq<string>)
    ensures Distinct(FirstSeen(xs))
  {
    if xs != [] {
      FirstSeenDistinct(xs[..|xs| - 1]);
    }
  }

  lemma LangsSnoc(repos: seq<GitHubRepo>, i: nat)
    requires i < |repos|
    ensures Langs(repos[..i + 1])
      == Langs(repos[..i]) + (if repos[i].language != "" then [repos[i].language] else [])
  {
    assert repos[..i + 1][..i] == repos[..i];
  }

  lemma CountSnoc(xs: seq<string>, y: string)
    ensures forall x :: Count(xs + [y], x) == Count(xs, x) + (if y == x then 1 else 0)
  {
    assert (xs + [y])[..|xs|] == xs;
  }

  lemma {:induction false} CountAbsent(xs: seq<string>, x: string)
    requires x !in xs
    ensures Count(xs, x) == 0
  {
    if xs != [] {
      CountAbsent(xs[..|xs| - 1], x);
    }
  }

  lemma FirstSeenSnoc(xs: seq<string>, y: string)
    ensures FirstSeen(xs + [y]) == FirstSeen(xs) + (if y in xs then [] else [y])
  {
    assert (xs + [y])[..|xs|] == xs;
  }

  /** The sort key of line 207: the count, descending. */
  function CountKey(xs: seq<string>): string -> SortKey {
    (l: string) => SortKey(-(Count(xs, l) as int), 0)
  }

  /** Every language, most used first, ties in first-seen order. */
  function Ranking(repos: seq<GitHubRepo>): seq<string> {
    var langs := Langs(repos);
    StableSort(FirstSeen(langs), CountKey(langs))
  }

  /** Python's `s[:n]` for `n >= 0`. */
  function Take<T>(s: seq<T>, n: nat): (r: seq<T>)
    ensures |r| <= n && |r| <= |s| && r == s[..|r|]
    ensures |r| == if n < |s| then n else |s|
  {
    if n < |s| then s[..n] else s
  }

  /** Sorting with two keys that agree on every element gives the same order. */
  lemma {:induction false} StableSortSameKeys<T>(s: seq<T>, k1: T -> SortKey, k2: T -> SortKey)
    requires forall x :: x in s ==> k1(x) == k2(x)
    ensures StableSort(s, k1) == StableSort(s, k2)
  {
    if s != [] {
      StableSortSameKeys(s[1..], k1, k2);
      var t := StableSort(s[1..], k1);
      assert multiset(t) == multiset(s[1..]);
      forall x | x in t ensures x in s {
        assert x in multiset(t);
      }
      InsertSameKeys(s[0], t, k1, k2);
    }
  }

  lemma {:induction false} InsertSameKeys<T>(x: T, s: seq<T>, k1: T -> SortKey, k2: T -> SortKey)
    requires k1(x) == k2(x) && forall y :: y in s ==> k1(y) == k2(y)
    ensures Insert(x, s, k1) == Insert(x, s, k2)
  {
    if s != [] {
      InsertSameKeys(x, s[1..], k1, k2);
    }
  }

  /** A permutation of a sequence without repetitions has none either. */
  lemma DistinctPermutation<T>(s: seq<T>, t: seq<T>)
    requires Distinct(s) && multiset(s) == multiset(t)
    ensures Distinct(t)
  {
    forall i, j | 0 <= i < j < |t| ensures t[i] != t[j] {
      if t[i] == t[j] {
        var x := t[i];
        assert multiset(t)[x] >= 2 by {
          assert t == t[..i] + [x] + t[i + 1..j] + [x] + t[j + 1..];
        }
        DistinctCountOne(s, x);
      }
    }
  }

  lemma {:induction false} DistinctCountOne<T>(s: seq<T>, x: T)
    requires Distinct(s)
    ensures multiset(s)[x] <= 1
  {
    if s != [] {
      assert s == [s[0]] + s[1..];
      DistinctCountOne(s[1..], x);
      if s[0] == x {
        assert x !in s[1..];
      }
    }
  }

  /**
   * The ranking lists each non-empty language of the repositories once, most used first, and
   * languages used equally often stay in the order they were first seen.
   */
  lemma RankingSpec(repos: seq<GitHubRepo>)
    ensures var r, langs := Ranking(repos), Langs(repos);
      && Distinct(r)
      && (forall l :: l in r <==> l in langs)
      && (forall l :: l in r ==> l != "")
      && (forall i, j :: 0 <= i < j < |r| ==> Count(langs, r[i]) >= Count(langs, r[j]))
      && (forall k :: WithKey(r, CountKey(langs), k) == WithKey(FirstSeen(langs), CountKey(langs), k))
  {
    var langs := Langs(repos);
    var fs := FirstSeen(langs);
    var r := Ranking(repos);
    FirstSeenDistinct(langs);
    DistinctPermutation(fs, r);
    forall l ensures l in r <==> l in fs {
      assert l in r <==> l in multiset(r);
    }
    StableSortSorted(fs, CountKey(langs));
    forall k ensures WithKey(r, CountKey(langs), k) == WithKey(fs, CountKey(langs), k) {
      StableSortStable(fs, CountKey(langs), k);
    }
  }

  /**
   * `_get_top_languages`: counts the repositories per non-empty language in a dict, then returns
   * the first `topN` of the keys sorted by count, descending.
   */
  method GetTopLanguages(repos: seq<GitHubRepo>, topN: nat) returns (top: seq<string>)
    ensures top == Take(Ranking(repos), topN)
  {
    var langCount: map<string, nat> := map[];
    var order: seq<string> := [];
    for i := 0 to |repos|
      invariant order == FirstSeen(Langs(repos[..i]))
      invariant forall l :: l in langCount <==> l in order
      invariant forall l :: l in langCount ==> langCount[l] == Count(Langs(repos[..i]), l)
    {
      var repo := repos[i];
      ghost var before, after := Langs(repos[..i]), Langs(repos[..i + 1]);
      LangsSnoc(repos, i);
      if repo.language != "" {
        var l := repo.language;
        assert after == before + [l];
        CountSnoc(before, l);
        FirstSeenSnoc(before, l);
        assert l in langCount <==> l in before;
        if l !in langCount {
          CountAbsent(before, l);
        }
        var n := if l in langCount then langCount[l] else 0;
        assert n == Count(before, l);
        if l !in langCount {
          order := order + [l];
        }
        ghost var prev := langCount;
        langCount := langCount[l := n + 1];
        forall m | m in langCount ensures langCount[m] == Count(after, m) {
          if m != l {
            assert langCount[m] == prev[m];
          }
        }
      } else {
        assert after == before;
      }
    }
    assert repos[..|repos|] == repos;
    var langs := Langs(repos);
    var key := (l: string) => SortKey(-(if l in langCount then langCount[l] as int else 0), 0);
    StableSortSameKeys(order, key, CountKey(langs));
    var sortedLangs := StableSort(order, key);
    top := Take(sortedLangs, topN);
  }

  // ---------------------------------------------------------------------------------------------
  // The fallback of `fetch`, lines 80-82

  /** The sort key of line 81: stars, descending. */
  function StarKey(r: GitHubRepo): SortKey {
    SortKey(-r.stars, 0)
  }

  predicate IsPrefix<T(==)>(a: seq<T>, b: seq<T>) {
    |a| <= |b| && a == b[..|a|]
  }

  /** The pinned repositories when there are any, otherwise the six most starred. */
  function TopRepos(pinned: seq<GitHubRepo>, repos: seq<GitHubRepo>): seq<GitHubRepo> {
    if pinned != [] then pinned else Take(StableSort(repos, StarKey), 6)
  }

  /**
   * Without pinned repositories, the fallback holds six of the repositories (all of them when
   * there are fewer), by stars descending, repositories with equal stars in their original order,
   * and no repository left out has more stars than one kept.
   */
  lemma TopReposSpec(pinned: seq<GitHubRepo>, repos: seq<GitHubRepo>)
    ensures pinned != [] ==> TopRepos(pinned, repos) == pinned
    ensures pinned == [] ==> var r := TopRepos(pinned, repos);
      && |r| == (if |repos| < 6 then |repos| else 6)
      && multiset(r) <= multiset(repos)
      && (forall x, y :: x in multiset(repos) - multiset(r) && y in r ==> x.stars <= y.stars)
      && (forall i, j :: 0 <= i < j < |r| ==> r[i].stars >= r[j].stars)
      && (forall k :: IsPrefix(WithKey(r, StarKey, k), WithKey(repos, StarKey, k)))
      && (|repos| <= 6 ==> multiset(r) == multiset(repos))
  {
    if pinned == [] {
      var s := StableSort(repos, StarKey);
      var r := TopRepos(pinned, repos);
      var n := |r|;
      assert r == s[..n];
      PrefixBag(s, n);
      StarsDescending(repos, r);
      LeftOutFewerStars(repos, r);
      forall k ensures IsPrefix(WithKey(r, StarKey, k), WithKey(repos, StarKey, k)) {
        WithKeyPrefix(s, StarKey, k, n);
        StableSortStable(repos, StarKey, k);
      }
    }
  }

  lemma PrefixBag<T>(s: seq<T>, n: nat)
    requires n <= |s|
    ensures multiset(s[..n]) <= multiset(s)
  {
    assert s == s[..n] + s[n..];
  }

  lemma StarsDescending(repos: seq<GitHubRepo>, r: seq<GitHubRepo>)
    requires |r| <= |repos| && r == StableSort(repos, StarKey)[..|r|]
    ensures forall i, j :: 0 <= i < j < |r| ==> r[i].stars >= r[j].stars
  {
    var s := StableSort(repos, StarKey);
    StableSortSorted(repos, StarKey);
    forall i, j | 0 <= i < j < |r| ensures r[i].stars >= r[j].stars {
      assert r[i] == s[i] && r[j] == s[j];
      assert KeyLe(StarKey(s[i]), StarKey(s[j]));
    }
  }

  /** A repository past the cut of the star-sorted list has no more stars than one before it. */
  lemma LeftOutFewerStars(repos: seq<GitHubRepo>, r: seq<GitHubRepo>)
    requires |r| <= |repos| && r == StableSort(repos, StarKey)[..|r|]
    ensures forall x, y :: x in multiset(repos) - multiset(r) && y in r ==> x.stars <= y.stars
  {
    var s := StableSort(repos, StarKey);
    StableSortSorted(repos, StarKey);
    RestBag(s, |r|);
    forall x, y | x in multiset(repos) - multiset(r) && y in r ensures x.stars <= y.stars {
      PastCut(s, |r|, x, y);
    }
  }

  lemma RestBag<T>(s: seq<T>, n: nat)
    requires n <= |s|
    ensures multiset(s) - multiset(s[..n]) == multiset(s[n..])
  {
    assert s == s[..n] + s[n..];
  }

  lemma PastCut(s: seq<GitHubRepo>, n: nat, x: GitHubRepo, y: GitHubRepo)
    requires SortedBy(s, StarKey) && n <= |s|
    requires x in s[n..] && y in s[..n]
    ensures x.stars <= y.stars
  {
    var j :| 0 <= j < |s[n..]| && s[n..][j] == x;
    var i :| 0 <= i < n && s[..n][i] == y;
    assert KeyLe(StarKey(s[i]), StarKey(s[n + j]));
  }

  // ---------------------------------------------------------------------------------------------
  // The enricher

  /** What `fetch` returns for a user name that `_extract_username` already produced. */
  function Profile(token: string, username: string, api: GitHubApi): Option<GitHubProfile> {
    if username == "" || api.unreachable || username !in api.user then None
    else
      var u := api.user[username];
      var repos := Repos(username, api);
      var pinned := PinnedRepos(token, username, api);
      Some(GitHubProfile(
        username, u.avatarUrl.GetOr(""), u.bio.GetOr(""), u.followers.GetOr(0),
        u.publicRepos.GetOr(0), Take(Ranking(repos), 5), pinned, TopRepos(pinned, repos)))
  }

  class GitHubEnricher {
    /** The token, "" when there is none. */
    var token: string
    var headers: map<string, string>

    /** `__init__`: the given token, else the `GITHUB_TOKEN` environment variable. */
    constructor (token: Option<string>, envToken: Option<string>)
      ensures this.token == if token.Some? && token.value != "" then token.value else envToken.GetOr("")
      ensures headers.Keys
        == {"Accept", "X-GitHub-Api-Version"} + (if this.token != "" then {"Authorization"} else {})
      ensures headers["Accept"] == "application/vnd.github+json"
      ensures headers["X-GitHub-Api-Version"] == "2022-11-28"
      ensures this.token != "" ==> headers["Authorization"] == "Bearer " + this.token
    {
      var t := if token.Some? && token.value != "" then token.value else envToken.GetOr("");
      var h := map["Accept" := "application/vnd.github+json", "X-GitHub-Api-Version" := "2022-11-28"];
      if t != "" {
        h := h["Authorization" := "Bearer " + t];
      }
      this.token, headers := t, h;
    }

    /** `_get_repos`: the loop over the REST answer that skips forks. */
    method GetRepos(username: string, api: GitHubApi) returns (repos: seq<GitHubRepo>)
      ensures repos == Repos(username, api)
      ensures forall r :: r in repos ==> !r.isPinned
    {
      if username !in api.repos {
        return [];
      }
      var raw := api.repos[username];
      repos := [];
      for i := 0 to |raw|
        invariant repos == ReposFrom(raw[..i])
      {
        assert raw[..i + 1][..i] == raw[..i];
        if !raw[i].fork {
          repos := repos + [ToRepo(raw[i])];
        }
      }
      assert raw[..|raw|] == raw;
      ReposFromDefaults(raw);
    }

    /**
     * `fetch`: `None`, with no request made, when no user name can be read from `raw`; `None`
     * when the service is unreachable or the user is unknown; otherwise the profile. `requests`
     * lists the URLs requested, in order.
     */
    method Fetch(raw: string, api: GitHubApi) returns (profile: Option<GitHubProfile>, requests: seq<string>)
      ensures ExtractUsername(raw) == "" ==> profile == None && requests == []
      ensures profile == Profile(token, ExtractUsername(raw), api)
      ensures profile.Some? ==> profile.value.username == ExtractUsername(raw)
      ensures profile.Some? && token == "" ==> profile.value.pinnedRepos == []
    {
      var username := ExtractUsername(raw);
      requests := [];
      if username == "" {
        return None, requests;
      }
      requests := requests + [BaseUrl + "/users/" + username];
      if api.unreachable || username !in api.user {
        return None, requests;
      }
      var userData := api.user[username];
      requests := requests + [BaseUrl + "/users/" + username + "/repos"];
      var repos := GetRepos(username, api);
      if token != "" {
        requests := requests + [GraphQlUrl];
      }
      var pinned := PinnedRepos(token, username, api);
      var topLanguages := GetTopLanguages(repos, 5);
      var topRepos := if pinned != [] then pinned else Take(StableSort(repos, StarKey), 6);
      profile := Some(GitHubProfile(
        username, userData.avatarUrl.GetOr(""), userData.bio.GetOr(""),
        userData.followers.GetOr(0), userData.publicRepos.GetOr(0),
        topLanguages, pinned, topRepos));
    }
  }
}
