/**
 * Locating and fetching a repository's README from a GitHub URL
 * (`fetchRepoReadme`). The network is a parameter: `fetch` gives, for each URL,
 * the outcome of requesting it.
 */
module GithubService {
  import opened Wrappers
  import opened Strings

  /** The owner and the repository named by a URL. */
  datatype RepoLocation = RepoLocation(user: string, repo: string)

  /** A fetched README and the name of the repository it belongs to. */
  datatype Readme = Readme(content: string, name: string)

  /** What requesting one URL gives: a response, ok or not, with its body text; or a thrown error. */
  datatype FetchOutcome = Response(ok: bool, text: string) | Threw

  const RawContentHost := "https://raw.githubusercontent.com/"

  /** The branches tried, in order. */
  const Branches: seq<string> := ["main", "master"]

  /** `url.replace(/\/$/, '')`: removes one trailing slash, if there is one, and nothing else. */
  function StripTrailingSlash(url: string): (clean: string)
    ensures clean <= url && |url| - |clean| <= 1
    ensures |clean| < |url| <==> EndsWith(url, "/")
  {
    if |url| > 0 && url[|url| - 1] == '/' then url[..|url| - 1] else url
  }

  /**
   * The owner and repository of a URL: the last two `/`-separated pieces of the
   * cleaned URL, provided it splits into at least four pieces.
   */
  function ParseRepoUrl(url: string): (loc: Option<RepoLocation>)
    ensures loc.Some? <==> Occurrences(StripTrailingSlash(url), '/') >= 3
    ensures loc.Some? ==> '/' !in loc.value.user && '/' !in loc.value.repo
    ensures loc.Some? ==> EndsWith(StripTrailingSlash(url), "/" + loc.value.user + "/" + loc.value.repo)
  {
    var clean := StripTrailingSlash(url);
    var parts := Split(clean, '/');
    if |parts| < 4 then None
    else
      LastTwoPieces(clean, parts);
      Some(RepoLocation(parts[|parts| - 2], parts[|parts| - 1]))
  }

  /** A string with at least two `/` ends with `/` and its second-to-last piece, then `/` and its last piece. */
  lemma LastTwoPieces(s: string, parts: seq<string>)
    requires parts == Split(s, '/') && |parts| >= 3
    ensures EndsWith(s, "/" + parts[|parts| - 2] + "/" + parts[|parts| - 1])
  {
    var n := |parts|;
    var a, b := parts[n - 2], parts[n - 1];
    var init := parts[..n - 1];
    var head := Join(parts[..n - 2], '/');
    JoinSplit(s, '/');
    JoinLast(parts, '/');
    JoinLast(init, '/');
    assert init[..n - 2] == parts[..n - 2] && init[n - 2] == a;
    assert Join(init, '/') == head + ['/'] + a;
    var tail := "/" + a + "/" + b;
    assert s == head + tail;
    assert s[|s| - |tail|..] == tail;
    assert EndsWith(s, tail);
  }

  lemma EndsWithAt(s: string, suffix: string, i: nat)
    requires EndsWith(s, suffix) && i < |suffix|
    ensures s[|s| - |suffix| + i] == suffix[i]
  {
    assert s[|s| - |suffix|..][i] == suffix[i];
  }

  lemma {:induction false} SeparatorFreeSuffixUnique(s: string, a: string, b: string)
    requires '/' !in a && '/' !in b
    requires EndsWith(s, "/" + a) && EndsWith(s, "/" + b)
    ensures a == b
  {
    if |a| < |b| {
      EndsWithAt(s, "/" + a, 0);
      assert false;
    } else if |b| < |a| {
      EndsWithAt(s, "/" + b, 0);
      assert false;
    } else {
      assert a == ("/" + a)[1..] == ("/" + b)[1..] == b;
    }
  }

  /**
   * The owner and repository are determined by the URL alone: any pair of
   * slash-free names that the cleaned URL ends with, as `/user/repo`, is the pair
   * the parser returns.
   */
  lemma ParseRepoUrlUnique(url: string, user: string, repo: string)
    requires ParseRepoUrl(url).Some?
    requires '/' !in user && '/' !in repo
    requires EndsWith(StripTrailingSlash(url), "/" + user + "/" + repo)
    ensures ParseRepoUrl(url) == Some(RepoLocation(user, repo))
  {
    var clean := StripTrailingSlash(url);
    var loc := ParseRepoUrl(url).value;
    assert "/" + user + "/" + repo == ("/" + user) + ("/" + repo);
    assert "/" + loc.user + "/" + loc.repo == ("/" + loc.user) + ("/" + loc.repo);
    EndsWithSplit(clean, "/" + user, "/" + repo);
    EndsWithSplit(clean, "/" + loc.user, "/" + loc.repo);
    SeparatorFreeSuffixUnique(clean, repo, loc.repo);
    SeparatorFreeSuffixUnique(clean[..|clean| - |repo| - 1], user, loc.user);
  }

  /** The raw-content URL of the README on `branch`. */
  function RawReadmeUrl(loc: RepoLocation, branch: string): string
  {
    RawContentHost + loc.user + "/" + loc.repo + "/" + branch + "/README.md"
  }

  predicate Succeeded(outcome: FetchOutcome)
  {
    outcome.Response? && outcome.ok
  }

  /** The README of the first branch, in order, whose request succeeds. */
  function FirstReadme(loc: RepoLocation, branches: seq<string>, fetch: string -> FetchOutcome): Option<Readme>
  {
    if |branches| == 0 then None
    else
      var outcome := fetch(RawReadmeUrl(loc, branches[0]));
      if Succeeded(outcome) then Some(Readme(outcome.text, loc.repo))
      else FirstReadme(loc, branches[1..], fetch)
  }

  /** The URLs requested before the first success (that one included). */
  function TriedUrls(loc: RepoLocation, branches: seq<string>, fetch: string -> FetchOutcome): seq<string>
  {
    if |branches| == 0 then []
    else
      var url := RawReadmeUrl(loc, branches[0]);
      if Succeeded(fetch(url)) then [url] else [url] + TriedUrls(loc, branches[1..], fetch)
  }

  /** What `fetchRepoReadme(url)` resolves to. */
  function LookupReadme(url: string, fetch: string -> FetchOutcome): Option<Readme>
  {
    match ParseRepoUrl(url)
    case None => None
    case Some(loc) => FirstReadme(loc, Branches, fetch)
  }

  /** The URLs `fetchRepoReadme(url)` requests, in order. */
  function AttemptedUrls(url: string, fetch: string -> FetchOutcome): seq<string>
  {
    match ParseRepoUrl(url)
    case None => []
    case Some(loc) => TriedUrls(loc, Branches, fetch)
  }

  /**
   * The branch fallback: an unparseable URL requests nothing and gives nothing;
   * otherwise `main` is requested first and wins when it succeeds (and `master`
   * is then not requested); if it fails, by a non-ok response or a thrown error,
   * `master` is requested and wins when it succeeds; if both fail, nothing is found.
   */
  lemma BranchFallback(url: string, fetch: string -> FetchOutcome)
    ensures ParseRepoUrl(url).None? ==> LookupReadme(url, fetch).None? && AttemptedUrls(url, fetch) == []
    ensures ParseRepoUrl(url).Some? ==>
      var loc := ParseRepoUrl(url).value;
      var main, master := RawReadmeUrl(loc, "main"), RawReadmeUrl(loc, "master");
      && (Succeeded(fetch(main)) ==>
            LookupReadme(url, fetch) == Some(Readme(fetch(main).text, loc.repo))
            && AttemptedUrls(url, fetch) == [main])
      && (!Succeeded(fetch(main)) && Succeeded(fetch(master)) ==>
            LookupReadme(url, fetch) == Some(Readme(fetch(master).text, loc.repo))
            && AttemptedUrls(url, fetch) == [main, master])
      && (!Succeeded(fetch(main)) && !Succeeded(fetch(master)) ==>
            LookupReadme(url, fetch).None? && AttemptedUrls(url, fetch) == [main, master])
  {
    if ParseRepoUrl(url).Some? {
      var loc := ParseRepoUrl(url).value;
      var main, master := RawReadmeUrl(loc, "main"), RawReadmeUrl(loc, "master");
      assert Branches[0] == "main" && Branches[1..] == ["master"] && ["master"][1..] == [];
      assert FirstReadme(loc, ["master"], fetch)
          == if Succeeded(fetch(master)) then Some(Readme(fetch(master).text, loc.repo)) else None;
      assert TriedUrls(loc, ["master"], fetch) == [master];
    }
  }

  /**
   * `fetchRepoReadme`: requests the README on each branch in turn and returns
   * the first successful body with the repository's name. A request that throws
   * or answers non-ok moves on to the next branch; it never throws itself.
   * `attempted` lists the URLs requested, in order.
   */
  method FetchRepoReadme(repoUrl: string, fetch: string -> FetchOutcome)
    returns (result: Option<Readme>, attempted: seq<string>)
    ensures result == LookupReadme(repoUrl, fetch)
    ensures attempted == AttemptedUrls(repoUrl, fetch)
    ensures result.Some? ==> result.value.name == ParseRepoUrl(repoUrl).value.repo
  {
    var parsed := ParseRepoUrl(repoUrl);
    if parsed.None? {
      return None, [];
    }
    var loc := parsed.value;
    attempted := [];
    var i := 0;
    while i < |Branches|
      invariant 0 <= i <= |Branches|
      invariant FirstReadme(loc, Branches, fetch) == FirstReadme(loc, Branches[i..], fetch)
      invariant TriedUrls(loc, Branches, fetch) == attempted + TriedUrls(loc, Branches[i..], fetch)
    {
      var rawUrl := RawReadmeUrl(loc, Branches[i]);
      attempted := attempted + [rawUrl];
      var response := fetch(rawUrl);
      if response.Response? && response.ok {
        return Some(Readme(response.text, loc.repo)), attempted;
      }
      assert Branches[i..][1..] == Branches[i + 1..];
      i := i + 1;
    }
    result := None;
  }
}
