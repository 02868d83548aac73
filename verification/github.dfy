/**
 * The pure logic of `collect-github-commits.py`: instantiating the
 * repository URL template, the commits query URL, turning each fetched
 * commit into a record, and the branch-name to sha map. HTTP replies are
 * inputs: a fetch is a function from URL to reply.
 */
module Github {
  import opened Wrappers
  import opened Text
  import opened Decimal
  import opened Commits
  import opened Changelog

  const ApiUrl: string := "https://api.github.com/"
  const OwnerToken: string := "{owner}"
  const RepoToken: string := "{repo}"

  /** An HTTP reply: the status, the raw content and the decoded JSON body. */
  datatype Reply<T> = Reply(status_code: int, content: string, body: T)

  /** The service root document (only the template is read). */
  datatype ApiRoot = ApiRoot(repository_url: string)

  datatype Person = Person(name: string, date: string)
  datatype CommitMetadata = CommitMetadata(message: string, committer: Person)
  /** An entry of the commits listing. */
  datatype Summary = Summary(sha: string, url: string, commit: CommitMetadata)
  datatype Stats = Stats(total: int, additions: int, deletions: int)
  /** The per-commit detail resource (only stats and the file list are read). */
  datatype Detail = Detail(stats: Stats, files: seq<string>)
  datatype BranchCommit = BranchCommit(sha: string)
  /** An entry of the branches listing. */
  datatype Branch = Branch(name: string, commit: BranchCommit)

  /** `dispatch_api_request` once the reply is in: 200 yields the body, anything else raises. */
  function Dispatch<T>(reply: Reply<T>): (r: Result<T, ApiRequestError>)
    ensures r.Success? <==> reply.status_code == 200
    ensures r.Success? ==> r.value == reply.body
    ensures r.Failure? ==> r.error == ApiRequestError(reply.status_code, reply.content)
  {
    if reply.status_code == 200 then Success(reply.body)
    else Failure(ApiRequestError(reply.status_code, reply.content))
  }

  /** Every `{owner}` is replaced by `owner`, and then every `{repo}` by `repo`. */
  function RepositoryUrl(template: string, owner: string, repo: string): string
    requires '\\' !in owner && '\\' !in repo
  {
    ReplaceAll(ReplaceAll(template, OwnerToken, owner), RepoToken, repo)
  }

  /** The usual template shape: both slots are filled with the given values. */
  lemma RepositoryUrlFillsBothSlots(a: string, b: string, c: string, owner: string, repo: string)
    requires '{' !in a && '{' !in b && '{' !in c && '{' !in owner
    requires '\\' !in owner && '\\' !in repo
    ensures RepositoryUrl(a + OwnerToken + b + RepoToken + c, owner, repo) == a + owner + b + repo + c
  {
    OwnerStageOfTwoSlots(a, b, c, owner);
    RepoStageOfTwoSlots(a + owner + b, c, repo);
  }

  lemma OwnerStageOfTwoSlots(a: string, b: string, c: string, owner: string)
    requires '{' !in a && '{' !in b && '{' !in c
    ensures ReplaceAll(a + OwnerToken + b + RepoToken + c, OwnerToken, owner) == a + owner + b + RepoToken + c
  {
    var tail := b + RepoToken + c;
    TextWithRepoTokenSurvivesOwnerStage(b, c, owner);
    ReplaceAllToken(tail, OwnerToken, owner);
    ReplaceAllSkip(a, OwnerToken + tail, OwnerToken, owner);
    Regroup5(a, OwnerToken, b, RepoToken, c);
    Regroup5(a, owner, b, RepoToken, c);
  }

  lemma TextWithRepoTokenSurvivesOwnerStage(b: string, c: string, owner: string)
    requires '{' !in b && '{' !in c
    ensures ReplaceAll(b + RepoToken + c, OwnerToken, owner) == b + RepoToken + c
  {
    RepoTokenSurvivesOwnerStage(c, owner);
    ReplaceAllSkip(b, RepoToken + c, OwnerToken, owner);
    Regroup3(b, RepoToken, c);
  }

  /** `{repo}` does not start with `{owner}`, so the owner stage leaves it alone. */
  lemma RepoTokenSurvivesOwnerStage(c: string, owner: string)
    requires '{' !in c
    ensures ReplaceAll(RepoToken + c, OwnerToken, owner) == RepoToken + c
  {
    var s := RepoToken + c;
    assert s[1] == 'r' != OwnerToken[1];
    assert !StartsWith(s, OwnerToken);
    assert s[1..] == "repo}" + c;
    ReplaceAllSkip("repo}", c, OwnerToken, owner);
    ReplaceAllSkip(c, "", OwnerToken, owner);
    assert c + "" == c;
    assert [s[0]] + ("repo}" + c) == s;
  }

  lemma RepoStageOfTwoSlots(x: string, c: string, repo: string)
    requires '{' !in x && '{' !in c
    ensures ReplaceAll(x + RepoToken + c, RepoToken, repo) == x + repo + c
  {
    assert x + RepoToken + c == x + (RepoToken + c);
    ReplaceAllSkip(x, RepoToken + c, RepoToken, repo);
    ReplaceAllToken(c, RepoToken, repo);
    ReplaceAllSkip(c, "", RepoToken, repo);
    assert c + "" == c;
  }

  /** Every inner part is non-empty and all literal text is brace-free. */
  predicate BraceFreeSegments(atoms: seq<seq<string>>) {
    && |atoms| > 0
    && forall k :: 0 <= k < |atoms| ==>
         |atoms[k]| > 0 && forall j :: 0 <= j < |atoms[k]| ==> '{' !in atoms[k][j]
  }

  /**
   * The segments `atoms[k]`, each joined with `inner`, then joined with
   * `outer`. With `{repo}` and `{owner}` this is any template whose literal
   * text is brace-free; with the values, it is that template filled.
   */
  function Nested(atoms: seq<seq<string>>, inner: string, outer: string): string
    requires BraceFreeSegments(atoms)
    decreases |atoms|
  {
    if |atoms| == 1 then Join(atoms[0], inner)
    else Join(atoms[0], inner) + outer + Nested(atoms[1..], inner, outer)
  }

  /**
   * Substitution is global for both tokens: in a template with any number
   * of `{owner}` and `{repo}` slots, every `{owner}` is filled with the
   * owner and then every `{repo}` with the repository name.
   */
  lemma RepositoryUrlFillsEverySlot(atoms: seq<seq<string>>, owner: string, repo: string)
    requires BraceFreeSegments(atoms)
    requires '{' !in owner && '\\' !in owner && '\\' !in repo
    ensures RepositoryUrl(Nested(atoms, RepoToken, OwnerToken), owner, repo) == Nested(atoms, repo, owner)
  {
    OwnerStageNested(atoms, owner);
    RepoStageNested(atoms, owner, repo);
  }

  /** `{repo}` never starts an `{owner}` match, whatever follows it. */
  lemma RepoTokenPassesOwnerStage(z: string, owner: string)
    ensures ReplaceAll(RepoToken + z, OwnerToken, owner) == RepoToken + ReplaceAll(z, OwnerToken, owner)
  {
    var s := RepoToken + z;
    assert s[1] == 'r' != OwnerToken[1];
    assert !StartsWith(s, OwnerToken);
    assert s[1..] == "repo}" + z;
    ReplaceAllSkip("repo}", z, OwnerToken, owner);
    assert [s[0]] + ("repo}" + ReplaceAll(z, OwnerToken, owner)) == RepoToken + ReplaceAll(z, OwnerToken, owner);
  }

  lemma {:induction false} RepoJoinPassesOwnerStage(atoms: seq<string>, y: string, owner: string)
    requires |atoms| > 0 && forall j :: 0 <= j < |atoms| ==> '{' !in atoms[j]
    ensures ReplaceAll(Join(atoms, RepoToken) + y, OwnerToken, owner)
            == Join(atoms, RepoToken) + ReplaceAll(y, OwnerToken, owner)
    decreases |atoms|
  {
    if |atoms| == 1 {
      ReplaceAllSkip(atoms[0], y, OwnerToken, owner);
    } else {
      var rest := Join(atoms[1..], RepoToken);
      Regroup5(atoms[0], RepoToken, rest, y, "");
      assert Join(atoms, RepoToken) + y == atoms[0] + (RepoToken + (rest + y)) by {
        assert rest + y + "" == rest + y;
      }
      ReplaceAllSkip(atoms[0], RepoToken + (rest + y), OwnerToken, owner);
      RepoTokenPassesOwnerStage(rest + y, owner);
      RepoJoinPassesOwnerStage(atoms[1..], y, owner);
      Regroup5(atoms[0], RepoToken, rest, ReplaceAll(y, OwnerToken, owner), "");
      assert rest + ReplaceAll(y, OwnerToken, owner) + "" == rest + ReplaceAll(y, OwnerToken, owner);
    }
  }

  lemma {:induction false} RepoJoinRepoStage(atoms: seq<string>, y: string, repo: string)
    requires |atoms| > 0 && forall j :: 0 <= j < |atoms| ==> '{' !in atoms[j]
    ensures ReplaceAll(Join(atoms, RepoToken) + y, RepoToken, repo)
            == Join(atoms, repo) + ReplaceAll(y, RepoToken, repo)
    decreases |atoms|
  {
    if |atoms| == 1 {
      ReplaceAllSkip(atoms[0], y, RepoToken, repo);
    } else {
      var rest := Join(atoms[1..], RepoToken);
      Regroup5(atoms[0], RepoToken, rest, y, "");
      assert Join(atoms, RepoToken) + y == atoms[0] + (RepoToken + (rest + y)) by {
        assert rest + y + "" == rest + y;
      }
      ReplaceAllSkip(atoms[0], RepoToken + (rest + y), RepoToken, repo);
      ReplaceAllToken(rest + y, RepoToken, repo);
      RepoJoinRepoStage(atoms[1..], y, repo);
      var filled := Join(atoms[1..], repo);
      Regroup5(atoms[0], repo, filled, ReplaceAll(y, RepoToken, repo), "");
      assert filled + ReplaceAll(y, RepoToken, repo) + "" == filled + ReplaceAll(y, RepoToken, repo);
    }
  }

  lemma {:induction false} OwnerStageNested(atoms: seq<seq<string>>, owner: string)
    requires BraceFreeSegments(atoms)
    ensures ReplaceAll(Nested(atoms, RepoToken, OwnerToken), OwnerToken, owner) == Nested(atoms, RepoToken, owner)
    decreases |atoms|
  {
    var head := Join(atoms[0], RepoToken);
    if |atoms| == 1 {
      RepoJoinPassesOwnerStage(atoms[0], "", owner);
      assert head + "" == head;
    } else {
      var rest := Nested(atoms[1..], RepoToken, OwnerToken);
      Regroup3(head, OwnerToken, rest);
      RepoJoinPassesOwnerStage(atoms[0], OwnerToken + rest, owner);
      ReplaceAllToken(rest, OwnerToken, owner);
      OwnerStageNested(atoms[1..], owner);
      Regroup3(head, owner, Nested(atoms[1..], RepoToken, owner));
    }
  }

  lemma {:induction false} RepoStageNested(atoms: seq<seq<string>>, owner: string, repo: string)
    requires BraceFreeSegments(atoms)
    requires '{' !in owner
    ensures ReplaceAll(Nested(atoms, RepoToken, owner), RepoToken, repo) == Nested(atoms, repo, owner)
    decreases |atoms|
  {
    var head := Join(atoms[0], RepoToken);
    if |atoms| == 1 {
      RepoJoinRepoStage(atoms[0], "", repo);
      assert head + "" == head;
      assert Join(atoms[0], repo) + "" == Join(atoms[0], repo);
    } else {
      var rest := Nested(atoms[1..], RepoToken, owner);
      Regroup3(head, owner, rest);
      RepoJoinRepoStage(atoms[0], owner + rest, repo);
      ReplaceAllSkip(owner, rest, RepoToken, repo);
      RepoStageNested(atoms[1..], owner, repo);
      Regroup3(Join(atoms[0], repo), owner, Nested(atoms[1..], repo, owner));
    }
  }

  /** Because owner substitution runs first, a `{repo}` inside the owner value is filled too. */
  lemma RepositoryUrlFillsRepoSlotFromOwner(x: string, y: string, repo: string)
    requires '{' !in x && '{' !in y
    requires '\\' !in x + RepoToken + y && '\\' !in repo
    ensures RepositoryUrl(OwnerToken, x + RepoToken + y, repo) == x + repo + y
  {
    var owner := x + RepoToken + y;
    ReplaceAllToken("", OwnerToken, owner);
    assert OwnerToken + "" == OwnerToken;
    assert owner + "" == owner;
    assert owner == x + (RepoToken + y);
    ReplaceAllSkip(x, RepoToken + y, RepoToken, repo);
    ReplaceAllToken(y, RepoToken, repo);
    ReplaceAllSkip(y, "", RepoToken, repo);
    assert y + "" == y;
  }

  /** A template with neither token comes back unchanged. */
  lemma RepositoryUrlWithoutTokens(template: string, owner: string, repo: string)
    requires !Contains(template, OwnerToken) && !Contains(template, RepoToken)
    requires '\\' !in owner && '\\' !in repo
    ensures RepositoryUrl(template, owner, repo) == template
  {
    ReplaceAllAbsent(template, OwnerToken, owner);
    ReplaceAllAbsent(template, RepoToken, repo);
  }

  /** The commits listing of `author` under the repository URL. */
  function CommitsUrl(repositoryUrl: string, author: string): (url: string)
    ensures StartsWith(url, repositoryUrl + "/commits?author=")
    ensures |url| == |repositoryUrl| + 16 + |author| && url[|url| - |author|..] == author
  {
    repositoryUrl + "/commits?author=" + author
  }

  /** The branches listing under the repository URL. */
  function BranchesUrl(repositoryUrl: string): (url: string)
    ensures StartsWith(url, repositoryUrl) && url[|repositoryUrl|..] == "/branches"
  {
    repositoryUrl + "/branches"
  }

  /** The fields a long description is made of. */
  datatype LongFields = LongFields(files: nat, total: int, additions: int, deletions: int, message: string)

  /** `'{0} modified files, {1} total changes ({2} additions and {3} deletions): {4}'`. */
  function LongDescription(f: LongFields): string {
    NatToString(f.files) + (" modified files, " + (IntToString(f.total) + (" total changes ("
    + (IntToString(f.additions) + (" additions and " + (IntToString(f.deletions) + (" deletions): " + f.message)))))))
  }

  /** Reads the fields back out of a long description. */
  function ParseLongDescription(s: string): Option<LongFields> {
    var p1 :- ParseNat(s);
    var p2 :- ParseIntAfter(p1.1, " modified files, ");
    var p3 :- ParseIntAfter(p2.1, " total changes (");
    var p4 :- ParseIntAfter(p3.1, " additions and ");
    var message :- Expect(p4.1, " deletions): ");
    Some(LongFields(p1.0, p2.0, p3.0, p4.0, message))
  }

  /** Strips the literal `lit` and reads the numeral after it. */
  function ParseIntAfter(s: string, lit: string): Option<(int, string)> {
    var s1 :- Expect(s, lit);
    ParseInt(s1)
  }

  lemma ParseIntAfterRoundTrip(lit: string, n: int, rest: string)
    requires |rest| == 0 || !IsDigit(rest[0])
    ensures ParseIntAfter(lit + (IntToString(n) + rest), lit) == Some((n, rest))
  {
    ExpectLiteral(lit, IntToString(n) + rest);
    ParseIntRoundTrip(n, rest);
  }

  /** The long description determines every count and the message it was built from. */
  lemma LongDescriptionRoundTrip(f: LongFields)
    ensures ParseLongDescription(LongDescription(f)) == Some(f)
  {
    var r4 := " deletions): " + f.message;
    var r3 := " additions and " + (IntToString(f.deletions) + r4);
    var r2 := " total changes (" + (IntToString(f.additions) + r3);
    var r1 := " modified files, " + (IntToString(f.total) + r2);
    ParseNatRoundTrip(f.files, r1);
    ParseIntAfterRoundTrip(" modified files, ", f.total, r2);
    ParseIntAfterRoundTrip(" total changes (", f.additions, r3);
    ParseIntAfterRoundTrip(" additions and ", f.deletions, r4);
    ExpectLiteral(" deletions): ", f.message);
  }

  /** The long-description fields of one fetched commit. */
  function FieldsOf(s: Summary, d: Detail): LongFields {
    LongFields(|d.files|, d.stats.total, d.stats.additions, d.stats.deletions, s.commit.message)
  }

  /**
   * The record built for one listed commit and its detail, with every
   * value the loop body computes in the field of that name.
   */
  function ToCommit(s: Summary, d: Detail, feRepoName: string): Commit {
    Commit(
      id := s.sha,
      date := s.commit.committer.date,
      committer_name := s.commit.committer.name,
      commit_message := s.commit.message,
      changed_file_count := |d.files|,
      addition_count := d.stats.additions,
      deletion_count := d.stats.deletions,
      short_explanation := ShortExplanation,
      long_explanation := LongDescription(FieldsOf(s, d)),
      link_url := EvidenceUrl(feRepoName, s.sha))
  }

  /** The six positional arguments the loop body actually passes to `Commit`. */
  function AsWrittenInitArgs(s: Summary, d: Detail, feRepoName: string): seq<Value> {
    [Str(s.sha), Str(s.commit.committer.date), Str(ShortExplanation),
     Str(s.commit.committer.name), Str(LongDescription(FieldsOf(s, d))),
     Str(EvidenceUrl(feRepoName, s.sha))]
  }

  /** As written, the constructor call raises `TypeError` for every commit. */
  lemma AsWrittenConstructionFails(s: Summary, d: Detail, feRepoName: string)
    ensures PositionalInit(AsWrittenInitArgs(s, d, feRepoName)) == Failure(ArityError(10, 6))
  {
  }

  /** A listed commit paired with the reply its detail fetch got. */
  datatype Fetched = Fetched(summary: Summary, reply: Reply<Detail>)

  /** Pairs every listed commit, in order, with the reply to a fetch of its `url`. */
  function FetchDetails(summaries: seq<Summary>, detail: string -> Reply<Detail>): (fs: seq<Fetched>)
    ensures |fs| == |summaries|
    ensures forall i :: 0 <= i < |fs| ==> fs[i] == Fetched(summaries[i], detail(summaries[i].url))
  {
    seq(|summaries|, i requires 0 <= i < |summaries| => Fetched(summaries[i], detail(summaries[i].url)))
  }

  /**
   * Why the loop body raises for one listed commit, if it does, in the
   * order the body meets the failures: the detail fetch, then `str` of the
   * message, then `str` of the sha. Under Python 2, `str` of a unicode
   * value with a non-ASCII character raises `UnicodeEncodeError`.
   */
  datatype CollectError = ApiFailure(api: ApiRequestError) | UnicodeEncodeError(text: string)

  predicate IsAscii(s: string) {
    forall i :: 0 <= i < |s| ==> s[i] as int < 128
  }

  function StepError(f: Fetched): Option<CollectError> {
    if f.reply.status_code != 200 then Some(ApiFailure(ApiRequestError(f.reply.status_code, f.reply.content)))
    else if !IsAscii(f.summary.commit.message) then Some(UnicodeEncodeError(f.summary.commit.message))
    else if !IsAscii(f.summary.sha) then Some(UnicodeEncodeError(f.summary.sha))
    else None
  }

  /** The loop body gets through this commit. */
  predicate Collectable(f: Fetched) {
    f.reply.status_code == 200 && IsAscii(f.summary.commit.message) && IsAscii(f.summary.sha)
  }

  predicate AllCollectable(fs: seq<Fetched>) {
    forall i :: 0 <= i < |fs| ==> Collectable(fs[i])
  }

  /** The position of the first commit whose loop body raises. */
  function FirstFailed(fs: seq<Fetched>): (k: nat)
    requires !AllCollectable(fs)
    ensures k < |fs| && !Collectable(fs[k])
    ensures forall i :: 0 <= i < k ==> Collectable(fs[i])
  {
    if !Collectable(fs[0]) then 0
    else
      assert !AllCollectable(fs[1..]) by {
        var j :| 0 <= j < |fs| && !Collectable(fs[j]);
        assert fs[1..][j - 1] == fs[j];
      }
      1 + FirstFailed(fs[1..])
  }

  /**
   * The loop over the listing: one record per commit, in listing order;
   * the first commit whose detail fetch fails, or whose message or sha is
   * not ASCII, aborts the whole loop with that error.
   */
  function CollectDetails(fs: seq<Fetched>, feRepoName: string): (r: Result<seq<Commit>, CollectError>)
    ensures r.Success? <==> forall i :: 0 <= i < |fs| ==>
      fs[i].reply.status_code == 200 && IsAscii(fs[i].summary.commit.message) && IsAscii(fs[i].summary.sha)
    ensures r.Success? ==> |r.value| == |fs|
    ensures r.Success? ==> forall i :: 0 <= i < |fs| ==>
      r.value[i] == ToCommit(fs[i].summary, fs[i].reply.body, feRepoName)
    ensures r.Failure? ==> !AllCollectable(fs) && Some(r.error) == StepError(fs[FirstFailed(fs)])
    decreases |fs|
  {
    if |fs| == 0 then Success([])
    else if StepError(fs[0]).Some? then
      Failure(StepError(fs[0]).value)
    else
      assert forall i :: 1 <= i < |fs| ==> fs[1..][i - 1] == fs[i];
      var tail :- CollectDetails(fs[1..], feRepoName);
      Success([ToCommit(fs[0].summary, fs[0].reply.body, feRepoName)] + tail)
  }

  /**
   * A non-ASCII message aborts the run at its commit, once the commits
   * before it are collected and its own detail fetch succeeds.
   */
  lemma NonAsciiMessageAborts(fs: seq<Fetched>, feRepoName: string, k: nat)
    requires k < |fs| && forall i :: 0 <= i < k ==> Collectable(fs[i])
    requires fs[k].reply.status_code == 200 && !IsAscii(fs[k].summary.commit.message)
    ensures CollectDetails(fs, feRepoName) == Failure(UnicodeEncodeError(fs[k].summary.commit.message))
  {
    var j := FirstFailed(fs);
    assert !Collectable(fs[j]) && !Collectable(fs[k]);
  }

  function LiftApi<T>(r: Result<T, ApiRequestError>): (q: Result<T, CollectError>)
    ensures r.Success? <==> q.Success?
    ensures r.Success? ==> q.value == r.value
    ensures r.Failure? ==> q.error == ApiFailure(r.error)
  {
    match r
    case Success(v) => Success(v)
    case Failure(e) => Failure(ApiFailure(e))
  }

  /**
   * `collect_commits_from_github`: read the API root for the template,
   * fill it, list the author's commits, then collect every commit's
   * detail. A failed fetch aborts the run with that reply's status and
   * content.
   */
  function CollectCommitsFromGithub(
    author: string, owner: string, repo: string, feRepoName: string,
    root: string -> Reply<ApiRoot>,
    listing: string -> Reply<seq<Summary>>,
    detail: string -> Reply<Detail>)
    : (r: Result<seq<Commit>, CollectError>)
    requires '\\' !in owner && '\\' !in repo
    ensures var discovery := root(ApiUrl);
      && (discovery.status_code != 200 ==>
            r == Failure(ApiFailure(ApiRequestError(discovery.status_code, discovery.content))))
      && (discovery.status_code == 200 ==>
            var url := CommitsUrl(RepositoryUrl(discovery.body.repository_url, owner, repo), author);
            && (listing(url).status_code != 200 ==>
                  r == Failure(ApiFailure(ApiRequestError(listing(url).status_code, listing(url).content))))
            && (listing(url).status_code == 200 ==>
                  r == CollectDetails(FetchDetails(listing(url).body, detail), FrontEndRepoName(feRepoName, repo))))
  {
    var name := FrontEndRepoName(feRepoName, repo);
    var apiRoot :- LiftApi(Dispatch(root(ApiUrl)));
    var repositoryUrl := RepositoryUrl(apiRoot.repository_url, owner, repo);
    var summaries :- LiftApi(Dispatch(listing(CommitsUrl(repositoryUrl, author))));
    CollectDetails(FetchDetails(summaries, detail), name)
  }

  /**
   * What each collected record holds: the listed sha and committer, the
   * constant short explanation, a long description that reads back to the
   * detail's counts and the message, and the changelog link for the sha.
   */
  lemma CollectedCommitFields(fs: seq<Fetched>, feRepoName: string, i: nat)
    requires CollectDetails(fs, feRepoName).Success?
    requires i < |fs|
    ensures var c := CollectDetails(fs, feRepoName).value[i];
            var s := fs[i].summary;
            var d := fs[i].reply.body;
            && c.id == s.sha
            && c.date == s.commit.committer.date
            && c.committer_name == s.commit.committer.name
            && c.short_explanation == "1 commit"
            && ParseLongDescription(c.long_explanation)
               == Some(LongFields(|d.files|, d.stats.total, d.stats.additions, d.stats.deletions, s.commit.message))
            && c.link_url == "http://gromit.ebi.ac.uk:10002/changelog/" + feRepoName + "?cs=" + s.sha
  {
    LongDescriptionRoundTrip(FieldsOf(fs[i].summary, fs[i].reply.body));
  }

  /**
   * The corrected writer reads the evidence link through `link_url`, and
   * it is the changelog page of the listed sha.
   */
  lemma EvidenceColumnIsChangelogLink(fs: seq<Fetched>, feRepoName: string, i: nat)
    requires CollectDetails(fs, feRepoName).Success?
    requires i < |fs|
    ensures Attribute(CollectDetails(fs, feRepoName).value[i], "link_url")
            == Success(Str(EvidenceUrl(feRepoName, fs[i].summary.sha)))
  {
    assert FieldNames[9] == "link_url";
  }

  /** The sha recorded for branch `name`: the one of its last occurrence. */
  predicate LastOccurrence(branches: seq<Branch>, k: nat)
    requires k < |branches|
  {
    forall j :: k < j < |branches| ==> branches[j].name != branches[k].name
  }

  function BranchNames(branches: seq<Branch>): set<string> {
    set b | b in branches :: b.name
  }

  /**
   * `find_branches`: maps every branch name to its sha; where a name is
   * listed twice, the later entry wins.
   */
  method FindBranches(repositoryUrl: string, fetch: string -> Reply<seq<Branch>>)
    returns (r: Result<map<string, string>, ApiRequestError>)
    ensures var reply := fetch(BranchesUrl(repositoryUrl));
      && (reply.status_code != 200 ==> r == Failure(ApiRequestError(reply.status_code, reply.content)))
      && (reply.status_code == 200 ==> r.Success? && r.value.Keys == BranchNames(reply.body))
      && (reply.status_code == 200 ==> forall k :: 0 <= k < |reply.body| && LastOccurrence(reply.body, k) ==>
            r.value[reply.body[k].name] == reply.body[k].commit.sha)
  {
    var reply := fetch(BranchesUrl(repositoryUrl));
    var fetched: Result<seq<Branch>, ApiRequestError> := Dispatch(reply);
    if fetched.Failure? {
      return Failure(fetched.error);
    }
    var branches: seq<Branch> := fetched.value;
    var m: map<string, string> := map[];
    var i := 0;
    while i < |branches|
      invariant 0 <= i <= |branches|
      invariant m.Keys == BranchNames(branches[..i])
      invariant forall k :: 0 <= k < i && (forall j :: k < j < i ==> branches[j].name != branches[k].name) ==>
        branches[k].name in m && m[branches[k].name] == branches[k].commit.sha
    {
      assert branches[..i + 1] == branches[..i] + [branches[i]];
      m := m[branches[i].name := branches[i].commit.sha];
      i := i + 1;
    }
    assert branches[..i] == branches;
    r := Success(m);
  }
}
