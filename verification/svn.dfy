/**
 * The pure logic of `collect-svn-commits.py`: choosing the log query,
 * keeping the requested author's log entries as records, and naming the
 * output file after the last path component of the checkout.
 */
module Svn {
  import opened Wrappers
  import opened Commits
  import opened Changelog

  /**
   * A log entry as the SVN client yields it; `date` is already formatted
   * as day/month/year.
   */
  datatype LogEntry = LogEntry(revision: string, date: string, author: string, msg: string)

  /** Which log the client is asked for. */
  datatype LogQuery = Unfiltered | Between(dateFrom: string, dateTo: string)

  /** The date range is used only when both bounds are given. */
  function LogQueryFor(dateFrom: string, dateTo: string): (q: LogQuery)
    ensures q.Between? <==> dateFrom != "" && dateTo != ""
    ensures q.Between? ==> q == Between(dateFrom, dateTo)
  {
    if dateFrom != "" && dateTo != "" then Between(dateFrom, dateTo) else Unfiltered
  }

  /** The entries written by `author`, in log order. */
  function ByAuthor(entries: seq<LogEntry>, author: string): seq<LogEntry>
  {
    if |entries| == 0 then []
    else
      var last := entries[|entries| - 1];
      ByAuthor(entries[..|entries| - 1], author) + (if last.author == author then [last] else [])
  }

  /** The record built for one kept entry. */
  function ToCommit(le: LogEntry, feRepoName: string): Commit {
    Commit(
      id := le.revision,
      date := le.date,
      committer_name := le.author,
      commit_message := le.msg,
      changed_file_count := 0,
      addition_count := 0,
      deletion_count := 0,
      short_explanation := ShortExplanation,
      long_explanation := le.msg,
      link_url := EvidenceUrl(feRepoName, le.revision))
  }

  /** The six positional arguments the loop body actually passes to `Commit`. */
  function AsWrittenInitArgs(le: LogEntry, feRepoName: string): seq<Value> {
    [Str(le.revision), Str(le.date), Str(ShortExplanation), Str(le.author), Str(le.msg),
     Str(EvidenceUrl(feRepoName, le.revision))]
  }

  /** As written, the constructor call raises `TypeError` for every kept entry. */
  lemma AsWrittenConstructionFails(le: LogEntry, feRepoName: string)
    ensures PositionalInit(AsWrittenInitArgs(le, feRepoName)) == Failure(ArityError(10, 6))
  {
  }

  /**
   * `collect_commits_from_svn`: query the log (with the date range only
   * when both bounds are given) and turn every entry by `author` into a
   * record, in log order.
   */
  method CollectCommitsFromSvn(
    author: string, repo: string, feRepoName: string, dateFrom: string, dateTo: string,
    log: LogQuery -> seq<LogEntry>)
    returns (commits: seq<Commit>)
    ensures var kept := ByAuthor(log(LogQueryFor(dateFrom, dateTo)), author);
      && |commits| == |kept|
      && forall i :: 0 <= i < |kept| ==> commits[i] == ToCommit(kept[i], FrontEndRepoName(feRepoName, repo))
  {
    var name := FrontEndRepoName(feRepoName, repo);
    var entries := log(LogQueryFor(dateFrom, dateTo));
    commits := [];
    var i := 0;
    while i < |entries|
      invariant 0 <= i <= |entries|
      invariant |commits| == |ByAuthor(entries[..i], author)|
      invariant forall j :: 0 <= j < |commits| ==> commits[j] == ToCommit(ByAuthor(entries[..i], author)[j], name)
    {
      assert entries[..i + 1][..i] == entries[..i];
      if entries[i].author == author {
        commits := commits + [ToCommit(entries[i], name)];
      }
      i := i + 1;
    }
    assert entries[..i] == entries;
  }

  /** Filtering distributes over concatenation: relative order is kept. */
  lemma {:induction false} ByAuthorAppend(xs: seq<LogEntry>, ys: seq<LogEntry>, author: string)
    ensures ByAuthor(xs + ys, author) == ByAuthor(xs, author) + ByAuthor(ys, author)
    decreases |ys|
  {
    if |ys| == 0 {
      assert xs + ys == xs;
    } else {
      var front := ys[..|ys| - 1];
      assert (xs + ys)[..|xs + ys| - 1] == xs + front;
      assert (xs + ys)[|xs + ys| - 1] == ys[|ys| - 1];
      ByAuthorAppend(xs, front, author);
    }
  }

  /** Exactly the entries by `author` are kept. */
  lemma {:induction false} ByAuthorMembers(entries: seq<LogEntry>, author: string, e: LogEntry)
    ensures e in ByAuthor(entries, author) <==> e in entries && e.author == author
    decreases |entries|
  {
    if |entries| > 0 {
      var front := entries[..|entries| - 1];
      ByAuthorMembers(front, author, e);
      assert entries == front + [entries[|entries| - 1]];
    }
  }

  /** Filtering never lengthens the log. */
  lemma {:induction false} ByAuthorShorter(entries: seq<LogEntry>, author: string)
    ensures |ByAuthor(entries, author)| <= |entries|
    decreases |entries|
  {
    if |entries| > 0 {
      ByAuthorShorter(entries[..|entries| - 1], author);
    }
  }

  /**
   * What the collected records are: at most one per log entry, each
   * committed by `author`, and an entry yields a record exactly when it is
   * by `author`.
   */
  lemma CollectedRecords(entries: seq<LogEntry>, author: string, feRepoName: string, commits: seq<Commit>)
    requires |commits| == |ByAuthor(entries, author)|
    requires forall i :: 0 <= i < |commits| ==> commits[i] == ToCommit(ByAuthor(entries, author)[i], feRepoName)
    ensures |commits| <= |entries|
    ensures forall c :: c in commits ==> c.committer_name == author && c.short_explanation == "1 commit"
    ensures forall e :: e in entries && e.author == author ==> ToCommit(e, feRepoName) in commits
    ensures forall c :: c in commits ==> exists e :: e in entries && e.author == author && c == ToCommit(e, feRepoName)
  {
    var kept := ByAuthor(entries, author);
    ByAuthorShorter(entries, author);
    forall c | c in commits
      ensures c.committer_name == author && c.short_explanation == "1 commit"
      ensures exists e :: e in entries && e.author == author && c == ToCommit(e, feRepoName)
    {
      var i :| 0 <= i < |commits| && commits[i] == c;
      ByAuthorMembers(entries, author, kept[i]);
    }
    forall e | e in entries && e.author == author
      ensures ToCommit(e, feRepoName) in commits
    {
      ByAuthorMembers(entries, author, e);
      var i :| 0 <= i < |kept| && kept[i] == e;
      assert commits[i] == ToCommit(e, feRepoName);
    }
  }

  /** The evidence link of a collected record is the changelog page of its revision. */
  lemma CollectedLinks(le: LogEntry, feRepoName: string, repo: string)
    ensures ToCommit(le, FrontEndRepoName(feRepoName, repo)).link_url ==
      "http://gromit.ebi.ac.uk:10002/changelog/" + (if feRepoName == "" then repo else feRepoName) + "?cs=" + le.revision
  {
  }

  /**
   * The corrected writer reads the evidence link through `link_url`, and
   * it is the changelog page of the entry's revision.
   */
  lemma EvidenceColumnIsChangelogLink(le: LogEntry, feRepoName: string)
    ensures Attribute(ToCommit(le, feRepoName), "link_url") == Success(Str(EvidenceUrl(feRepoName, le.revision)))
  {
    assert FieldNames[9] == "link_url";
  }

  /**
   * The length of the longest suffix of `s` without a slash, which is what
   * `[^/]+$` matches: Python's `$` may also match before a final newline,
   * but `[^/]` takes that newline in, so the leftmost match still runs to
   * the end.
   */
  function SlashFreeSuffix(s: string): (k: nat)
    ensures k <= |s|
    ensures forall i :: |s| - k <= i < |s| ==> s[i] != '/'
    ensures k < |s| ==> s[|s| - k - 1] == '/'
  {
    if |s| == 0 || s[|s| - 1] == '/' then 0 else 1 + SlashFreeSuffix(s[..|s| - 1])
  }

  /**
   * `finalpath_re.search(repo)`: the last path component, or `None` when
   * `repo` is empty or ends with a slash (and `.group` then fails).
   */
  function RepoName(repo: string): (r: Option<string>)
    ensures r.None? <==> repo == "" || repo[|repo| - 1] == '/'
    ensures r.Some? ==> && r.value != "" && '/' !in r.value
                        && |r.value| <= |repo| && repo[|repo| - |r.value|..] == r.value
                        && (|r.value| == |repo| || repo[|repo| - |r.value| - 1] == '/')
  {
    var k := SlashFreeSuffix(repo);
    if k == 0 then None else Some(repo[|repo| - k..])
  }

  /** The component after the last slash is the name. */
  lemma RepoNameOfPath(dir: string, name: string)
    requires name != "" && '/' !in name
    ensures RepoName(dir + "/" + name) == Some(name)
  {
    var s := dir + "/" + name;
    var k := SlashFreeSuffix(s);
    assert s[|s| - |name| - 1] == '/';
    assert forall i :: |s| - |name| <= i < |s| ==> s[i] == name[i - (|s| - |name|)];
    assert k == |name|;
    assert s[|s| - |name|..] == name;
  }

  /** `write_results`' file name; `None` where the regular-expression search fails. */
  function OutputFilename(author: string, repo: string): (r: Option<string>)
    ensures r.Some? <==> RepoName(repo).Some?
    ensures r.Some? ==> r.value == "output/" + author + "_" + RepoName(repo).value + "_svn_commits.csv"
  {
    var name :- RepoName(repo);
    Some("output/" + author + "_" + name + "_svn_commits.csv")
  }

  /** A checkout path names its output file after its last component. */
  lemma OutputFilenameOfPath(author: string, dir: string, name: string)
    requires name != "" && '/' !in name
    ensures OutputFilename(author, dir + "/" + name) == Some("output/" + author + "_" + name + "_svn_commits.csv")
  {
    RepoNameOfPath(dir, name);
  }

  /** A path with a trailing slash has no output file name. */
  lemma OutputFilenameTrailingSlash(author: string, dir: string)
    ensures OutputFilename(author, dir + "/") == None
  {
    assert (dir + "/")[|dir + "/"| - 1] == '/';
  }
}
