# commit-analysis: a Dafny model of the commit collectors

The repository collects one author's commits. It reads them either from GitHub, over its HTTP API, or from a local Subversion checkout. Each commit becomes a `Commit` record, and the records are written to a CSV file of timesheet evidence. Almost all of it is I/O. This project models the pure logic underneath:

- **`commit.py`** (module `Commits`). `Commit` is a datatype whose fields follow the order of the constructor's ten parameters. It is never mutated once built. Two functions give the Python view of a record: `PositionalInit` is a positional call of the constructor, and `Attribute` reads an attribute by name. `Render` is `Commit.__str__`, reproduced exactly: there is no closing quote after `short_explanation` and no closing brace. `ApiRequestError` is a datatype holding the reply's `status_code` and `content`.
- **`collect-github-commits.py`** (module `Github`). The `{owner}`/`{repo}` template is filled by literal, global substitution (module `Text`). The module also builds the commits query URL and applies the fail-fast `dispatch_api_request` status rule. It models the loop that turns every listed commit and its detail reply into a record. Python's `str()` of the counts is in module `Decimal`. `find_branches` builds the branch-name → sha map.
- **`collect-svn-commits.py`** (module `Svn`). It chooses the log query. It filters the log by author, keeping log order, and turns each kept entry into a record. It takes the last path component with `[^/]+$` and builds the output file name.
- Module `Changelog` holds what both collectors share: the constant short explanation `"1 commit"`, the default front-end repository name, and the changelog-viewer evidence URL.

Network replies, the SVN log and the JSON bodies are inputs. A GitHub fetch is a function from URL to `Reply` (status, raw content, decoded body). The SVN log is a function from `LogQuery` to a sequence of entries. Requests, basic authentication, the `svn` client library, `json.loads` and date formatting are not modelled.

What the collectors do not do:
- The GitHub collector issues one commits request and has no pagination.
- It passes the committer date through as given, with no conversion to day/month/year.
- It takes the message and the committer from the listing entry (`c['commit']`), not from the detail reply.
- It always builds the changelog-viewer link, never a direct GitHub link.
- In the SVN collector, a date range with only one bound means "no filter", not an error.

## Model

| member | source | states |
|---|---|---|
| `Commits.Attribute` | commit.py:2-12 | the instance attributes `__init__` sets are exactly the ten parameter names; each holds the argument of that name; any other name is not an instance attribute and reads as `AttributeError` |
| `Commits.PositionalInit` | commit.py:2-12 | a call with other than ten positional arguments raises `TypeError` (arity 10 against the number given); a successful call stores every argument unchanged in the field of the same name |
| `Commits.InitRoundTrip` | commit.py:2-12 | passing a commit's own ten fields back to the constructor rebuilds the same commit, so the constructor sets nothing else |
| `Commits.ArgsOf` | commit.py:2 | a commit corresponds to exactly ten constructor arguments, one per parameter |
| `Commits.HtmlUrlIsNotAnAttribute` | collect-github-commits.py:110 | reading `html_url`, as both report writers do, raises `AttributeError` on every commit |
| `Commits.Render` | commit.py:16-18 | `str(c)` begins `Commit:{id='<id>',date='<date>',short_explanation='<short>,committer='` with no closing quote after the short explanation; it ends with a quote, not a brace; its length is 80 plus the lengths of the six rendered fields |
| `Commits.RenderRoundTrip` | commit.py:16-18 | when no rendered field contains a quote, the id, date, short explanation, committer, message and link can be read back from `str(c)` in that order, so the rendering loses none of them |
| `Commits.RenderOmitsCountsAndLongExplanation` | commit.py:16-18 | the three counts and the long explanation do not appear: changing them leaves `str(c)` unchanged |
| `Text.ReplaceAllAbsent` | collect-github-commits.py:32 | a text in which the token never occurs is returned unchanged by the substitution |
| `Text.ReplaceAllJoin` | collect-github-commits.py:11-12 | substitution is global: if the literal text between the tokens does not contain the token's first character, every token is replaced, not only the first |
| `Decimal.NatToString` | collect-github-commits.py:53-54 | `str()` of a non-negative count is a non-empty string of digits that starts with `0` only for zero |
| `Decimal.IntToString` | collect-github-commits.py:53-54 | `str()` of an integer is non-empty and starts with `-` exactly when the integer is negative |
| `Decimal.ParseNatRoundTrip` | collect-github-commits.py:46 | the numeral `str()` writes for a file count reads back to that count |
| `Decimal.ParseIntRoundTrip` | collect-github-commits.py:45-48 | the numeral `str()` writes for a total, addition or deletion count reads back to that count |
| `Decimal.SpanDigits` | collect-github-commits.py:53-54 | the length of the longest all-digit prefix: that prefix is all digits, and the character after it is not a digit |
| `Decimal.DigitChar` | collect-github-commits.py:53-54 | each digit below ten is written as one decimal digit character of that value |
| `Changelog.FrontEndRepoName` | collect-github-commits.py:26-27 | an empty front-end repository name is replaced by the repository name; a non-empty one is kept |
| `Changelog.EvidenceUrl` | collect-github-commits.py:55 | the evidence URL is `http://gromit.ebi.ac.uk:10002/changelog/` + name + `?cs=`, followed by the revision and nothing else |
| `Changelog.EvidenceUrlInjective` | collect-svn-commits.py:35 | for a fixed repository name, two revisions with the same evidence URL are the same revision |
| `Github.Dispatch` | collect-github-commits.py:15-22 | a reply succeeds exactly when its status is 200 and then yields its body; any other status raises `ApiRequestError` carrying that status and content unchanged |
| `Github.RepositoryUrlFillsBothSlots` | collect-github-commits.py:32 | for a template `a{owner}b{repo}c` with brace-free literal text and owner, the result is `a` + owner + `b` + repo + `c` |
| `Github.RepositoryUrlFillsEverySlot` | collect-github-commits.py:32 | for any template whose brace-free literal text holds any number of `{owner}` and `{repo}` slots, every `{owner}` is filled with the (brace-free) owner and every `{repo}` with the repository name |
| `Github.RepositoryUrlFillsRepoSlotFromOwner` | collect-github-commits.py:32 | owner substitution runs first, so a `{repo}` inside the owner value is replaced by the repository name too |
| `Github.RepositoryUrlWithoutTokens` | collect-github-commits.py:32 | a template containing neither token is returned unchanged |
| `Github.OwnerStageOfTwoSlots` | collect-github-commits.py:32 | the owner stage fills `{owner}` and leaves `{repo}` in place |
| `Github.RepoTokenSurvivesOwnerStage` | collect-github-commits.py:11 | `{repo}` is not matched by the `{owner}` pattern |
| `Github.RepoStageOfTwoSlots` | collect-github-commits.py:12 | the repo stage fills the `{repo}` slot |
| `Github.OwnerStageNested` | collect-github-commits.py:11-32 | the owner stage fills every `{owner}` slot and leaves every `{repo}` slot in place |
| `Github.RepoStageNested` | collect-github-commits.py:12-32 | after the owner stage, the repo stage fills every `{repo}` slot and leaves the filled owners alone |
| `Github.RepoTokenPassesOwnerStage` | collect-github-commits.py:11 | `{repo}` never starts an `{owner}` match, whatever text follows it |
| `Github.RepoJoinPassesOwnerStage` | collect-github-commits.py:11-32 | brace-free text joined by `{repo}` passes the owner stage unchanged |
| `Github.RepoJoinRepoStage` | collect-github-commits.py:12-32 | in brace-free text joined by `{repo}`, every `{repo}` is replaced by the repository name |
| `Github.CommitsUrl` | collect-github-commits.py:36 | the commits query is the repository URL, then `/commits?author=`, then the author exactly |
| `Github.BranchesUrl` | collect-github-commits.py:74 | the branches query is the repository URL followed by `/branches` |
| `Github.LongDescriptionRoundTrip` | collect-github-commits.py:53-54 | the long description `<files> modified files, <total> total changes (<additions> additions and <deletions> deletions): <message>` determines every count and the message: parsing it gives them back |
| `Github.ParseIntAfterRoundTrip` | collect-github-commits.py:53-54 | a count written after one of the description's literal phrases reads back after that phrase |
| `Github.AsWrittenConstructionFails` | collect-github-commits.py:58-63 | the six positional arguments the GitHub loop passes to `Commit` always raise `TypeError` (10 expected, 6 given) |
| `Github.FetchDetails` | collect-github-commits.py:41-44 | every listed commit is paired, in order, with the reply to a fetch of its own `url` |
| `Github.FirstFailed` | collect-github-commits.py:44-55 | the first commit whose loop body raises: its detail fetch failed or its message or sha is not ASCII, and every earlier commit got through |
| `Github.CollectDetails` | collect-github-commits.py:41-64 | succeeds exactly when every detail fetch returned 200 and every message and sha is ASCII, and then gives one record per listed commit in listing order; otherwise fails at the first commit that breaks this, with `ApiRequestError` (that reply's status and content) if its fetch failed, else `UnicodeEncodeError` on its message, else on its sha |
| `Github.NonAsciiMessageAborts` | collect-github-commits.py:54 | a non-ASCII message aborts the run with `UnicodeEncodeError` at its commit, once the earlier commits got through and its own fetch succeeded |
| `Github.LiftApi` | collect-github-commits.py:22 | an `ApiRequestError` is passed on unchanged as the run's error; a success keeps its value |
| `Github.CollectCommitsFromGithub` | collect-github-commits.py:25-70 | the template is read from a fetch of `https://api.github.com/`; a failed discovery or listing reply aborts with its own status and content; otherwise it lists `<filled template>/commits?author=<author>` and collects every listed commit under the defaulted front-end name |
| `Github.CollectedCommitFields` | collect-github-commits.py:42-63 | each record holds the listed sha as id, the committer's date and name, the short explanation `"1 commit"`, a long description that parses back to the detail's file count, total, additions, deletions and the message, and the changelog link for the sha |
| `Github.EvidenceColumnIsChangelogLink` | collect-github-commits.py:110 | the evidence column read through `link_url` is the changelog page of the listed sha |
| `Github.FindBranches` | collect-github-commits.py:73-83 | a failed reply aborts with its status and content; otherwise the map's keys are exactly the branch names, and each name maps to the sha of its last occurrence |
| `Svn.LogQueryFor` | collect-svn-commits.py:20-25 | the date range is passed only when both bounds are non-empty; otherwise the unfiltered log is asked for |
| `Svn.AsWrittenConstructionFails` | collect-svn-commits.py:37-42 | the six positional arguments the SVN loop passes to `Commit` always raise `TypeError` (10 expected, 6 given) |
| `Svn.CollectCommitsFromSvn` | collect-svn-commits.py:14-44 | the output is one record per log entry by the author, in log order, with the front-end name defaulted to the repository |
| `Svn.ByAuthorAppend` | collect-svn-commits.py:27-29 | filtering distributes over concatenation of logs, so kept entries keep their relative order |
| `Svn.ByAuthorMembers` | collect-svn-commits.py:28-29 | an entry is kept exactly when it is in the log and its author equals the requested author |
| `Svn.ByAuthorShorter` | collect-svn-commits.py:27-44 | the filtered log is never longer than the log |
| `Svn.CollectedRecords` | collect-svn-commits.py:28-43 | there are at most as many records as log entries; each names the requested author as committer and has short explanation `"1 commit"`; each entry by that author yields a record, and each record comes from such an entry |
| `Svn.CollectedLinks` | collect-svn-commits.py:35 | a record's link is the changelog page `...changelog/<fe_repo_name or repo>?cs=<revision>` |
| `Svn.EvidenceColumnIsChangelogLink` | collect-svn-commits.py:74 | the evidence column read through `link_url` is the changelog page of the entry's revision |
| `Svn.SlashFreeSuffix` | collect-svn-commits.py:11 | the length of the maximal slash-free suffix: it contains no `/`, and the character before it, if any, is `/` |
| `Svn.RepoName` | collect-svn-commits.py:49 | there is no match exactly when the path is empty or ends in `/`; otherwise the match is the non-empty, slash-free suffix that is the whole path or follows a `/` |
| `Svn.RepoNameOfPath` | collect-svn-commits.py:49 | for `dir/name` with a slash-free, non-empty name, the match is `name` |
| `Svn.OutputFilename` | collect-svn-commits.py:52 | the file name is `output/<author>_<last component>_svn_commits.csv`, and it exists exactly when the path search matches |
| `Svn.OutputFilenameOfPath` | collect-svn-commits.py:52 | for a checkout path `dir/name`, the file name is `output/<author>_name_svn_commits.csv` |
| `Svn.OutputFilenameTrailingSlash` | collect-svn-commits.py:49-52 | a path ending in `/` has no file name: the search fails before the name is built |

## Left out

- Network I/O is not modelled: `requests.Session`, basic authentication, timeouts and `json.loads`. Replies are inputs that carry a status, a raw content and an already decoded body.
- JSON bodies are typed records. A missing key (Python `KeyError`) or a value of an unexpected type is not modelled.
- The `find_repository` discovery fetch of `https://api.github.com/` is a reply function like the others, and only `repository_url` is read from it.
- Pagination is left out because the code issues a single commits request.
- The `svn.local.LocalClient` calls are not modelled. The log is a function from the query to a sequence of entries.
- The type of the SVN library's `revision` is not visible, so it is modelled as a string.
- Date parsing and formatting (`strptime`, `strftime`) are library calls. An entry's `date` is the already formatted string, and a malformed date bound (`ValueError`) is not modelled.
- `Github.RepositoryUrl` requires that owner and repository contain no backslash. With a backslash, `re.sub` would process escapes in the replacement, and that is not modelled.
- `Commits.PositionalInit`: a ten-argument call with a string in a count slot, or an integer in a text slot, fails with `SlotKindError` here. Python would store any value. The record's fields are typed.
- `Commits.Attribute` models only the instance attributes `__init__` sets. Class and special attributes such as `__dict__`, `__class__`, `__doc__`, `__module__`, and the methods `__init__` and `__str__`, can also be read on a Python instance, and they are not modelled.
- `Commits.Render` assumes every rendered field is a string. The `UnicodeDecodeError` handler, Python 2's str/unicode distinction (outside the GitHub loop's `str()` calls, which `Github.CollectDetails` models) and the `TypeError` from concatenating a non-string are not modelled.
- `ApiRequestError.__str` is misnamed and never called, so it is not modelled.
- Python `None` for `fe_repo_name` is not modelled. Only the empty string triggers the default.
- CSV writing, directory creation, file appends and the column layout of `write_results` are left out. The GitHub collector's output file name (collect-github-commits.py:88) is not modelled either. Only the SVN output file name is.
- `main`, getopt handling, `usage` text and progress messages are left out. `find_branches` is modelled even though its call in the collector is commented out (collect-github-commits.py:33).
- The unused `master_commit_sha_list` has no counterpart. `Github.CollectedCommitFields` shows that the record ids are the listed shas, in order.
- The corrected records fill the fields the six-argument calls had no slot for. A GitHub record gets the detail's file count, additions and deletions, and its long description as `long_explanation`. An SVN record gets zero counts and the log message as `long_explanation`.

## Findings

| source | as written | input that shows it | evidently intended | confidence | as-written member | corrected member |
|---|---|---|---|---|---|---|
| collect-github-commits.py:58-63 | `commit.Commit` is called with 6 positional arguments, but its `__init__` takes 10, so every iteration raises `TypeError` | any listing whose first commit's detail fetch returns 200 and whose message and sha are ASCII | build the ten-field record from the values the loop computes | high (not executed) | `Github.AsWrittenConstructionFails` | `Github.CollectDetails` |
| collect-svn-commits.py:37-42 | `commit.Commit` is called with 6 positional arguments against 10 parameters, so `TypeError` is raised | any log with an entry by the author | build the ten-field record from the entry | high (not executed) | `Svn.AsWrittenConstructionFails` | `Svn.CollectCommitsFromSvn` |
| collect-github-commits.py:110 | the writer reads `result.html_url`, which `Commit` never defines, so `AttributeError` is raised once the constructor call is fixed; as written the loop raises first | any non-empty result list | read the evidence link from `link_url` | high (not executed) | `Commits.HtmlUrlIsNotAnAttribute` | `Github.EvidenceColumnIsChangelogLink` |
| collect-svn-commits.py:74 | the writer reads `result.html_url`, which `Commit` never defines, so `AttributeError` is raised once the constructor call is fixed; as written the loop raises first | any non-empty result list | read the evidence link from `link_url` | high (not executed) | `Commits.HtmlUrlIsNotAnAttribute` | `Svn.EvidenceColumnIsChangelogLink` |
