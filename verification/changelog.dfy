/**
 * What both collectors share: the constant short explanation, the default
 * for the front-end (changelog viewer) repository name, and the evidence
 * URL into that viewer.
 */
module Changelog {
  import opened Text

  const ShortExplanation: string := "1 commit"

  const ChangelogRoot: string := "http://gromit.ebi.ac.uk:10002/changelog/"

  /** `if not fe_repo_name: fe_repo_name = repo`. */
  function FrontEndRepoName(feRepoName: string, repo: string): (r: string)
    ensures feRepoName == "" ==> r == repo
    ensures feRepoName != "" ==> r == feRepoName
  {
    if feRepoName == "" then repo else feRepoName
  }

  /** The changelog viewer's page for revision `cs` of repository `name`. */
  function EvidenceUrl(name: string, cs: string): (url: string)
    ensures StartsWith(url, ChangelogRoot + name + "?cs=")
    ensures |url| == |ChangelogRoot| + |name| + 4 + |cs| && url[|url| - |cs|..] == cs
  {
    ChangelogRoot + name + "?cs=" + cs
  }

  /**
   * The evidence URL identifies its revision: for one repository name,
   * distinct revisions get distinct URLs.
   */
  lemma EvidenceUrlInjective(name: string, cs1: string, cs2: string)
    requires EvidenceUrl(name, cs1) == EvidenceUrl(name, cs2)
    ensures cs1 == cs2
  {
    var p := ChangelogRoot + name + "?cs=";
    assert EvidenceUrl(name, cs1)[|p|..] == cs1;
    assert EvidenceUrl(name, cs2)[|p|..] == cs2;
  }
}
