/**
  `GithubRepoStep.validate`: when the step asks GitHub to check the proposed
  repository name. The check itself (`validateRepositoryName`, which attaches
  its findings to the repository field) is a collaborator; the model records
  whether it is called and with which names.
 */
module RepoValidation {
  import opened Common
  import opened GitAccounts

  /** The effect of one `validate` call. */
  datatype ValidationCall =
    | Silent
    | ValidateRepositoryName(orgName: string, repoName: string)

  /**
    `github` is `None` until `initializeUI` has built the facade; `orgName`
    is the selected organisation's name and `repoName` the repository field,
    either possibly null.
   */
  function Validate(github: Option<GitHubFacade>, orgName: Option<string>, repoName: Option<string>): (r: ValidationCall)
    ensures r.ValidateRepositoryName? <==>
      github.Some? && IsDetailsValid(github.value) && IsNotBlank(orgName) && IsNotBlank(repoName)
    ensures r.ValidateRepositoryName? ==> orgName == Some(r.orgName) && repoName == Some(r.repoName)
  {
    if github.None? || !IsDetailsValid(github.value) then
      Silent
    else if IsNotBlank(orgName) && IsNotBlank(repoName) then
      ValidateRepositoryName(orgName.value, repoName.value)
    else
      Silent
  }

  /** Examples: no account, or an empty name, keep validation silent. */
  lemma SilentExamples(account: Account)
    requires account.validData
    ensures Validate(None, Some("org"), Some("repo")) == Silent
    ensures Validate(Some(GitHubFacade(Some(account))), Some(""), Some("repo")) == Silent
    ensures Validate(Some(GitHubFacade(Some(account))), Some("org"), Some("")) == Silent
  {
  }

  /** Names made only of white space count as blank and keep validation silent. */
  lemma WhiteSpaceNameIsSilent(github: Option<GitHubFacade>, orgName: Option<string>, repoName: string)
    requires forall i :: 0 <= i < |repoName| ==> IsTrimmable(repoName[i])
    ensures Validate(github, orgName, Some(repoName)) == Silent
  {
    BlankIffAllTrimmable(repoName);
  }
}
