/**
  The entities the GitHub repository step works with: the stored git account,
  the organisations fetched for it, and the GitHub facade wrapping an account.
  Their own classes (`GitAccount`, `GitOrganisationDTO`, `GitHubFacade`) are
  not part of this model; only the observations the step makes of them are.
 */
module GitAccounts {
  import opened Common

  /**
    A `GitAccount`: the user name it reports, the key it files cached
    organisations under (`getUserCacheKey`), and the outcome of its own
    `hasValidData()` check, whose definition is not part of this model.
   */
  datatype Account = Account(username: Option<string>, userCacheKey: string, validData: bool)

  /**
    A `GitOrganisationDTO`: its (nullable) name, which the step compares,
    and its other contents, which the step passes along untouched. Two
    entries may share a name and still be different organisations.
   */
  datatype Organisation = Organisation(name: Option<string>, metadata: string)

  /** A `GitHubFacade` holding the (nullable) account it was built from. */
  datatype GitHubFacade = GitHubFacade(details: Option<Account>)

  /** `details != null && details.hasValidData()` for a nullable account. */
  predicate HasValidData(details: Option<Account>) {
    details.Some? && details.value.validData
  }

  /** `GitHubFacade.isDetailsValid()`: the facade's account is present and has valid data. */
  predicate IsDetailsValid(github: GitHubFacade) {
    HasValidData(github.details)
  }
}
