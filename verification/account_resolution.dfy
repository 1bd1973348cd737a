/**
  `GithubRepoStep.createGithubFacade`: where the step's GitHub account comes
  from. Every source is an oracle input, the value that source would yield:
  the account already stored under the context's git-account attribute, the
  deployment's on-premise flag, the account the secret loader would return,
  and the account the no-argument facade would find by itself (through the
  identity broker).
 */
module AccountResolution {
  import opened Common
  import opened GitAccounts

  /** The three sources of an account, in the order they are tried. */
  datatype Tier = ContextAttribute | SecretStore | IdentityBroker

  /** The facade built, and the source it was built from. */
  datatype Resolution = Resolution(facade: GitHubFacade, tier: Tier)

  /** The oracle values the three tiers would produce. */
  datatype Sources = Sources(
    contextAccount: Option<Account>,
    onPremise: bool,
    secretAccount: Option<Account>,
    brokerAccount: Option<Account>)

  function CreateGithubFacade(src: Sources): (r: Resolution)
    // the first tier that applies wins
    ensures r.tier == ContextAttribute <==> src.contextAccount.Some?
    ensures r.tier == SecretStore <==> src.contextAccount.None? && src.onPremise
    ensures r.tier == IdentityBroker <==> src.contextAccount.None? && !src.onPremise
    // and the facade carries exactly that tier's account, even a null one
    ensures r.tier == ContextAttribute ==> r.facade.details == src.contextAccount
    ensures r.tier == SecretStore ==> r.facade.details == src.secretAccount
    ensures r.tier == IdentityBroker ==> r.facade.details == src.brokerAccount
  {
    if src.contextAccount.Some? then
      Resolution(GitHubFacade(src.contextAccount), ContextAttribute)
    else if src.onPremise then
      Resolution(GitHubFacade(src.secretAccount), SecretStore)
    else
      Resolution(GitHubFacade(src.brokerAccount), IdentityBroker)
  }

  /** Sources that agree on every tier up to and including `t`. */
  predicate AgreeUpTo(a: Sources, b: Sources, t: Tier) {
    && a.contextAccount == b.contextAccount
    && (t != ContextAttribute ==> a.onPremise == b.onPremise && a.secretAccount == b.secretAccount)
    && (t == IdentityBroker ==> a.brokerAccount == b.brokerAccount)
  }

  /**
    Tiers after the winning one are never consulted: changing what they would
    yield changes neither the facade nor the tier.
   */
  lemma LaterTiersNotConsulted(a: Sources, b: Sources)
    requires AgreeUpTo(a, b, CreateGithubFacade(a).tier)
    ensures CreateGithubFacade(b) == CreateGithubFacade(a)
  {
  }

  /**
    On premise, a missing secret gives a facade without an account; the
    identity broker is not tried in its place.
   */
  lemma OnPremiseNeverFallsBack(src: Sources)
    requires src.contextAccount.None? && src.onPremise && src.secretAccount.None?
    ensures CreateGithubFacade(src).facade.details.None?
    ensures CreateGithubFacade(src).tier != IdentityBroker
  {
  }
}
