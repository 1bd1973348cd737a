/**
  `GogsProvider`: the steps it adds to the wizard's navigation, and its
  `isConfiguredCorrectly` check, computed once and remembered.

  The Kubernetes client, the user's secret namespace and the secret load
  are collaborators; the check sees only the account the load would return,
  passed in as an oracle input.
 */
module GogsProvider {
  import opened Common
  import opened GitAccounts

  /** The wizard step classes a provider can add to the navigation. */
  datatype StepClass = GithubRepoStep | GithubSetupCredentialsStep

  /** `addRepoStep`: appends the repository step and nothing else. */
  function AddRepoStep(navigation: seq<StepClass>): (r: seq<StepClass>)
    ensures |r| == |navigation| + 1
    ensures r[..|navigation|] == navigation
    ensures r[|navigation|] == GithubRepoStep
  {
    navigation + [GithubRepoStep]
  }

  /** `addConfigureStep`: appends the credentials step and nothing else. */
  function AddConfigureStep(navigation: seq<StepClass>): (r: seq<StepClass>)
    ensures |r| == |navigation| + 1
    ensures r[..|navigation|] == navigation
    ensures r[|navigation|] == GithubSetupCredentialsStep
  {
    navigation + [GithubSetupCredentialsStep]
  }

  /**
    The provider's state: the remembered answer (null until the first
    check), the account the first check loaded, and how many loads happened.
   */
  datatype Provider = Provider(configuredCorrectly: Option<bool>, details: Option<Account>, loads: nat)

  /** A freshly constructed provider. */
  const NewProvider := Provider(None, None, 0)

  /**
    The provider's invariant: before the first check nothing is loaded or
    remembered; afterwards exactly one load happened and the remembered
    answer is the verdict on the account it loaded.
   */
  predicate Valid(p: Provider) {
    && (p.configuredCorrectly.None? ==> p.loads == 0 && p.details.None?)
    && (p.configuredCorrectly.Some? ==> p.loads == 1 && p.configuredCorrectly.value == HasValidData(p.details))
  }

  /** The answer of one call and the provider after it. */
  datatype Check = Check(answer: bool, provider: Provider)

  /**
    `isConfiguredCorrectly`: `loaded` is the account the secret load would
    return if this call reached it.
   */
  function IsConfiguredCorrectly(p: Provider, loaded: Option<Account>): (r: Check)
    // the first call loads once, keeps the account and remembers its verdict
    ensures p.configuredCorrectly.None? ==>
      && r.answer == HasValidData(loaded)
      && r.provider == Provider(Some(r.answer), loaded, p.loads + 1)
    // later calls answer from memory and change nothing
    ensures p.configuredCorrectly.Some? ==> r.answer == p.configuredCorrectly.value && r.provider == p
  {
    if p.configuredCorrectly.None? then
      var answer := HasValidData(loaded);
      Check(answer, Provider(Some(answer), loaded, p.loads + 1))
    else
      Check(p.configuredCorrectly.value, p)
  }

  /** Every call keeps the provider's invariant. */
  lemma CheckPreservesValid(p: Provider, loaded: Option<Account>)
    requires Valid(p)
    ensures Valid(IsConfiguredCorrectly(p, loaded).provider)
  {
  }

  /**
    A fresh provider checked any number of times, each call with its own
    would-be load: every answer is the verdict on the first load, exactly
    one load happens, and the account kept is the first one.
   */
  method CheckRepeatedly(loads: seq<Option<Account>>) returns (answers: seq<bool>, p: Provider)
    requires |loads| > 0
    ensures |answers| == |loads|
    ensures forall i :: 0 <= i < |answers| ==> answers[i] == HasValidData(loads[0])
    ensures p == Provider(Some(HasValidData(loads[0])), loads[0], 1)
    ensures Valid(p)
  {
    p := NewProvider;
    answers := [];
    var i := 0;
    while i < |loads|
      invariant 0 <= i <= |loads|
      invariant |answers| == i
      invariant i == 0 ==> p == NewProvider
      invariant i > 0 ==> p == Provider(Some(HasValidData(loads[0])), loads[0], 1)
      invariant forall j :: 0 <= j < i ==> answers[j] == HasValidData(loads[0])
    {
      var r := IsConfiguredCorrectly(p, loads[i]);
      answers := answers + [r.answer];
      p := r.provider;
      i := i + 1;
    }
  }

  /** Two calls in succession: the second loads nothing and repeats the first answer. */
  lemma SecondCallLoadsNothing(loaded1: Option<Account>, loaded2: Option<Account>)
    ensures var first := IsConfiguredCorrectly(NewProvider, loaded1);
            var second := IsConfiguredCorrectly(first.provider, loaded2);
            && second.answer == first.answer
            && second.provider.loads == 1
            && second.provider.details == loaded1
  {
  }
}
