# GitHub repository step and Gogs provider — a Dafny model

This project models the decision logic of the fabric8 generator's git-hosting wizard. That logic is spread over two classes.

- `GithubRepoStep` is the wizard step that picks a GitHub organisation and a repository name, then creates the repository and imports the new project into it. The model covers four parts of it:
  - where the GitHub account comes from (`createGithubFacade`);
  - which organisations are offered, and which one is pre-selected (`initializeUI`);
  - when the repository name is sent to GitHub for validation (`validate`);
  - the provisioning pipeline (`execute`).
- `GogsProvider` adds wizard steps to the navigation. It also answers `isConfiguredCorrectly`, which it computes once and then remembers.

Every collaborator is replaced by an oracle input: the value it would return, or the exception it would throw. This covers the GitHub API, the secret loader, the Kubernetes client, the Jenkinsfile rewriter and the project importer. The organisation cache is a sequential `map` with compute-if-absent semantics. A Java `null` is `Option.None`. The step's observable actions are recorded in order as a list of `Effect`s: repository creation, publication of the git-URL attribute, the Jenkinsfile update, and the import attempt. The import attempt covers both the user-details lookup and the import, which share one exception handler.

Modules:

- `Common` (common.dfy): `Option`, Java `trim`, the `Strings.isNotBlank` test, how Java prints a null string, and substring containment.
- `GitAccounts` (git_account.dfy): the account, organisation and facade entities.
- `AccountResolution` (account_resolution.dfy): `createGithubFacade`.
- `Organisations` (organisations.dfy): the organisation cache, the choices, the default organisation, and `initializeUI`.
- `RepoValidation` (validation.dfy): `validate`.
- `Provisioning` (provisioning.dfy): `execute` and the clone-URL derivation.
- `GogsProvider` (gogs_provider.dfy): navigation hooks and the remembered configuration check.

Behaviour worth knowing, as the code has it:

- **No fallback after a missing secret.** In on-premise mode a missing secret gives a facade with no account. It does not fall through to the identity broker: the on-premise tier wins even when its secret yields nothing. See `OnPremiseNeverFallsBack`.
- **The URL is published early.** The clone URL is published into the context as soon as the repository exists. This happens before the Jenkinsfile update and the import, not only on success.
- **`execute` checks the facade, not the account.** It tests only whether the facade is null. A facade whose account is null or invalid still goes on to the directory check and the creation call. `createGithubFacade` never returns null, so "No github account setup" can only be reported when `initializeUI` has not run. The model represents that case as `StepInputs.github == None`.
- **`validate` delegates.** It hands the check to GitHub's `validateRepositoryName` and does not report a verdict itself. The model records whether that call is made, and with which names.
- **The configuration check does not catch exceptions.** `isConfiguredCorrectly` has no handler. A failing client construction or secret load would raise an exception, not return `false`.

## Model

| member | source | states |
|---|---|---|
| AccountResolution.CreateGithubFacade | src/main/java/io/fabric8/forge/generator/github/GithubRepoStep.java:102-113 | The tiers are tried in this order: context attribute, then the on-premise secret, then the identity broker. The first tier that applies wins (an if-and-only-if per tier), and the facade carries that tier's account, even a null one |
| AccountResolution.LaterTiersNotConsulted | src/main/java/io/fabric8/forge/generator/github/GithubRepoStep.java:102-113 | Two source sets that agree up to the winning tier give the same facade and tier, so the later tiers are never consulted |
| AccountResolution.OnPremiseNeverFallsBack | src/main/java/io/fabric8/forge/generator/github/GithubRepoStep.java:106-109 | In on-premise mode a missing secret gives a facade with no account, and the identity broker is not tried |
| Organisations.ComputeIfAbsent | src/main/java/io/fabric8/forge/generator/github/GithubRepoStep.java:77 | Compute-if-absent. The step fetches if and only if the key is absent. The stored value is what is returned. A present key returns its stored list and leaves the cache unchanged. An absent key stores the fetched list, and all other keys keep their values |
| Organisations.OrganisationChoices | src/main/java/io/fabric8/forge/generator/github/GithubRepoStep.java:74-79 | Without a valid account the choices are empty, there is no fetch and the cache is unchanged. Otherwise the account's cache key is looked up: a cached key returns its stored list, and an absent key stores exactly the fetched list |
| Organisations.SecondLookupHitsCache | src/main/java/io/fabric8/forge/generator/github/GithubRepoStep.java:77 | A second lookup of the same key never fetches, and it returns the list and cache that the first lookup left |
| Organisations.LookupRepeatedly | src/main/java/io/fabric8/forge/generator/github/GithubRepoStep.java:77 | Any number of lookups of one key fetch at most once, only when the key was absent at first. Every lookup sees the same list. This holds for a cache that keeps its entries; see "Left out" |
| Organisations.FirstNamed | src/main/java/io/fabric8/forge/generator/github/GithubRepoStep.java:88-93 | The result is the first organisation in list order whose name equals the user name. When there is no result, no organisation has that name |
| Organisations.DefaultOrganisation | src/main/java/io/fabric8/forge/generator/github/GithubRepoStep.java:86-94 | A default exists if and only if the user name is not blank and some organisation has exactly that name. The default is then the first such organisation |
| Organisations.SelectDefault | src/main/java/io/fabric8/forge/generator/github/GithubRepoStep.java:87-94 | The source's scan-and-break loop picks the same default as the first-match definition |
| Organisations.InitializeUI | src/main/java/io/fabric8/forge/generator/github/GithubRepoStep.java:71-94 | The step keeps the facade that `createGithubFacade` resolves. Without a valid account the choices are empty, nothing is fetched and the cache is untouched. With one, the choices are the compute-if-absent lookup of the account's cache key, fetching if and only if the key was absent. A default exists if and only if the user name is not blank and some choice has exactly that name, and it is the first such choice |
| Organisations.DefaultOrganisationExamples | src/main/java/io/fabric8/forge/generator/github/GithubRepoStep.java:86-94 | Given the organisations alice and bravo-team, user "alice" gets default alice and user "carol" gets no default. Of two different organisations both named alice, the earlier one in the list is picked |
| RepoValidation.Validate | src/main/java/io/fabric8/forge/generator/github/GithubRepoStep.java:116-127 | GitHub validation is called if and only if the facade exists, the account is valid and both names are not blank. It is called once, with exactly the current organisation and repository names |
| RepoValidation.SilentExamples | src/main/java/io/fabric8/forge/generator/github/GithubRepoStep.java:117-126 | No facade, an empty organisation name or an empty repository name each keep validation silent |
| RepoValidation.WhiteSpaceNameIsSilent | src/main/java/io/fabric8/forge/generator/github/GithubRepoStep.java:124 | A repository name made only of white space counts as blank, so validation stays silent |
| Common.BlankIffAllTrimmable | src/main/java/io/fabric8/forge/generator/github/GithubRepoStep.java:124 | A string trims to empty if and only if every char in it is at or below U+0020 |
| Provisioning.CloneUrl | src/main/java/io/fabric8/forge/generator/github/GithubRepoStep.java:145-151 | The clone URL ends in `.git`. Stripping that suffix gives back the HTML URL when GitHub returned one, and `https://github.com/org/repo` otherwise |
| Provisioning.Execute | src/main/java/io/fabric8/forge/generator/github/GithubRepoStep.java:130-173 | The actions always form a prefix of create, publish, Jenkinsfile, import; see the breakdown below the table |
| Provisioning.SuccessMeansPipelineCompleted | src/main/java/io/fabric8/forge/generator/github/GithubRepoStep.java:158-172 | A success that is not the Jenkinsfile step's own success means every pipeline action ran, creation succeeded and the import completed |
| Provisioning.PublishBeforeJenkinsfileBeforeImport | src/main/java/io/fabric8/forge/generator/github/GithubRepoStep.java:158-167 | The URL is published before the Jenkinsfile update, and the Jenkinsfile update happens before the import |
| Provisioning.CloneUrlExamples | src/main/java/io/fabric8/forge/generator/github/GithubRepoStep.java:145-151 | Examples: `https://git.example.com/org/repo` gives `https://git.example.com/org/repo.git`, and no URL gives `https://github.com/org/repo.git` |
| Provisioning.RerunCreatesAgain | src/main/java/io/fabric8/forge/generator/github/GithubRepoStep.java:145-147 | Nothing guards a rerun, so running the step again after a downstream failure asks GitHub to create the same repository again |
| GogsProvider.AddRepoStep | src/main/java/io/fabric8/forge/generator/gogs/GogsProvider.java:39-41 | The step appends exactly `GithubRepoStep` and leaves the existing navigation unchanged |
| GogsProvider.AddConfigureStep | src/main/java/io/fabric8/forge/generator/gogs/GogsProvider.java:44-46 | The step appends exactly `GithubSetupCredentialsStep` and leaves the existing navigation unchanged |
| GogsProvider.IsConfiguredCorrectly | src/main/java/io/fabric8/forge/generator/gogs/GogsProvider.java:49-60 | On the first call, the answer is "an account was loaded and has valid data". That call loads once, keeps the account and remembers the answer. A later call returns the remembered answer and changes nothing |
| GogsProvider.CheckPreservesValid | src/main/java/io/fabric8/forge/generator/gogs/GogsProvider.java:49-60 | Every call keeps the provider invariant. Before the first check nothing is loaded. After it, exactly one load has happened and the remembered answer is the verdict on the loaded account |
| GogsProvider.CheckRepeatedly | src/main/java/io/fabric8/forge/generator/gogs/GogsProvider.java:49-60 | For a fresh provider called any number of times, every answer is the verdict on the first load. The load count stays at 1 and the kept account is the first one loaded |
| GogsProvider.SecondCallLoadsNothing | src/main/java/io/fabric8/forge/generator/gogs/GogsProvider.java:50-59 | Two calls in a row: the second repeats the first answer, loads nothing, and keeps the account from the first load |

`Provisioning.Execute` makes these promises, stage by stage:

- **No facade.** It fails with "No github account setup", takes no action and leaves the URL attribute alone.
- **Bad directory.** It fails with "No project directory exists!" and the directory path, and nothing is created or published.
- **Creation attempted.** It tries to create the repository if and only if both checks pass.
- **Creation fails.** The failure embeds `org/repo` and the cause, and nothing further happens.
- **Repository created.** The clone URL is published, whatever follows.
- **Jenkinsfile result.** A result from the Jenkinsfile step is returned verbatim, and the import is skipped.
- **Import fails.** The failure embeds the clone URL.
- **Import completes.** The result is success.

## Left out

- Forge UI machinery is not modelled: widgets, the label converter, `builder.add`, and the default repository name from `getProjectName`. The selected organisation name and the field values are plain inputs. Presentation only.
- Organisations.LookupRepeatedly: cache entries never expire and are never evicted in the model. The real cache comes from `CacheFacade`, whose expiry and eviction settings are not part of this model, and line 73 asks for a per-user lifetime. So the at-most-one-fetch property holds only while the entry stays in the cache.
- The cache's concurrency and single-flight behaviour is left out.
- `loadGithubOrganisations` is assumed to return a non-null list. A null would store nothing in the cache and make the scan at line 88 throw; that path is not modelled. The cache is sequential, so the "one fetch per key" property is stated for a sequence of lookups (`LookupRepeatedly`), not for concurrent callers.
- GitHub calls are oracle inputs. This covers `createRepository`, `getHtmlUrl`, `loadGithubOrganisations`, `validateRepositoryName` and `createUserDetails`. Their source is not part of this model, and they are network calls.
- The Kubernetes client, the secret namespace, `GitAccount.loadFromSecret` and `loadGitDetailsFromSecret` (including its account cache) are reduced to the account they would return. They are foreign calls.
- `updateGitURLInJenkinsfile` and `importNewGitProject` are reduced to their outcomes. Their source is not part of this model.
- `GitAccount.hasValidData` is an abstract flag on the account, because `GitAccount` is not part of this model. `GitHubFacade.isDetailsValid` is assumed to mean "the account is not null and has valid data".
- `Strings.isNotBlank` is not part of this model. It is assumed to mean "not null, and Java's `trim()` leaves something", where `trim` strips chars at or below U+0020.
- `java.io.File` is reduced to a printed path and two flags: exists and is a directory.
- Exceptions other than the two caught in `execute` are not modelled. These include an exception from the Jenkinsfile update and any exception in `isConfiguredCorrectly`. They would propagate out of the step.
- Logging is not modelled. Exception texts are free-form strings: a failure message is stated up to the exception's `toString`, and the cause is kept as that same string.
- Organisations.InitializeUI requires the facade resolved from its sources to hold an account. The source reads the user name from it without a null check, so a null account would throw a `NullPointerException`, which is not modelled.
- `getOrganisationName` is not part of this model. Its result, the selected organisation's name, which may be null, is an input.

## Findings

None claimed. One oddity is that `execute` checks only that the facade is not null, while `validate` also checks that its account is valid. It is not claimed as a defect.
