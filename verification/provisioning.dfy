/**
  `GithubRepoStep.execute`: the linear pipeline that creates the repository
  and hands it to the import. Each stage either stops the pipeline with a
  result or lets it continue:

    1. a facade must exist (`initializeUI` has run);
    2. the project directory must exist and be a directory;
    3. create the repository on GitHub;
    4. derive the clone URL;
    5. publish the clone URL under the context's git-URL attribute;
    6. let the Jenkinsfile update veto by returning a result of its own;
    7. import the project into the new repository.

  The GitHub calls, the Jenkinsfile update and the import are oracle inputs:
  the outcome each would have.
 */
module Provisioning {
  import opened Common
  import opened GitAccounts

  /** A wizard `Result`: success, or a failure with a message and an optional cause. */
  datatype StepResult = Success | Failure(message: string, cause: Option<string>)

  /** The project directory as a `java.io.File`: its printed path and two flags. */
  datatype Directory = Directory(path: string, present: bool, isDirectory: bool)

  /** `createRepository` either throws an `IOException` or returns a repository with a nullable HTML URL. */
  datatype CreateOutcome = CreateFailed(error: string) | Created(htmlUrl: Option<string>)

  /** `createUserDetails` followed by `importNewGitProject`: either throws or completes. */
  datatype ImportOutcome = ImportFailed(error: string) | Imported

  /** What the remaining stages would yield, in pipeline order. */
  datatype Oracles = Oracles(create: CreateOutcome, jenkinsfile: Option<StepResult>, importOutcome: ImportOutcome)

  /** The step's inputs: the facade (`None` before `initializeUI`) and the three fields. */
  datatype StepInputs = StepInputs(
    github: Option<GitHubFacade>,
    orgName: Option<string>,
    repoName: Option<string>,
    description: Option<string>)

  /** The externally visible actions of `execute`, in the order they happen. */
  datatype Effect =
    | CreateRepository(org: Option<string>, repo: Option<string>, description: Option<string>)
    | PublishGitUrl(url: string)
    | UpdateJenkinsfile(dir: string, url: string)
    // the whole try block of the import: `createUserDetails` for the clone URL,
    // then `importNewGitProject`; recorded even when the first of the two throws
    | ImportAttempt(dir: string, commitMessage: string, url: string)

  /** The result, the actions taken, and the context's git-URL attribute afterwards. */
  datatype Execution = Execution(result: StepResult, effects: seq<Effect>, gitUrlAttribute: Option<string>)

  const NoAccountMessage := "No github account setup"
  const NoDirectoryMessage := "No project directory exists! "
  const CreateFailedMessage := "Failed to create repository  "
  const ImportFailedMessage := "Failed to import project to "
  const InitialImportMessage := "Initial import"
  const GithubBase := "https://github.com/"
  const GitSuffix := ".git"

  /** `basedir != null && basedir.exists() && basedir.isDirectory()` */
  predicate DirectoryOk(basedir: Option<Directory>) {
    basedir.Some? && basedir.value.present && basedir.value.isDirectory
  }

  /** How a nullable `File` prints. */
  function ShowDirectory(basedir: Option<Directory>): string {
    if basedir.Some? then basedir.value.path else "null"
  }

  /** The repository path `org/repo`, as Java prints it. */
  function RepoPath(step: StepInputs): string {
    Show(step.orgName) + "/" + Show(step.repoName)
  }

  /** Removes a trailing `.git`; the inverse of appending it. */
  function StripGitSuffix(url: string): string {
    if |url| >= |GitSuffix| && url[|url| - |GitSuffix|..] == GitSuffix then url[..|url| - |GitSuffix|] else url
  }

  /**
    The clone URL: the repository's HTML URL plus `.git` when GitHub returned
    one, otherwise the URL guessed from the organisation and repository names.
   */
  function CloneUrl(step: StepInputs, htmlUrl: Option<string>): (url: string)
    ensures |url| >= |GitSuffix| && url[|url| - |GitSuffix|..] == GitSuffix
    ensures htmlUrl.Some? ==> StripGitSuffix(url) == htmlUrl.value
    ensures htmlUrl.None? ==> StripGitSuffix(url) == GithubBase + RepoPath(step)
  {
    var base := if htmlUrl.Some? then htmlUrl.value else GithubBase + RepoPath(step);
    var url := base + GitSuffix;
    assert url[..|url| - |GitSuffix|] == base;
    url
  }

  /** Every action `execute` would take if no stage stopped it. */
  function FullPipeline(step: StepInputs, dir: string, url: string): seq<Effect> {
    [ CreateRepository(step.orgName, step.repoName, step.description),
      PublishGitUrl(url),
      UpdateJenkinsfile(dir, url),
      ImportAttempt(dir, InitialImportMessage, url) ]
  }

  /** The clone URL the pipeline works with once creation has been attempted. */
  function PipelineUrl(step: StepInputs, create: CreateOutcome): string {
    CloneUrl(step, if create.Created? then create.htmlUrl else None)
  }

  function Execute(step: StepInputs, basedir: Option<Directory>, gitUrlAttribute: Option<string>, o: Oracles): (r: Execution)
    // a linear pipeline: the actions are always a prefix of the full pipeline
    ensures r.effects <= FullPipeline(step, ShowDirectory(basedir), PipelineUrl(step, o.create))
    // stage 1: no facade, nothing happens
    ensures step.github.None? ==> r == Execution(Failure(NoAccountMessage, None), [], gitUrlAttribute)
    // stage 2: a bad directory stops before creation
    ensures step.github.Some? && !DirectoryOk(basedir) ==>
      && r.result == Failure(NoDirectoryMessage + ShowDirectory(basedir), None)
      && r.effects == [] && r.gitUrlAttribute == gitUrlAttribute
    // creation is attempted exactly when both checks pass
    ensures |r.effects| > 0 <==> step.github.Some? && DirectoryOk(basedir)
    // stage 3: a failed creation is reported with the repository path, and nothing follows
    ensures |r.effects| > 0 && o.create.CreateFailed? ==>
      && |r.effects| == 1 && r.gitUrlAttribute == gitUrlAttribute
      && r.result.Failure? && Contains(r.result.message, RepoPath(step))
      && r.result.cause == Some(o.create.error)
    // stage 5: once created, the clone URL is published, whatever follows
    ensures |r.effects| > 0 && o.create.Created? ==>
      |r.effects| >= 3 && r.gitUrlAttribute == Some(PipelineUrl(step, o.create))
    // the attribute changes only by publication
    ensures |r.effects| < 2 ==> r.gitUrlAttribute == gitUrlAttribute
    // stage 6: a Jenkinsfile result is returned verbatim and the import is skipped
    ensures |r.effects| > 0 && o.create.Created? && o.jenkinsfile.Some? ==>
      |r.effects| == 3 && r.result == o.jenkinsfile.value
    // stage 7: the import runs only past the veto; its failure names the clone URL
    ensures |r.effects| == 4 <==> |r.effects| > 0 && o.create.Created? && o.jenkinsfile.None?
    ensures |r.effects| == 4 && o.importOutcome.ImportFailed? ==>
      && r.result.Failure? && Contains(r.result.message, PipelineUrl(step, o.create))
      && r.result.cause == Some(o.importOutcome.error)
    ensures |r.effects| == 4 && o.importOutcome.Imported? ==> r.result == Success
  {
    if step.github.None? then
      Execution(Failure(NoAccountMessage, None), [], gitUrlAttribute)
    else if !DirectoryOk(basedir) then
      Execution(Failure(NoDirectoryMessage + ShowDirectory(basedir), None), [], gitUrlAttribute)
    else
      var dir := basedir.value.path;
      var url := PipelineUrl(step, o.create);
      var all := FullPipeline(step, dir, url);
      match o.create
      case CreateFailed(e) =>
        var message := CreateFailedMessage + RepoPath(step) + " " + e;
        ContainsMiddle(CreateFailedMessage, RepoPath(step), " " + e);
        assert message == CreateFailedMessage + RepoPath(step) + (" " + e);
        Execution(Failure(message, Some(e)), all[..1], gitUrlAttribute)
      case Created(_) =>
        if o.jenkinsfile.Some? then
          Execution(o.jenkinsfile.value, all[..3], Some(url))
        else
          match o.importOutcome
          case ImportFailed(e) =>
            var message := ImportFailedMessage + url + ". " + e;
            ContainsMiddle(ImportFailedMessage, url, ". " + e);
            assert message == ImportFailedMessage + url + (". " + e);
            Execution(Failure(message, Some(e)), all, Some(url))
          case Imported =>
            Execution(Success, all, Some(url))
  }

  /** A successful run took every action of the pipeline, or was passed by the Jenkinsfile update. */
  lemma SuccessMeansPipelineCompleted(step: StepInputs, basedir: Option<Directory>, attr: Option<string>, o: Oracles)
    requires Execute(step, basedir, attr, o).result == Success
    requires o.jenkinsfile != Some(Success)
    ensures Execute(step, basedir, attr, o).effects
            == FullPipeline(step, ShowDirectory(basedir), PipelineUrl(step, o.create))
    ensures o.create.Created? && o.importOutcome.Imported?
  {
  }

  /** The publication precedes the Jenkinsfile update, which precedes the import. */
  lemma PublishBeforeJenkinsfileBeforeImport(step: StepInputs, basedir: Option<Directory>, attr: Option<string>, o: Oracles)
    ensures var e := Execute(step, basedir, attr, o).effects;
            forall i, j :: 0 <= i < j < |e| ==>
              (e[j].UpdateJenkinsfile? ==> !e[i].ImportAttempt?) &&
              (e[j].PublishGitUrl? ==> !e[i].UpdateJenkinsfile? && !e[i].ImportAttempt?)
  {
  }

  /** Examples of the clone URL, with and without an HTML URL from GitHub. */
  lemma CloneUrlExamples()
    ensures CloneUrl(StepInputs(None, Some("org"), Some("repo"), None), Some("https://git.example.com/org/repo"))
            == "https://git.example.com/org/repo.git"
    ensures CloneUrl(StepInputs(None, Some("org"), Some("repo"), None), None)
            == "https://github.com/org/repo.git"
  {
  }

  /**
    Nothing guards against running the step again after the import failed:
    the second run asks GitHub to create the same repository once more.
   */
  lemma RerunCreatesAgain(step: StepInputs, basedir: Option<Directory>, attr: Option<string>, o: Oracles, o2: Oracles)
    requires Execute(step, basedir, attr, o).effects != []
    ensures var first := Execute(step, basedir, attr, o);
            var second := Execute(step, basedir, first.gitUrlAttribute, o2);
            first.effects[0] == second.effects[0] == CreateRepository(step.orgName, step.repoName, step.description)
  {
  }
}
