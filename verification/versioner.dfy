/**
  The commit-and-push step: status, add, commit, rev-parse, SSH key check and push,
  each external command replaced by the outcome it reports.
 */
module Versioner {
  import opened Wrappers
  import opened Strings
  import opened Errors

  /** The stages of the pipeline; `KeyCheck` is the test that an SSH key path is configured. */
  datatype Stage = GitStatus | GitAdd | GitCommit | GitRevParse | KeyCheck | GitPush

  /** The stages in the order they run. */
  const Pipeline: seq<Stage> := [GitStatus, GitAdd, GitCommit, GitRevParse, KeyCheck, GitPush]

  /** What each git command reports when it is run; `None` stands for a zero exit status. */
  datatype GitOutcomes = GitOutcomes(
    status: Result<string, string>,      // output of `git status --porcelain`, or its error
    addFailure: Option<CmdFailure>,
    commitFailure: Option<CmdFailure>,
    revParse: Result<string, string>,    // output of `git rev-parse HEAD`, or its error
    pushFailure: Option<CmdFailure>,
    timestamp: string)                   // the wall clock, formatted as "2006-01-02 15:04:05"

  /** What a successful step reports back to the run record. */
  datatype Commit = Commit(filesChanged: int, hash: string, message: string)

  /** The step's outcome together with the stages it got to, in order. */
  datatype Versioning = Versioning(result: Result<Commit, BackupError>, attempted: seq<Stage>)

  const NoChangesMessage := "No changes"

  function CommitMessage(timestamp: string): string {
    "Auto backup at " + timestamp
  }

  /** The stage passes with these outcomes and this key path. */
  predicate StageOk(g: GitOutcomes, sshKeyPath: string, st: Stage) {
    match st
    case GitStatus => g.status.Success?
    case GitAdd => g.addFailure.None?
    case GitCommit => g.commitFailure.None?
    case GitRevParse => g.revParse.Success?
    case KeyCheck => sshKeyPath != ""
    case GitPush => g.pushFailure.None?
  }

  /** The error a failing stage is reported as. */
  function StageError(g: GitOutcomes, sshKeyPath: string, st: Stage): BackupError
    requires !StageOk(g, sshKeyPath, st)
  {
    match st
    case GitStatus => StatusFailed(g.status.error)
    case GitAdd => AddFailed(g.addFailure.value)
    case GitCommit => CommitFailed(g.commitFailure.value)
    case GitRevParse => RevParseFailed(g.revParse.error)
    case KeyCheck => KeyMissing
    case GitPush => PushFailed(g.pushFailure.value)
  }

  /** The working copy has nothing to commit: the trimmed status output is empty. */
  predicate NoChanges(g: GitOutcomes) {
    g.status.Success? && TrimSpace(g.status.value) == ""
  }

  /** `commitAndPush`. */
  function CommitAndPush(sshKeyPath: string, g: GitOutcomes): (v: Versioning)
    ensures 1 <= |v.attempted| <= |Pipeline| && v.attempted == Pipeline[..|v.attempted|]
    ensures forall i :: 0 <= i < |v.attempted| - 1 ==> StageOk(g, sshKeyPath, v.attempted[i])
    ensures v.result.Failure? <==> !StageOk(g, sshKeyPath, v.attempted[|v.attempted| - 1])
    ensures v.result.Failure? ==> v.result.error == StageError(g, sshKeyPath, v.attempted[|v.attempted| - 1])
    ensures NoChanges(g) <==> v.result == Success(Commit(0, "", NoChangesMessage))
    ensures NoChanges(g) ==> v.attempted == [GitStatus]
    ensures v.result.Success? && !NoChanges(g) ==>
              && v.attempted == Pipeline
              && g.status.Success? && g.revParse.Success?
              && v.result.value.filesChanged == Count(TrimSpace(g.status.value), '\n') + 1
              && v.result.value.hash == TrimSpace(g.revParse.value)
              && v.result.value.message == CommitMessage(g.timestamp)
  {
    if g.status.Failure? then
      Versioning(Failure(StatusFailed(g.status.error)), [GitStatus])
    else
      var changes := TrimSpace(g.status.value);
      if changes == "" then
        Versioning(Success(Commit(0, "", NoChangesMessage)), [GitStatus])
      else
        var filesChanged := |Split(changes, '\n')|;
        SplitCount(changes, '\n');
        if g.addFailure.Some? then
          Versioning(Failure(AddFailed(g.addFailure.value)), Pipeline[..2])
        else
          var message := CommitMessage(g.timestamp);
          if g.commitFailure.Some? then
            Versioning(Failure(CommitFailed(g.commitFailure.value)), Pipeline[..3])
          else if g.revParse.Failure? then
            Versioning(Failure(RevParseFailed(g.revParse.error)), Pipeline[..4])
          else
            var hash := TrimSpace(g.revParse.value);
            if sshKeyPath == "" then
              Versioning(Failure(KeyMissing), Pipeline[..5])
            else if g.pushFailure.Some? then
              Versioning(Failure(PushFailed(g.pushFailure.value)), Pipeline)
            else
              Versioning(Success(Commit(filesChanged, hash, message)), Pipeline)
  }

  /** The step succeeds exactly when there is nothing to commit or every stage passes. */
  lemma SucceedsIff(sshKeyPath: string, g: GitOutcomes)
    ensures CommitAndPush(sshKeyPath, g).result.Success?
            <==> NoChanges(g) || forall i :: 0 <= i < |Pipeline| ==> StageOk(g, sshKeyPath, Pipeline[i])
  {
    var v := CommitAndPush(sshKeyPath, g);
    if v.result.Success? && !NoChanges(g) {
      assert v.attempted == Pipeline;
    }
  }

  /** A changed working copy reports at least one changed file when the step succeeds. */
  lemma ChangedFilesPositive(sshKeyPath: string, g: GitOutcomes)
    requires !NoChanges(g)
    requires CommitAndPush(sshKeyPath, g).result.Success?
    ensures CommitAndPush(sshKeyPath, g).result.value.filesChanged >= 1
  {
  }

  /**
    With no SSH key path configured, a changed working copy is staged and committed
    locally before the step fails, and nothing is pushed.
   */
  lemma MissingKeyLeavesLocalCommit(g: GitOutcomes)
    requires g.status.Success? && !NoChanges(g)
    requires g.addFailure.None? && g.commitFailure.None? && g.revParse.Success?
    ensures CommitAndPush("", g).result == Failure(KeyMissing)
    ensures GitCommit in CommitAndPush("", g).attempted
    ensures GitPush !in CommitAndPush("", g).attempted
  {
    var v := CommitAndPush("", g);
    assert v.attempted == Pipeline[..5];
    assert v.attempted[2] == GitCommit;
  }

  /** When nothing changed the key path is never looked at: the outcome is the same for every key. */
  lemma NoChangesIgnoresKey(key1: string, key2: string, g: GitOutcomes)
    requires NoChanges(g)
    ensures CommitAndPush(key1, g) == CommitAndPush(key2, g)
    ensures KeyCheck !in CommitAndPush(key1, g).attempted
  {
  }
}
