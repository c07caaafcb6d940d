/**
  The backup orchestrator: the single-flight flag, the run record's lifecycle, and the
  sequencing of parse, per-workspace mirroring and the commit-and-push step. External
  commands, clocks and the map iteration order are supplied in a `World`.
 */
module Orchestrator {
  import opened Wrappers
  import opened Config
  import opened Workspaces
  import opened Errors
  import opened Models
  import opened Versioner
  import opened Notify

  /** All the state the core keeps between runs: the flag and the record store. */
  datatype State = State(running: bool, store: Store)

  /** What one run learns from outside the core. */
  datatype World = World(
    order: seq<string>,                     // the order the parsed map's names are visited in
    syncFailures: map<string, CmdFailure>,  // workspaces whose mirror command exits non-zero
    git: GitOutcomes,
    startedAt: Time,
    finishedAt: Time,
    durationMs: nat,
    seconds: string,                        // the duration in seconds, formatted to one decimal
    now: string)                            // the notification's timestamp

  /** `IsBackupRunning`. */
  predicate IsBackupRunning(s: State) {
    s.running
  }

  predicate Distinct(xs: seq<string>) {
    forall i, j :: 0 <= i < j < |xs| ==> xs[i] != xs[j]
  }

  /** `order` visits every key exactly once, as ranging over a map does. */
  predicate Enumerates(order: seq<string>, keys: set<string>) {
    && Distinct(order)
    && (forall i :: 0 <= i < |order| ==> order[i] in keys)
    && (forall k :: k in keys ==> k in order)
  }

  /** The run's visiting order is some order of the configured workspace names. */
  predicate OrderFits(cfg: Config, w: World) {
    ParseWorkspaces(cfg.workspaces).Success? ==> Enumerates(w.order, ParseWorkspaces(cfg.workspaces).value.Keys)
  }

  /** The workspaces the loop got to, in order, and the failure that stopped it, if any. */
  datatype Syncing = Syncing(attempted: seq<string>, failure: Option<BackupError>)

  /** The mirroring loop: one workspace after another; the first failure ends the loop. */
  function SyncAll(order: seq<string>, failures: map<string, CmdFailure>): (r: Syncing)
    ensures |r.attempted| <= |order| && r.attempted == order[..|r.attempted|]
    ensures forall i :: 0 <= i < |r.attempted| - 1 ==> r.attempted[i] !in failures
    ensures r.failure.None? <==> forall i :: 0 <= i < |order| ==> order[i] !in failures
    ensures r.failure.None? ==> r.attempted == order
    ensures r.failure.Some? ==>
              && |r.attempted| >= 1
              && r.attempted[|r.attempted| - 1] in failures
              && r.failure.value == SyncFailed(r.attempted[|r.attempted| - 1], failures[r.attempted[|r.attempted| - 1]])
  {
    if order == [] then Syncing([], None)
    else if order[0] in failures then Syncing([order[0]], Some(SyncFailed(order[0], failures[order[0]])))
    else
      var rest := SyncAll(order[1..], failures);
      Syncing([order[0]] + rest.attempted, rest.failure)
  }

  /** What `runBackup` did: its error or commit, the workspaces it mirrored and the git stages it reached. */
  datatype RunOutcome = RunOutcome(result: Result<Commit, BackupError>, synced: seq<string>, git: seq<Stage>)

  /** The configured workspaces when the setting parses and names at least one; the run goes past its checks exactly then. */
  predicate HasWorkspaces(cfg: Config) {
    ParseWorkspaces(cfg.workspaces).Success? && ParseWorkspaces(cfg.workspaces).value != map[]
  }

  /**
    The part of `runBackup` after the workspace setting has parsed to a non-empty map:
    mirror every workspace in `order`, then commit and push only if all of them mirrored.
   */
  function MirrorAndCommit(workspaces: map<string, string>, sshKeyPath: string, w: World): (r: RunOutcome)
    requires Enumerates(w.order, workspaces.Keys)
    ensures |r.synced| <= |w.order| && r.synced == w.order[..|r.synced|]
    ensures forall i :: 0 <= i < |r.synced| - 1 ==> r.synced[i] !in w.syncFailures
    ensures r.git != [] <==> forall name :: name in workspaces ==> name !in w.syncFailures
    ensures r.git != [] ==>
              && r.synced == w.order
              && r.result == CommitAndPush(sshKeyPath, w.git).result
              && r.git == CommitAndPush(sshKeyPath, w.git).attempted
    ensures r.git == [] ==>
              && |r.synced| >= 1
              && r.synced[|r.synced| - 1] in w.syncFailures
              && r.result == Failure(SyncFailed(r.synced[|r.synced| - 1], w.syncFailures[r.synced[|r.synced| - 1]]))
  {
    var syncing := SyncAll(w.order, w.syncFailures);
    if syncing.failure.Some? then
      var last := syncing.attempted[|syncing.attempted| - 1];
      assert last in workspaces && last in w.syncFailures;
      RunOutcome(Failure(syncing.failure.value), syncing.attempted, [])
    else
      assert forall name :: name in workspaces ==> name !in w.syncFailures by {
        forall name | name in workspaces
          ensures name !in w.syncFailures
        {
          var i :| 0 <= i < |w.order| && w.order[i] == name;
        }
      }
      var v := CommitAndPush(sshKeyPath, w.git);
      RunOutcome(v.result, syncing.attempted, v.attempted)
  }

  /** `runBackup`: parse the setting, refuse an empty one, then mirror and commit. */
  function RunBackup(cfg: Config, w: World): (r: RunOutcome)
    requires OrderFits(cfg, w)
    ensures ParseWorkspaces(cfg.workspaces).Failure? ==>
              r == RunOutcome(Failure(ParseFailed(ParseWorkspaces(cfg.workspaces).error)), [], [])
    ensures ParseWorkspaces(cfg.workspaces) == Success(map[]) ==> r == RunOutcome(Failure(NoWorkspaces), [], [])
    ensures HasWorkspaces(cfg) ==> r == MirrorAndCommit(ParseWorkspaces(cfg.workspaces).value, cfg.sshKeyPath, w)
  {
    match ParseWorkspaces(cfg.workspaces)
    case Failure(e) => RunOutcome(Failure(ParseFailed(e)), [], [])
    case Success(workspaces) =>
      if workspaces == map[] then RunOutcome(Failure(NoWorkspaces), [], [])
      else MirrorAndCommit(workspaces, cfg.sshKeyPath, w)
  }

  /** The record as created: running, unfinished, with every result field at its zero value. */
  function NewRecord(startedAt: Time): Backup {
    Backup(0, startedAt, None, Running, 0, "", "", "", 0)
  }

  /**
    `saved` is `created` brought to its terminal form: finished and timed, and either failed
    with the error's text and the fields it was created with, or succeeded with the commit's fields.
   */
  predicate Recorded(created: Backup, saved: Backup, result: Result<Commit, BackupError>, finishedAt: Time, durationMs: nat) {
    && saved.id == created.id && saved.startedAt == created.startedAt
    && saved.finishedAt == Some(finishedAt) && saved.durationMs == durationMs
    && (saved.status == Failed <==> result.Failure?)
    && (saved.status == Succeeded <==> result.Success?)
    && (result.Failure? ==>
          && saved.errorMessage == ErrorText(result.error)
          && saved.filesChanged == created.filesChanged
          && saved.commitHash == created.commitHash
          && saved.commitMessage == created.commitMessage)
    && (result.Success? ==>
          && saved.errorMessage == created.errorMessage
          && saved.filesChanged == result.value.filesChanged
          && saved.commitHash == result.value.hash
          && saved.commitMessage == result.value.message)
  }

  /** The record's terminal form, as `ExecuteBackup` writes it back. */
  function Finalize(b: Backup, result: Result<Commit, BackupError>, finishedAt: Time, durationMs: nat): (f: Backup)
    ensures Recorded(b, f, result, finishedAt, durationMs)
    ensures FinishedIffTerminal(f)
  {
    var timed := b.(finishedAt := Some(finishedAt), durationMs := durationMs);
    match result
    case Failure(e) => timed.(status := Failed, errorMessage := ErrorText(e))
    case Success(c) => timed.(status := Succeeded, filesChanged := c.filesChanged, commitHash := c.hash, commitMessage := c.message)
  }

  /** `Recorded` leaves nothing open: the terminal record is determined by the created one and the outcome. */
  lemma RecordedDetermines(created: Backup, saved: Backup, result: Result<Commit, BackupError>, finishedAt: Time, durationMs: nat)
    requires Recorded(created, saved, result, finishedAt, durationMs)
    ensures saved == Finalize(created, result, finishedAt, durationMs)
  {
  }

  /** The first half of an accepted run: the flag raised and the running record stored. */
  function Start(s: State, startedAt: Time): (r: (State, Backup))
    requires !s.running && Valid(s.store)
    ensures r.0.running
    ensures r.1 == NewRecord(startedAt).(id := s.store.nextId)
    ensures r.1.id !in s.store.rows
    ensures r.0.store == Store(s.store.rows[r.1.id := r.1], s.store.nextId + 1)
    ensures Valid(r.0.store)
  {
    var (store, created) := Create(s.store, NewRecord(startedAt));
    (State(true, store), created)
  }

  /** What a call of `ExecuteBackup` did. */
  datatype Execution =
    | Rejected
    | Completed(
        created: Backup,                      // the record as first stored
        saved: Backup,                        // the record as stored at the end
        result: Result<Commit, BackupError>,  // what `runBackup` returned
        synced: seq<string>,
        git: seq<Stage>,
        notice: Option<Notice>)               // the message handed to the chat transport, if any

  /** The error `ExecuteBackup` returns to its caller. */
  function Returned(e: Execution): Option<BackupError> {
    match e
    case Rejected => Some(AlreadyRunning)
    case Completed(_, _, result, _, _, _) => if result.Failure? then Some(result.error) else None
  }

  /**
    The second half of an accepted run: finalize and save the record under its id,
    notify with the saved record, and lower the flag.
   */
  function Finish(mid: State, created: Backup, run: RunOutcome, w: World, botToken: string, chatId: string): (r: (State, Execution))
    requires created.id in mid.store.rows && Valid(mid.store)
    ensures !r.0.running && r.1.Completed? && r.1.created == created
    ensures r.0.store == Store(mid.store.rows[created.id := r.1.saved], mid.store.nextId)
    ensures r.1.result == run.result && r.1.synced == run.synced && r.1.git == run.git
    ensures Recorded(created, r.1.saved, run.result, w.finishedAt, w.durationMs)
    ensures r.1.notice == SendBackupNotification(botToken, chatId, r.1.saved, w.seconds, w.now)
  {
    var saved := Finalize(created, run.result, w.finishedAt, w.durationMs);
    var notice := SendBackupNotification(botToken, chatId, saved, w.seconds, w.now);
    (State(false, Save(mid.store, saved)), Completed(created, saved, run.result, run.synced, run.git, notice))
  }

  /** `ExecuteBackup`: test-and-set the flag, then run to completion; a trigger while one runs is refused. */
  function ExecuteBackup(s: State, cfg: Config, w: World): (r: (State, Execution))
    requires Valid(s.store)
    requires OrderFits(cfg, w)
    ensures s.running ==> r == (s, Rejected)
    ensures !s.running ==> r.1.Completed? && !r.0.running
    ensures r.1.Completed? ==>
              && r.1.created == NewRecord(w.startedAt).(id := s.store.nextId)
              && r.1.created.id !in s.store.rows
              && r.0.store == Store(s.store.rows[r.1.created.id := r.1.saved], s.store.nextId + 1)
              && r.1.result == RunBackup(cfg, w).result
              && r.1.synced == RunBackup(cfg, w).synced
              && r.1.git == RunBackup(cfg, w).git
              && Recorded(r.1.created, r.1.saved, r.1.result, w.finishedAt, w.durationMs)
              && r.1.notice == SendBackupNotification(cfg.telegramBotToken, cfg.telegramChatId, r.1.saved, w.seconds, w.now)
  {
    if s.running then (s, Rejected)
    else
      var started := Start(s, w.startedAt);
      var mid, created := started.0, started.1;
      var r := Finish(mid, created, RunBackup(cfg, w), w, cfg.telegramBotToken, cfg.telegramChatId);
      UpdateTwice(s.store.rows, created.id, created, r.1.saved);
      r
  }

  /** Writing a key twice leaves the second value. */
  lemma UpdateTwice<K, V>(m: map<K, V>, k: K, a: V, b: V)
    ensures m[k := a][k := b] == m[k := b]
  {
  }

  /**
    The flag reports a run in progress: starting a run raises it, a call made while it is up is
    refused and leaves it up, and a call made while it is down runs to completion and leaves it down.
   */
  lemma RunningFlag(s: State, cfg: Config, w: World)
    requires Valid(s.store) && OrderFits(cfg, w)
    ensures !IsBackupRunning(s) ==> IsBackupRunning(Start(s, w.startedAt).0)
    ensures ExecuteBackup(s, cfg, w).1.Rejected? <==> IsBackupRunning(s)
    ensures IsBackupRunning(ExecuteBackup(s, cfg, w).0) <==> IsBackupRunning(s)
  {
  }

  /** While a run is in progress every further trigger is refused and changes nothing. */
  lemma OverlapRejected(s: State, cfg: Config, w: World, w2: World)
    requires !s.running && Valid(s.store)
    requires OrderFits(cfg, w2)
    ensures var mid := Start(s, w.startedAt).0;
            && IsBackupRunning(mid)
            && ExecuteBackup(mid, cfg, w2) == (mid, Rejected)
            && Returned(ExecuteBackup(mid, cfg, w2).1) == Some(AlreadyRunning)
  {
  }

  /** A completed run lowers the flag, so the next trigger is accepted and runs. */
  lemma FlagReleased(s: State, cfg: Config, w: World, w2: World)
    requires !s.running && Valid(s.store)
    requires OrderFits(cfg, w) && OrderFits(cfg, w2)
    ensures var after := ExecuteBackup(s, cfg, w).0;
            && !IsBackupRunning(after)
            && Valid(after.store)
            && ExecuteBackup(after, cfg, w2).1.Completed?
  {
    var after := ExecuteBackup(s, cfg, w).0;
    assert Valid(after.store) by {
      var e := ExecuteBackup(s, cfg, w).1;
      assert after.store.rows == s.store.rows[e.created.id := e.saved];
    }
  }

  /** At most one record is running: the one a run created, and only while that run is in progress. */
  lemma AtMostOneRunning(s: State, cfg: Config, w: World)
    requires !s.running && Valid(s.store) && Settled(s.store)
    requires OrderFits(cfg, w)
    ensures var (mid, created) := Start(s, w.startedAt);
            forall id :: id in mid.store.rows && mid.store.rows[id].status == Running ==> id == created.id
    ensures Settled(ExecuteBackup(s, cfg, w).0.store)
  {
    var (after, e) := ExecuteBackup(s, cfg, w);
    assert Recorded(e.created, e.saved, e.result, w.finishedAt, w.durationMs);
    StoreSettles(s.store, e.saved, after.store);
  }

  /** Storing a record that has left the running state, next to settled ones, leaves a settled store. */
  lemma StoreSettles(st: Store, b: Backup, st': Store)
    requires Settled(st) && b.status != Running
    requires st'.rows == st.rows[b.id := b]
    ensures Settled(st')
  {
  }

  /** Storing a record that is finished exactly when terminal keeps a consistent store consistent. */
  lemma StoreStaysConsistent(st: Store, b: Backup, st': Store)
    requires Consistent(st) && FinishedIffTerminal(b)
    requires st'.rows == st.rows[b.id := b] && st'.nextId == st.nextId + 1 && b.id == st.nextId
    ensures Consistent(st')
  {
  }

  /** Every stored record stays finished exactly when it has left the running state. */
  lemma ConsistentPreserved(s: State, cfg: Config, w: World)
    requires !s.running && Consistent(s.store)
    requires OrderFits(cfg, w)
    ensures Consistent(Start(s, w.startedAt).0.store)
    ensures Consistent(ExecuteBackup(s, cfg, w).0.store)
  {
    var (mid, created) := Start(s, w.startedAt);
    StoreStaysConsistent(s.store, created, mid.store);
    var (after, e) := ExecuteBackup(s, cfg, w);
    assert Recorded(e.created, e.saved, e.result, w.finishedAt, w.durationMs);
    StoreStaysConsistent(s.store, e.saved, after.store);
  }

  /** The caller sees an error exactly when the stored record says the run failed, and then its text. */
  lemma ReturnedMatchesRecord(s: State, cfg: Config, w: World)
    requires !s.running && Valid(s.store)
    requires OrderFits(cfg, w)
    ensures var e := ExecuteBackup(s, cfg, w).1;
            && (Returned(e).None? <==> e.saved.status == Succeeded)
            && (Returned(e).Some? <==> e.saved.status == Failed)
            && (Returned(e).Some? ==> e.saved.errorMessage == ErrorText(Returned(e).value))
            && (Returned(e).None? ==> e.saved.errorMessage == "")
  {
    var e := AcceptedRun(s, cfg, w);
    RecordTellsOutcome(e.created, e.saved, e.result, w.finishedAt, w.durationMs);
  }

  /** An accepted call completes, its record finalized from a fresh one that carried no error and no hash. */
  lemma AcceptedRun(s: State, cfg: Config, w: World) returns (e: Execution)
    requires !s.running && Valid(s.store)
    requires OrderFits(cfg, w)
    ensures e == ExecuteBackup(s, cfg, w).1 && e.Completed?
    ensures Recorded(e.created, e.saved, e.result, w.finishedAt, w.durationMs)
    ensures e.created.errorMessage == "" && e.created.commitHash == ""
    ensures Returned(e) == if e.result.Failure? then Some(e.result.error) else None
    ensures e.result == RunBackup(cfg, w).result && e.synced == RunBackup(cfg, w).synced && e.git == RunBackup(cfg, w).git
  {
    e := ExecuteBackup(s, cfg, w).1;
  }

  /** A record finalized from a freshly created one tells the outcome: its status, its error text, and a hash only after success. */
  lemma RecordTellsOutcome(created: Backup, saved: Backup, result: Result<Commit, BackupError>, finishedAt: Time, durationMs: nat)
    requires Recorded(created, saved, result, finishedAt, durationMs)
    requires created.errorMessage == "" && created.commitHash == ""
    ensures saved.status == Succeeded <==> result.Success?
    ensures saved.status == Failed <==> result.Failure?
    ensures result.Failure? ==> saved.errorMessage == ErrorText(result.error)
    ensures result.Success? ==> saved.errorMessage == ""
    ensures saved.commitHash != "" ==> result.Success?
  {
  }

  /** With no workspaces configured, the run is recorded as failed and nothing is mirrored or committed. */
  lemma UnsetWorkspacesFails(env: Environment, s: State, w: World)
    requires "WORKSPACES" !in env || env["WORKSPACES"] == ""
    requires !s.running && Valid(s.store)
    requires OrderFits(Load(env), w)
    ensures var e := ExecuteBackup(s, Load(env), w).1;
            && e.result == Failure(NoWorkspaces)
            && e.synced == [] && e.git == []
            && e.saved.status == Failed
            && e.saved.errorMessage == "no workspaces configured"
  {
    assert Load(env).workspaces == "";
    var e := AcceptedRun(s, Load(env), w);
  }

  /** A successful run mirrored every configured workspace and went through git; with changes, through every stage. */
  lemma SuccessSyncedEverything(cfg: Config, w: World)
    requires OrderFits(cfg, w)
    ensures var r := RunBackup(cfg, w);
            r.result.Success? ==>
              && HasWorkspaces(cfg)
              && (forall name :: name in ParseWorkspaces(cfg.workspaces).value ==> name in r.synced && name !in w.syncFailures)
              && (NoChanges(w.git) ==> r.git == [GitStatus])
              && (!NoChanges(w.git) ==> r.git == Pipeline)
  {
  }

  /**
    With both chat credentials set, the message tells the run's outcome: the success header
    exactly when the run succeeded, an error line exactly when it failed, and a commit line
    only for a successful run.
   */
  lemma NoticeMatchesOutcome(s: State, cfg: Config, w: World)
    requires !s.running && Valid(s.store)
    requires OrderFits(cfg, w)
    requires cfg.telegramBotToken != "" && cfg.telegramChatId != ""
    ensures var e := ExecuteBackup(s, cfg, w).1;
            && e.notice.Some?
            && (e.notice.value.header == Header(SuccessGlyph, SuccessLabel) <==> Returned(e).None?)
            && (e.notice.value.error.Some? <==> Returned(e).Some?)
            && (e.notice.value.commit.Some? ==> Returned(e).None?)
  {
    var e := AcceptedRun(s, cfg, w);
    RecordTellsOutcome(e.created, e.saved, e.result, w.finishedAt, w.durationMs);
    SuccessHeaderIsDistinct();
  }

  lemma SuccessHeaderIsDistinct()
    ensures Header(SuccessGlyph, SuccessLabel) != Header(FailureGlyph, FailureLabel)
  {
    assert Header(SuccessGlyph, SuccessLabel)[0] == SuccessGlyph[0];
    assert Header(FailureGlyph, FailureLabel)[0] == FailureGlyph[0];
  }
}
