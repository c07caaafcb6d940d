/** The errors a backup run can end with, and the text each is recorded as. */
module Errors {
  import opened Workspaces

  /** A failed external command: the process error and its combined output. */
  datatype CmdFailure = CmdFailure(err: string, output: string)

  /** The error the command helper wraps a failed command in. */
  function CommandText(name: string, f: CmdFailure): (text: string)
    ensures |text| == |name| + |FailedWord| + |f.err| + |OutputWord| + |f.output|
    ensures text[..|name|] == name
    ensures text[|name| + |FailedWord|..|name| + |FailedWord| + |f.err|] == f.err
    ensures text[|text| - |f.output|..] == f.output
  {
    name + FailedWord + f.err + OutputWord + f.output
  }

  const FailedWord := " failed: "
  const OutputWord := ", output: "

  datatype BackupError =
    | AlreadyRunning
    | ParseFailed(parseError: ParseError)
    | NoWorkspaces
    | SyncFailed(workspace: string, failure: CmdFailure)
    | StatusFailed(cause: string)
    | AddFailed(failure: CmdFailure)
    | CommitFailed(failure: CmdFailure)
    | RevParseFailed(cause: string)
    | KeyMissing
    | PushFailed(failure: CmdFailure)

  /** The error's text, as stored in the run record's error message; never empty, so a failed record always carries one. */
  function ErrorText(e: BackupError): (r: string)
    ensures |r| > 0
  {
    match e
    case AlreadyRunning => "backup is already running"
    case ParseFailed(cause) => "parse workspaces failed: " + ParseErrorText(cause)
    case NoWorkspaces => "no workspaces configured"
    case SyncFailed(name, f) => "sync workspace " + name + " failed: " + CommandText("rsync", f)
    case StatusFailed(cause) => "git status failed: " + cause
    case AddFailed(f) => CommandText("git", f)
    case CommitFailed(f) => CommandText("git", f)
    case RevParseFailed(cause) => "git rev-parse failed: " + cause
    case KeyMissing => "SSH_KEY_PATH not configured"
    case PushFailed(f) => "git push failed: " + f.err + ", output: " + f.output
  }
}
