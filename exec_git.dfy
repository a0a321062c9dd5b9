/** The command-line git gateway of the current version: a failing git
    command comes back wrapped in a message naming the step, with the
    command's output; `RemoveDirectory` returns the file system's error as
    it is. */
module ExecGit {
  import opened Basics
  import opened Text
  import opened FilePaths
  import opened Workdir
  import opened Domain
  import opened GitCommands

  /** The message each of the four orphan-branch steps wraps its failure in. */
  const StepContexts: seq<string> := [
    "failed to create orphan branch: ",
    "failed to stage files for commit: ",
    "failed to make initial commit: ",
    "failed to get new commit SHA: "]

  /** `fmt.Errorf(context + "%w, output: %s", err, output)`. */
  function WrapFailure(context: string, e: Exec): Error
    requires e.failure.Some?
  {
    Wrapped(context, e.failure.value, ", output: " + e.output)
  }

  /** What `CreateOrphanBranch` returns when git answers as `respond` does:
      the trimmed output of the last step when all four succeed, otherwise
      no SHA and the first failure, wrapped in the message of its step. */
  function OrphanOutcome(respond: Responder, history: seq<Command>, steps: seq<Command>): (r: (string, Option<Error>))
    requires |steps| == 4
    ensures r.1.None? <==> forall i :: 0 <= i < 4 ==> StepReply(respond, history, steps, i).failure.None?
    ensures r.1.None? ==> r.0 == TrimSpace(StepReply(respond, history, steps, 3).output)
    ensures r.1.Some? ==> r.0 == ""
    ensures r.1.Some? ==> exists i :: 0 <= i < 4 && FailsFirstAt(respond, history, steps, i) && r.1.value == WrapFailure(StepContexts[i], StepReply(respond, history, steps, i))
  {
    var k := FirstFailure(respond, history, steps);
    if k < 4 then ("", Some(WrapFailure(StepContexts[k], StepReply(respond, history, steps, k))))
    else (TrimSpace(StepReply(respond, history, steps, 3).output), None)
  }

  /** The result of a single git command: its failure wrapped in `context`,
      with git's output attached. */
  function CommandOutcome(context: string, e: Exec): (err: Option<Error>)
    ensures err.None? <==> e.failure.None?
    ensures err.Some? ==> err.value.Wrapped? && err.value.context == context && Some(err.value.cause) == e.failure
    ensures err.Some? ==> err.value.detail == ", output: " + e.output
  {
    if e.failure.Some? then Some(WrapFailure(context, e)) else None
  }

  /** The gateway together with the part of the world it acts on: the
      commands run so far, how git answers them, and the file system. */
  class OsExecGitGateway {
    var ran: seq<Command>
    const respond: Responder
    const fs: FileTree

    constructor (respond: Responder, fs: FileTree)
      ensures ran == [] && this.respond == respond && this.fs == fs
    {
      ran := [];
      this.respond := respond;
      this.fs := fs;
    }

    /** `exec.Command("git", args...).CombinedOutput()` with `Dir` set. */
    method Run(c: Command) returns (e: Exec)
      modifies this
      ensures e == respond(old(ran), c)
      ensures ran == old(ran) + [c]
    {
      e := respond(ran, c);
      ran := ran + [c];
    }

    method CreateOrphanBranch(repository: Repository, branch: Branch, sourceBranch: string)
      returns (sha: string, err: Option<Error>)
      modifies this
      ensures var steps := OrphanSteps(repository.path, branch.name, sourceBranch);
        && ran == old(ran) + steps[..Attempted(respond, old(ran), steps)]
        && (sha, err) == OrphanOutcome(respond, old(ran), steps)
    {
      ghost var h := ran;
      ghost var steps := OrphanSteps(repository.path, branch.name, sourceBranch);
      assert h + steps[..0] == h;
      var args := ["checkout", "--orphan", branch.name];
      if sourceBranch != "" {
        args := args + [sourceBranch];
      }
      assert Command(repository.path, args) == steps[0];
      var out := Run(Command(repository.path, args));
      assert out == StepReply(respond, h, steps, 0);
      if out.failure.Some? {
        FirstFailureIs(respond, h, steps, 0);
        return "", Some(WrapFailure("failed to create orphan branch: ", out));
      }
      assert ran == h + steps[..1];
      out := Run(Command(repository.path, ["add", "."]));
      assert out == StepReply(respond, h, steps, 1);
      if out.failure.Some? {
        FirstFailureIs(respond, h, steps, 1);
        return "", Some(WrapFailure("failed to stage files for commit: ", out));
      }
      assert ran == h + steps[..2];
      out := Run(Command(repository.path, ["commit", "-m", InitialCommitMessage]));
      assert out == StepReply(respond, h, steps, 2);
      if out.failure.Some? {
        FirstFailureIs(respond, h, steps, 2);
        return "", Some(WrapFailure("failed to make initial commit: ", out));
      }
      assert ran == h + steps[..3];
      out := Run(Command(repository.path, ["rev-parse", "HEAD"]));
      assert out == StepReply(respond, h, steps, 3);
      if out.failure.Some? {
        FirstFailureIs(respond, h, steps, 3);
        return "", Some(WrapFailure("failed to get new commit SHA: ", out));
      }
      FirstFailureIs(respond, h, steps, 4);
      assert ran == h + steps[..4];
      return TrimSpace(out.output), None;
    }

    method ListFiles(repoPath: string) returns (r: Result<seq<string>>)
      modifies this
      ensures ran == old(ran) + [ListFilesCommand(repoPath)]
      ensures var e := respond(old(ran), ListFilesCommand(repoPath));
        r == if e.failure.Some? then Err(WrapFailure("failed to list files: ", e)) else Ok(ListedPaths(e.output))
    {
      var out := Run(ListFilesCommand(repoPath));
      if out.failure.Some? {
        return Err(WrapFailure("failed to list files: ", out));
      }
      var files := NonEmptyLines(out.output);
      return Ok(files);
    }

    method DeleteLocalBranch(repoPath: string, branchName: string) returns (err: Option<Error>)
      modifies this
      ensures ran == old(ran) + [DeleteBranchCommand(repoPath, branchName)]
      ensures err == CommandOutcome("failed to delete local branch '" + branchName + "': ",
                                    respond(old(ran), DeleteBranchCommand(repoPath, branchName)))
    {
      var out := Run(Command("", ["-C", repoPath, "branch", "-D", branchName]));
      err := CommandOutcome("failed to delete local branch '" + branchName + "': ", out);
    }

    /** Removes `repoPath/dirName` and everything below it, unless `os.Stat`
        reports that it does not exist. */
    method RemoveDirectory(repoPath: string, dirName: string) returns (err: Option<Error>)
      modifies fs
      ensures var p := JoinPath(repoPath, dirName);
        if old(fs.StatSeesSomething(p)) then
          (err.None? <==> p !in fs.refused) && fs.nodes == (if err.None? then Removed(old(fs.nodes), p) else old(fs.nodes))
        else
          err.None? && fs.nodes == old(fs.nodes)
      ensures err.Some? ==> err == Some(PathError("unlinkat", JoinPath(repoPath, dirName)))
    {
      var dirPath := JoinPath(repoPath, dirName);
      if fs.StatSeesSomething(dirPath) {
        err := fs.RemoveAll(dirPath);
        return;
      }
      return None;
    }

    method CheckoutBranch(repoPath: string, branchName: string) returns (err: Option<Error>)
      modifies this
      ensures ran == old(ran) + [CheckoutCommand(repoPath, branchName)]
      ensures err == CommandOutcome("failed to checkout branch '" + branchName + "': ",
                                    respond(old(ran), CheckoutCommand(repoPath, branchName)))
    {
      var out := Run(Command("", ["-C", repoPath, "checkout", branchName]));
      err := CommandOutcome("failed to checkout branch '" + branchName + "': ", out);
    }
  }
}
