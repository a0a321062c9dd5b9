/** The command-line git gateway of the `orphan_test` version: the same
    commands as the current version, plus `git clean -fdx`, but every failure
    is logged and handed back exactly as the command produced it. */
module ExecGitOrphanTest {
  import opened Basics
  import opened Text
  import opened FilePaths
  import opened Workdir
  import opened Domain
  import opened GitCommands
  import ExecGit

  /** What `CreateOrphanBranch` returns: the trimmed output of the last step
      when all four succeed, otherwise no SHA and the first failure as it is. */
  function OrphanOutcome(respond: Responder, history: seq<Command>, steps: seq<Command>): (r: (string, Option<Error>))
    requires |steps| == 4
    ensures r.1.None? <==> forall i :: 0 <= i < 4 ==> StepReply(respond, history, steps, i).failure.None?
    ensures r.1.None? ==> r.0 == TrimSpace(StepReply(respond, history, steps, 3).output)
    ensures r.1.Some? ==> r.0 == ""
    ensures r.1.Some? ==> exists i :: 0 <= i < 4 && FailsFirstAt(respond, history, steps, i) && r.1 == StepReply(respond, history, steps, i).failure
  {
    var k := FirstFailure(respond, history, steps);
    if k < 4 then ("", StepReply(respond, history, steps, k).failure)
    else (TrimSpace(StepReply(respond, history, steps, 3).output), None)
  }

  /** The cause of a wrapped error; any other error is left as it is. */
  function Unwrap(e: Error): Error {
    if e.Wrapped? then e.cause else e
  }

  /** Both versions run the same commands and return the same SHA; their
      errors differ only by the wrapping of the current version. */
  lemma SameOutcomeUnwrapped(respond: Responder, history: seq<Command>, steps: seq<Command>)
    requires |steps| == 4
    ensures OrphanOutcome(respond, history, steps).0 == ExecGit.OrphanOutcome(respond, history, steps).0
    ensures OrphanOutcome(respond, history, steps).1
         == (match ExecGit.OrphanOutcome(respond, history, steps).1
             case None => None
             case Some(e) => Some(Unwrap(e)))
  {
  }

  class OsExecGitGateway {
    var ran: seq<Command>
    const respond: Responder
    const fs: FileTree

    constructor (respond: Responder, fs: FileTree)
      ensures ran == [] && this.respond == respond && this.fs == fs
    {
      ran := [];
      this.respond := respond;
      this.fs := fs;
    }

    method Run(c: Command) returns (e: Exec)
      modifies this
      ensures e == respond(old(ran), c)
      ensures ran == old(ran) + [c]
    {
      e := respond(ran, c);
      ran := ran + [c];
    }

    method CreateOrphanBranch(repository: Repository, branch: Branch, sourceBranch: string)
      returns (sha: string, err: Option<Error>)
      modifies this
      ensures var steps := OrphanSteps(repository.path, branch.name, sourceBranch);
        && ran == old(ran) + steps[..Attempted(respond, old(ran), steps)]
        && (sha, err) == OrphanOutcome(respond, old(ran), steps)
    {
      ghost var h := ran;
      ghost var steps := OrphanSteps(repository.path, branch.name, sourceBranch);
      assert h + steps[..0] == h;
      var args := ["checkout", "--orphan", branch.name];
      if sourceBranch != "" {
        args := args + [sourceBranch];
      }
      assert Command(repository.path, args) == steps[0];
      var out := Run(Command(repository.path, args));
      assert out == StepReply(respond, h, steps, 0);
      if out.failure.Some? {
        FirstFailureIs(respond, h, steps, 0);
        return "", out.failure;
      }
      assert ran == h + steps[..1];
      out := Run(Command(repository.path, ["add", "."]));
      assert out == StepReply(respond, h, steps, 1);
      if out.failure.Some? {
        FirstFailureIs(respond, h, steps, 1);
        return "", out.failure;
      }
      assert ran == h + steps[..2];
      out := Run(Command(repository.path, ["commit", "-m", InitialCommitMessage]));
      assert out == StepReply(respond, h, steps, 2);
      if out.failure.Some? {
        FirstFailureIs(respond, h, steps, 2);
        return "", out.failure;
      }
      assert ran == h + steps[..3];
      out := Run(Command(repository.path, ["rev-parse", "HEAD"]));
      assert out == StepReply(respond, h, steps, 3);
      if out.failure.Some? {
        FirstFailureIs(respond, h, steps, 3);
        return "", out.failure;
      }
      FirstFailureIs(respond, h, steps, 4);
      assert ran == h + steps[..4];
      return TrimSpace(out.output), None;
    }

    method ListFiles(repoPath: string) returns (r: Result<seq<string>>)
      modifies this
      ensures ran == old(ran) + [ListFilesCommand(repoPath)]
      ensures var e := respond(old(ran), ListFilesCommand(repoPath));
        r == if e.failure.Some? then Err(e.failure.value) else Ok(ListedPaths(e.output))
    {
      var out := Run(ListFilesCommand(repoPath));
      if out.failure.Some? {
        return Err(out.failure.value);
      }
      var files := NonEmptyLines(out.output);
      return Ok(files);
    }

    method DeleteLocalBranch(repoPath: string, branchName: string) returns (err: Option<Error>)
      modifies this
      ensures ran == old(ran) + [DeleteBranchCommand(repoPath, branchName)]
      ensures err == respond(old(ran), DeleteBranchCommand(repoPath, branchName)).failure
    {
      var out := Run(Command("", ["-C", repoPath, "branch", "-D", branchName]));
      err := out.failure;
    }

    /** `git clean -fdx` in the working tree. */
    method CleanWorkdir(repoPath: string) returns (err: Option<Error>)
      modifies this
      ensures ran == old(ran) + [CleanCommand(repoPath)]
      ensures err == respond(old(ran), CleanCommand(repoPath)).failure
    {
      var out := Run(Command(repoPath, ["clean", "-fdx"]));
      err := out.failure;
    }

    method RemoveDirectory(repoPath: string, dirName: string) returns (err: Option<Error>)
      modifies fs
      ensures var p := JoinPath(repoPath, dirName);
        if old(fs.StatSeesSomething(p)) then
          (err.None? <==> p !in fs.refused) && fs.nodes == (if err.None? then Removed(old(fs.nodes), p) else old(fs.nodes))
        else
          err.None? && fs.nodes == old(fs.nodes)
      ensures err.Some? ==> err == Some(PathError("unlinkat", JoinPath(repoPath, dirName)))
    {
      var dirPath := JoinPath(repoPath, dirName);
      if fs.StatSeesSomething(dirPath) {
        err := fs.RemoveAll(dirPath);
        return;
      }
      return None;
    }

    method CheckoutBranch(repoPath: string, branchName: string) returns (err: Option<Error>)
      modifies this
      ensures ran == old(ran) + [CheckoutCommand(repoPath, branchName)]
      ensures err == respond(old(ran), CheckoutCommand(repoPath, branchName)).failure
    {
      var out := Run(Command("", ["-C", repoPath, "checkout", branchName]));
      err := out.failure;
    }
  }
}
