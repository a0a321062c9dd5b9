/** The local-sourced workflow: make an orphan branch in the working tree,
    list the tracked files, read each of them and commit all of them to the
    branch through the API in one request, with base 64 content. */
module LocalWorkflow {
  import opened Basics
  import opened Text
  import opened FilePaths
  import opened Workdir
  import opened Domain
  import Base64
  import HttpGitLab

  datatype Input = Input(repoPath: string, branchName: string, gitLabProjectID: string, gitLabToken: string)

  /** One call into a gateway, with the arguments the workflow passes; the
      calls match the declared gateway interfaces (no source branch, a token
      on the commit), which differ from the implementations. */
  datatype Call =
    | CreateOrphanBranch(repository: Repository, branch: Branch)
    | ListFiles(repoPath: string)
    | CommitFilesViaAPI(projectID: string, branchName: string, commitMessage: string, token: string, actions: seq<CommitAction>)

  datatype Replies = Replies(
    createOrphan: (Repository, Branch) -> (string, Option<Error>),
    listFiles: string -> Result<seq<string>>,
    commit: (string, string, string, string, seq<CommitAction>) -> Option<Error>)

  const NoFilesMessage := "no files found in the repository to commit"

  function CommitMessage(branchName: string): string {
    "Add project files to orphan branch " + branchName
  }

  /** The action for a listed file: a `create` of that path whose content is
      the base 64 text of the file's bytes; the encoding tag is left unset. */
  function PushAction(file: string, content: seq<byte>): CommitAction {
    CommitAction("create", file, Base64.Encode(content), "")
  }

  /** Opening and reading every listed file in order, failing at the first
      file that cannot be opened or read. */
  function PushActions(nodes: map<string, Node>, refused: set<string>, unreadable: set<string>, repoPath: string, files: seq<string>)
    : (r: Result<seq<CommitAction>>)
    decreases |files|
  {
    if |files| == 0 then Ok([])
    else
      var p := JoinPath(repoPath, files[0]);
      match OpenError(nodes, refused, p)
      case Some(e) => Err(Wrapped("failed to open file " + files[0] + ": ", e, ""))
      case None =>
        match ReadResult(nodes, unreadable, p)
        case Err(e) => Err(Wrapped("failed to read file " + files[0] + ": ", e, ""))
        case Ok(content) => Prepended([PushAction(files[0], content)], PushActions(nodes, refused, unreadable, repoPath, files[1..]))
  }

  datatype Run = Run(calls: seq<Call>, err: Option<Error>)

  /** What `Execute` does, step by step. */
  function Expected(replies: Replies, nodes: map<string, Node>, refused: set<string>, unreadable: set<string>, input: Input): (r: Run)
    ensures 1 <= |r.calls| <= 3
    ensures r.calls[0] == CreateOrphanBranch(Repository(input.repoPath), Branch(input.branchName))
    ensures |r.calls| >= 2 ==> r.calls[1] == ListFiles(input.repoPath)
    ensures |r.calls| == 3 ==> r.calls[2].CommitFilesViaAPI?
    ensures |r.calls| < 3 ==> r.err.Some?
  {
    var repo, branch := Repository(input.repoPath), Branch(input.branchName);
    var c0 := [CreateOrphanBranch(repo, branch)];
    var (_, orphanErr) := replies.createOrphan(repo, branch);
    if orphanErr.Some? then Run(c0, Some(Wrapped("failed to create local orphan branch: ", orphanErr.value, "")))
    else
      var c1 := c0 + [ListFiles(input.repoPath)];
      match replies.listFiles(input.repoPath)
      case Err(e) => Run(c1, Some(Wrapped("failed to list files in repo: ", e, "")))
      case Ok(files) =>
        if |files| == 0 then Run(c1, Some(Message(NoFilesMessage)))
        else
          match PushActions(nodes, refused, unreadable, input.repoPath, files)
          case Err(e) => Run(c1, Some(e))
          case Ok(actions) =>
            var c2 := c1 + [CommitFilesViaAPI(input.gitLabProjectID, input.branchName, CommitMessage(input.branchName), input.gitLabToken, actions)];
            match replies.commit(input.gitLabProjectID, input.branchName, CommitMessage(input.branchName), input.gitLabToken, actions)
            case Some(e) => Run(c2, Some(Wrapped("failed to commit files via GitLab API: ", e, "")))
            case None => Run(c2, None)
  }

  // ---- what a run promises ----

  /** A failed orphan branch ends the run with the error wrapped, before any
      file is listed. */
  lemma OrphanFailureStops(replies: Replies, nodes: map<string, Node>, refused: set<string>, unreadable: set<string>, input: Input)
    requires replies.createOrphan(Repository(input.repoPath), Branch(input.branchName)).1.Some?
    ensures var r := Expected(replies, nodes, refused, unreadable, input);
      && r.calls == [CreateOrphanBranch(Repository(input.repoPath), Branch(input.branchName))]
      && r.err.Some? && r.err.value.Wrapped?
      && Some(r.err.value.cause) == replies.createOrphan(Repository(input.repoPath), Branch(input.branchName)).1
  {
  }

  /** An empty listing is rejected with its own message; nothing is committed. */
  lemma EmptyListingRejected(replies: Replies, nodes: map<string, Node>, refused: set<string>, unreadable: set<string>, input: Input)
    requires replies.createOrphan(Repository(input.repoPath), Branch(input.branchName)).1.None?
    requires replies.listFiles(input.repoPath) == Ok([])
    ensures var r := Expected(replies, nodes, refused, unreadable, input);
      |r.calls| == 2 && r.err == Some(Message("no files found in the repository to commit"))
  {
  }

  /** The actions are one per listed file, in list order, each a `create` of
      that path carrying the base 64 text of the bytes read; building them
      fails exactly when some listed file cannot be opened or read. */
  lemma {:induction false} PushActionsShape(nodes: map<string, Node>, refused: set<string>, unreadable: set<string>, repoPath: string, files: seq<string>)
    ensures var r := PushActions(nodes, refused, unreadable, repoPath, files);
      && (r.Ok? ==> |r.value| == |files| && forall i :: 0 <= i < |files| ==>
            ReadFileResult(nodes, refused, unreadable, JoinPath(repoPath, files[i])).Ok?
            && r.value[i] == PushAction(files[i], ReadFileResult(nodes, refused, unreadable, JoinPath(repoPath, files[i])).value))
      && (r.Err? <==> exists i :: 0 <= i < |files| && ReadFileResult(nodes, refused, unreadable, JoinPath(repoPath, files[i])).Err?)
    decreases |files|
  {
    if |files| > 0 {
      var rest := files[1..];
      PushActionsShape(nodes, refused, unreadable, repoPath, rest);
      var r := PushActions(nodes, refused, unreadable, repoPath, files);
      var first := ReadFileResult(nodes, refused, unreadable, JoinPath(repoPath, files[0]));
      if first.Ok? {
        var tail := PushActions(nodes, refused, unreadable, repoPath, rest);
        assert r.Err? <==> tail.Err?;
        if tail.Err? {
          var j :| 0 <= j < |rest| && ReadFileResult(nodes, refused, unreadable, JoinPath(repoPath, rest[j])).Err?;
          assert files[j + 1] == rest[j];
        }
        if exists i :: 0 <= i < |files| && ReadFileResult(nodes, refused, unreadable, JoinPath(repoPath, files[i])).Err? {
          var i :| 0 <= i < |files| && ReadFileResult(nodes, refused, unreadable, JoinPath(repoPath, files[i])).Err?;
          assert i > 0 && files[i] == rest[i - 1];
        }
        if r.Ok? {
          forall i | 0 < i < |files|
            ensures r.value[i] == PushAction(files[i], ReadFileResult(nodes, refused, unreadable, JoinPath(repoPath, files[i])).value)
          {
            assert files[i] == rest[i - 1];
            assert r.value[i] == tail.value[i - 1];
          }
        }
      }
    }
  }

  /** A listed file that cannot be opened or read fails the whole run before
      the commit: no partial batch is ever sent. */
  lemma NoPartialBatch(replies: Replies, nodes: map<string, Node>, refused: set<string>, unreadable: set<string>, input: Input, i: nat)
    requires replies.createOrphan(Repository(input.repoPath), Branch(input.branchName)).1.None?
    requires replies.listFiles(input.repoPath).Ok?
    requires i < |replies.listFiles(input.repoPath).value|
    requires ReadFileResult(nodes, refused, unreadable, JoinPath(input.repoPath, replies.listFiles(input.repoPath).value[i])).Err?
    ensures var r := Expected(replies, nodes, refused, unreadable, input);
      |r.calls| == 2 && r.err.Some?
  {
    PushActionsShape(nodes, refused, unreadable, input.repoPath, replies.listFiles(input.repoPath).value);
  }

  /** When every listed file reads, exactly one commit is sent, to the given
      project and branch with the fixed message and the token, carrying one
      base 64 action per listed file; the run succeeds exactly when that
      commit does, and otherwise returns its error wrapped. */
  lemma SingleCommit(replies: Replies, nodes: map<string, Node>, refused: set<string>, unreadable: set<string>, input: Input)
    requires replies.createOrphan(Repository(input.repoPath), Branch(input.branchName)).1.None?
    requires replies.listFiles(input.repoPath).Ok? && |replies.listFiles(input.repoPath).value| > 0
    requires var files := replies.listFiles(input.repoPath).value;
      forall i :: 0 <= i < |files| ==> ReadFileResult(nodes, refused, unreadable, JoinPath(input.repoPath, files[i])).Ok?
    ensures var r := Expected(replies, nodes, refused, unreadable, input);
      var files := replies.listFiles(input.repoPath).value;
      && |r.calls| == 3
      && var c := r.calls[2];
      && c == CommitFilesViaAPI(input.gitLabProjectID, input.branchName, CommitMessage(input.branchName), input.gitLabToken, c.actions)
      && |c.actions| == |files|
      && (forall i :: 0 <= i < |files| ==>
            c.actions[i] == PushAction(files[i], ReadFileResult(nodes, refused, unreadable, JoinPath(input.repoPath, files[i])).value))
      && (r.err.None? <==> replies.commit(c.projectID, c.branchName, c.commitMessage, c.token, c.actions).None?)
      && (r.err.Some? ==> r.err.value.Wrapped? && Some(r.err.value.cause) == replies.commit(c.projectID, c.branchName, c.commitMessage, c.token, c.actions))
  {
    PushActionsShape(nodes, refused, unreadable, input.repoPath, replies.listFiles(input.repoPath).value);
  }

  /** The content is encoded twice: the workflow stores base 64 text in each
      action and the hosting gateway encodes that text again before sending
      it. What the API decodes is the base 64 text of the file, which equals
      the file's bytes only for an empty file. */
  lemma DoubleEncoding(file: string, data: seq<byte>)
    ensures var wire := HttpGitLab.ForWire([PushAction(file, data)])[0];
      && Base64.Decode(wire.content) == Some(Base64.Encode(data))
      && (Base64.Decode(wire.content) == Some(data) <==> data == [])
  {
    HttpGitLab.WireActionsFaithful([PushAction(file, data)]);
    Base64.EncodeGrows(data);
  }

  // ---- the gateways and the use case, as objects ----

  class Gateways {
    ghost var calls: seq<Call>
    const replies: Replies

    constructor (replies: Replies)
      ensures calls == [] && this.replies == replies
    {
      calls := [];
      this.replies := replies;
    }

    method CreateOrphanBranch(repository: Repository, branch: Branch) returns (sha: string, err: Option<Error>)
      modifies this
      ensures calls == old(calls) + [Call.CreateOrphanBranch(repository, branch)]
      ensures (sha, err) == replies.createOrphan(repository, branch)
    {
      calls := calls + [Call.CreateOrphanBranch(repository, branch)];
      sha, err := replies.createOrphan(repository, branch).0, replies.createOrphan(repository, branch).1;
    }

    method ListFiles(repoPath: string) returns (r: Result<seq<string>>)
      modifies this
      ensures calls == old(calls) + [Call.ListFiles(repoPath)] && r == replies.listFiles(repoPath)
    {
      calls := calls + [Call.ListFiles(repoPath)];
      r := replies.listFiles(repoPath);
    }

    method CommitFilesViaAPI(projectID: string, branchName: string, commitMessage: string, token: string, actions: seq<CommitAction>)
      returns (err: Option<Error>)
      modifies this
      ensures calls == old(calls) + [Call.CommitFilesViaAPI(projectID, branchName, commitMessage, token, actions)]
      ensures err == replies.commit(projectID, branchName, commitMessage, token, actions)
    {
      calls := calls + [Call.CommitFilesViaAPI(projectID, branchName, commitMessage, token, actions)];
      err := replies.commit(projectID, branchName, commitMessage, token, actions);
    }
  }

  class CreateAndPushOrphanBranchUseCase {
    const gateways: Gateways
    const fs: FileTree

    constructor (gateways: Gateways, fs: FileTree)
      ensures this.gateways == gateways && this.fs == fs
    {
      this.gateways := gateways;
      this.fs := fs;
    }

    /** The loop opening and reading every listed file into an action. */
    method BuildActions(repoPath: string, files: seq<string>) returns (r: Result<seq<CommitAction>>)
      ensures r == PushActions(fs.nodes, fs.refused, fs.unreadable, repoPath, files)
    {
      var actions: seq<CommitAction> := [];
      assert files[0..] == files;
      PrependedNothing(PushActions(fs.nodes, fs.refused, fs.unreadable, repoPath, files));
      for i := 0 to |files|
        invariant PushActions(fs.nodes, fs.refused, fs.unreadable, repoPath, files)
               == Prepended(actions, PushActions(fs.nodes, fs.refused, fs.unreadable, repoPath, files[i..]))
      {
        assert files[i..][1..] == files[i + 1..];
        var file := files[i];
        var openErr := fs.Open(JoinPath(repoPath, file));
        if openErr.Some? {
          return Err(Wrapped("failed to open file " + file + ": ", openErr.value, ""));
        }
        var content := fs.ReadAll(JoinPath(repoPath, file));
        if content.Err? {
          return Err(Wrapped("failed to read file " + file + ": ", content.error, ""));
        }
        PrependedStep(actions, PushAction(file, content.value), PushActions(fs.nodes, fs.refused, fs.unreadable, repoPath, files[i + 1..]));
        actions := actions + [CommitAction("create", file, Base64.Encode(content.value), "")];
      }
      assert actions + [] == actions;
      return Ok(actions);
    }

    method Execute(input: Input) returns (err: Option<Error>)
      modifies gateways
      ensures var r := Expected(gateways.replies, fs.nodes, fs.refused, fs.unreadable, input);
        gateways.calls == old(gateways.calls) + r.calls && err == r.err
    {
      var repo := Repository(input.repoPath);
      var branch := Branch(input.branchName);
      var _, orphanErr := gateways.CreateOrphanBranch(repo, branch);
      if orphanErr.Some? {
        return Some(Wrapped("failed to create local orphan branch: ", orphanErr.value, ""));
      }

      var files := gateways.ListFiles(input.repoPath);
      if files.Err? {
        return Some(Wrapped("failed to list files in repo: ", files.error, ""));
      }

      if |files.value| == 0 {
        return Some(Message(NoFilesMessage));
      }

      var actions := BuildActions(input.repoPath, files.value);
      if actions.Err? {
        return Some(actions.error);
      }

      var commitMessage := "Add project files to orphan branch " + input.branchName;
      var commitErr := gateways.CommitFilesViaAPI(input.gitLabProjectID, input.branchName, commitMessage, input.gitLabToken, actions.value);
      if commitErr.Some? {
        return Some(Wrapped("failed to commit files via GitLab API: ", commitErr.value, ""));
      }
      return None;
    }
  }
}
