/** What the two versions of the command-line git gateway have in common:
    the commands they run, how a run of several commands stops at the first
    failure, and how the output of `git ls-files` becomes a list of paths. */
module GitCommands {
  import opened Basics
  import opened Text

  /** `git <args>` run with its working directory set to `dir`; an empty `dir`
      leaves the process's own working directory (the `-C` commands). */
  datatype Command = Command(dir: string, args: seq<string>)

  /** What `CombinedOutput` gives back: the interleaved output and the error
      of a command that could not start or exited non-zero. */
  datatype Exec = Exec(output: string, failure: Option<Error>)

  /** How git answers a command, given every command run before it. */
  type Responder = (seq<Command>, Command) -> Exec

  const InitialCommitMessage := "Initial commit on orphan branch"

  /** `checkout --orphan <name>`, with the source branch as a fourth argument
      only when one is named. */
  function CheckoutOrphanArgs(name: string, sourceBranch: string): seq<string> {
    if sourceBranch != "" then ["checkout", "--orphan", name, sourceBranch]
    else ["checkout", "--orphan", name]
  }

  /** The four commands that make an orphan branch with one commit, all run in `dir`. */
  function OrphanSteps(dir: string, name: string, sourceBranch: string): seq<Command> {
    [ Command(dir, CheckoutOrphanArgs(name, sourceBranch)),
      Command(dir, ["add", "."]),
      Command(dir, ["commit", "-m", InitialCommitMessage]),
      Command(dir, ["rev-parse", "HEAD"]) ]
  }

  function ListFilesCommand(dir: string): Command {
    Command(dir, ["ls-files"])
  }

  function CleanCommand(dir: string): Command {
    Command(dir, ["clean", "-fdx"])
  }

  function DeleteBranchCommand(repoPath: string, branchName: string): Command {
    Command("", ["-C", repoPath, "branch", "-D", branchName])
  }

  function CheckoutCommand(repoPath: string, branchName: string): Command {
    Command("", ["-C", repoPath, "checkout", branchName])
  }

  /** The answer to the `i`-th of `steps` when those before it ran after `history`. */
  function StepReply(respond: Responder, history: seq<Command>, steps: seq<Command>, i: nat): Exec
    requires i < |steps|
  {
    respond(history + steps[..i], steps[i])
  }

  /** The index of the first of `steps` that fails when they are run in order
      after `history`, or `|steps|` when none does. */
  function FirstFailure(respond: Responder, history: seq<Command>, steps: seq<Command>): (k: nat)
    ensures k <= |steps|
    ensures forall i :: 0 <= i < k ==> StepReply(respond, history, steps, i).failure.None?
    ensures k < |steps| ==> StepReply(respond, history, steps, k).failure.Some?
    decreases |steps|
  {
    if |steps| == 0 then 0
    else
      assert history + steps[..0] == history;
      if respond(history, steps[0]).failure.Some? then 0
      else
        var k := 1 + FirstFailure(respond, history + [steps[0]], steps[1..]);
        assert forall i | 0 < i < |steps| ::
            StepReply(respond, history, steps, i) == StepReply(respond, history + [steps[0]], steps[1..], i - 1) by {
          forall i | 0 < i < |steps| {
            StepReplyShift(respond, history, steps, i);
          }
        }
        k
  }

  /** Step `i` is the first of `steps` to fail. */
  predicate FailsFirstAt(respond: Responder, history: seq<Command>, steps: seq<Command>, i: nat)
    requires i < |steps|
  {
    && (forall j :: 0 <= j < i ==> StepReply(respond, history, steps, j).failure.None?)
    && StepReply(respond, history, steps, i).failure.Some?
  }

  /** How many of `steps` are run: up to and including the first failure. */
  function Attempted(respond: Responder, history: seq<Command>, steps: seq<Command>): (n: nat)
    ensures n <= |steps| && (|steps| > 0 ==> n > 0)
    ensures forall i :: 0 <= i < n - 1 ==> StepReply(respond, history, steps, i).failure.None?
    ensures 0 < n < |steps| ==> StepReply(respond, history, steps, n - 1).failure.Some?
    ensures n == |steps| ==> forall i :: 0 <= i < |steps| - 1 ==> StepReply(respond, history, steps, i).failure.None?
  {
    var k := FirstFailure(respond, history, steps);
    if k < |steps| then k + 1 else k
  }

  /** The first failure is the step that fails after all steps before it succeeded. */
  lemma FirstFailureIs(respond: Responder, history: seq<Command>, steps: seq<Command>, i: nat)
    requires i <= |steps|
    requires forall j :: 0 <= j < i ==> StepReply(respond, history, steps, j).failure.None?
    requires i < |steps| ==> StepReply(respond, history, steps, i).failure.Some?
    ensures FirstFailure(respond, history, steps) == i
  {
  }

  lemma StepReplyShift(respond: Responder, history: seq<Command>, steps: seq<Command>, i: nat)
    requires 0 < i < |steps|
    ensures StepReply(respond, history, steps, i) == StepReply(respond, history + [steps[0]], steps[1..], i - 1)
  {
    assert history + [steps[0]] + steps[1..][..i - 1] == history + steps[..i];
  }

  /** The paths `git ls-files` printed: the lines of its output that are not empty. */
  function ListedPaths(output: string): seq<string> {
    NonEmpty(Split(output, '\n'))
  }

  /** The loop both gateways run over `strings.Split(output, "\n")`,
      keeping the pieces that are not empty. */
  method NonEmptyLines(output: string) returns (result: seq<string>)
    ensures result == ListedPaths(output)
  {
    var files := Split(output, '\n');
    result := [];
    for i := 0 to |files|
      invariant result == NonEmpty(files[..i])
    {
      NonEmptyAppend(files[..i], [files[i]]);
      assert files[..i + 1] == files[..i] + [files[i]];
      if files[i] != "" {
        result := result + [files[i]];
      }
    }
    assert files[..|files|] == files;
  }

  lemma {:induction false} NonEmptyElements(ps: seq<string>)
    ensures forall f :: f in NonEmpty(ps) ==> f in ps && f != ""
    decreases |ps|
  {
    if |ps| > 0 {
      NonEmptyElements(ps[1..]);
    }
  }

  lemma {:induction false} NonEmptyKeeps(ps: seq<string>)
    requires forall i :: 0 <= i < |ps| ==> ps[i] != ""
    ensures NonEmpty(ps) == ps
    decreases |ps|
  {
    if |ps| > 0 {
      NonEmptyKeeps(ps[1..]);
    }
  }

  /** Every listed path is a non-empty line. */
  lemma ListedPathsAreLines(output: string)
    ensures forall f :: f in ListedPaths(output) ==> f != "" && Free(f, '\n')
  {
    var pieces := Split(output, '\n');
    NonEmptyElements(pieces);
    SplitPiecesFree(output, '\n');
    forall f | f in ListedPaths(output) ensures f != "" && Free(f, '\n') {
      var i :| 0 <= i < |pieces| && pieces[i] == f;
    }
  }

  lemma {:induction false} JoinThenNewline(ps: seq<string>, sep: char)
    requires |ps| >= 1
    ensures Join(ps, sep) + [sep] == Join(ps + [""], sep)
    decreases |ps|
  {
    if |ps| > 1 {
      JoinThenNewline(ps[1..], sep);
      assert (ps + [""])[1..] == ps[1..] + [""];
    } else {
      assert (ps + [""])[1..] == [""];
    }
  }

  lemma ExtendedLinesFree(paths: seq<string>)
    requires forall i :: 0 <= i < |paths| ==> Free(paths[i], '\n')
    ensures AllFree(paths + [""], '\n')
  {
    var ext := paths + [""];
    forall i | 0 <= i < |ext| ensures Free(ext[i], '\n') {
      if i < |paths| { assert ext[i] == paths[i]; }
    }
  }

  /** Output in the shape `git ls-files` prints (one path per line, each line
      ended by a newline) is read back as exactly the printed paths, in order. */
  lemma ListedPathsRoundTrip(paths: seq<string>)
    requires forall i :: 0 <= i < |paths| ==> paths[i] != "" && Free(paths[i], '\n')
    ensures ListedPaths(Join(paths, '\n') + "\n") == paths
  {
    if |paths| == 0 {
      NoLines();
      assert NonEmpty(["", ""]) == [];
    } else {
      PrintedLines(paths);
      NonEmptyAppend(paths, [""]);
      NonEmptyKeeps(paths);
      assert NonEmpty([""]) == [];
      assert paths + [] == paths;
    }
  }

  /** The lines of such output are the paths followed by one empty line. */
  lemma PrintedLines(paths: seq<string>)
    requires |paths| >= 1
    requires forall i :: 0 <= i < |paths| ==> Free(paths[i], '\n')
    ensures Split(Join(paths, '\n') + "\n", '\n') == paths + [""]
  {
    var lines := paths + [""];
    JoinThenNewline(paths, '\n');
    ExtendedLinesFree(paths);
    SplitJoin(lines, '\n');
    SameSplit(Join(paths, '\n') + "\n", Join(lines, '\n'), lines);
  }

  /** With nothing listed, the output is a lone newline: two empty lines. */
  lemma NoLines()
    ensures Split(Join([], '\n') + "\n", '\n') == ["", ""]
  {
    var none: seq<string> := [];
    assert Join(none, '\n') + "\n" == ['\n'] + "";
    SplitCons('\n', "", '\n');
  }

  lemma SameSplit(s: string, t: string, lines: seq<string>)
    requires s == t && Split(t, '\n') == lines
    ensures Split(s, '\n') == lines
  {
  }
}
