/** The entities the workflows pass between gateways. */
module Domain {
  import opened Basics
  import opened Text

  /** A hosted project, as the hosting API describes it. */
  datatype Project = Project(id: int, name: string)

  /** A local working tree, identified by its path. */
  datatype Repository = Repository(path: string)

  datatype Branch = Branch(name: string)

  /** One file operation of a commit request. The archive workflow and the
      hosting gateway both set `encoding`, so the action has four fields
      although the declared Go struct lists only the first three. */
  datatype CommitAction = CommitAction(action: string, filePath: string, content: seq<byte>, encoding: string)

  /** What reading one entry of a zip archive can run into: the entry cannot
      be opened (`file.Open`), or copying its bytes out fails part way. */
  datatype EntryFault = Intact | OpenFails(openError: Error) | CopyFails(copyError: Error)

  /** One entry of a downloaded zip archive, in archive order: its name, whether
      its recorded file mode carries the directory bit, its permission bits
      (carried, never interpreted), its bytes, and what reading it runs into. */
  datatype ZipEntry = ZipEntry(name: string, dirMode: bool, perm: nat, data: seq<byte>, fault: EntryFault)
  {
    /** `file.FileInfo().IsDir()`: the zip reader adds the directory bit to
        every entry whose name ends in a slash. */
    predicate IsDir() {
      dirMode || HasSuffix(name, "/")
    }

    /** The test the workflow uses to tell files from directories when it
        counts entries and builds commit actions. */
    predicate NamedAsFile() {
      !HasSuffix(name, "/")
    }
  }

  /** `done` followed by the actions built from the rest of the input, or the
      error building them stopped at. */
  function Prepended(done: seq<CommitAction>, rest: Result<seq<CommitAction>>): Result<seq<CommitAction>> {
    match rest
    case Err(e) => Err(e)
    case Ok(more) => Ok(done + more)
  }

  lemma PrependedNothing(rest: Result<seq<CommitAction>>)
    ensures Prepended([], rest) == rest
  {
    if rest.Ok? {
      assert [] + rest.value == rest.value;
    }
  }

  lemma PrependedStep(done: seq<CommitAction>, a: CommitAction, rest: Result<seq<CommitAction>>)
    ensures Prepended(done, Prepended([a], rest)) == Prepended(done + [a], rest)
  {
    if rest.Ok? {
      assert done + ([a] + rest.value) == done + [a] + rest.value;
    }
  }
}
