/** The archive-sourced workflow: find the hosted project named after the
    local repository, make an orphan branch and clean the working tree, unpack
    the project's archive into the tree, read every unpacked file back and
    commit all of them to the branch through the API in one request. */
module ArchiveWorkflow {
  import opened Basics
  import opened Text
  import opened FilePaths
  import opened Workdir
  import opened Domain
  import Base64
  import HttpGitLab

  datatype Input = Input(repoPath: string, branchName: string)

  /** One call into a gateway, with the arguments the workflow passes. */
  datatype Call =
    | FindProjectByName(name: string)
    | CreateOrphanBranch(repository: Repository, branch: Branch, sourceBranch: string)
    | CleanWorkdir(repoPath: string)
    | DownloadRepoArchive(id: int)
    | CommitFilesViaAPI(projectID: string, branchName: string, commitMessage: string, actions: seq<CommitAction>)

  /** How the gateways answer each call; the downloaded archive is given as
      its bytes, and `unzip` (the zip reader) turns those into entries. */
  datatype Replies = Replies(
    find: string -> Result<Option<Project>>,
    createOrphan: (Repository, Branch, string) -> (string, Option<Error>),
    clean: string -> Option<Error>,
    download: int -> Result<seq<byte>>,
    commit: (string, string, string, seq<CommitAction>) -> Option<Error>)

  function CommitMessage(branchName: string): string {
    "Add project files to orphan branch " + branchName
  }

  // ---- counting, unpacking and reading back, entry by entry ----

  /** The entries the workflow treats as files, in archive order. */
  function FileEntries(entries: seq<ZipEntry>): (r: seq<ZipEntry>)
    ensures |r| <= |entries|
    ensures forall e :: e in r <==> e in entries && e.NamedAsFile()
    decreases |entries|
  {
    if |entries| == 0 then []
    else if entries[0].NamedAsFile() then [entries[0]] + FileEntries(entries[1..])
    else FileEntries(entries[1..])
  }

  datatype Extraction = Extraction(nodes: map<string, Node>, err: Option<Error>)

  /** Unpacking one entry to `repoPath/<name>`: open it in the archive; make a
      directory (ignoring failure) or create/truncate the file and copy the
      bytes into it. */
  function ExtractEntry(nodes: map<string, Node>, refused: set<string>, repoPath: string, e: ZipEntry): (r: Extraction)
    ensures e.fault.OpenFails? ==> r == Extraction(nodes, Some(e.fault.openError))
    ensures e.IsDir() ==> r.err.None? || e.fault.OpenFails?
    ensures r.err.None? && !e.IsDir() ==> IsFile(r.nodes, JoinPath(repoPath, e.name)) && r.nodes[JoinPath(repoPath, e.name)].data == e.data
    ensures forall k :: k != JoinPath(repoPath, e.name) ==> (k in r.nodes <==> k in nodes) && (k in r.nodes ==> r.nodes[k] == nodes[k])
    ensures !e.fault.OpenFails? && e.IsDir() ==> r == Extraction(MadeDir(nodes, refused, JoinPath(repoPath, e.name), e.perm), None)
    ensures !e.fault.OpenFails? && !e.IsDir() && CreateError(nodes, refused, JoinPath(repoPath, e.name)).Some? ==>
      r == Extraction(nodes, CreateError(nodes, refused, JoinPath(repoPath, e.name)))
    ensures !e.fault.OpenFails? && !e.IsDir() && CreateError(nodes, refused, JoinPath(repoPath, e.name)).None? && e.fault.CopyFails? ==>
      r == Extraction(Created(nodes, JoinPath(repoPath, e.name), e.perm), Some(e.fault.copyError))
    ensures r.err.Some? ==> EntryFailure(e, JoinPath(repoPath, e.name), r.err.value)
  {
    if e.fault.OpenFails? then Extraction(nodes, Some(e.fault.openError))
    else
      var p := JoinPath(repoPath, e.name);
      if e.IsDir() then Extraction(MadeDir(nodes, refused, p, e.perm), None)
      else
        match CreateError(nodes, refused, p)
        case Some(err) => Extraction(nodes, Some(err))
        case None =>
          var created := Created(nodes, p, e.perm);
          if e.fault.CopyFails? then Extraction(created, Some(e.fault.copyError))
          else Extraction(created[p := File(created[p].perm, e.data)], None)
  }

  /** The errors unpacking an entry can stop at: the entry cannot be opened
      in the archive, its file cannot be created, or copying into it fails. */
  predicate EntryFailure(e: ZipEntry, p: string, err: Error) {
    || (e.fault.OpenFails? && err == e.fault.openError)
    || err == PathError("open", p)
    || (e.fault.CopyFails? && err == e.fault.copyError)
  }

  /** Unpacking the entries in order, stopping at the first failure with the
      tree as far as it got. */
  function ExtractAll(nodes: map<string, Node>, refused: set<string>, repoPath: string, entries: seq<ZipEntry>): (r: Extraction)
    decreases |entries|
  {
    if |entries| == 0 then Extraction(nodes, None)
    else
      var first := ExtractEntry(nodes, refused, repoPath, entries[0]);
      if first.err.Some? then first
      else ExtractAll(first.nodes, refused, repoPath, entries[1..])
  }

  /** Unpacking stops only at an entry that cannot be opened in the archive,
      whose file cannot be created, or whose copy fails, and with that error. */
  lemma {:induction false} ExtractAllStopsAtEntry(nodes: map<string, Node>, refused: set<string>, repoPath: string, entries: seq<ZipEntry>)
    ensures var r := ExtractAll(nodes, refused, repoPath, entries);
      r.err.Some? ==> exists i :: 0 <= i < |entries| && EntryFailure(entries[i], JoinPath(repoPath, entries[i].name), r.err.value)
    decreases |entries|
  {
    if |entries| > 0 {
      var first := ExtractEntry(nodes, refused, repoPath, entries[0]);
      if first.err.None? {
        var rest := ExtractAll(first.nodes, refused, repoPath, entries[1..]);
        ExtractAllStopsAtEntry(first.nodes, refused, repoPath, entries[1..]);
        if rest.err.Some? {
          var i :| 0 <= i < |entries| - 1 && EntryFailure(entries[1..][i], JoinPath(repoPath, entries[1..][i].name), rest.err.value);
          assert entries[1..][i] == entries[i + 1];
        }
      }
    }
  }

  /** The commit action for a file entry whose bytes were read back. */
  function TextAction(e: ZipEntry, content: seq<byte>): CommitAction {
    CommitAction("create", e.name, content, "text")
  }

  /** Reading back every file entry from the tree, in archive order, failing
      at the first file that cannot be read. */
  function Collected(nodes: map<string, Node>, refused: set<string>, unreadable: set<string>, repoPath: string, entries: seq<ZipEntry>)
    : (r: Result<seq<CommitAction>>)
    decreases |entries|
  {
    if |entries| == 0 then Ok([])
    else if !entries[0].NamedAsFile() then Collected(nodes, refused, unreadable, repoPath, entries[1..])
    else
      match ReadFileResult(nodes, refused, unreadable, JoinPath(repoPath, entries[0].name))
      case Err(e) => Err(e)
      case Ok(content) =>
        match Collected(nodes, refused, unreadable, repoPath, entries[1..])
        case Err(e) => Err(e)
        case Ok(rest) => Ok([TextAction(entries[0], content)] + rest)
  }

  // ---- the whole run ----

  /** The calls made, the tree left behind and the three results. */
  datatype Run = Run(calls: seq<Call>, nodes: map<string, Node>, duration: int, filesCount: int, err: Option<Error>)

  /** What `Execute` does, step by step; `elapsed` is what the clock reports
      for the commit call. */
  function Expected(replies: Replies, unzip: seq<byte> -> Result<seq<ZipEntry>>,
                    nodes: map<string, Node>, refused: set<string>, unreadable: set<string>,
                    input: Input, elapsed: int): (r: Run)
    ensures 1 <= |r.calls| <= 5
    ensures r.calls[0] == FindProjectByName(ProjectName(input.repoPath))
    ensures |r.calls| >= 2 ==> r.calls[1] == CreateOrphanBranch(Repository(input.repoPath), Branch(input.branchName), "")
    ensures |r.calls| >= 3 ==> r.calls[2] == CleanWorkdir(input.repoPath)
    ensures r.err.Some? || |r.calls| < 5 ==> r.duration == 0 && r.filesCount == 0
    ensures r.err.None? && |r.calls| < 5 ==> |r.calls| == 1 && r.nodes == nodes
    ensures |r.calls| < 4 ==> r.nodes == nodes
    ensures |r.calls| >= 4 ==>
      var found := replies.find(ProjectName(input.repoPath));
      found.Ok? && found.value.Some? && r.calls[3] == DownloadRepoArchive(found.value.value.id)
    ensures |r.calls| == 5 ==> r.calls[4].CommitFilesViaAPI?
  {
    ExpectedFor(replies, unzip, nodes, refused, unreadable, input, elapsed, ProjectName(input.repoPath))
  }

  /** `Expected` once the project name is derived from the repository path. */
  function ExpectedFor(replies: Replies, unzip: seq<byte> -> Result<seq<ZipEntry>>,
                       nodes: map<string, Node>, refused: set<string>, unreadable: set<string>,
                       input: Input, elapsed: int, name: string): (r: Run)
    ensures 1 <= |r.calls| <= 5
    ensures r.calls[0] == FindProjectByName(name)
    ensures |r.calls| >= 2 ==> r.calls[1] == CreateOrphanBranch(Repository(input.repoPath), Branch(input.branchName), "")
    ensures |r.calls| >= 3 ==> r.calls[2] == CleanWorkdir(input.repoPath)
    ensures r.err.Some? || |r.calls| < 5 ==> r.duration == 0 && r.filesCount == 0
    ensures r.err.None? && |r.calls| < 5 ==> |r.calls| == 1 && r.nodes == nodes
    ensures |r.calls| < 4 ==> r.nodes == nodes
    ensures |r.calls| >= 4 ==>
      var found := replies.find(name);
      found.Ok? && found.value.Some? && r.calls[3] == DownloadRepoArchive(found.value.value.id)
    ensures |r.calls| == 5 ==> r.calls[4].CommitFilesViaAPI?
  {
    var c0 := [FindProjectByName(name)];
    match replies.find(name)
    case Err(e) => Run(c0, nodes, 0, 0, Some(e))
    case Ok(None) => Run(c0, nodes, 0, 0, None)
    case Ok(Some(project)) =>
      var rest := AfterLookup(replies, unzip, nodes, refused, unreadable, input, elapsed, project);
      rest.(calls := c0 + rest.calls)
  }

  /** The rest of a run once the project is found: make the orphan branch,
      clean the tree, download the archive and go on from there. */
  function AfterLookup(replies: Replies, unzip: seq<byte> -> Result<seq<ZipEntry>>,
                       nodes: map<string, Node>, refused: set<string>, unreadable: set<string>,
                       input: Input, elapsed: int, project: Project): (r: Run)
    ensures 1 <= |r.calls| <= 4
    ensures r.calls[0] == CreateOrphanBranch(Repository(input.repoPath), Branch(input.branchName), "")
    ensures |r.calls| >= 2 ==> r.calls[1] == CleanWorkdir(input.repoPath)
    ensures |r.calls| >= 3 ==> r.calls[2] == DownloadRepoArchive(project.id)
    ensures |r.calls| == 4 ==> r.calls[3].CommitFilesViaAPI?
    ensures r.err.Some? || |r.calls| < 4 ==> r.duration == 0 && r.filesCount == 0
    ensures |r.calls| < 4 ==> r.err.Some?
    ensures |r.calls| < 3 ==> r.nodes == nodes
  {
    var repo, branch := Repository(input.repoPath), Branch(input.branchName);
    var c1 := [CreateOrphanBranch(repo, branch, "")];
    var (_, orphanErr) := replies.createOrphan(repo, branch, "");
    if orphanErr.Some? then Run(c1, nodes, 0, 0, orphanErr)
    else
      var c2 := c1 + [CleanWorkdir(input.repoPath)];
      var cleanErr := replies.clean(input.repoPath);
      if cleanErr.Some? then Run(c2, nodes, 0, 0, cleanErr)
      else
        var c3 := c2 + [DownloadRepoArchive(project.id)];
        match replies.download(project.id)
        case Err(e) => Run(c3, nodes, 0, 0, Some(e))
        case Ok(archive) =>
          var rest := FromArchive(replies, unzip, nodes, refused, unreadable, input, elapsed, project, archive);
          rest.(calls := c3 + rest.calls)
  }

  /** After the lookup, a failure is the answer to the last call made. */
  lemma AfterLookupLastCall(replies: Replies, unzip: seq<byte> -> Result<seq<ZipEntry>>,
                            nodes: map<string, Node>, refused: set<string>, unreadable: set<string>,
                            input: Input, elapsed: int, project: Project)
    ensures var r := AfterLookup(replies, unzip, nodes, refused, unreadable, input, elapsed, project);
      && (|r.calls| == 1 ==> r.err == replies.createOrphan(Repository(input.repoPath), Branch(input.branchName), "").1)
      && (|r.calls| == 2 ==> r.err == replies.clean(input.repoPath))
      && (|r.calls| == 3 && replies.download(project.id).Err? ==> r.err == Some(replies.download(project.id).error))
      && (|r.calls| == 4 ==> var c := r.calls[3]; c.CommitFilesViaAPI? && r.err == replies.commit(c.projectID, c.branchName, c.commitMessage, c.actions))
  {
  }

  /** The rest of a run once the archive is downloaded: unpack it, count and
      read back its files, and commit them. */
  function FromArchive(replies: Replies, unzip: seq<byte> -> Result<seq<ZipEntry>>,
                       nodes: map<string, Node>, refused: set<string>, unreadable: set<string>,
                       input: Input, elapsed: int, project: Project, archive: seq<byte>): (r: Run)
    ensures r.calls == [] || (|r.calls| == 1 && r.calls[0].CommitFilesViaAPI?)
    ensures r.calls == [] ==> r.err.Some?
    ensures r.err.Some? ==> r.duration == 0 && r.filesCount == 0
    ensures |r.calls| == 1 ==> var c := r.calls[0]; r.err == replies.commit(c.projectID, c.branchName, c.commitMessage, c.actions)
  {
    match unzip(archive)
    case Err(e) => Run([], nodes, 0, 0, Some(e))
    case Ok(entries) =>
      var filesCount := |FileEntries(entries)|;
      var extraction := ExtractAll(nodes, refused, input.repoPath, entries);
      if extraction.err.Some? then Run([], extraction.nodes, 0, 0, extraction.err)
      else
        match Collected(extraction.nodes, refused, unreadable, input.repoPath, entries)
        case Err(e) => Run([], extraction.nodes, 0, 0, Some(e))
        case Ok(actions) =>
          var commit := CommitFilesViaAPI(Itoa(project.id), input.branchName, CommitMessage(input.branchName), actions);
          var commitErr := replies.commit(commit.projectID, commit.branchName, commit.commitMessage, actions);
          if commitErr.Some? then Run([commit], extraction.nodes, 0, 0, commitErr)
          else Run([commit], extraction.nodes, elapsed, filesCount, None)
  }

  // ---- what a run promises ----

  /** A failed lookup ends the run with that error; a project that is not
      found ends it silently with zero results. Either way nothing else is
      called and the tree is untouched. */
  lemma LookupDecidesAlone(replies: Replies, unzip: seq<byte> -> Result<seq<ZipEntry>>,
                           nodes: map<string, Node>, refused: set<string>, unreadable: set<string>,
                           input: Input, elapsed: int)
    requires replies.find(ProjectName(input.repoPath)).Err? || replies.find(ProjectName(input.repoPath)) == Ok(None)
    ensures var r := Expected(replies, unzip, nodes, refused, unreadable, input, elapsed);
      && r.calls == [FindProjectByName(ProjectName(input.repoPath))]
      && r.nodes == nodes && r.duration == 0 && r.filesCount == 0
      && r.err == (match replies.find(ProjectName(input.repoPath)) case Err(e) => Some(e) case Ok(_) => None)
  {
  }

  /** Every failure is the answer to the last call made: the run stops at
      once, with zero results, and calls nothing after the step that failed. */
  lemma FailureIsLastCall(replies: Replies, unzip: seq<byte> -> Result<seq<ZipEntry>>,
                          nodes: map<string, Node>, refused: set<string>, unreadable: set<string>,
                          input: Input, elapsed: int)
    ensures var r := Expected(replies, unzip, nodes, refused, unreadable, input, elapsed);
      r.err.Some? ==>
        && r.duration == 0 && r.filesCount == 0
        && (|r.calls| == 1 ==> replies.find(ProjectName(input.repoPath)) == Err(r.err.value))
        && (|r.calls| == 2 ==> replies.createOrphan(Repository(input.repoPath), Branch(input.branchName), "").1 == r.err)
        && (|r.calls| == 3 ==> replies.clean(input.repoPath) == r.err)
        && (|r.calls| == 4 ==>
              var id, found := r.calls[3].id, replies.find(ProjectName(input.repoPath));
              && found.Ok? && found.value.Some? && found.value.value.id == id
              && (replies.download(id).Err? ==> r.err == Some(replies.download(id).error)))
        && (|r.calls| == 5 ==> var c := r.calls[4]; replies.commit(c.projectID, c.branchName, c.commitMessage, c.actions) == r.err)
  {
    var r := Expected(replies, unzip, nodes, refused, unreadable, input, elapsed);
    var found := replies.find(ProjectName(input.repoPath));
    if found.Ok? && found.value.Some? {
      var rest := AfterLookup(replies, unzip, nodes, refused, unreadable, input, elapsed, found.value.value);
      AfterLookupLastCall(replies, unzip, nodes, refused, unreadable, input, elapsed, found.value.value);
      assert r == rest.(calls := [FindProjectByName(ProjectName(input.repoPath))] + rest.calls);
      assert forall i :: 1 <= i < |r.calls| ==> r.calls[i] == rest.calls[i - 1];
    }
  }

  /** `FailureBeforeCommit` for the part of the run after the download. */
  lemma FromArchiveStops(replies: Replies, unzip: seq<byte> -> Result<seq<ZipEntry>>,
                         nodes: map<string, Node>, refused: set<string>, unreadable: set<string>,
                         input: Input, elapsed: int, project: Project, archive: seq<byte>)
    ensures var r := FromArchive(replies, unzip, nodes, refused, unreadable, input, elapsed, project, archive);
      && (unzip(archive).Err? ==> r.calls == [] && r.err == Some(unzip(archive).error) && r.nodes == nodes)
      && (unzip(archive).Ok? ==>
            var extraction := ExtractAll(nodes, refused, input.repoPath, unzip(archive).value);
            && r.nodes == extraction.nodes
            && (extraction.err.Some? ==> r.calls == [] && r.err == extraction.err)
            && (extraction.err.None? ==>
                  var collected := Collected(extraction.nodes, refused, unreadable, input.repoPath, unzip(archive).value);
                  (collected.Err? <==> r.calls == []) && (collected.Err? ==> r.err == Some(collected.error))))
  {
  }

  /** `FailureBeforeCommit` for the part of the run after the lookup. */
  lemma StopsBeforeCommit(replies: Replies, unzip: seq<byte> -> Result<seq<ZipEntry>>,
                          nodes: map<string, Node>, refused: set<string>, unreadable: set<string>,
                          input: Input, elapsed: int, project: Project)
    requires replies.createOrphan(Repository(input.repoPath), Branch(input.branchName), "").1.None?
    requires replies.clean(input.repoPath).None?
    ensures var r := AfterLookup(replies, unzip, nodes, refused, unreadable, input, elapsed, project);
      var download := replies.download(project.id);
      && |r.calls| >= 3
      && (|r.calls| == 3 ==> r.err.Some?)
      && (download.Err? ==> |r.calls| == 3 && r.err == Some(download.error) && r.nodes == nodes)
      && (download.Ok? && unzip(download.value).Err? ==>
            |r.calls| == 3 && r.err == Some(unzip(download.value).error) && r.nodes == nodes)
      && (download.Ok? && unzip(download.value).Ok? ==>
            var extraction := ExtractAll(nodes, refused, input.repoPath, unzip(download.value).value);
            && r.nodes == extraction.nodes
            && (extraction.err.Some? ==> |r.calls| == 3 && r.err == extraction.err)
            && (extraction.err.None? ==>
                  var collected := Collected(extraction.nodes, refused, unreadable, input.repoPath, unzip(download.value).value);
                  (collected.Err? <==> |r.calls| == 3) && (collected.Err? ==> r.err == Some(collected.error))))
  {
    var download := replies.download(project.id);
    if download.Ok? {
      FromArchiveStops(replies, unzip, nodes, refused, unreadable, input, elapsed, project, download.value);
    }
  }

  /** Once the project is found, the branch made and the tree cleaned, the
      archive is downloaded; the run then stops without committing exactly
      when the download, the zip reader, unpacking an entry or reading a file
      back fails, and with that error. */
  lemma FailureBeforeCommit(replies: Replies, unzip: seq<byte> -> Result<seq<ZipEntry>>,
                            nodes: map<string, Node>, refused: set<string>, unreadable: set<string>,
                            input: Input, elapsed: int, project: Project)
    requires replies.find(ProjectName(input.repoPath)) == Ok(Some(project))
    requires replies.createOrphan(Repository(input.repoPath), Branch(input.branchName), "").1.None?
    requires replies.clean(input.repoPath).None?
    ensures var r := Expected(replies, unzip, nodes, refused, unreadable, input, elapsed);
      var download := replies.download(project.id);
      && |r.calls| >= 4 && r.calls[3] == DownloadRepoArchive(project.id)
      && (|r.calls| == 4 ==> r.err.Some?)
      && (download.Err? ==> |r.calls| == 4 && r.err == Some(download.error) && r.nodes == nodes)
      && (download.Ok? && unzip(download.value).Err? ==>
            |r.calls| == 4 && r.err == Some(unzip(download.value).error) && r.nodes == nodes)
      && (download.Ok? && unzip(download.value).Ok? ==>
            var extraction := ExtractAll(nodes, refused, input.repoPath, unzip(download.value).value);
            && r.nodes == extraction.nodes
            && (extraction.err.Some? ==> |r.calls| == 4 && r.err == extraction.err)
            && (extraction.err.None? ==>
                  var collected := Collected(extraction.nodes, refused, unreadable, input.repoPath, unzip(download.value).value);
                  (collected.Err? <==> |r.calls| == 4) && (collected.Err? ==> r.err == Some(collected.error))))
  {
    var r := Expected(replies, unzip, nodes, refused, unreadable, input, elapsed);
    var rest := AfterLookup(replies, unzip, nodes, refused, unreadable, input, elapsed, project);
    StopsBeforeCommit(replies, unzip, nodes, refused, unreadable, input, elapsed, project);
    assert r == rest.(calls := [FindProjectByName(ProjectName(input.repoPath))] + rest.calls);
    assert r.calls[3] == rest.calls[2];
  }

  /** Reading back succeeds with one action per file entry, in order. */
  lemma {:induction false} CollectedActions(nodes: map<string, Node>, refused: set<string>, unreadable: set<string>,
                                            repoPath: string, entries: seq<ZipEntry>)
    ensures var r := Collected(nodes, refused, unreadable, repoPath, entries);
      var files := FileEntries(entries);
      r.Ok? ==> |r.value| == |files| && forall i :: 0 <= i < |files| ==>
        && r.value[i] == TextAction(files[i], r.value[i].content)
        && ReadFileResult(nodes, refused, unreadable, JoinPath(repoPath, files[i].name)) == Ok(r.value[i].content)
    decreases |entries|
  {
    if |entries| > 0 {
      CollectedActions(nodes, refused, unreadable, repoPath, entries[1..]);
      var r := Collected(nodes, refused, unreadable, repoPath, entries);
      if entries[0].NamedAsFile() && r.Ok? {
        var files, rest := FileEntries(entries), FileEntries(entries[1..]);
        assert files == [entries[0]] + rest;
        var tail := Collected(nodes, refused, unreadable, repoPath, entries[1..]).value;
        assert r.value == [r.value[0]] + tail;
        forall i | 0 < i < |files| ensures files[i] == rest[i - 1] && r.value[i] == tail[i - 1] { }
      }
    }
  }

  /** An entry that names a file the tree cannot read back. */
  predicate UnreadableFile(nodes: map<string, Node>, refused: set<string>, unreadable: set<string>, repoPath: string, e: ZipEntry) {
    e.NamedAsFile() && ReadFileResult(nodes, refused, unreadable, JoinPath(repoPath, e.name)).Err?
  }

  /** Reading back fails exactly when some file entry cannot be read. */
  lemma {:induction false} CollectedFails(nodes: map<string, Node>, refused: set<string>, unreadable: set<string>,
                                          repoPath: string, entries: seq<ZipEntry>)
    ensures Collected(nodes, refused, unreadable, repoPath, entries).Err?
      <==> exists e | e in entries :: UnreadableFile(nodes, refused, unreadable, repoPath, e)
    decreases |entries|
  {
    if |entries| > 0 {
      CollectedFails(nodes, refused, unreadable, repoPath, entries[1..]);
      assert Collected(nodes, refused, unreadable, repoPath, entries).Err?
        <==> UnreadableFile(nodes, refused, unreadable, repoPath, entries[0]) || Collected(nodes, refused, unreadable, repoPath, entries[1..]).Err?;
      assert entries == [entries[0]] + entries[1..];
      assert forall e :: e in entries <==> e == entries[0] || e in entries[1..];
    }
  }

  /** The actions committed for a downloaded archive: one per entry whose name
      does not end in a slash, in archive order, each a `create` of that name
      with `text` encoding and the bytes read back from the tree. */
  lemma CollectedShape(nodes: map<string, Node>, refused: set<string>, unreadable: set<string>,
                       repoPath: string, entries: seq<ZipEntry>)
    ensures var r := Collected(nodes, refused, unreadable, repoPath, entries);
      var files := FileEntries(entries);
      && (r.Ok? ==> |r.value| == |files| && forall i :: 0 <= i < |files| ==>
            && r.value[i] == TextAction(files[i], r.value[i].content)
            && ReadFileResult(nodes, refused, unreadable, JoinPath(repoPath, files[i].name)) == Ok(r.value[i].content))
      && (r.Err? <==> exists e | e in entries :: UnreadableFile(nodes, refused, unreadable, repoPath, e))
  {
    CollectedActions(nodes, refused, unreadable, repoPath, entries);
    CollectedFails(nodes, refused, unreadable, repoPath, entries);
  }

  /** Once the archive is downloaded, the run is the four calls so far
      followed by `FromArchive`. */
  lemma ExpectedOnceDownloaded(replies: Replies, unzip: seq<byte> -> Result<seq<ZipEntry>>,
                               nodes: map<string, Node>, refused: set<string>, unreadable: set<string>,
                               input: Input, elapsed: int, project: Project, archive: seq<byte>)
    requires replies.find(ProjectName(input.repoPath)) == Ok(Some(project))
    requires replies.createOrphan(Repository(input.repoPath), Branch(input.branchName), "").1.None?
    requires replies.clean(input.repoPath).None?
    requires replies.download(project.id) == Ok(archive)
    ensures var r, rest := Expected(replies, unzip, nodes, refused, unreadable, input, elapsed),
                           FromArchive(replies, unzip, nodes, refused, unreadable, input, elapsed, project, archive);
      && r.calls == [FindProjectByName(ProjectName(input.repoPath)),
                     CreateOrphanBranch(Repository(input.repoPath), Branch(input.branchName), ""),
                     CleanWorkdir(input.repoPath), DownloadRepoArchive(project.id)] + rest.calls
      && r.nodes == rest.nodes && r.duration == rest.duration && r.filesCount == rest.filesCount && r.err == rest.err
  {
  }

  /** When the lookup, the branch, the clean and the download succeed, a
      commit that is made goes to the decimal form of the project's ID, on the
      requested branch, with the fixed message, and carries exactly the file
      entries as `create`/`text` actions; so on success `filesCount` is the
      number of actions sent. */
  lemma CommitCarriesFileEntries(replies: Replies, unzip: seq<byte> -> Result<seq<ZipEntry>>,
                                 nodes: map<string, Node>, refused: set<string>, unreadable: set<string>,
                                 input: Input, elapsed: int, project: Project, archive: seq<byte>, entries: seq<ZipEntry>)
    requires replies.find(ProjectName(input.repoPath)) == Ok(Some(project))
    requires replies.createOrphan(Repository(input.repoPath), Branch(input.branchName), "").1.None?
    requires replies.clean(input.repoPath).None?
    requires replies.download(project.id) == Ok(archive) && unzip(archive) == Ok(entries)
    ensures var r := Expected(replies, unzip, nodes, refused, unreadable, input, elapsed);
      var files := FileEntries(entries);
      |r.calls| == 5 ==>
        var c := r.calls[4];
        && c == CommitFilesViaAPI(Itoa(project.id), input.branchName, CommitMessage(input.branchName), c.actions)
        && ParseInt(c.projectID) == Some(project.id)
        && |c.actions| == |files|
        && (forall i :: 0 <= i < |files| ==>
              c.actions[i].action == "create" && c.actions[i].filePath == files[i].name && c.actions[i].encoding == "text")
        && (r.err.None? ==> r.filesCount == |c.actions| && r.duration == elapsed)
  {
    var r := Expected(replies, unzip, nodes, refused, unreadable, input, elapsed);
    var rest := FromArchive(replies, unzip, nodes, refused, unreadable, input, elapsed, project, archive);
    ExpectedOnceDownloaded(replies, unzip, nodes, refused, unreadable, input, elapsed, project, archive);
    var extraction := ExtractAll(nodes, refused, input.repoPath, entries);
    CollectedShape(extraction.nodes, refused, unreadable, input.repoPath, entries);
    ItoaRoundTrip(project.id);
    if |r.calls| == 5 {
      assert r.calls[4] == rest.calls[0];
    }
  }

  /** A file that cannot be read back stops the run before the commit. */
  lemma ReadBackFailureBlocksCommit(replies: Replies, unzip: seq<byte> -> Result<seq<ZipEntry>>,
                                    nodes: map<string, Node>, refused: set<string>, unreadable: set<string>,
                                    input: Input, elapsed: int, project: Project, archive: seq<byte>, entries: seq<ZipEntry>, i: nat)
    requires replies.find(ProjectName(input.repoPath)) == Ok(Some(project))
    requires replies.createOrphan(Repository(input.repoPath), Branch(input.branchName), "").1.None?
    requires replies.clean(input.repoPath).None?
    requires replies.download(project.id) == Ok(archive) && unzip(archive) == Ok(entries)
    requires ExtractAll(nodes, refused, input.repoPath, entries).err.None?
    requires i < |FileEntries(entries)|
    requires ReadFileResult(ExtractAll(nodes, refused, input.repoPath, entries).nodes, refused, unreadable,
                            JoinPath(input.repoPath, FileEntries(entries)[i].name)).Err?
    ensures var r := Expected(replies, unzip, nodes, refused, unreadable, input, elapsed);
      |r.calls| == 4 && r.err.Some? && r.duration == 0 && r.filesCount == 0
  {
    ExpectedOnceDownloaded(replies, unzip, nodes, refused, unreadable, input, elapsed, project, archive);
    var extraction := ExtractAll(nodes, refused, input.repoPath, entries);
    CollectedShape(extraction.nodes, refused, unreadable, input.repoPath, entries);
    assert FileEntries(entries)[i] in FileEntries(entries);
    assert UnreadableFile(extraction.nodes, refused, unreadable, input.repoPath, FileEntries(entries)[i]);
  }

  // ---- unpacking and reading back a well-formed archive ----

  function EntryPath(repoPath: string, e: ZipEntry): string {
    JoinPath(repoPath, e.name)
  }

  /** An archive that unpacks cleanly: every entry reads, directories are
      exactly the entries named with a trailing slash, every file lands on a
      path the tree accepts and can read and that is not already a directory,
      no other entry lands on or below a file entry's path, and no two
      entries land on the same path. */
  predicate WellFormed(nodes: map<string, Node>, refused: set<string>, unreadable: set<string>, repoPath: string, entries: seq<ZipEntry>) {
    && (forall i :: 0 <= i < |entries| ==> entries[i].fault == Intact && entries[i].IsDir() == !entries[i].NamedAsFile())
    && (forall i :: 0 <= i < |entries| && entries[i].NamedAsFile() ==>
          EntryPath(repoPath, entries[i]) !in refused && EntryPath(repoPath, entries[i]) !in unreadable
          && !IsDirectory(nodes, EntryPath(repoPath, entries[i])))
    && (forall i, j :: 0 <= i < |entries| && 0 <= j < |entries| && i != j && entries[i].NamedAsFile() ==>
          !Within(EntryPath(repoPath, entries[i]), EntryPath(repoPath, entries[j])))
    && (forall i, j :: 0 <= i < j < |entries| ==> EntryPath(repoPath, entries[i]) != EntryPath(repoPath, entries[j]))
  }

  /** Unpacking leaves every path that no entry lands on as it was. */
  lemma {:induction false} ExtractAllFrame(nodes: map<string, Node>, refused: set<string>, repoPath: string, entries: seq<ZipEntry>, k: string)
    requires forall i :: 0 <= i < |entries| ==> EntryPath(repoPath, entries[i]) != k
    ensures var r := ExtractAll(nodes, refused, repoPath, entries).nodes;
      (k in r <==> k in nodes) && (k in r ==> r[k] == nodes[k])
    decreases |entries|
  {
    if |entries| > 0 {
      var first := ExtractEntry(nodes, refused, repoPath, entries[0]);
      assert EntryPath(repoPath, entries[0]) != k;
      if first.err.None? {
        ExtractAllFrame(first.nodes, refused, repoPath, entries[1..], k);
      }
    }
  }

  /** A well-formed archive unpacks without error, and every file entry's
      path then holds a file with exactly that entry's bytes. */
  lemma {:induction false} ExtractAllWrites(nodes: map<string, Node>, refused: set<string>, unreadable: set<string>, repoPath: string, entries: seq<ZipEntry>)
    requires WellFormed(nodes, refused, unreadable, repoPath, entries)
    ensures var r := ExtractAll(nodes, refused, repoPath, entries);
      && r.err.None?
      && forall i :: 0 <= i < |entries| && entries[i].NamedAsFile() ==>
           IsFile(r.nodes, EntryPath(repoPath, entries[i])) && r.nodes[EntryPath(repoPath, entries[i])].data == entries[i].data
    decreases |entries|
  {
    if |entries| > 0 {
      var e := entries[0];
      var p := EntryPath(repoPath, e);
      var first := ExtractEntry(nodes, refused, repoPath, e);
      assert first.err.None?;
      var rest := entries[1..];
      assert WellFormed(first.nodes, refused, unreadable, repoPath, rest) by {
        forall i | 0 <= i < |rest| && rest[i].NamedAsFile()
          ensures !IsDirectory(first.nodes, EntryPath(repoPath, rest[i]))
        {
          assert rest[i] == entries[i + 1];
          DirectoryUnaffected(nodes, first.nodes, p, EntryPath(repoPath, rest[i]));
        }
        forall i, j | 0 <= i < |rest| && 0 <= j < |rest| && i != j && rest[i].NamedAsFile()
          ensures !Within(EntryPath(repoPath, rest[i]), EntryPath(repoPath, rest[j]))
        {
          assert rest[i] == entries[i + 1] && rest[j] == entries[j + 1];
        }
        forall i, j | 0 <= i < j < |rest|
          ensures EntryPath(repoPath, rest[i]) != EntryPath(repoPath, rest[j])
        {
          assert rest[i] == entries[i + 1] && rest[j] == entries[j + 1];
        }
      }
      ExtractAllWrites(first.nodes, refused, unreadable, repoPath, rest);
      var r := ExtractAll(nodes, refused, repoPath, entries);
      assert r == ExtractAll(first.nodes, refused, repoPath, rest);
      forall j | 0 <= j < |rest| ensures EntryPath(repoPath, rest[j]) != p {
        assert rest[j] == entries[j + 1];
      }
      ExtractAllFrame(first.nodes, refused, repoPath, rest, p);
      forall i | 0 < i < |entries| && entries[i].NamedAsFile()
        ensures IsFile(r.nodes, EntryPath(repoPath, entries[i])) && r.nodes[EntryPath(repoPath, entries[i])].data == entries[i].data
      {
        assert entries[i] == rest[i - 1];
      }
    }
  }

  /** The actions a well-formed archive should produce: each file entry with
      its own bytes. */
  function ArchiveActions(entries: seq<ZipEntry>): (r: seq<CommitAction>)
    ensures |r| == |FileEntries(entries)|
  {
    var files := FileEntries(entries);
    seq(|files|, i requires 0 <= i < |files| => TextAction(files[i], files[i].data))
  }

  /** Reading back a tree in which every file entry's path holds its bytes
      gives each file entry with its own bytes. */
  lemma {:induction false} CollectedReadsBack(nodes: map<string, Node>, refused: set<string>, unreadable: set<string>, repoPath: string, entries: seq<ZipEntry>)
    requires forall i :: 0 <= i < |entries| && entries[i].NamedAsFile() ==>
      && EntryPath(repoPath, entries[i]) !in refused && EntryPath(repoPath, entries[i]) !in unreadable
      && IsFile(nodes, EntryPath(repoPath, entries[i])) && nodes[EntryPath(repoPath, entries[i])].data == entries[i].data
    ensures Collected(nodes, refused, unreadable, repoPath, entries) == Ok(ArchiveActions(entries))
    decreases |entries|
  {
    if |entries| > 0 {
      var rest := entries[1..];
      forall i | 0 <= i < |rest| && rest[i].NamedAsFile()
        ensures EntryPath(repoPath, rest[i]) !in refused && EntryPath(repoPath, rest[i]) !in unreadable
        ensures IsFile(nodes, EntryPath(repoPath, rest[i])) && nodes[EntryPath(repoPath, rest[i])].data == rest[i].data
      {
        assert rest[i] == entries[i + 1];
      }
      CollectedReadsBack(nodes, refused, unreadable, repoPath, rest);
      if entries[0].NamedAsFile() {
        assert ArchiveActions(entries) == [TextAction(entries[0], entries[0].data)] + ArchiveActions(rest);
      } else {
        assert ArchiveActions(entries) == ArchiveActions(rest);
      }
    }
  }

  /** For a well-formed archive whose gateway calls all succeed, the run
      commits every file entry with exactly its bytes and reports how many
      there were; once rewritten for the wire, each action's content decodes
      back to those bytes. */
  lemma ArchiveRoundTrip(replies: Replies, unzip: seq<byte> -> Result<seq<ZipEntry>>,
                         nodes: map<string, Node>, refused: set<string>, unreadable: set<string>,
                         input: Input, elapsed: int, project: Project, archive: seq<byte>, entries: seq<ZipEntry>)
    requires replies.find(ProjectName(input.repoPath)) == Ok(Some(project))
    requires replies.createOrphan(Repository(input.repoPath), Branch(input.branchName), "").1.None?
    requires replies.clean(input.repoPath).None?
    requires replies.download(project.id) == Ok(archive) && unzip(archive) == Ok(entries)
    requires WellFormed(nodes, refused, unreadable, input.repoPath, entries)
    ensures var r := Expected(replies, unzip, nodes, refused, unreadable, input, elapsed);
      && |r.calls| == 5
      && r.calls[4].actions == ArchiveActions(entries)
      && (r.err.None? ==> r.filesCount == |FileEntries(entries)|)
      && forall i :: 0 <= i < |FileEntries(entries)| ==>
           Base64.Decode(HttpGitLab.ForWire(r.calls[4].actions)[i].content) == Some(FileEntries(entries)[i].data)
  {
    var r := Expected(replies, unzip, nodes, refused, unreadable, input, elapsed);
    var rest := FromArchive(replies, unzip, nodes, refused, unreadable, input, elapsed, project, archive);
    ExpectedOnceDownloaded(replies, unzip, nodes, refused, unreadable, input, elapsed, project, archive);
    ExtractAllWrites(nodes, refused, unreadable, input.repoPath, entries);
    var extraction := ExtractAll(nodes, refused, input.repoPath, entries);
    CollectedReadsBack(extraction.nodes, refused, unreadable, input.repoPath, entries);
    HttpGitLab.WireActionsFaithful(ArchiveActions(entries));
    assert r.calls[4] == rest.calls[0];
  }

  // ---- the gateways and the use case, as objects ----

  /** Both gateways as the workflow sees them: each call is logged and
      answered by `replies`. */
  class Gateways {
    ghost var calls: seq<Call>
    const replies: Replies

    constructor (replies: Replies)
      ensures calls == [] && this.replies == replies
    {
      calls := [];
      this.replies := replies;
    }

    method FindProjectByName(name: string) returns (r: Result<Option<Project>>)
      modifies this
      ensures calls == old(calls) + [Call.FindProjectByName(name)] && r == replies.find(name)
    {
      calls := calls + [Call.FindProjectByName(name)];
      r := replies.find(name);
    }

    method CreateOrphanBranch(repository: Repository, branch: Branch, sourceBranch: string) returns (sha: string, err: Option<Error>)
      modifies this
      ensures calls == old(calls) + [Call.CreateOrphanBranch(repository, branch, sourceBranch)]
      ensures (sha, err) == replies.createOrphan(repository, branch, sourceBranch)
    {
      calls := calls + [Call.CreateOrphanBranch(repository, branch, sourceBranch)];
      sha, err := replies.createOrphan(repository, branch, sourceBranch).0, replies.createOrphan(repository, branch, sourceBranch).1;
    }

    method CleanWorkdir(repoPath: string) returns (err: Option<Error>)
      modifies this
      ensures calls == old(calls) + [Call.CleanWorkdir(repoPath)] && err == replies.clean(repoPath)
    {
      calls := calls + [Call.CleanWorkdir(repoPath)];
      err := replies.clean(repoPath);
    }

    /** The archive's bytes, or the error that stopped the download. */
    method DownloadRepoArchive(projectID: int) returns (r: Result<seq<byte>>)
      modifies this
      ensures calls == old(calls) + [Call.DownloadRepoArchive(projectID)] && r == replies.download(projectID)
    {
      calls := calls + [Call.DownloadRepoArchive(projectID)];
      r := replies.download(projectID);
    }

    method CommitFilesViaAPI(projectID: string, branchName: string, commitMessage: string, actions: seq<CommitAction>)
      returns (err: Option<Error>)
      modifies this
      ensures calls == old(calls) + [Call.CommitFilesViaAPI(projectID, branchName, commitMessage, actions)]
      ensures err == replies.commit(projectID, branchName, commitMessage, actions)
    {
      calls := calls + [Call.CommitFilesViaAPI(projectID, branchName, commitMessage, actions)];
      err := replies.commit(projectID, branchName, commitMessage, actions);
    }
  }

  class CreateOrphanBranchFromGitlabUseCase {
    const gateways: Gateways
    const fs: FileTree
    /** `zip.NewReader` over the downloaded bytes. */
    const unzip: seq<byte> -> Result<seq<ZipEntry>>

    constructor (gateways: Gateways, fs: FileTree, unzip: seq<byte> -> Result<seq<ZipEntry>>)
      ensures this.gateways == gateways && this.fs == fs && this.unzip == unzip
    {
      this.gateways := gateways;
      this.fs := fs;
      this.unzip := unzip;
    }

    /** The loop counting the entries whose name does not end in a slash. */
    method CountFiles(entries: seq<ZipEntry>) returns (filesCount: int)
      ensures filesCount == |FileEntries(entries)|
    {
      filesCount := 0;
      for i := 0 to |entries|
        invariant filesCount + |FileEntries(entries[i..])| == |FileEntries(entries)|
      {
        assert entries[i..][1..] == entries[i + 1..];
        if !HasSuffix(entries[i].name, "/") {
          filesCount := filesCount + 1;
        }
      }
    }

    /** The loop unpacking every entry into the tree. */
    method ExtractEntries(repoPath: string, entries: seq<ZipEntry>) returns (err: Option<Error>)
      modifies fs
      ensures Extraction(fs.nodes, err) == ExtractAll(old(fs.nodes), fs.refused, repoPath, entries)
    {
      for i := 0 to |entries|
        invariant ExtractAll(old(fs.nodes), fs.refused, repoPath, entries) == ExtractAll(fs.nodes, fs.refused, repoPath, entries[i..])
      {
        assert entries[i..][1..] == entries[i + 1..];
        var file := entries[i];
        if file.fault.OpenFails? {
          return Some(file.fault.openError);
        }
        var extractedFilePath := JoinPath(repoPath, file.name);
        if file.IsDir() {
          fs.MkdirAll(extractedFilePath, file.perm);
        } else {
          var openErr := fs.Create(extractedFilePath, file.perm);
          if openErr.Some? {
            return openErr;
          }
          if file.fault.CopyFails? {
            return Some(file.fault.copyError);
          }
          fs.Write(extractedFilePath, file.data);
        }
      }
      return None;
    }

    /** The loop reading every unpacked file back into a commit action. */
    method CollectActions(repoPath: string, entries: seq<ZipEntry>) returns (r: Result<seq<CommitAction>>)
      ensures r == Collected(fs.nodes, fs.refused, fs.unreadable, repoPath, entries)
    {
      var actions: seq<CommitAction> := [];
      assert entries[0..] == entries;
      PrependedNothing(Collected(fs.nodes, fs.refused, fs.unreadable, repoPath, entries));
      for i := 0 to |entries|
        invariant Collected(fs.nodes, fs.refused, fs.unreadable, repoPath, entries)
               == Prepended(actions, Collected(fs.nodes, fs.refused, fs.unreadable, repoPath, entries[i..]))
      {
        assert entries[i..][1..] == entries[i + 1..];
        var file := entries[i];
        if !HasSuffix(file.name, "/") {
          var content := fs.ReadFile(JoinPath(repoPath, file.name));
          if content.Err? {
            return Err(content.error);
          }
          PrependedStep(actions, TextAction(file, content.value), Collected(fs.nodes, fs.refused, fs.unreadable, repoPath, entries[i + 1..]));
          actions := actions + [TextAction(file, content.value)];
        }
      }
      assert actions + [] == actions;
      return Ok(actions);
    }

    method Execute(input: Input, elapsed: int) returns (duration: int, filesCount: int, err: Option<Error>)
      modifies gateways, fs
      ensures var r := Expected(gateways.replies, unzip, old(fs.nodes), fs.refused, fs.unreadable, input, elapsed);
        && gateways.calls == old(gateways.calls) + r.calls
        && fs.nodes == r.nodes
        && (duration, filesCount, err) == (r.duration, r.filesCount, r.err)
    {
      var projectName := ProjectName(input.repoPath);
      duration, filesCount, err := LookUpAndRun(input, elapsed, projectName);
    }

    /** `Execute` from the lookup of the project name on. */
    method LookUpAndRun(input: Input, elapsed: int, projectName: string) returns (duration: int, filesCount: int, err: Option<Error>)
      modifies gateways, fs
      ensures var r := ExpectedFor(gateways.replies, unzip, old(fs.nodes), fs.refused, fs.unreadable, input, elapsed, projectName);
        && gateways.calls == old(gateways.calls) + r.calls
        && fs.nodes == r.nodes
        && (duration, filesCount, err) == (r.duration, r.filesCount, r.err)
    {
      var project := gateways.FindProjectByName(projectName);
      if project.Err? {
        return 0, 0, Some(project.error);
      }
      if project.value.None? {
        return 0, 0, None;
      }
      ghost var before := gateways.calls;
      duration, filesCount, err := PrepareAndUnpack(input, elapsed, project.value.value);
      ghost var rest := AfterLookup(gateways.replies, unzip, old(fs.nodes), fs.refused, fs.unreadable, input, elapsed, project.value.value);
      assert old(gateways.calls) + ([Call.FindProjectByName(projectName)] + rest.calls) == before + rest.calls;
    }

    /** `Execute` once the project is found: the orphan branch, the clean
        tree, the download, and the rest. */
    method PrepareAndUnpack(input: Input, elapsed: int, project: Project)
      returns (duration: int, filesCount: int, err: Option<Error>)
      modifies gateways, fs
      ensures var r := AfterLookup(gateways.replies, unzip, old(fs.nodes), fs.refused, fs.unreadable, input, elapsed, project);
        && gateways.calls == old(gateways.calls) + r.calls
        && fs.nodes == r.nodes
        && (duration, filesCount, err) == (r.duration, r.filesCount, r.err)
    {
      var repo := Repository(input.repoPath);
      var branch := Branch(input.branchName);
      var _, orphanErr := gateways.CreateOrphanBranch(repo, branch, "");
      if orphanErr.Some? {
        return 0, 0, orphanErr;
      }

      var cleanErr := gateways.CleanWorkdir(input.repoPath);
      if cleanErr.Some? {
        return 0, 0, cleanErr;
      }

      var buffer := gateways.DownloadRepoArchive(project.id);
      if buffer.Err? {
        return 0, 0, Some(buffer.error);
      }

      duration, filesCount, err := UnpackAndCommit(input, elapsed, project, buffer.value);
    }

    /** The second half of `Execute`, from the downloaded archive on. */
    method UnpackAndCommit(input: Input, elapsed: int, project: Project, archive: seq<byte>)
      returns (duration: int, filesCount: int, err: Option<Error>)
      modifies gateways, fs
      ensures var r := FromArchive(gateways.replies, unzip, old(fs.nodes), fs.refused, fs.unreadable, input, elapsed, project, archive);
        && gateways.calls == old(gateways.calls) + r.calls
        && fs.nodes == r.nodes
        && (duration, filesCount, err) == (r.duration, r.filesCount, r.err)
    {
      var id := project.id;
      var zipReader := unzip(archive);
      if zipReader.Err? {
        return 0, 0, Some(zipReader.error);
      }
      var entries := zipReader.value;

      filesCount := CountFiles(entries);

      var extractErr := ExtractEntries(input.repoPath, entries);
      if extractErr.Some? {
        return 0, 0, extractErr;
      }

      var actions := CollectActions(input.repoPath, entries);
      if actions.Err? {
        return 0, 0, Some(actions.error);
      }

      var commitMessage := "Add project files to orphan branch " + input.branchName;
      var commitErr := gateways.CommitFilesViaAPI(Itoa(id), input.branchName, commitMessage, actions.value);
      if commitErr.Some? {
        return 0, 0, commitErr;
      }
      duration := elapsed;
      return duration, filesCount, None;
    }
  }
}
