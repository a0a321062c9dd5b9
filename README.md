# reposqueeze, modelled in Dafny

reposqueeze squashes the history of a repository into a fresh orphan branch
and publishes it through the GitLab REST API. It has two workflows:

- **from GitLab** (`CreateOrphanBranchFromGitlabUseCase`):
  - derive the project name from the repository path and look it up by exact name;
  - make a local orphan branch and clean the working tree;
  - download the project's zip archive and unpack it over the tree;
  - read every file entry back and commit all of them in one API commit;
  - report the commit's duration and the number of files.
- **from the working tree** (`CreateAndPushOrphanBranchUseCase`):
  - make a local orphan branch and list the tracked files with `git ls-files`;
  - read each listed file;
  - commit all of them in one API commit, with base 64 content.

Both workflows go through two gateways:

- the command-line git gateway, which runs `git` processes. It exists in two
  versions. The current one wraps the failure of every git command in a
  message naming the step, while `RemoveDirectory` returns the file system's
  error unwrapped. The `orphan_test` one returns git failures unwrapped and
  adds `CleanWorkdir`.
- the HTTP GitLab gateway, which sends the JSON requests and checks their
  status codes.

The model is split into these modules:

- `Basics`: bytes, `Option`, `Result`, and Go errors kept structural so that wrapping can be seen.
- `Base64`: the standard padded base 64 alphabet of RFC 4648, section 4, with a reference decoder.
- `Text`: the parts of Go's `strings` and `strconv` used here: `Split`, `TrimSpace`, `TrimSuffix`, `Itoa`.
- `FilePaths`: `filepath.Clean`, `Join` and `Base` on Unix paths.
- `Domain`: projects, branches, commit actions and archive entries.
- `Workdir`: the file system, as a class holding a map from path to node.
- `GitCommands`: the commands both git gateways run.
- `ExecGit` and `ExecGitOrphanTest`: the two versions of the git gateway.
- `HttpGitLab`: the API gateway.
- `ArchiveWorkflow` and `LocalWorkflow`: the two use cases.

The world outside the program is given to the model as fixed answers:

- git answers through a responder that is given every command run so far;
- the HTTP transport answers through a function of the requests sent so far;
- the file system refuses the paths in fixed sets;
- the zip reader is a function from bytes to entries;
- the clock is a parameter.

Each gateway and use case is a class. Its methods log their calls and update
the state they own, such as the tree, the command log or the actions array
rewritten in place. Each method is proved equal to a specification function,
and lemmas about those functions state what the workflows promise.

Some of what the code does is easy to miss:

- Archive entries are unpacked under their own names. Nothing strips a
  top-level root directory, so `FilePaths.JoinPlainName` proves that the name
  is joined unchanged.
- The working-tree workflow stores base 64 text in each action and leaves the
  encoding tag empty. It does not use raw text tagged `text`.
- The HTTP gateway encodes every action's content again and tags it
  `base64`. The working-tree workflow's content therefore reaches the API
  encoded twice: `LocalWorkflow.DoubleEncoding` proves that the API would
  store the base 64 text of each file rather than the file, for every
  non-empty file.
- The gateway interfaces match the calls of the working-tree workflow
  (`internal/app/usecase/create_branch.go:44`, `:89-94`), but not the
  implementations or the archive workflow's calls:
  - `CreateOrphanBranch` is declared without a source branch, which the
    implementation takes and the archive workflow passes as `""`;
  - `CommitFilesViaAPI` and `CreateRemoteBranch` are declared with a token,
    which the implementation and the archive workflow do not have;
  - `CleanWorkdir`, `FindProjectByName` and `DownloadRepoArchive` are not
    declared at all.

  The model types each call as its call site has it, and each gateway
  method as its implementation has it.
- `CommitAction` is declared with three fields but used with a fourth,
  `Encoding`. The model gives it all four.

## Model

In the source column, `internal/...` paths are relative to the repository root. The second git gateway lives under the `reposqueeze-orphan_test-45163c0e0cb3cd96d4913cce52121dc966db9b21/` snapshot.

| member | source | states |
|---|---|---|
| Base64.DecodeEncode | internal/infrastructure/gitlab/http_gitlab.go:46 | decoding the standard base 64 text of any bytes gives those bytes back |
| Base64.EncodedLength | internal/infrastructure/gitlab/http_gitlab.go:46 | padded base 64 text is 4·⌈n/3⌉ characters long |
| Base64.EncodedCharacters | internal/infrastructure/gitlab/http_gitlab.go:46 | the text is made of alphabet characters, and padding appears only in the last quad |
| Base64.EncodeGrows | internal/app/usecase/create_branch.go:83 | encoding changes any non-empty input and makes it longer; only the empty input encodes to itself |
| Text.TrimSpace | internal/infrastructure/git/os_exec_git.go:56 | the result is a slice of the input with only white space cut from both ends, and it neither starts nor ends with white space |
| Text.TrimSuffix | internal/app/usecase/create_orphan_branch_from_gitlab.go:43 | with the suffix present, the result followed by the suffix is the input; otherwise the input is unchanged |
| Text.JoinSplit | internal/infrastructure/git/os_exec_git.go:70 | splitting on a separator loses nothing: joining the pieces gives the input |
| Text.SplitJoin | internal/infrastructure/git/os_exec_git.go:70 | pieces free of the separator are recovered by splitting their join |
| Text.ItoaRoundTrip | internal/app/usecase/create_orphan_branch_from_gitlab.go:128 | the decimal text of a project ID parses back to the same ID |
| FilePaths.Base | internal/app/usecase/create_orphan_branch_from_gitlab.go:43 | the base name is never empty and is `/` or contains no slash |
| FilePaths.BaseValue | internal/app/usecase/create_orphan_branch_from_gitlab.go:43 | the base name is `.` for the empty path and `/` for a path of slashes only; otherwise, once the trailing slashes are stripped, it is the slash-free tail that starts after the last slash (or at the start) |
| FilePaths.CleanPlain | internal/app/usecase/create_orphan_branch_from_gitlab.go:88 | `Clean` leaves a path of proper names separated by single slashes unchanged |
| FilePaths.JoinPlainName | internal/app/usecase/create_orphan_branch_from_gitlab.go:88 | joining a clean directory and a plain entry name only inserts one slash, so nothing is stripped from the name |
| FilePaths.JoinDirectoryName | internal/app/usecase/create_orphan_branch_from_gitlab.go:88-90 | a directory entry's trailing slash is dropped by the join |
| FilePaths.ProjectNameOfRepository | internal/app/usecase/create_orphan_branch_from_gitlab.go:43 | the project name of `dir/name.git`, and of `dir/name` when the name does not end in `.git`, is `name` |
| FilePaths.ProjectName | internal/app/usecase/create_orphan_branch_from_gitlab.go:43 | the base name of the repository path with one trailing `.git` removed; its values are given by `ProjectNameOfRepository` and `ProjectNameKeepsSuffixBeforeSlash` |
| FilePaths.ProjectNameKeepsSuffixBeforeSlash | internal/app/usecase/create_orphan_branch_from_gitlab.go:43 | `.git` is trimmed only at the very end, so for `dir/name.git/` the project name is `name.git` |
| GitCommands.FirstFailure | internal/infrastructure/git/os_exec_git.go:28-54 | the index of the first failing step when steps run in order: every step before it succeeded, and it failed |
| GitCommands.Attempted | internal/infrastructure/git/os_exec_git.go:28-54 | the steps run are those up to and including the first failure, or all of them |
| GitCommands.CheckoutOrphanArgs | internal/infrastructure/git/os_exec_git.go:24-27 | `checkout --orphan` with the branch name, and the source branch as a fourth argument only when it is not empty |
| GitCommands.OrphanSteps | internal/infrastructure/git/os_exec_git.go:24-54 | the four commands, in order, all run in the repository: checkout, `add .`, `commit -m` with the fixed message, `rev-parse HEAD` |
| GitCommands.NonEmptyLines | internal/infrastructure/git/os_exec_git.go:70-77 | the loop over the split output keeps exactly the non-empty lines, in order |
| GitCommands.ListedPathsAreLines | internal/infrastructure/git/os_exec_git.go:70-77 | every listed path is non-empty and contains no newline |
| GitCommands.ListedPaths | internal/infrastructure/git/os_exec_git.go:60-77 | the paths read from `ls-files` output: its newline-separated pieces that are not empty; `NonEmptyLines`, `ListedPathsAreLines` and `ListedPathsRoundTrip` state what they are |
| GitCommands.ListedPathsRoundTrip | internal/infrastructure/git/os_exec_git.go:60-78 | output printed one path per line, each line ending in a newline, is read back as exactly those paths in order |
| ExecGit.OrphanOutcome | internal/infrastructure/git/os_exec_git.go:22-57 | no error iff all four steps succeed, and then the SHA is the trimmed output of `rev-parse`; otherwise an empty SHA and the first failure wrapped in its step's message and output |
| ExecGit.CommandOutcome | internal/infrastructure/git/os_exec_git.go:84-87 | a single command's error is nil iff the command succeeded; otherwise it wraps the failure in the given message |
| ExecGit.OsExecGitGateway.CreateOrphanBranch | internal/infrastructure/git/os_exec_git.go:22-57 | runs checkout `--orphan` (with the source branch only when one is named), `add .`, `commit`, `rev-parse HEAD` in the repository, stopping after the first failure; returns the outcome above |
| ExecGit.OsExecGitGateway.ListFiles | internal/infrastructure/git/os_exec_git.go:60-79 | runs `ls-files` in the repository; returns the non-empty output lines, or the failure wrapped with the output |
| ExecGit.OsExecGitGateway.DeleteLocalBranch | internal/infrastructure/git/os_exec_git.go:82-88 | runs `-C repo branch -D name`; the error wraps a failure in a message naming the branch |
| ExecGit.OsExecGitGateway.RemoveDirectory | internal/infrastructure/git/os_exec_git.go:91-97 | when stat sees the joined path, it and everything below it are removed unless removal is refused, in which case the file system's `unlinkat` error is returned without wrapping; otherwise nothing changes and the result is nil |
| ExecGit.OsExecGitGateway.CheckoutBranch | internal/infrastructure/git/os_exec_git.go:100-106 | runs `-C repo checkout name`; the error wraps a failure in a message naming the branch |
| ExecGitOrphanTest.OrphanOutcome | reposqueeze-orphan_test-45163c0e0cb3cd96d4913cce52121dc966db9b21/internal/infrastructure/git/os_exec_git.go:25-64 | as in the current version, but the first failure is returned exactly as the command produced it |
| ExecGitOrphanTest.SameOutcomeUnwrapped | reposqueeze-orphan_test-45163c0e0cb3cd96d4913cce52121dc966db9b21/internal/infrastructure/git/os_exec_git.go:33-36 | both versions return the same SHA, and their errors differ only by the current version's wrapping |
| ExecGitOrphanTest.OsExecGitGateway.CreateOrphanBranch | reposqueeze-orphan_test-45163c0e0cb3cd96d4913cce52121dc966db9b21/internal/infrastructure/git/os_exec_git.go:25-64 | the same four commands, stopping after the first failure, with the unwrapped outcome |
| ExecGitOrphanTest.OsExecGitGateway.ListFiles | reposqueeze-orphan_test-45163c0e0cb3cd96d4913cce52121dc966db9b21/internal/infrastructure/git/os_exec_git.go:67-87 | runs `ls-files`; returns the non-empty lines, or the failure as it is |
| ExecGitOrphanTest.OsExecGitGateway.DeleteLocalBranch | reposqueeze-orphan_test-45163c0e0cb3cd96d4913cce52121dc966db9b21/internal/infrastructure/git/os_exec_git.go:90-97 | runs `-C repo branch -D name`; the error is the command's failure |
| ExecGitOrphanTest.OsExecGitGateway.CleanWorkdir | reposqueeze-orphan_test-45163c0e0cb3cd96d4913cce52121dc966db9b21/internal/infrastructure/git/os_exec_git.go:99-107 | runs `clean -fdx` in the repository; the error is the command's failure |
| ExecGitOrphanTest.OsExecGitGateway.RemoveDirectory | reposqueeze-orphan_test-45163c0e0cb3cd96d4913cce52121dc966db9b21/internal/infrastructure/git/os_exec_git.go:110-116 | as in the current version |
| ExecGitOrphanTest.OsExecGitGateway.CheckoutBranch | reposqueeze-orphan_test-45163c0e0cb3cd96d4913cce52121dc966db9b21/internal/infrastructure/git/os_exec_git.go:119-126 | runs `-C repo checkout name`; the error is the command's failure |
| HttpGitLab.Checked | internal/infrastructure/gitlab/http_gitlab.go:78-91 | a response is accepted iff it arrived with the operation's accepted status; a transport error is returned as it is, and a rejected status is reported with its code |
| HttpGitLab.AcceptedStatuses | internal/infrastructure/gitlab/http_gitlab.go:86 | 201 for commit, create branch and create project; 202 for delete; 200 for search and download; any other status, another 2xx included, is an error |
| HttpGitLab.ForWire | internal/infrastructure/gitlab/http_gitlab.go:45-48 | the rewrite keeps one action per action |
| HttpGitLab.ToWire | internal/infrastructure/gitlab/http_gitlab.go:45-48 | one action as sent: its content replaced by its base 64 text and its encoding tag set to `base64`; `WireActionsFaithful` proves the content decodes back |
| HttpGitLab.WireActionsFaithful | internal/infrastructure/gitlab/http_gitlab.go:45-48 | every rewritten action keeps its kind and path, is tagged `base64`, and has content that decodes back to the original, 4·⌈n/3⌉ long |
| HttpGitLab.ExactMatches | internal/infrastructure/gitlab/http_gitlab.go:178-183 | the matches are exactly the search hits whose name equals the query, never more than the hits |
| HttpGitLab.ExactMatchesCount | internal/infrastructure/gitlab/http_gitlab.go:178-183 | each hit with the exact name is kept as many times as the search returned it, and no other hit is kept |
| HttpGitLab.ExactMatchesConcat | internal/infrastructure/gitlab/http_gitlab.go:178-183 | matching two parts of a search result one after the other gives the matches of the whole, so the matches keep the search order |
| HttpGitLab.Lookup | internal/infrastructure/gitlab/http_gitlab.go:185-195 | an error iff more than one hit has the exact name; nil iff none has it; otherwise a hit with that name |
| HttpGitLab.LookupIgnoresOtherNames | internal/infrastructure/gitlab/http_gitlab.go:178-183 | inserting a hit with another name anywhere in the search result does not change the answer |
| HttpGitLab.HttpGitLabGateway.CommitFilesViaAPI | internal/infrastructure/gitlab/http_gitlab.go:43-94 | the caller's actions array is rewritten in place into its wire form; one POST to the project's commits endpoint carries the branch, the message and the rewritten actions; the error is that response's check against 201 |
| HttpGitLab.HttpGitLabGateway.CreateRemoteBranch | internal/infrastructure/gitlab/http_gitlab.go:101-145 | one POST to the branches endpoint with the branch and ref; the error is the check against 201 |
| HttpGitLab.HttpGitLabGateway.MatchingProjects | internal/infrastructure/gitlab/http_gitlab.go:178-183 | the filtering loop computes exactly the exact-name matches, in order |
| HttpGitLab.HttpGitLabGateway.FindProjectByName | internal/infrastructure/gitlab/http_gitlab.go:147-196 | one GET search; a transport error, a non-200 status or an undecodable body is an error; otherwise the lookup over the decoded projects |
| HttpGitLab.HttpGitLabGateway.DeleteProject | internal/infrastructure/gitlab/http_gitlab.go:198-239 | one DELETE to the project given by the decimal ID; the error is the check against 202 |
| HttpGitLab.HttpGitLabGateway.CreateProject | internal/infrastructure/gitlab/http_gitlab.go:245-288 | one POST with the name; a transport error or non-201 status is an error; otherwise the decoded project or the decode error |
| HttpGitLab.HttpGitLabGateway.DownloadRepoArchive | internal/infrastructure/gitlab/http_gitlab.go:290-322 | one GET of the archive; on 200 the body is appended to the buffer and a read error is returned; otherwise the buffer is untouched and the error is returned |
| Workdir.ReadFileResult | internal/app/usecase/create_orphan_branch_from_gitlab.go:112 | reading a path succeeds iff it is a readable file the system does not refuse, and it yields that file's bytes |
| Workdir.MadeDir | internal/app/usecase/create_orphan_branch_from_gitlab.go:90 | only the directory's own path can change; an explicit node at that path is left as it is, and a new path that is not refused becomes a directory with the entry's mode, while a refused one stays absent |
| Workdir.CreateError | internal/app/usecase/create_orphan_branch_from_gitlab.go:92-99 | create-or-truncate succeeds iff the path is not refused and is either a file or absent, so it fails on a directory node and on a path with nodes below it; the failure is a path error naming the path |
| Workdir.Removed | internal/infrastructure/git/os_exec_git.go:94 | exactly the path and everything below it are gone; the rest is untouched |
| Workdir.FileTree.Open | internal/app/usecase/create_branch.go:68 | opening fails with a path error on a refused or missing path |
| Workdir.FileTree.ReadAll | internal/app/usecase/create_branch.go:73 | reading an opened path fails on a directory or an unreadable file, and yields the file's bytes otherwise |
| Workdir.FileTree.ReadFile | internal/app/usecase/create_orphan_branch_from_gitlab.go:112 | open and read in one call, as `ReadFileResult` |
| Workdir.FileTree.MkdirAll | internal/app/usecase/create_orphan_branch_from_gitlab.go:90 | the tree becomes `MadeDir` of the old tree |
| Workdir.FileTree.Create | internal/app/usecase/create_orphan_branch_from_gitlab.go:92-99 | the error is `CreateError`: a refused path or a directory, explicit or implied by nodes below it, fails and leaves the tree; otherwise the path holds an empty file, keeping an existing file's mode |
| Workdir.FileTree.Write | internal/app/usecase/create_orphan_branch_from_gitlab.go:102 | the created file holds exactly the copied bytes, and nothing else changes |
| Workdir.FileTree.RemoveAll | internal/infrastructure/git/os_exec_git.go:94 | the path and everything below it are removed unless removal is refused, in which case the tree is unchanged and the error is the `unlinkat` path error |
| ArchiveWorkflow.FileEntries | internal/app/usecase/create_orphan_branch_from_gitlab.go:74-79 | exactly the entries whose name does not end in a slash |
| ArchiveWorkflow.ExtractEntry | internal/app/usecase/create_orphan_branch_from_gitlab.go:81-107 | an entry that cannot be opened stops with its open error and the tree untouched; a directory entry becomes `MadeDir` and never fails, because its error is ignored; a file entry whose create fails stops with exactly `CreateError` and the tree untouched; a failing copy stops with the copy error and leaves the created empty file; otherwise the file holds the entry's bytes; no other path changes |
| ArchiveWorkflow.ExtractAll | internal/app/usecase/create_orphan_branch_from_gitlab.go:81-107 | the entries unpacked in archive order, stopping at the first failure with the tree as far as it got; `ExtractAllStopsAtEntry`, `ExtractAllFrame` and `ExtractAllWrites` state what it does |
| ArchiveWorkflow.ExtractAllStopsAtEntry | internal/app/usecase/create_orphan_branch_from_gitlab.go:81-107 | unpacking stops only with an entry's open error, its create error on the joined path, or its copy error |
| ArchiveWorkflow.Expected | internal/app/usecase/create_orphan_branch_from_gitlab.go:42-139 | at most five calls, in the order find, orphan, clean, download, commit; the lookup uses the derived name, the branch is made from the input with no source branch, the download is for the ID of the project found, and a fifth call is the commit |
| ArchiveWorkflow.ExpectedFor | internal/app/usecase/create_orphan_branch_from_gitlab.go:45-139 | the same order and call arguments as `Expected`, for a given project name |
| ArchiveWorkflow.AfterLookup | internal/app/usecase/create_orphan_branch_from_gitlab.go:54-139 | once a project is found: orphan, clean and download of that project's ID, in that order, then at most the commit; a run that stops before the commit is an error with zero results |
| ArchiveWorkflow.AfterLookupLastCall | internal/app/usecase/create_orphan_branch_from_gitlab.go:54-138 | after the lookup, a run of one, two or three calls returns the orphan branch's, the clean's or a failed download's error as it is, and a run of four returns the commit's |
| ArchiveWorkflow.FromArchive | internal/app/usecase/create_orphan_branch_from_gitlab.go:69-139 | once the archive is downloaded, the only further call is a commit, and its reply is the error returned; a run with no commit is an error with zero results |
| ArchiveWorkflow.FromArchiveStops | internal/app/usecase/create_orphan_branch_from_gitlab.go:69-123 | after the download, no commit is made exactly when the zip reader, unpacking or reading back fails, and that failure's error is returned; a zip reader failure leaves the tree untouched |
| ArchiveWorkflow.StopsBeforeCommit | internal/app/usecase/create_orphan_branch_from_gitlab.go:54-123 | once the branch is made and the tree cleaned, the run stops right after the download call exactly when the download, the zip reader, unpacking or reading back fails, with that error |
| ArchiveWorkflow.LookupDecidesAlone | internal/app/usecase/create_orphan_branch_from_gitlab.go:45-52 | a failed lookup returns its error and a missing project returns nil, both with zero results, no other call and the tree untouched |
| ArchiveWorkflow.FailureIsLastCall | internal/app/usecase/create_orphan_branch_from_gitlab.go:45-135 | any error is returned as it is, with zero duration and count: after one call it is the lookup's, after two the orphan branch's, after three the clean's, after four the download of the found project's ID was made and a failed download's error is the one returned, after five the commit's |
| ArchiveWorkflow.FailureBeforeCommit | internal/app/usecase/create_orphan_branch_from_gitlab.go:64-115 | once the lookup, branch and clean succeed, the run stops after the download call exactly when the download, the zip reader, unpacking or reading back fails, and returns that failure's error |
| ArchiveWorkflow.ExpectedOnceDownloaded | internal/app/usecase/create_orphan_branch_from_gitlab.go:42-139 | once the archive is downloaded, the run is the four calls find, orphan, clean and download of the found ID, then the rest of the run from the archive |
| ArchiveWorkflow.CollectedShape | internal/app/usecase/create_orphan_branch_from_gitlab.go:109-123 | read-back gives one `create`/`text` action per file entry, in order, with the bytes read; it fails iff some entry named as a file cannot be read |
| ArchiveWorkflow.CollectedActions | internal/app/usecase/create_orphan_branch_from_gitlab.go:109-123 | a read-back that succeeds has one `create`/`text` action per file entry, in order, carrying the bytes read from that entry's path |
| ArchiveWorkflow.CollectedFails | internal/app/usecase/create_orphan_branch_from_gitlab.go:109-123 | read-back fails iff some entry named as a file cannot be read from its path |
| ArchiveWorkflow.Collected | internal/app/usecase/create_orphan_branch_from_gitlab.go:109-123 | every file entry read back from the tree in archive order, failing with the first read error; `CollectedShape` states its result |
| ArchiveWorkflow.TextAction | internal/app/usecase/create_orphan_branch_from_gitlab.go:117-122 | a `create` of the entry's name carrying the bytes read, tagged `text` |
| ArchiveWorkflow.CommitCarriesFileEntries | internal/app/usecase/create_orphan_branch_from_gitlab.go:125-138 | the commit goes to the decimal project ID, which parses back to the ID, on the input branch with the fixed message, with one action per file entry; on success the count is the number of actions and the duration is the one measured |
| ArchiveWorkflow.ReadBackFailureBlocksCommit | internal/app/usecase/create_orphan_branch_from_gitlab.go:112-115 | a file entry that cannot be read back stops the run before any commit |
| ArchiveWorkflow.ExtractAllFrame | internal/app/usecase/create_orphan_branch_from_gitlab.go:81-107 | unpacking leaves every path no entry lands on untouched |
| ArchiveWorkflow.ExtractAllWrites | internal/app/usecase/create_orphan_branch_from_gitlab.go:81-107 | a well-formed archive unpacks without error, and every file entry's path holds exactly its bytes; well-formed means intact entries, file paths that are accepted, readable and not already a directory, no entry on or below a file entry's path, and distinct paths |
| ArchiveWorkflow.ArchiveActions | internal/app/usecase/create_orphan_branch_from_gitlab.go:116-121 | one intended action per file entry |
| ArchiveWorkflow.CollectedReadsBack | internal/app/usecase/create_orphan_branch_from_gitlab.go:109-123 | when every file entry's path holds its bytes, read-back yields each entry with its own bytes |
| ArchiveWorkflow.ArchiveRoundTrip | internal/app/usecase/create_orphan_branch_from_gitlab.go:74-138 | for a well-formed archive whose calls succeed, the commit carries every file entry with exactly its bytes, the count is the number of file entries, and the wire content decodes back to each entry's bytes |
| ArchiveWorkflow.CreateOrphanBranchFromGitlabUseCase.CountFiles | internal/app/usecase/create_orphan_branch_from_gitlab.go:74-79 | the counting loop returns the number of file entries |
| ArchiveWorkflow.CreateOrphanBranchFromGitlabUseCase.ExtractEntries | internal/app/usecase/create_orphan_branch_from_gitlab.go:81-107 | the unpacking loop leaves the tree and the error of `ExtractAll` |
| ArchiveWorkflow.CreateOrphanBranchFromGitlabUseCase.CollectActions | internal/app/usecase/create_orphan_branch_from_gitlab.go:109-123 | the read-back loop returns `Collected` |
| ArchiveWorkflow.CreateOrphanBranchFromGitlabUseCase.UnpackAndCommit | internal/app/usecase/create_orphan_branch_from_gitlab.go:69-138 | from the downloaded bytes on, the calls, tree and results of `FromArchive` |
| ArchiveWorkflow.CreateOrphanBranchFromGitlabUseCase.Execute | internal/app/usecase/create_orphan_branch_from_gitlab.go:42-139 | the calls made, the tree left and the three results are those of `Expected` |
| ArchiveWorkflow.CreateOrphanBranchFromGitlabUseCase.LookUpAndRun | internal/app/usecase/create_orphan_branch_from_gitlab.go:45-139 | from the lookup of the derived name on, the calls, tree and results of `ExpectedFor` |
| ArchiveWorkflow.CreateOrphanBranchFromGitlabUseCase.PrepareAndUnpack | internal/app/usecase/create_orphan_branch_from_gitlab.go:54-139 | once the project is found, the calls, tree and results of `AfterLookup` |
| LocalWorkflow.Expected | internal/app/usecase/create_branch.go:40-101 | the orphan branch is made from the input first, then the listing is taken of the input path; at most one commit follows, and a run that does not reach it returns an error |
| LocalWorkflow.OrphanFailureStops | internal/app/usecase/create_branch.go:44-47 | a failed orphan branch returns its error wrapped, before any listing |
| LocalWorkflow.EmptyListingRejected | internal/app/usecase/create_branch.go:61-63 | an empty listing returns the "no files found" error and nothing is committed |
| LocalWorkflow.PushAction | internal/app/usecase/create_branch.go:80-84 | a `create` of the listed path whose content is the base 64 text of the file's bytes, with no encoding tag |
| LocalWorkflow.PushActions | internal/app/usecase/create_branch.go:66-85 | the listed files opened and read in order, failing at the first that cannot be opened or read, with the file named in the error; `PushActionsShape` states its result |
| LocalWorkflow.PushActionsShape | internal/app/usecase/create_branch.go:66-85 | one `create` action per listed file, in order, whose content is the base 64 text of that file's bytes; building fails iff some listed file cannot be opened or read |
| LocalWorkflow.NoPartialBatch | internal/app/usecase/create_branch.go:67-77 | any listed file that cannot be opened or read fails the run before the commit |
| LocalWorkflow.SingleCommit | internal/app/usecase/create_branch.go:88-100 | when all files read, exactly one commit goes to the input project and branch with the fixed message and token, carrying one action per file; the run's error is nil iff the commit's is, and wraps it otherwise |
| LocalWorkflow.DoubleEncoding | internal/app/usecase/create_branch.go:80-84 | after the gateway's rewrite, the API decodes each action to the base 64 text of the file, which equals the file only when it is empty |
| LocalWorkflow.CreateAndPushOrphanBranchUseCase.BuildActions | internal/app/usecase/create_branch.go:66-85 | the open/read loop returns `PushActions` |
| LocalWorkflow.CreateAndPushOrphanBranchUseCase.Execute | internal/app/usecase/create_branch.go:40-101 | the calls made and the error returned are those of `Expected` |

## Left out

- HTTP transport, JSON encoding and decoding, URL escaping and headers: these are a transport function over the requests sent so far and decoder functions. The gateway token and the `PRIVATE-TOKEN` header are not modelled.
- Failures of `json.Marshal` and `http.NewRequest`: they cannot happen for these payloads and are not modelled.
- HttpGitLab.Checked: a rejected status is an error with the code only. The response body that the message quotes is not kept.
- Logging, in every file: it has no effect on results.
- The `context.Context` parameters: they are not modelled.
- Real git: each command's output and failure come from a responder. What git does to the working tree is not modelled, including `clean -fdx` and the checkout that makes the orphan branch.
- Parent directories and permissions, which the operating system would check: they are replaced by fixed sets of refused and unreadable paths. Permission bits are recorded but never enforced.
- A path below an existing file, which the operating system rejects with "not a directory" when creating a file or directory there, is failed only when it is in the refused set. Workdir.MadeDir otherwise adds the directory, and Workdir.CreateError lets the file be created.
- Workdir.MadeDir: a directory that exists only because there are nodes below it gets its own `Dir` node with the entry's mode, where the operating system would leave it alone. The path is a directory before and after, so only the recorded mode differs.
- ArchiveWorkflow.ExtractEntry: a copy that fails partway leaves the created file empty. The bytes written before the failure are not modelled.
- The deferred `Close` calls: they are not modelled.
- The zip reader (`zip.NewReader`): it is a function from the downloaded bytes to entries or an error.
- The clock (`time.Now` / `time.Since`): the commit's duration is an opaque parameter.
- The command-line controller and `main`: they only parse flags and call the use cases. The cleanup flows around the use cases, deleting and recreating projects and branches, are not part of this model. `DeleteProject` and `CreateProject` are modelled as gateway operations only.
- Stripping a synthetic root directory from archive entries: the code does not do it, so there is nothing to model.
- The declared gateway interfaces: the model follows the implementations and call sites, as described above.
