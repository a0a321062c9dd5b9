/** The hosting gateway that talks to the GitLab REST API: which request each
    operation sends, which HTTP status it accepts, how the project search is
    narrowed to an exact name, and how commit actions are rewritten into
    base 64 before they are sent. */
module HttpGitLab {
  import opened Basics
  import opened Text
  import Base64
  import opened Domain

  /** The API resources the gateway addresses. */
  datatype Endpoint =
    | Commits(projectID: string)        // projects/<id>/repository/commits
    | Branches(projectID: string)       // projects/<id>/repository/branches
    | ProjectSearch(query: string)      // projects?owned=true&search=<query>
    | ProjectByID(projectID: string)    // projects/<id>
    | Projects                          // projects
    | Archive(id: int)                  // projects/<id>/repository/archive.zip

  /** The JSON body of a request, before encoding. */
  datatype Payload =
    | NoPayload
    | CommitPayload(branch: string, commitMessage: string, actions: seq<CommitAction>)
    | CreateBranchPayload(branch: string, ref: string)
    | CreateProjectPayload(name: string)

  datatype Request = Request(verb: string, endpoint: Endpoint, payload: Payload)

  /** What sending a request gives: a transport error, or a reply with its
      status, the bytes of its body and, when reading the body broke off,
      the error it broke off with. */
  datatype Response =
    | Unreachable(err: Error)
    | Reply(status: int, body: seq<byte>, readError: Option<Error>)

  datatype Operation = Commit | CreateBranch | FindProject | DeleteProject | CreateProject | DownloadArchive

  /** The one HTTP status each operation treats as success. */
  function AcceptedStatus(op: Operation): int {
    match op
    case Commit => 201
    case CreateBranch => 201
    case CreateProject => 201
    case DeleteProject => 202
    case FindProject => 200
    case DownloadArchive => 200
  }

  /** The start of the message a rejected status is reported with. */
  function StatusContext(op: Operation): string {
    match op
    case Commit => "gitlab api returned non-201 status"
    case CreateBranch => "gitlab api returned non-201 status for create branch"
    case CreateProject => "gitlab api returned non-201 status for create project"
    case DeleteProject => "gitlab api returned non-202 status for delete project"
    case FindProject => "gitlab api returned non-200 status for find project"
    case DownloadArchive => "gitlab api returned non-200 status for download archive"
  }

  /** The error a response leads to before its body is looked at: the
      transport error, or a status other than the accepted one. */
  function Checked(op: Operation, resp: Response): (err: Option<Error>)
    ensures err.None? <==> resp.Reply? && resp.status == AcceptedStatus(op)
    ensures resp.Unreachable? ==> err == Some(resp.err)
    ensures resp.Reply? && err.Some? ==> err.value.Status? && err.value.code == resp.status
  {
    if resp.Unreachable? then Some(resp.err)
    else if resp.status != AcceptedStatus(op) then Some(Status(StatusContext(op), resp.status))
    else None
  }

  /** Each operation accepts exactly one status: 201 for the commit, the
      branch and the project it creates, 202 for the deletion, 200 for the
      search and the download; any other status, another 2xx included,
      is an error. */
  lemma AcceptedStatuses(op: Operation, status: int, body: seq<byte>)
    ensures Checked(op, Reply(status, body, None)).None? <==> status == AcceptedStatus(op)
    ensures op in {Commit, CreateBranch, CreateProject} ==> AcceptedStatus(op) == 201
    ensures op == DeleteProject ==> AcceptedStatus(op) == 202
    ensures op in {FindProject, DownloadArchive} ==> AcceptedStatus(op) == 200
  {
  }

  // ---- the commit actions on the wire ----

  /** One action as `CommitFilesViaAPI` rewrites it: its content replaced by
      the base 64 text of that content, its encoding tag set to `base64`. */
  function ToWire(a: CommitAction): CommitAction {
    a.(content := Base64.Encode(a.content), encoding := "base64")
  }

  function ForWire(actions: seq<CommitAction>): (r: seq<CommitAction>)
    ensures |r| == |actions|
  {
    seq(|actions|, i requires 0 <= i < |actions| => ToWire(actions[i]))
  }

  /** The rewrite keeps every action's kind and path, tags it `base64`, and its
      new content decodes back to the old one and is `4 * ceil(n / 3)` long. */
  lemma WireActionsFaithful(actions: seq<CommitAction>)
    ensures |ForWire(actions)| == |actions|
    ensures forall i :: 0 <= i < |actions| ==>
      var w := ForWire(actions)[i];
      && w.action == actions[i].action
      && w.filePath == actions[i].filePath
      && w.encoding == "base64"
      && Base64.Decode(w.content) == Some(actions[i].content)
      && |w.content| == 4 * ((|actions[i].content| + 2) / 3)
  {
    forall i | 0 <= i < |actions|
      ensures Base64.Decode(ForWire(actions)[i].content) == Some(actions[i].content)
      ensures |ForWire(actions)[i].content| == 4 * ((|actions[i].content| + 2) / 3)
    {
      Base64.DecodeEncode(actions[i].content);
      Base64.EncodedLength(actions[i].content);
    }
  }

  // ---- the project search ----

  /** The projects of a search result whose name is exactly `name`, in order. */
  function ExactMatches(projects: seq<Project>, name: string): (r: seq<Project>)
    ensures |r| <= |projects|
    ensures forall p :: p in r <==> p in projects && p.name == name
    decreases |projects|
  {
    if |projects| == 0 then []
    else
      var init := projects[..|projects| - 1];
      var last := projects[|projects| - 1];
      assert projects == init + [last];
      ExactMatches(init, name) + (if last.name == name then [last] else [])
  }

  /** How `FindProjectByName` answers from the matches: the project when there is
      exactly one, an error when there are several, nothing when there is none. */
  function Lookup(projects: seq<Project>, name: string): (r: Result<Option<Project>>)
    ensures r.Err? <==> |ExactMatches(projects, name)| > 1
    ensures r == Ok(None) <==> forall p :: p in projects ==> p.name != name
    ensures r.Ok? && r.value.Some? ==> r.value.value in projects && r.value.value.name == name
  {
    var matching := ExactMatches(projects, name);
    if |matching| == 1 then
      assert matching[0] in matching;
      Ok(Some(matching[0]))
    else if |matching| > 1 then
      assert matching[0] in matching;
      Err(Message("found multiple projects with name " + name + ", please specify the full path"))
    else Ok(None)
  }

  /** Search hits whose name differs from the query do not change the answer,
      wherever they appear in the result. */
  lemma LookupIgnoresOtherNames(before: seq<Project>, q: Project, after: seq<Project>, name: string)
    requires q.name != name
    ensures Lookup(before + [q] + after, name) == Lookup(before + after, name)
  {
    ExactMatchesConcat(before + [q], after, name);
    ExactMatchesConcat(before, [q], name);
    ExactMatchesConcat(before, after, name);
    assert ExactMatches([q], name) == [] by {
      assert [q][..0] == [];
    }
  }

  /** Each project named `name` is matched as many times as the search
      returned it, and no other project is. */
  lemma {:induction false} ExactMatchesCount(projects: seq<Project>, name: string, p: Project)
    ensures multiset(ExactMatches(projects, name))[p] == if p.name == name then multiset(projects)[p] else 0
    decreases |projects|
  {
    if |projects| > 0 {
      var init := projects[..|projects| - 1];
      var last := projects[|projects| - 1];
      assert projects == init + [last];
      assert multiset(projects) == multiset(init) + multiset{last};
      ExactMatchesCount(init, name, p);
    }
  }

  /** Matching a search result split in two matches each part in turn, so
      the matches keep the order the search returned them in. */
  lemma {:induction false} ExactMatchesConcat(a: seq<Project>, b: seq<Project>, name: string)
    ensures ExactMatches(a + b, name) == ExactMatches(a, name) + ExactMatches(b, name)
    decreases |b|
  {
    if |b| == 0 {
      assert a + b == a;
    } else {
      var b0 := b[..|b| - 1];
      assert (a + b)[..|a + b| - 1] == a + b0;
      ExactMatchesConcat(a, b0, name);
    }
  }

  /** The byte buffer the archive is downloaded into. */
  class Buffer {
    var data: seq<byte>

    constructor ()
      ensures data == []
    {
      data := [];
    }
  }

  /** The gateway together with the requests it has sent, how the API answers
      them, and how response bodies decode (JSON decoding is outside the model). */
  class HttpGitLabGateway {
    var sent: seq<Request>
    const transport: (seq<Request>, Request) -> Response
    const decodeProjects: seq<byte> -> Result<seq<Project>>
    const decodeProject: seq<byte> -> Result<Project>

    constructor (transport: (seq<Request>, Request) -> Response,
                 decodeProjects: seq<byte> -> Result<seq<Project>>,
                 decodeProject: seq<byte> -> Result<Project>)
      ensures sent == [] && this.transport == transport
      ensures this.decodeProjects == decodeProjects && this.decodeProject == decodeProject
    {
      sent := [];
      this.transport := transport;
      this.decodeProjects := decodeProjects;
      this.decodeProject := decodeProject;
    }

    /** `Client.Do`: the request is sent and its response comes back. */
    method Send(req: Request) returns (resp: Response)
      modifies this
      ensures resp == transport(old(sent), req)
      ensures sent == old(sent) + [req]
    {
      resp := transport(sent, req);
      sent := sent + [req];
    }

    /** Rewrites the caller's actions in place for the wire, then sends them
        in one commit request. */
    method CommitFilesViaAPI(projectID: string, branchName: string, commitMessage: string, actions: array<CommitAction>)
      returns (err: Option<Error>)
      modifies this, actions
      ensures actions[..] == ForWire(old(actions[..]))
      ensures sent == old(sent) + [Request("POST", Commits(projectID), CommitPayload(branchName, commitMessage, actions[..]))]
      ensures err == Checked(Commit, transport(old(sent), Request("POST", Commits(projectID), CommitPayload(branchName, commitMessage, actions[..]))))
    {
      for i := 0 to actions.Length
        invariant actions[..i] == ForWire(old(actions[..i]))
        invariant actions[i..] == old(actions[i..])
        invariant sent == old(sent)
      {
        assert actions[i] == old(actions[i..])[0];
        actions[i] := actions[i].(content := Base64.Encode(actions[i].content), encoding := "base64");
        assert actions[..i + 1] == actions[..i] + [actions[i]];
        assert old(actions[..i + 1]) == old(actions[..i]) + [old(actions[i])];
      }
      var payload := CommitPayload(branchName, commitMessage, actions[..]);
      var resp := Send(Request("POST", Commits(projectID), payload));
      err := Checked(Commit, resp);
    }

    method CreateRemoteBranch(projectID: string, branchName: string, refSHA: string) returns (err: Option<Error>)
      modifies this
      ensures sent == old(sent) + [Request("POST", Branches(projectID), CreateBranchPayload(branchName, refSHA))]
      ensures err == Checked(CreateBranch, transport(old(sent), Request("POST", Branches(projectID), CreateBranchPayload(branchName, refSHA))))
    {
      var resp := Send(Request("POST", Branches(projectID), CreateBranchPayload(branchName, refSHA)));
      err := Checked(CreateBranch, resp);
    }

    /** The loop that keeps the exact-name matches of a search result. */
    method MatchingProjects(projects: seq<Project>, projectName: string) returns (matching: seq<Project>)
      ensures matching == ExactMatches(projects, projectName)
    {
      matching := [];
      for i := 0 to |projects|
        invariant matching == ExactMatches(projects[..i], projectName)
      {
        assert projects[..i + 1][..i] == projects[..i];
        if projects[i].name == projectName {
          matching := matching + [projects[i]];
        }
      }
      assert projects[..|projects|] == projects;
    }

    method FindProjectByName(projectName: string) returns (r: Result<Option<Project>>)
      modifies this
      ensures sent == old(sent) + [Request("GET", ProjectSearch(projectName), NoPayload)]
      ensures var resp := transport(old(sent), Request("GET", ProjectSearch(projectName), NoPayload));
        r == match Checked(FindProject, resp)
             case Some(e) => Err(e)
             case None =>
               match decodeProjects(resp.body)
               case Err(e) => Err(e)
               case Ok(projects) => Lookup(projects, projectName)
    {
      var resp := Send(Request("GET", ProjectSearch(projectName), NoPayload));
      var failure := Checked(FindProject, resp);
      if failure.Some? {
        return Err(failure.value);
      }
      var decoded := decodeProjects(resp.body);
      if decoded.Err? {
        return Err(decoded.error);
      }
      var matching := MatchingProjects(decoded.value, projectName);
      if |matching| == 1 {
        return Ok(Some(matching[0]));
      }
      if |matching| > 1 {
        return Err(Message("found multiple projects with name " + projectName + ", please specify the full path"));
      }
      return Ok(None);
    }

    method DeleteProject(projectID: int) returns (err: Option<Error>)
      modifies this
      ensures sent == old(sent) + [Request("DELETE", ProjectByID(Itoa(projectID)), NoPayload)]
      ensures err == Checked(Operation.DeleteProject, transport(old(sent), Request("DELETE", ProjectByID(Itoa(projectID)), NoPayload)))
    {
      var resp := Send(Request("DELETE", ProjectByID(Itoa(projectID)), NoPayload));
      err := Checked(Operation.DeleteProject, resp);
    }

    method CreateProject(name: string) returns (r: Result<Project>)
      modifies this
      ensures sent == old(sent) + [Request("POST", Projects, CreateProjectPayload(name))]
      ensures var resp := transport(old(sent), Request("POST", Projects, CreateProjectPayload(name)));
        r == match Checked(Operation.CreateProject, resp)
             case Some(e) => Err(e)
             case None => decodeProject(resp.body)
    {
      var resp := Send(Request("POST", Projects, CreateProjectPayload(name)));
      var failure := Checked(Operation.CreateProject, resp);
      if failure.Some? {
        return Err(failure.value);
      }
      r := decodeProject(resp.body);
    }

    /** Appends the archive's bytes to `writer`; on a rejected status the
        buffer is left as it was. */
    method DownloadRepoArchive(projectID: int, writer: Buffer) returns (err: Option<Error>)
      modifies this, writer
      ensures sent == old(sent) + [Request("GET", Archive(projectID), NoPayload)]
      ensures var resp := transport(old(sent), Request("GET", Archive(projectID), NoPayload));
        && (err.None? <==> Checked(DownloadArchive, resp).None? && resp.readError.None?)
        && (Checked(DownloadArchive, resp).Some? ==> err == Checked(DownloadArchive, resp) && writer.data == old(writer.data))
        && (Checked(DownloadArchive, resp).None? ==> err == resp.readError && writer.data == old(writer.data) + resp.body)
    {
      var resp := Send(Request("GET", Archive(projectID), NoPayload));
      var failure := Checked(DownloadArchive, resp);
      if failure.Some? {
        return failure;
      }
      writer.data := writer.data + resp.body;
      return resp.readError;
    }
  }
}
