/** The local file system the workflows read and write, as a map from cleaned
    path to node. What the operating system would refuse (a missing parent
    directory, a permission) is given by two fixed sets of paths. */
module Workdir {
  import opened Basics

  datatype Node = Dir(perm: nat) | File(perm: nat, data: seq<byte>)

  /** `k` is the path `p` itself or lies below it. */
  predicate Within(p: string, k: string) {
    k == p || (|k| > |p| && k[..|p|] == p && k[|p|] == '/')
  }

  /** A path exists when it is a node or has nodes below it. */
  predicate Exists(nodes: map<string, Node>, p: string) {
    exists k | k in nodes :: Within(p, k)
  }

  predicate IsFile(nodes: map<string, Node>, p: string) {
    p in nodes && nodes[p].File?
  }

  /** A directory, either as a node or implied by nodes below the path. */
  predicate IsDirectory(nodes: map<string, Node>, p: string) {
    Exists(nodes, p) && !IsFile(nodes, p)
  }

  /** A change confined to `q` cannot make or unmake a directory at `p`
      unless `q` is `p` or lies below it. */
  lemma DirectoryUnaffected(nodes: map<string, Node>, changed: map<string, Node>, q: string, p: string)
    requires forall k :: k != q ==> (k in changed <==> k in nodes) && (k in changed ==> changed[k] == nodes[k])
    requires !Within(p, q)
    ensures IsDirectory(changed, p) == IsDirectory(nodes, p)
  {
    assert Within(p, p);
    if Exists(changed, p) {
      var k :| k in changed && Within(p, k);
      assert k in nodes;
    }
    if Exists(nodes, p) {
      var k :| k in nodes && Within(p, k);
      assert k in changed;
    }
  }

  /** `os.Open` for reading: fails on a path that does not exist or is refused. */
  function OpenError(nodes: map<string, Node>, refused: set<string>, p: string): Option<Error> {
    if p in refused || !Exists(nodes, p) then Some(PathError("open", p)) else None
  }

  /** Reading an opened path: fails on a directory or an unreadable file. */
  function ReadResult(nodes: map<string, Node>, unreadable: set<string>, p: string): Result<seq<byte>> {
    if p in unreadable || !IsFile(nodes, p) then Err(PathError("read", p)) else Ok(nodes[p].data)
  }

  /** `os.ReadFile`: open, then read everything. */
  function ReadFileResult(nodes: map<string, Node>, refused: set<string>, unreadable: set<string>, p: string): (r: Result<seq<byte>>)
    ensures r.Ok? <==> p !in refused && p !in unreadable && IsFile(nodes, p)
    ensures r.Ok? ==> r.value == nodes[p].data
  {
    match OpenError(nodes, refused, p)
    case Some(e) => Err(e)
    case None => ReadResult(nodes, unreadable, p)
  }

  /** `os.OpenFile(p, O_WRONLY|O_CREATE|O_TRUNC, perm)`: fails on a directory,
      explicit or implied, or on a refused path. */
  function CreateError(nodes: map<string, Node>, refused: set<string>, p: string): (err: Option<Error>)
    ensures err.None? <==> p !in refused && (IsFile(nodes, p) || !Exists(nodes, p))
    ensures err.Some? ==> err == Some(PathError("open", p))
  {
    if p in refused || IsDirectory(nodes, p) then Some(PathError("open", p)) else None
  }

  /** The tree after a successful create: an empty file, keeping the
      permission bits of a file that was already there. */
  function Created(nodes: map<string, Node>, p: string, perm: nat): map<string, Node> {
    nodes[p := File(if IsFile(nodes, p) then nodes[p].perm else perm, [])]
  }

  /** `os.MkdirAll(p, perm)` with its error ignored: nothing changes when the
      path is already there (a directory, or a file, which is the ignored
      error) or is refused (the other ignored error). */
  function MadeDir(nodes: map<string, Node>, refused: set<string>, p: string, perm: nat): (r: map<string, Node>)
    ensures forall k :: k != p ==> (k in r <==> k in nodes) && (k in r ==> r[k] == nodes[k])
    ensures p in nodes ==> r == nodes
    ensures p !in nodes ==> (p in r <==> p !in refused)
    ensures p !in nodes && p !in refused ==> r[p] == Dir(perm)
  {
    if p in refused || p in nodes then nodes else nodes[p := Dir(perm)]
  }

  /** `os.RemoveAll(p)` on success: `p` and everything below it is gone,
      everything else is untouched. */
  function Removed(nodes: map<string, Node>, p: string): (r: map<string, Node>)
    ensures forall k :: k in r <==> k in nodes && !Within(p, k)
    ensures forall k :: k in r ==> r[k] == nodes[k]
    ensures !Exists(r, p)
  {
    map k | k in nodes && !Within(p, k) :: nodes[k]
  }

  /** The file system, updated in place by the workflows. */
  class FileTree {
    var nodes: map<string, Node>
    /** Paths the system refuses to open, create, stat or remove. */
    const refused: set<string>
    /** Paths that open but cannot be read. */
    const unreadable: set<string>

    constructor (nodes: map<string, Node>, refused: set<string>, unreadable: set<string>)
      ensures this.nodes == nodes && this.refused == refused && this.unreadable == unreadable
    {
      this.nodes := nodes;
      this.refused := refused;
      this.unreadable := unreadable;
    }

    method Open(p: string) returns (err: Option<Error>)
      ensures err == OpenError(nodes, refused, p)
    {
      err := OpenError(nodes, refused, p);
    }

    /** `io.ReadAll` on a file opened with `Open`. */
    method ReadAll(p: string) returns (r: Result<seq<byte>>)
      requires OpenError(nodes, refused, p).None?
      ensures r == ReadResult(nodes, unreadable, p)
    {
      r := ReadResult(nodes, unreadable, p);
    }

    method ReadFile(p: string) returns (r: Result<seq<byte>>)
      ensures r == ReadFileResult(nodes, refused, unreadable, p)
    {
      r := ReadFileResult(nodes, refused, unreadable, p);
    }

    method MkdirAll(p: string, perm: nat)
      modifies this
      ensures nodes == MadeDir(old(nodes), refused, p, perm)
    {
      nodes := MadeDir(nodes, refused, p, perm);
    }

    method Create(p: string, perm: nat) returns (err: Option<Error>)
      modifies this
      ensures err == CreateError(old(nodes), refused, p)
      ensures nodes == if err.None? then Created(old(nodes), p, perm) else old(nodes)
    {
      err := CreateError(nodes, refused, p);
      if err.None? {
        nodes := Created(nodes, p, perm);
      }
    }

    /** The bytes `io.Copy` writes into a file just created. */
    method Write(p: string, data: seq<byte>)
      requires IsFile(nodes, p)
      modifies this
      ensures nodes == old(nodes)[p := File(old(nodes)[p].perm, data)]
    {
      nodes := nodes[p := File(nodes[p].perm, data)];
    }

    /** `os.Stat(p)` reports anything other than "does not exist". */
    predicate StatSeesSomething(p: string)
      reads this
    {
      p in refused || Exists(nodes, p)
    }

    method RemoveAll(p: string) returns (err: Option<Error>)
      modifies this
      ensures err.None? <==> p !in refused
      ensures err.Some? ==> err == Some(PathError("unlinkat", p))
      ensures nodes == if err.None? then Removed(old(nodes), p) else old(nodes)
    {
      if p in refused {
        err := Some(PathError("unlinkat", p));
      } else {
        err := None;
        nodes := Removed(nodes, p);
      }
    }
  }
}
