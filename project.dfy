/** A project: a repository with a display name, a status and the list of
    its worktrees, which `add_worktree` and `remove_worktree` change in
    place. */
module ProjectModel {
  import opened PyStr
  import opened Errors
  import opened PyDict
  import opened WorktreeModel

  datatype ProjectStatus = Active | Modified | Inactive | Error | Unavailable

  /** The enum's string value. */
  function StatusValue(s: ProjectStatus): string
  {
    match s
    case Active => "active"
    case Modified => "modified"
    case Inactive => "inactive"
    case Error => "error"
    case Unavailable => "unavailable"
  }

  /** `ProjectStatus(value)`: the member with that value, ValueError for any
      other value. */
  function ParseStatus(v: Value): Result<ProjectStatus>
  {
    if v == Str("active") then Ok(Active)
    else if v == Str("modified") then Ok(Modified)
    else if v == Str("inactive") then Ok(Inactive)
    else if v == Str("error") then Ok(ProjectStatus.Error)
    else if v == Str("unavailable") then Ok(Unavailable)
    else Err(ValueError("not a valid ProjectStatus"))
  }

  /** Parsing is the exact inverse of the enum value. */
  lemma ParseStatusInverse(s: ProjectStatus, v: Value)
    ensures ParseStatus(Str(StatusValue(s))) == Ok(s)
    ensures ParseStatus(v).Ok? ==> v == Str(StatusValue(ParseStatus(v).value))
  {
  }

  /** The first index holding a worktree with the path, -1 when none does;
      a worktree compares equal to another with the same path. */
  function PathIndex(ws: seq<Worktree>, p: string): (k: int)
    ensures -1 <= k < |ws|
    ensures k == -1 <==> forall j :: 0 <= j < |ws| ==> ws[j].path != p
    ensures 0 <= k ==> ws[k].path == p && forall j :: 0 <= j < k ==> ws[j].path != p
    decreases |ws|
  {
    if |ws| == 0 then -1
    else if ws[0].path == p then 0
    else
      var k := PathIndex(ws[1..], p);
      if k == -1 then -1 else k + 1
  }

  predicate HasPath(ws: seq<Worktree>, p: string)
  {
    exists j :: 0 <= j < |ws| && ws[j].path == p
  }

  /** No two worktrees of the list are equal. */
  predicate DistinctPaths(ws: seq<Worktree>)
  {
    forall i, j :: 0 <= i < j < |ws| ==> ws[i].path != ws[j].path
  }

  /** The fields of a project as a value. */
  datatype ProjectRecord = ProjectRecord(
    id: string,
    name: string,
    path: string,
    status: ProjectStatus,
    lastAccessed: int,
    worktrees: seq<Worktree>)

  /** `_validate_basic_structure`, given whether the path is an existing
      directory. */
  predicate BasicStructureValid(name: string, path: string, pathIsDirectory: bool)
  {
    name != [] && path != [] && pathIsDirectory
  }

  /** What `__post_init__` makes of the fields: an empty id is replaced by
      `generatedId`, and a project failing the basic structure check gets
      the error status. */
  function Initialised(rec: ProjectRecord, generatedId: string, pathIsDirectory: bool): (r: ProjectRecord)
    requires generatedId != []
    ensures r.id != [] && (rec.id != [] ==> r.id == rec.id)
    ensures r.name == rec.name && r.path == rec.path && r.lastAccessed == rec.lastAccessed
    ensures r.worktrees == rec.worktrees
    ensures BasicStructureValid(rec.name, rec.path, pathIsDirectory) ==> r.status == rec.status
    ensures !BasicStructureValid(rec.name, rec.path, pathIsDirectory) ==> r.status == ProjectStatus.Error
  {
    rec.(
      id := if rec.id == [] then generatedId else rec.id,
      status := if BasicStructureValid(rec.name, rec.path, pathIsDirectory) then rec.status else ProjectStatus.Error)
  }

  /** Initialisation changes nothing in a record that already has an id and
      a status consistent with the structure check. */
  lemma InitialisedKeeps(rec: ProjectRecord, generatedId: string, pathIsDirectory: bool)
    requires generatedId != []
    requires rec.id != []
    requires BasicStructureValid(rec.name, rec.path, pathIsDirectory) || rec.status == ProjectStatus.Error
    ensures Initialised(rec, generatedId, pathIsDirectory) == rec
  {
  }

  /** The worktrees' dictionaries, in order. */
  function EncodeWorktrees(ws: seq<Worktree>): (r: seq<Value>)
    ensures |r| == |ws|
  {
    seq(|ws|, i requires 0 <= i < |ws| => Obj(WorktreeModel.ToDict(ws[i])))
  }

  /** `to_dict` of a project's fields. */
  function Encode(rec: ProjectRecord): Dict
  {
    map[
      "id" := Str(rec.id),
      "name" := Str(rec.name),
      "path" := Str(rec.path),
      "status" := Str(StatusValue(rec.status)),
      "last_accessed" := Time(rec.lastAccessed),
      "worktrees" := List(EncodeWorktrees(rec.worktrees))]
  }

  /** `Worktree.from_dict` over the list, failing at the first entry that
      fails. */
  function DecodeWorktrees(items: seq<Value>, now: int): (r: Result<seq<Worktree>>)
    ensures r.Ok? ==> |r.value| == |items|
    decreases |items|
  {
    if items == [] then Ok([])
    else if !items[0].Obj? then Err(TypeError("worktree entry is not a dictionary"))
    else
      var w :- WorktreeModel.FromDict(items[0].fields, now);
      var rest :- DecodeWorktrees(items[1..], now);
      Ok([w] + rest)
  }

  lemma {:induction false} DecodeEncodeWorktrees(ws: seq<Worktree>, now: int)
    ensures DecodeWorktrees(EncodeWorktrees(ws), now) == Ok(ws)
    decreases |ws|
  {
    if ws != [] {
      var items := EncodeWorktrees(ws);
      assert items[0] == Obj(WorktreeModel.ToDict(ws[0]));
      WorktreeModel.FromDictToDict(ws[0], now);
      assert items[1..] == EncodeWorktrees(ws[1..]);
      DecodeEncodeWorktrees(ws[1..], now);
      assert ws == [ws[0]] + ws[1..];
    }
  }

  /** `from_dict` before the constructor runs: the worktrees are read first,
      then `id`, `name`, `path`, `status` and `last_accessed`, each
      required. */
  function Decode(d: Dict, now: int): Result<ProjectRecord>
  {
    var items := Get(d, "worktrees", List([]));
    if !items.List? then Err(TypeError("worktrees is not a list"))
    else
      var worktrees :- DecodeWorktrees(items.items, now);
      var id :- StrField(d, "id");
      var name :- StrField(d, "name");
      var path :- StrField(d, "path");
      var status :- if "status" in d then ParseStatus(d["status"]) else Err(KeyError("status"));
      var lastAccessed :-
        if "last_accessed" !in d then Err(KeyError("last_accessed"))
        else ParseTime(d["last_accessed"]);
      Ok(ProjectRecord(id, name, path, status, lastAccessed, worktrees))
  }

  /** `datetime.fromisoformat(value)`: a string that is not in ISO format
      raises ValueError, a value that is not a string TypeError. */
  function ParseTime(v: Value): (r: Result<int>)
    ensures r.Ok? <==> v.Time?
    ensures r.Ok? ==> r.value == v.t
    ensures v.Str? ==> r.Err? && r.error.ValueError?
    ensures !v.Str? && !v.Time? ==> r.Err? && r.error.TypeError?
  {
    match v
    case Time(t) => Ok(t)
    case Str(_) => Err(ValueError("Invalid isoformat string"))
    case _ => Err(TypeError("fromisoformat: argument must be str"))
  }

  /** When every other field decodes, a bad `last_accessed` alone decides
      the error: ValueError for a string, TypeError for any other value. */
  lemma DecodeTimeErrors(d: Dict, now: int, t: int)
    requires "last_accessed" in d && !d["last_accessed"].Time?
    requires Decode(d["last_accessed" := Time(t)], now).Ok?
    ensures Decode(d, now).Err?
    ensures d["last_accessed"].Str? ==> Decode(d, now).error.ValueError?
    ensures !d["last_accessed"].Str? ==> Decode(d, now).error.TypeError?
  {
  }

  /** Reading back a serialised project gives the same fields. */
  lemma DecodeEncode(rec: ProjectRecord, now: int)
    ensures Decode(Encode(rec), now) == Ok(rec)
  {
    var d := Encode(rec);
    assert d["worktrees"] == List(EncodeWorktrees(rec.worktrees));
    DecodeEncodeWorktrees(rec.worktrees, now);
    assert d["id"] == Str(rec.id) && d["name"] == Str(rec.name) && d["path"] == Str(rec.path);
    assert d["status"] == Str(StatusValue(rec.status));
    ParseStatusInverse(rec.status, d["status"]);
    assert d["last_accessed"] == Time(rec.lastAccessed);
  }

  /** Each of the five scalar keys is required: a dictionary without one of
      them is refused. */
  lemma DecodeRequiresKeys(d: Dict, now: int)
    ensures Decode(d, now).Ok? ==>
      "id" in d && "name" in d && "path" in d && "status" in d && "last_accessed" in d
  {
  }

  class Project {
    var id: string
    var name: string
    var path: string
    var status: ProjectStatus
    var lastAccessed: int
    var worktrees: seq<Worktree>

    function Record(): ProjectRecord
      reads this
    {
      ProjectRecord(id, name, path, status, lastAccessed, worktrees)
    }

    /** The dataclass constructor with `__post_init__`; `generatedId` stands
        for the uuid drawn for an empty id. */
    constructor (id: string, name: string, path: string, status: ProjectStatus, lastAccessed: int,
                 worktrees: seq<Worktree>, generatedId: string, pathIsDirectory: bool)
      requires generatedId != []
      ensures Record() == Initialised(ProjectRecord(id, name, path, status, lastAccessed, worktrees),
                                      generatedId, pathIsDirectory)
    {
      this.id := if id == [] then generatedId else id;
      this.name := name;
      this.path := path;
      this.status := if BasicStructureValid(name, path, pathIsDirectory) then status else ProjectStatus.Error;
      this.lastAccessed := lastAccessed;
      this.worktrees := worktrees;
    }

    /** `get_display_name`: the name, or the last component of the path when
        the name is empty. */
    function DisplayName(): (r: string)
      reads this
      ensures name != [] ==> r == name
      ensures name == [] ==> EndsWith(path, r) && '/' !in r
      ensures name == [] ==> |r| == |path| || path[|path| - |r| - 1] == '/'
      ensures name == [] && path != [] && path[|path| - 1] != '/' ==> r != []
    {
      if name != [] then name else PathName(path)
    }

    /** `add_worktree`: appends unless an equal worktree is present. */
    method AddWorktree(w: Worktree)
      modifies this`worktrees
      ensures HasPath(old(worktrees), w.path) ==> worktrees == old(worktrees)
      ensures !HasPath(old(worktrees), w.path) ==> worktrees == old(worktrees) + [w]
      ensures HasPath(worktrees, w.path)
      ensures DistinctPaths(old(worktrees)) ==> DistinctPaths(worktrees)
    {
      if PathIndex(worktrees, w.path) == -1 {
        worktrees := worktrees + [w];
        assert worktrees[|worktrees| - 1].path == w.path;
      }
    }

    /** `remove_worktree`: deletes the first worktree with the path and
        reports whether there was one. */
    method RemoveWorktree(p: string) returns (removed: bool)
      modifies this`worktrees
      ensures var k := PathIndex(old(worktrees), p);
        removed == (k >= 0)
        && worktrees == (if k >= 0 then old(worktrees)[..k] + old(worktrees)[k + 1..] else old(worktrees))
      ensures DistinctPaths(old(worktrees)) ==> DistinctPaths(worktrees) && !HasPath(worktrees, p)
    {
      var i := 0;
      while i < |worktrees|
        invariant 0 <= i <= |worktrees|
        invariant worktrees == old(worktrees)
        invariant forall j :: 0 <= j < i ==> worktrees[j].path != p
      {
        if worktrees[i].path == p {
          RemoveAtKeepsDistinct(worktrees, i);
          worktrees := worktrees[..i] + worktrees[i + 1..];
          return true;
        }
        i := i + 1;
      }
      return false;
    }

    /** `get_worktree_by_path`: the first worktree with the path, or None. */
    function WorktreeByPath(p: string): (r: Option<Worktree>)
      reads this
      ensures r.None? <==> !HasPath(worktrees, p)
      ensures r.Some? ==> r.value.path == p && r.value in worktrees
      ensures r.Some? ==> exists k :: 0 <= k < |worktrees| && worktrees[k] == r.value
                                      && forall j :: 0 <= j < k ==> worktrees[j].path != p
    {
      var k := PathIndex(worktrees, p);
      if k == -1 then None else Some(worktrees[k])
    }

    /** `to_dict`. */
    function ToDict(): Dict
      reads this
    {
      Encode(Record())
    }

    /** `from_dict`: decodes the dictionary and runs the constructor on the
        result. */
    static method FromDict(d: Dict, now: int, generatedId: string, pathIsDirectory: bool)
      returns (r: Result<Project>)
      requires generatedId != []
      ensures Decode(d, now).Err? ==> r.Err? && r.error == Decode(d, now).error
      ensures Decode(d, now).Ok? ==>
        r.Ok? && fresh(r.value)
        && r.value.Record() == Initialised(Decode(d, now).value, generatedId, pathIsDirectory)
    {
      var dec := Decode(d, now);
      if dec.Err? {
        return Err(dec.error);
      }
      var rec := dec.value;
      var p := new Project(rec.id, rec.name, rec.path, rec.status, rec.lastAccessed,
                           rec.worktrees, generatedId, pathIsDirectory);
      return Ok(p);
    }
  }

  /** Deleting one element keeps the paths distinct, and the deleted path is
      then absent. */
  lemma RemoveAtKeepsDistinct(ws: seq<Worktree>, i: int)
    requires 0 <= i < |ws|
    ensures var r := ws[..i] + ws[i + 1..];
      DistinctPaths(ws) ==> DistinctPaths(r) && !HasPath(r, ws[i].path)
  {
    var r := ws[..i] + ws[i + 1..];
    if DistinctPaths(ws) {
      assert forall j :: 0 <= j < |r| ==> r[j] == (if j < i then ws[j] else ws[j + 1]);
    }
  }

  /** `__eq__`: projects are equal when their ids are. */
  predicate SameProject(a: Project, b: Project)
    reads a, b
  {
    a.id == b.id
  }

  /** A project read back from its own dictionary has the same fields, given
      a non-empty id and a status consistent with the structure check. */
  lemma FromDictOfToDict(rec: ProjectRecord, now: int, generatedId: string, pathIsDirectory: bool)
    requires generatedId != [] && rec.id != []
    requires BasicStructureValid(rec.name, rec.path, pathIsDirectory) || rec.status == ProjectStatus.Error
    ensures Decode(Encode(rec), now).Ok?
    ensures Initialised(Decode(Encode(rec), now).value, generatedId, pathIsDirectory) == rec
  {
    DecodeEncode(rec, now);
    InitialisedKeeps(rec, generatedId, pathIsDirectory);
  }
}
