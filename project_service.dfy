/** The project service's cache of projects keyed by id, kept in insertion
    order as a Python dict is: adding a project with rollback when the
    configuration cannot be saved, removing one, touching its access time,
    refreshing all of them, and the verdict of a health check. What the
    file system, git and the configuration store report is passed in. */
module ProjectServiceModel {
  import opened PyStr
  import opened Errors
  import opened ServiceBase
  import opened ProjectModel

  /** The keys with `k` taken out. */
  function WithoutKey(keys: seq<string>, k: string): (r: seq<string>)
    ensures forall x :: x in r <==> x in keys && x != k
    ensures k !in keys ==> r == keys
    ensures |r| <= |keys|
  {
    if keys == [] then []
    else if keys[0] == k then WithoutKey(keys[1..], k)
    else [keys[0]] + WithoutKey(keys[1..], k)
  }

  predicate DistinctKeys(keys: seq<string>)
  {
    forall i, j :: 0 <= i < j < |keys| ==> keys[i] != keys[j]
  }

  lemma {:induction false} WithoutKeyDistinct(keys: seq<string>, k: string)
    requires DistinctKeys(keys)
    ensures DistinctKeys(WithoutKey(keys, k))
    decreases |keys|
  {
    if keys != [] {
      WithoutKeyDistinct(keys[1..], k);
      if keys[0] != k {
        var r := [keys[0]] + WithoutKey(keys[1..], k);
        assert keys[0] !in keys[1..];
        assert forall j :: 1 <= j < |r| ==> r[j] in keys[1..];
      }
    }
  }

  /** Appending a fresh key and taking it out again gives the keys back. */
  lemma {:induction false} WithoutAppended(keys: seq<string>, k: string)
    requires k !in keys
    ensures WithoutKey(keys + [k], k) == keys
    decreases |keys|
  {
    if keys == [] {
      assert WithoutKey([k], k) == WithoutKey([], k);
    } else {
      assert (keys + [k])[1..] == keys[1..] + [k];
      WithoutAppended(keys[1..], k);
      assert keys == [keys[0]] + keys[1..];
    }
  }

  /** `_refresh_project_status`: unavailable when the path is gone, error
      when the project is otherwise invalid, modified when git reports
      changes, active otherwise. */
  function RefreshedStatus(isValid: bool, pathExists: bool, hasUncommittedChanges: bool): (s: ProjectStatus)
    ensures s == Unavailable <==> !isValid && !pathExists
    ensures s == ProjectStatus.Error <==> !isValid && pathExists
    ensures s == Modified <==> isValid && hasUncommittedChanges
    ensures s == Active <==> isValid && !hasUncommittedChanges
  {
    if !isValid then (if !pathExists then Unavailable else ProjectStatus.Error)
    else if hasUncommittedChanges then Modified
    else Active
  }

  /** What `_refresh_project_status` learns about a project: whether it is
      valid, whether its path exists and whether git reports uncommitted
      changes; or that one of these checks raised. */
  datatype RefreshProbe = Checked(isValid: bool, pathExists: bool, hasUncommittedChanges: bool) | CheckRaised

  /** The status `_refresh_project_status` assigns: ERROR when a check
      raised, otherwise the refreshed status of what the checks found. */
  function RefreshOutcome(p: RefreshProbe): (s: ProjectStatus)
    ensures s == ProjectStatus.Error <==> p.CheckRaised? || (!p.isValid && p.pathExists)
    ensures s == Unavailable <==> p.Checked? && !p.isValid && !p.pathExists
    ensures s == Modified <==> p.Checked? && p.isValid && p.hasUncommittedChanges
    ensures s == Active <==> p.Checked? && p.isValid && !p.hasUncommittedChanges
  {
    match p
    case CheckRaised => ProjectStatus.Error
    case Checked(isValid, pathExists, changes) => RefreshedStatus(isValid, pathExists, changes)
  }

  /** The report of `_check_project_health`; `overallStatus` is absent when
      the check returned early. */
  datatype Health = Health(issues: seq<string>, warnings: seq<string>, overallStatus: Option<string>)

  /** The choice at the end of `_check_project_health`. */
  function OverallStatus(issues: seq<string>, warnings: seq<string>): (s: string)
    ensures s == "unhealthy" <==> issues != []
    ensures s == "warning" <==> issues == [] && warnings != []
    ensures s == "healthy" <==> issues == [] && warnings == []
  {
    if issues != [] then "unhealthy"
    else if warnings != [] then "warning"
    else "healthy"
  }

  /** What the git calls of the health check report: whether the
      repository has uncommitted changes, or the message of the exception
      one of them raised. */
  datatype GitProbe = Probed(hasChanges: bool) | Raised(message: string)

  /** `_check_project_health`. */
  function CheckProjectHealth(pathExists: bool, isGitRepository: bool, gitProbe: GitProbe,
                              isDirectory: bool, readable: bool): Health
  {
    if !pathExists then Health(["Project path does not exist"], [], None)
    else if !isGitRepository then Health(["Path is no longer a Git repository"], [], None)
    else
      var gitWarnings :=
        if gitProbe.Raised? then ["Git operations failed: " + gitProbe.message]
        else if gitProbe.hasChanges then ["Repository has uncommitted changes"]
        else [];
      var issues := if !isDirectory then ["Project path is not a directory"] else [];
      var warnings := if isDirectory && !readable then gitWarnings + ["Project directory may not be readable"]
                      else gitWarnings;
      Health(issues, warnings, Some(OverallStatus(issues, warnings)))
  }

  /** The two early returns leave no overall status; otherwise it is
      unhealthy exactly when the path is not a directory, and healthy
      exactly when git ran cleanly on a readable directory. */
  lemma HealthVerdict(pathExists: bool, isGitRepository: bool, gitProbe: GitProbe,
                      isDirectory: bool, readable: bool)
    ensures var h := CheckProjectHealth(pathExists, isGitRepository, gitProbe, isDirectory, readable);
      (h.overallStatus.None? <==> !pathExists || !isGitRepository)
      && (h.overallStatus.None? ==> |h.issues| == 1 && h.warnings == [])
      && (h.overallStatus == Some("unhealthy") <==> pathExists && isGitRepository && !isDirectory)
      && (h.overallStatus == Some("healthy") <==>
            pathExists && isGitRepository && gitProbe == Probed(false) && isDirectory && readable)
  {
  }

  class ProjectService {
    /** `_projects_cache`, and its keys in insertion order. */
    var cache: map<string, Project>
    var keys: seq<string>

    predicate Valid()
      reads this
    {
      DistinctKeys(keys)
      && (forall k :: k in keys ==> k in cache) && (forall k :: k in cache ==> k in keys)
      && (forall k1, k2 :: k1 in cache && k2 in cache && k1 != k2 ==> cache[k1] != cache[k2])
    }

    constructor ()
      ensures Valid() && cache == map[] && keys == []
    {
      cache := map[];
      keys := [];
    }

    /** `self._projects_cache[k] = p`: a new key goes last, an existing one
        keeps its place. */
    method Store(k: string, p: Project)
      requires Valid()
      requires forall k2 :: k2 in cache && k2 != k ==> cache[k2] != p
      modifies this`cache, this`keys
      ensures Valid()
      ensures cache == old(cache)[k := p]
      ensures keys == if k in old(cache) then old(keys) else old(keys) + [k]
    {
      if k !in cache {
        keys := keys + [k];
      }
      cache := cache[k := p];
    }

    /** `del self._projects_cache[k]`. */
    method Delete(k: string)
      requires Valid() && k in cache
      modifies this`cache, this`keys
      ensures Valid()
      ensures cache == old(cache) - {k}
      ensures keys == WithoutKey(old(keys), k)
    {
      WithoutKeyDistinct(keys, k);
      keys := WithoutKey(keys, k);
      cache := cache - {k};
    }

    /** `_find_project_by_path`: the first cached project, in key order,
        with the path. */
    function FindByPath(path: string): (r: Option<Project>)
      requires Valid()
      reads this, cache.Values
      ensures r.None? <==> forall k :: k in cache ==> cache[k].path != path
      ensures r.Some? ==> r.value in cache.Values && r.value.path == path
    {
      FirstWithPath(keys, path)
    }

    function FirstWithPath(ks: seq<string>, path: string): (r: Option<Project>)
      requires forall k :: k in ks ==> k in cache
      reads this, cache.Values
      ensures r.None? <==> forall j :: 0 <= j < |ks| ==> cache[ks[j]].path != path
      ensures r.Some? ==> r.value in cache.Values && r.value.path == path
      decreases |ks|
    {
      if ks == [] then None
      else if cache[ks[0]].path == path then Some(cache[ks[0]])
      else FirstWithPath(ks[1..], path)
    }

    /** `add_project` for an already normalised path. `validation` is the
        repository check, `generatedId` the new uuid, `pathIsDirectory` what
        the project constructor finds, and `saveOk` whether the
        configuration accepted the project. */
    method AddProject(path: string, validation: ValidationResult, generatedId: string, now: int,
                      pathIsDirectory: bool, saveOk: bool) returns (r: Result<Project>)
      requires Valid() && generatedId != []
      modifies this`cache, this`keys
      ensures Valid()
      ensures !validation.isValid ==>
        r == Err(ValidationError(validation.message)) && cache == old(cache) && keys == old(keys)
      ensures validation.isValid && old(FindByPath(path)).Some? ==>
        r == Ok(old(FindByPath(path)).value) && cache == old(cache) && keys == old(keys)
      ensures validation.isValid && old(FindByPath(path)).None? && r.Ok? ==> fresh(r.value)
      ensures validation.isValid && old(FindByPath(path)).None? ==>
        CreatedAndSaved(r, old(cache), old(keys), path, generatedId, now, pathIsDirectory, saveOk)
    {
      if !validation.isValid {
        return Err(ValidationError(validation.message));
      }
      var existing := FindByPath(path);
      if existing.Some? {
        return Ok(existing.value);
      }
      r := CreateAndSave(path, generatedId, now, pathIsDirectory, saveOk);
    }

    /** The outcome of creating a project for the path, caching it, and
        keeping it only if the configuration was saved. */
    ghost predicate CreatedAndSaved(r: Result<Project>, cache0: map<string, Project>, keys0: seq<string>,
                              path: string, generatedId: string, now: int, pathIsDirectory: bool, saveOk: bool)
      requires generatedId != []
      reads this, if r.Ok? then {r.value} else {}
    {
      (saveOk ==>
        r.Ok? && cache == cache0[generatedId := r.value]
        && r.value.Record() == Initialised(ProjectRecord(generatedId, PathName(path), path, Active, now, []),
                                           generatedId, pathIsDirectory))
      && (!saveOk ==>
        r == Err(ServiceError("Failed to save project configuration"))
        && cache == cache0 - {generatedId}
        && (generatedId !in cache0 ==> cache == cache0 && keys == keys0))
    }

    /** `_create_project`, then the cache insert, rolled back when the
        configuration could not be saved. */
    method CreateAndSave(path: string, generatedId: string, now: int, pathIsDirectory: bool, saveOk: bool)
      returns (r: Result<Project>)
      requires Valid() && generatedId != []
      modifies this`cache, this`keys
      ensures Valid()
      ensures r.Ok? ==> fresh(r.value)
      ensures CreatedAndSaved(r, old(cache), old(keys), path, generatedId, now, pathIsDirectory, saveOk)
    {
      var project := Insert(path, generatedId, now, pathIsDirectory);
      if !saveOk {
        ghost var stored := cache;
        if generatedId !in old(cache) {
          WithoutAppended(old(keys), generatedId);
        }
        Delete(generatedId);
        assert cache == stored - {generatedId} == old(cache) - {generatedId};
        return Err(ServiceError("Failed to save project configuration"));
      }
      return Ok(project);
    }

    /** `_create_project` and the insert into the cache. */
    method Insert(path: string, generatedId: string, now: int, pathIsDirectory: bool) returns (project: Project)
      requires Valid() && generatedId != []
      modifies this`cache, this`keys
      ensures Valid() && fresh(project)
      ensures cache == old(cache)[generatedId := project]
      ensures keys == if generatedId in old(cache) then old(keys) else old(keys) + [generatedId]
      ensures project.Record() == Initialised(ProjectRecord(generatedId, PathName(path), path, Active, now, []),
                                              generatedId, pathIsDirectory)
    {
      project := new Project(generatedId, PathName(path), path, Active, now, [], generatedId, pathIsDirectory);
      assert forall k2 :: k2 in cache ==> cache[k2] != project;
      Store(generatedId, project);
    }

    /** `remove_project`; `configRemoved` is whether the configuration
        removed it. */
    method RemoveProject(id: string, configRemoved: bool) returns (r: Result<bool>)
      requires Valid()
      modifies this`cache, this`keys
      ensures Valid()
      ensures id !in old(cache) ==> r == Ok(false) && cache == old(cache) && keys == old(keys)
      ensures id in old(cache) && !configRemoved ==>
        r == Err(ServiceError("Failed to remove project from configuration"))
        && cache == old(cache) && keys == old(keys)
      ensures id in old(cache) && configRemoved ==>
        r == Ok(true) && cache == old(cache) - {id} && keys == WithoutKey(old(keys), id)
    {
      if id !in cache {
        return Ok(false);
      }
      if !configRemoved {
        return Err(ServiceError("Failed to remove project from configuration"));
      }
      Delete(id);
      return Ok(true);
    }

    /** `update_project_access_time`; `configUpdated` is whether the
        configuration accepted the change. */
    method UpdateProjectAccessTime(id: string, now: int, configUpdated: bool) returns (r: bool)
      requires Valid()
      modifies cache.Values
      ensures id !in cache ==> !r
      ensures id in cache ==> r == configUpdated && cache[id].lastAccessed == now
      ensures forall k :: k in cache && k != id ==> cache[k].lastAccessed == old(cache[k].lastAccessed)
      ensures forall k :: k in cache ==> cache[k].status == old(cache[k].status) && cache[k].path == old(cache[k].path)
      ensures forall k :: k in cache ==>
        cache[k].id == old(cache[k].id) && cache[k].name == old(cache[k].name)
        && cache[k].worktrees == old(cache[k].worktrees)
    {
      if id !in cache {
        return false;
      }
      var project := cache[id];
      project.lastAccessed := now;
      return configUpdated;
    }

    /** `refresh_all_projects`: refreshes each cached project in key order,
        assigning in place the status `_refresh_project_status` settles on;
        `probe(k)` is what its checks report for the project under `k`.
        Nothing else of a project changes: the configuration update that
        follows reports failure by its return value, which is only logged.
        The result lists every cached project once, in key order. */
    method RefreshAllProjects(probe: string -> RefreshProbe) returns (projects: seq<Project>)
      requires Valid()
      modifies cache.Values
      ensures |projects| == |keys|
      ensures forall i :: 0 <= i < |keys| ==> projects[i] == cache[keys[i]]
      ensures forall k :: k in cache ==> cache[k].status == RefreshOutcome(probe(k))
      ensures forall k :: k in cache ==>
        cache[k].id == old(cache[k].id) && cache[k].name == old(cache[k].name)
        && cache[k].path == old(cache[k].path) && cache[k].lastAccessed == old(cache[k].lastAccessed)
        && cache[k].worktrees == old(cache[k].worktrees)
    {
      projects := [];
      for i := 0 to |keys|
        invariant |projects| == i
        invariant forall j :: 0 <= j < i ==> projects[j] == cache[keys[j]]
        invariant forall j :: 0 <= j < i ==> cache[keys[j]].status == RefreshOutcome(probe(keys[j]))
        invariant forall k :: k in cache ==>
          cache[k].id == old(cache[k].id) && cache[k].name == old(cache[k].name)
          && cache[k].path == old(cache[k].path) && cache[k].lastAccessed == old(cache[k].lastAccessed)
          && cache[k].worktrees == old(cache[k].worktrees)
      {
        var project := cache[keys[i]];
        project.status := RefreshOutcome(probe(keys[i]));
        projects := projects + [project];
      }
      forall k | k in cache
        ensures cache[k].status == RefreshOutcome(probe(k))
      {
        var j :| 0 <= j < |keys| && keys[j] == k;
      }
    }
  }
}
