/** The configuration manager: the project operations that save only when
    the configuration changed, and the validation report over the loaded
    configuration. Whether a save succeeds, and what the file system says
    about project paths and the configuration directory, are passed in. */
module ConfigManagerModel {
  import opened PyStr
  import opened ConfigModel
  import ProjectModel

  /** The project ids, in order: `[p.id for p in projects]`. */
  function Ids(ps: seq<ProjectConfig>): (r: seq<string>)
    ensures |r| == |ps| && forall i :: 0 <= i < |ps| ==> r[i] == ps[i].id
  {
    seq(|ps|, i requires 0 <= i < |ps| => ps[i].id)
  }

  /** `set(xs)`. */
  function Elements(xs: seq<string>): set<string>
  {
    set x | x in xs
  }

  /** The set of a non-empty list is its head added to the set of its
      tail. */
  lemma ElementsCons(xs: seq<string>)
    requires xs != []
    ensures Elements(xs) == Elements(xs[1..]) + {xs[0]}
  {
    assert xs == [xs[0]] + xs[1..];
  }

  /** A list whose head does not repeat and whose tail has no repeats has
      no repeats. */
  lemma DistinctCons(xs: seq<string>)
    requires xs != [] && xs[0] !in xs[1..]
    requires forall i, j :: 0 <= i < j < |xs[1..]| ==> xs[1..][i] != xs[1..][j]
    ensures forall i, j :: 0 <= i < j < |xs| ==> xs[i] != xs[j]
  {
    forall i, j | 0 <= i < j < |xs|
      ensures xs[i] != xs[j]
    {
      if i == 0 {
        assert xs[j] == xs[1..][j - 1];
      } else {
        assert xs[i] == xs[1..][i - 1] && xs[j] == xs[1..][j - 1];
      }
    }
  }

  /** The set of a list is never larger than the list, and is as large
      exactly when no element repeats. */
  lemma {:induction false} ElementsCount(xs: seq<string>)
    ensures |Elements(xs)| <= |xs|
    ensures |Elements(xs)| == |xs| <==> forall i, j :: 0 <= i < j < |xs| ==> xs[i] != xs[j]
    decreases |xs|
  {
    if xs != [] {
      var tail := xs[1..];
      ElementsCount(tail);
      ElementsCons(xs);
      if xs[0] in tail {
        var j :| 0 <= j < |tail| && tail[j] == xs[0];
        assert xs[0] == xs[j + 1];
      } else if |Elements(xs)| == |xs| {
        DistinctCons(xs);
      } else {
        var i, j :| 0 <= i < j < |tail| && tail[i] == tail[j];
        assert xs[i + 1] == xs[j + 1];
      }
    }
  }

  /** The duplicate check of `_validate_projects` fires exactly when two
      entries share an id. */
  lemma DuplicateCheck(ps: seq<ProjectConfig>)
    ensures |Ids(ps)| != |Elements(Ids(ps))| <==> !UniqueIds(ps)
  {
    var ids := Ids(ps);
    ElementsCount(ids);
    if !UniqueIds(ps) {
      var i, j :| 0 <= i < j < |ps| && ps[i].id == ps[j].id;
      assert ids[i] == ids[j];
    }
  }

  /** What the file system says about a project path. */
  datatype PathState = Missing | NotRepository | Repository

  /** `_validate_project_path`: the warning for one project, if any. */
  function PathWarning(path: string, state: PathState): seq<string>
  {
    match state
    case Missing => ["Project path does not exist: " + path]
    case NotRepository => ["Project path is not a Git repository: " + path]
    case Repository => []
  }

  /** The warnings of the loop over the projects, in order. */
  function PathWarnings(ps: seq<ProjectConfig>, state: string -> PathState): seq<string>
    decreases |ps|
  {
    if ps == [] then []
    else PathWarnings(ps[..|ps| - 1], state) + PathWarning(ps[|ps| - 1].path, state(ps[|ps| - 1].path))
  }

  /** There is one warning per project whose path is missing or not a
      repository, so none exactly when every path is a repository. */
  lemma {:induction false} PathWarningsCount(ps: seq<ProjectConfig>, state: string -> PathState)
    ensures |PathWarnings(ps, state)| <= |ps|
    ensures PathWarnings(ps, state) == [] <==> forall i :: 0 <= i < |ps| ==> state(ps[i].path) == Repository
    decreases |ps|
  {
    if ps != [] {
      var init := ps[..|ps| - 1];
      PathWarningsCount(init, state);
      assert forall i :: 0 <= i < |init| ==> init[i] == ps[i];
    }
  }

  /** `_validate_preferences`: one warning per setting below 1, in the
      order interval, timeout, history size. */
  function PreferenceWarnings(prefs: UserPreferences): seq<string>
  {
    (if prefs.autoRefreshInterval < 1 then ["Auto refresh interval is too low (< 1 second)"] else [])
    + (if prefs.commandTimeout < 1 then ["Command timeout is too low (< 1 second)"] else [])
    + (if prefs.maxCommandHistory < 1 then ["Max command history is too low (< 1)"] else [])
  }

  /** Each warning appears exactly when its setting is below 1, and there
      are as many warnings as such settings. */
  lemma PreferenceWarningsShape(prefs: UserPreferences)
    ensures var w := PreferenceWarnings(prefs);
      ("Auto refresh interval is too low (< 1 second)" in w <==> prefs.autoRefreshInterval < 1)
      && ("Command timeout is too low (< 1 second)" in w <==> prefs.commandTimeout < 1)
      && ("Max command history is too low (< 1)" in w <==> prefs.maxCommandHistory < 1)
      && |w| == (if prefs.autoRefreshInterval < 1 then 1 else 0) + (if prefs.commandTimeout < 1 then 1 else 0)
                + (if prefs.maxCommandHistory < 1 then 1 else 0)
  {
    var w := PreferenceWarnings(prefs);
    var a, t, h := "Auto refresh interval is too low (< 1 second)", "Command timeout is too low (< 1 second)",
                   "Max command history is too low (< 1)";
    assert |a| == 45 && |t| == 39 && |h| == 36;
    assert a != t && a != h && t != h;
  }

  /** `_validate_config_file_structure`, given whether the configuration
      directory exists and is a directory. */
  function StructureIssues(configDir: string, dirExists: bool, dirIsDirectory: bool): seq<string>
  {
    if !dirExists then ["Configuration directory does not exist: " + configDir]
    else if !dirIsDirectory then ["Configuration directory is not a directory: " + configDir]
    else []
  }

  /** The result of `validate_config`. */
  datatype ConfigValidation = ConfigValidation(valid: bool, issues: seq<string>, warnings: seq<string>)

  /** `_validate_projects`: appends the duplicate-id issue to `issues` and
      the path warnings to `warnings`. */
  method ValidateProjects(projects: seq<ProjectConfig>, state: string -> PathState,
                          issues: seq<string>, warnings: seq<string>)
    returns (issues': seq<string>, warnings': seq<string>)
    ensures issues' == issues + (if UniqueIds(projects) then [] else ["Duplicate project IDs found"])
    ensures warnings' == warnings + PathWarnings(projects, state)
  {
    var ids := Ids(projects);
    DuplicateCheck(projects);
    issues' := issues;
    if |ids| != |Elements(ids)| {
      issues' := issues' + ["Duplicate project IDs found"];
    }
    warnings' := warnings;
    for i := 0 to |projects|
      invariant warnings' == warnings + PathWarnings(projects[..i], state)
    {
      assert projects[..i + 1][..i] == projects[..i];
      warnings' := warnings' + PathWarning(projects[i].path, state(projects[i].path));
    }
    assert projects[..|projects|] == projects;
  }

  /** `validate_config` over a loaded configuration: the duplicate-id and
      directory issues, the path and preference warnings, and valid exactly
      when there is no issue. */
  method ValidateConfig(config: AppConfig, state: string -> PathState,
                        configDir: string, dirExists: bool, dirIsDirectory: bool)
    returns (r: ConfigValidation)
    ensures r.valid <==> r.issues == []
    ensures r.issues == (if UniqueIds(config.projects) then [] else ["Duplicate project IDs found"])
                        + StructureIssues(configDir, dirExists, dirIsDirectory)
    ensures r.warnings == PathWarnings(config.projects, state) + PreferenceWarnings(config.preferences)
  {
    var issues, warnings := ValidateProjects(config.projects, state, [], []);
    assert issues == (if UniqueIds(config.projects) then [] else ["Duplicate project IDs found"]);
    assert warnings == PathWarnings(config.projects, state);
    issues := issues + StructureIssues(configDir, dirExists, dirIsDirectory);
    warnings := warnings + PreferenceWarnings(config.preferences);
    r := ConfigValidation(|issues| == 0, issues, warnings);
  }

  /** Validation is clean exactly when ids are unique, the directory is in
      place, every project path is a repository and every checked setting
      is at least 1. */
  lemma CleanValidation(config: AppConfig, state: string -> PathState,
                        configDir: string, dirExists: bool, dirIsDirectory: bool,
                        issues: seq<string>, warnings: seq<string>)
    requires issues == (if UniqueIds(config.projects) then [] else ["Duplicate project IDs found"])
                       + StructureIssues(configDir, dirExists, dirIsDirectory)
    requires warnings == PathWarnings(config.projects, state) + PreferenceWarnings(config.preferences)
    ensures issues == [] <==> UniqueIds(config.projects) && dirExists && dirIsDirectory
    ensures warnings == [] <==>
      (forall i :: 0 <= i < |config.projects| ==> state(config.projects[i].path) == Repository)
      && config.preferences.autoRefreshInterval >= 1 && config.preferences.commandTimeout >= 1
      && config.preferences.maxCommandHistory >= 1
  {
    PathWarningsCount(config.projects, state);
    PreferenceWarningsShape(config.preferences);
  }

  class ConfigManager {
    /** The loaded configuration. */
    const config: AppConfig

    constructor (config: AppConfig)
      ensures this.config == config
    {
      this.config := config;
    }

    /** `add_project`: stores the project's entry and reports whether the
        save that follows succeeded. */
    method AddProject(project: ProjectModel.Project, now: int, saveOk: bool) returns (r: bool)
      requires config.Valid()
      modifies config`projects, config`updatedAt, config`lastSelectedProject, config`commandHistory
      ensures config.Valid()
      ensures config.projects == WithoutId(old(config.projects), old(project.id)) + [old(FromProject(project))]
      ensures var k := IdIndex(old(config.projects), old(project.id));
        (k >= 0 ==> config.commandHistory == WithoutUnder(old(config.commandHistory), old(config.projects)[k].path))
        && (k == -1 ==> config.commandHistory == old(config.commandHistory))
      ensures config.lastSelectedProject ==
        (if HasId(old(config.projects), old(project.id)) && old(config.lastSelectedProject) == Some(old(project.id))
         then None else old(config.lastSelectedProject))
      ensures config.updatedAt == now
      ensures r == saveOk
    {
      var c := FromProject(project);
      config.AddProject(c, now);
      return saveOk;
    }

    /** `remove_project`: an unknown id returns false before any save is
        attempted; otherwise the entry goes and the result is the save's.
        `saveAttempted` says whether `save_config` was called. */
    method RemoveProject(id: string, now: int, saveOk: bool) returns (r: bool, saveAttempted: bool)
      requires config.Valid()
      modifies config`projects, config`updatedAt, config`lastSelectedProject, config`commandHistory
      ensures config.Valid()
      ensures !HasId(old(config.projects), id) ==>
        !r && !saveAttempted && config.projects == old(config.projects)
        && config.updatedAt == old(config.updatedAt)
        && config.commandHistory == old(config.commandHistory)
        && config.lastSelectedProject == old(config.lastSelectedProject)
      ensures HasId(old(config.projects), id) ==>
        saveAttempted && r == saveOk && config.projects == WithoutId(old(config.projects), id)
        && config.updatedAt == now
        && config.commandHistory == WithoutUnder(old(config.commandHistory),
                                                 old(config.projects)[IdIndex(old(config.projects), id)].path)
        && config.lastSelectedProject == (if old(config.lastSelectedProject) == Some(id) then None
                                          else old(config.lastSelectedProject))
    {
      var removed := config.RemoveProject(id, now);
      if !removed {
        return false, false;
      }
      return saveOk, true;
    }

    /** `update_project`: a project whose id has no entry returns false
        before any save is attempted; otherwise its entry is overwritten and
        the result is the save's. */
    method UpdateProject(project: ProjectModel.Project, now: int, saveOk: bool) returns (r: bool, saveAttempted: bool)
      requires config.Valid()
      modifies config`projects, config`updatedAt
      ensures config.Valid()
      ensures UniqueIds(old(config.projects)) ==> UniqueIds(config.projects)
      ensures !HasId(old(config.projects), old(project.id)) ==>
        !r && !saveAttempted && config.projects == old(config.projects)
        && config.updatedAt == old(config.updatedAt)
      ensures HasId(old(config.projects), old(project.id)) ==>
        saveAttempted && r == saveOk
        && config.projects == old(config.projects)[IdIndex(old(config.projects), old(project.id))
                                                   := old(FromProject(project))]
    {
      var c := FromProject(project);
      var updated := config.UpdateProject(c, now);
      if !updated {
        return false, false;
      }
      return saveOk, true;
    }
  }
}
