/** The application configuration: user preferences and their dictionary
    form, the list of project entries, and the command histories kept per
    worktree path. */
module ConfigModel {
  import opened PyStr
  import opened PyList
  import opened Errors
  import opened PyDict
  import opened CommandExecutionModel
  import ProjectModel

  datatype UserPreferences = UserPreferences(
    theme: string,
    autoRefreshEnabled: bool,
    autoRefreshInterval: int,
    showHiddenFiles: bool,
    defaultEditor: string,
    defaultTerminal: string,
    confirmDestructiveActions: bool,
    maxCommandHistory: int,
    commandTimeout: int,
    gitFetchOnCreate: bool,
    worktreeBasePath: string,
    windowGeometry: map<string, int>,
    panelSizes: map<string, int>)

  /** The dataclass defaults. */
  const DEFAULT_PREFERENCES := UserPreferences(
    "auto", true, 30, false, "", "", true, 100, 300, true, "", map[], map[])

  function IntMapValue(m: map<string, int>): Value
  {
    Obj(map k | k in m :: Int(m[k]))
  }

  /** `data.get(key, {})` for a dictionary of integers. */
  function IntMapGet(d: Dict, key: string): (r: Result<map<string, int>>)
    ensures key !in d ==> r == Ok(map[])
  {
    var v := Get(d, key, Obj(map[]));
    if v.Obj? && forall k :: k in v.fields ==> v.fields[k].Int? then
      Ok(map k | k in v.fields :: v.fields[k].i)
    else Err(TypeError(key + " is not a dictionary of integers"))
  }

  lemma IntMapRoundTrip(d: Dict, key: string, m: map<string, int>)
    requires key in d && d[key] == IntMapValue(m)
    ensures IntMapGet(d, key) == Ok(m)
  {
    var f := d[key].fields;
    assert f.Keys == m.Keys;
    assert (map k | k in f :: f[k].i) == m;
  }

  /** `UserPreferences.to_dict`; `auto_refresh_enabled` is not written. */
  function PreferencesToDict(p: UserPreferences): Dict
  {
    map[
      "theme" := Str(p.theme),
      "auto_refresh_interval" := Int(p.autoRefreshInterval),
      "show_hidden_files" := Bool(p.showHiddenFiles),
      "default_editor" := Str(p.defaultEditor),
      "default_terminal" := Str(p.defaultTerminal),
      "confirm_destructive_actions" := Bool(p.confirmDestructiveActions),
      "max_command_history" := Int(p.maxCommandHistory),
      "command_timeout" := Int(p.commandTimeout),
      "git_fetch_on_create" := Bool(p.gitFetchOnCreate),
      "worktree_base_path" := Str(p.worktreeBasePath),
      "window_geometry" := IntMapValue(p.windowGeometry),
      "panel_sizes" := IntMapValue(p.panelSizes)]
  }

  /** `UserPreferences.from_dict`: every entry falls back to its default,
      and `auto_refresh_enabled`, which is not read, keeps its default. */
  function PreferencesFromDict(d: Dict): Result<UserPreferences>
  {
    var theme :- StrGet(d, "theme", "auto");
    var interval :- IntGet(d, "auto_refresh_interval", 30);
    var hidden :- BoolField(d, "show_hidden_files", false);
    var editor :- StrGet(d, "default_editor", "");
    var terminal :- StrGet(d, "default_terminal", "");
    var confirm :- BoolField(d, "confirm_destructive_actions", true);
    var maxHistory :- IntGet(d, "max_command_history", 100);
    var timeout :- IntGet(d, "command_timeout", 300);
    var fetch :- BoolField(d, "git_fetch_on_create", true);
    var basePath :- StrGet(d, "worktree_base_path", "");
    var geometry :- IntMapGet(d, "window_geometry");
    var panels :- IntMapGet(d, "panel_sizes");
    Ok(UserPreferences(theme, true, interval, hidden, editor, terminal, confirm, maxHistory,
                       timeout, fetch, basePath, geometry, panels))
  }

  /** Reading back serialised preferences restores every written field;
      `auto_refresh_enabled` comes back as true whatever it was. */
  lemma PreferencesRoundTrip(p: UserPreferences)
    ensures PreferencesFromDict(PreferencesToDict(p)) == Ok(p.(autoRefreshEnabled := true))
  {
    var d := PreferencesToDict(p);
    PreferencesEntries(p);
    IntMapRoundTrip(d, "window_geometry", p.windowGeometry);
    IntMapRoundTrip(d, "panel_sizes", p.panelSizes);
  }

  lemma PreferencesEntries(p: UserPreferences)
    ensures var d := PreferencesToDict(p);
      d["theme"] == Str(p.theme) && d["auto_refresh_interval"] == Int(p.autoRefreshInterval)
      && d["show_hidden_files"] == Bool(p.showHiddenFiles)
      && d["default_editor"] == Str(p.defaultEditor) && d["default_terminal"] == Str(p.defaultTerminal)
      && d["confirm_destructive_actions"] == Bool(p.confirmDestructiveActions)
      && d["max_command_history"] == Int(p.maxCommandHistory) && d["command_timeout"] == Int(p.commandTimeout)
      && d["git_fetch_on_create"] == Bool(p.gitFetchOnCreate)
      && d["worktree_base_path"] == Str(p.worktreeBasePath)
      && d["window_geometry"] == IntMapValue(p.windowGeometry)
      && d["panel_sizes"] == IntMapValue(p.panelSizes)
  {
    PreferencesEntriesFirst(p);
    PreferencesEntriesLast(p);
  }

  lemma PreferencesEntriesFirst(p: UserPreferences)
    ensures var d := PreferencesToDict(p);
      d["theme"] == Str(p.theme) && d["auto_refresh_interval"] == Int(p.autoRefreshInterval)
      && d["show_hidden_files"] == Bool(p.showHiddenFiles)
      && d["default_editor"] == Str(p.defaultEditor) && d["default_terminal"] == Str(p.defaultTerminal)
      && d["confirm_destructive_actions"] == Bool(p.confirmDestructiveActions)
  {
  }

  lemma PreferencesEntriesLast(p: UserPreferences)
    ensures var d := PreferencesToDict(p);
      d["max_command_history"] == Int(p.maxCommandHistory) && d["command_timeout"] == Int(p.commandTimeout)
      && d["git_fetch_on_create"] == Bool(p.gitFetchOnCreate)
      && d["worktree_base_path"] == Str(p.worktreeBasePath)
      && d["window_geometry"] == IntMapValue(p.windowGeometry)
      && d["panel_sizes"] == IntMapValue(p.panelSizes)
  {
  }

  /** An empty dictionary reads as the defaults. */
  lemma PreferencesFromEmpty(d: Dict)
    requires d == map[]
    ensures PreferencesFromDict(d) == Ok(DEFAULT_PREFERENCES)
  {
  }

  /** The stored entry for one project. */
  datatype ProjectConfig = ProjectConfig(
    id: string,
    name: string,
    path: string,
    lastAccessed: int,
    isFavorite: bool,
    customCommands: map<string, string>,
    notes: string)

  /** `ProjectConfig.from_project`: the project's id, name, path and access
      time with the remaining defaults. */
  function FromProject(p: ProjectModel.Project): (c: ProjectConfig)
    reads p
    ensures c.id == p.id && c.name == p.name && c.path == p.path && c.lastAccessed == p.lastAccessed
    ensures !c.isFavorite && c.customCommands == map[] && c.notes == ""
  {
    ProjectConfig(p.id, p.name, p.path, p.lastAccessed, false, map[], "")
  }

  /** The first index holding an entry with the id, or -1. */
  function IdIndex(ps: seq<ProjectConfig>, id: string): (k: int)
    ensures -1 <= k < |ps|
    ensures k == -1 <==> forall j :: 0 <= j < |ps| ==> ps[j].id != id
    ensures 0 <= k ==> ps[k].id == id && forall j :: 0 <= j < k ==> ps[j].id != id
    decreases |ps|
  {
    if |ps| == 0 then -1
    else if ps[0].id == id then 0
    else
      var k := IdIndex(ps[1..], id);
      if k == -1 then -1 else k + 1
  }

  predicate HasId(ps: seq<ProjectConfig>, id: string)
  {
    exists j :: 0 <= j < |ps| && ps[j].id == id
  }

  predicate UniqueIds(ps: seq<ProjectConfig>)
  {
    forall i, j :: 0 <= i < j < |ps| ==> ps[i].id != ps[j].id
  }

  /** The list with its first entry for the id popped. */
  function WithoutId(ps: seq<ProjectConfig>, id: string): seq<ProjectConfig>
  {
    var k := IdIndex(ps, id);
    if k == -1 then ps else ps[..k] + ps[k + 1..]
  }

  /** Popping an id leaves no entry with it when ids were unique, and keeps
      the others, in order. */
  lemma WithoutIdShape(ps: seq<ProjectConfig>, id: string)
    ensures var r := WithoutId(ps, id);
      IsSubsequence(r, ps)
      && (HasId(ps, id) ==> |r| == |ps| - 1)
      && (!HasId(ps, id) ==> r == ps)
      && (UniqueIds(ps) ==> UniqueIds(r) && !HasId(r, id))
  {
    var k := IdIndex(ps, id);
    if k != -1 {
      SubsequenceDropOne(ps, k);
      DropOneUnique(ps, k);
    } else {
      SubsequenceRefl(ps);
    }
  }

  lemma DropOneUnique(ps: seq<ProjectConfig>, k: int)
    requires 0 <= k < |ps|
    ensures var r := ps[..k] + ps[k + 1..];
      UniqueIds(ps) ==> UniqueIds(r) && !HasId(r, ps[k].id)
  {
    var r := ps[..k] + ps[k + 1..];
    assert forall j :: 0 <= j < |r| ==> r[j] == (if j < k then ps[j] else ps[j + 1]);
  }

  /** Appending an entry whose id is absent keeps the ids unique. */
  lemma AppendKeepsUnique(ps: seq<ProjectConfig>, c: ProjectConfig)
    requires UniqueIds(ps) && !HasId(ps, c.id)
    ensures UniqueIds(ps + [c])
  {
    var r := ps + [c];
    forall i, j | 0 <= i < j < |r|
      ensures r[i].id != r[j].id
    {
      if j == |ps| {
        assert r[i] == ps[i];
      }
    }
  }

  /** `sorted(projects, key=last_accessed, reverse=True)`: an insertion sort
      into latest-first order. */
  function SortByAccessDesc(ps: seq<ProjectConfig>): (r: seq<ProjectConfig>)
    ensures |r| == |ps|
    ensures multiset(r) == multiset(ps)
    ensures SortedByAccessDesc(r)
    decreases |ps|
  {
    if ps == [] then []
    else
      assert ps == [ps[0]] + ps[1..];
      InsertByAccessSorted(ps[0], SortByAccessDesc(ps[1..]));
      InsertByAccess(ps[0], SortByAccessDesc(ps[1..]))
  }

  /** Places `c` before the first entry accessed no later than it. */
  function InsertByAccess(c: ProjectConfig, s: seq<ProjectConfig>): (r: seq<ProjectConfig>)
    ensures |r| == |s| + 1
    ensures multiset(r) == multiset(s) + multiset{c}
    decreases |s|
  {
    if s == [] || s[0].lastAccessed <= c.lastAccessed then [c] + s
    else
      assert s == [s[0]] + s[1..];
      [s[0]] + InsertByAccess(c, s[1..])
  }

  predicate SortedByAccessDesc(s: seq<ProjectConfig>)
  {
    forall i, j :: 0 <= i < j < |s| ==> s[i].lastAccessed >= s[j].lastAccessed
  }

  /** Inserting into a sorted list keeps it sorted. */
  lemma {:induction false} InsertByAccessSorted(c: ProjectConfig, s: seq<ProjectConfig>)
    requires SortedByAccessDesc(s)
    ensures SortedByAccessDesc(InsertByAccess(c, s))
    ensures var r := InsertByAccess(c, s); r[0] == c || (|s| > 0 && r[0] == s[0])
    decreases |s|
  {
    if s == [] || s[0].lastAccessed <= c.lastAccessed {
    } else {
      InsertByAccessSorted(c, s[1..]);
      var t := InsertByAccess(c, s[1..]);
      var r := [s[0]] + t;
      assert t[0] == c || t[0] == s[1];
      forall i, j | 0 <= i < j < |r|
        ensures r[i].lastAccessed >= r[j].lastAccessed
      {
        if i > 0 {
          assert r[i] == t[i - 1] && r[j] == t[j - 1];
        } else {
          assert r[j] == t[j - 1];
          assert t[j - 1] in multiset(t);
          assert t[j - 1] in multiset(s[1..]) + multiset{c};
        }
      }
    }
  }

  /** The `limit` most recently accessed entries, latest first. */
  function RecentProjects(ps: seq<ProjectConfig>, limit: int): seq<ProjectConfig>
  {
    SliceTo(SortByAccessDesc(ps), limit)
  }

  /** The recent list holds at most `limit` entries of the list, sorted by
      access time, latest first, and none of the entries left out was
      accessed later than any entry kept; a limit covering the list returns
      all of it, reordered. */
  lemma RecentProjectsShape(ps: seq<ProjectConfig>, limit: int)
    ensures var r := RecentProjects(ps, limit);
      (0 <= limit ==> |r| == Min(limit, |ps|))
      && (forall i, j :: 0 <= i < j < |r| ==> r[i].lastAccessed >= r[j].lastAccessed)
      && (forall i :: 0 <= i < |r| ==> r[i] in ps)
      && multiset(r) <= multiset(ps)
      && (forall i, q :: 0 <= i < |r| && q in multiset(ps) - multiset(r) ==>
            r[i].lastAccessed >= q.lastAccessed)
      && (limit >= |ps| ==> multiset(r) == multiset(ps))
  {
    var sorted := SortByAccessDesc(ps);
    var r := SliceTo(sorted, limit);
    assert r == sorted[..|r|];
    assert multiset(sorted) == multiset(ps);
    SortedPrefixIsTop(sorted, |r|);
    forall i | 0 <= i < |r|
      ensures r[i] in ps
    {
      assert r[i] == sorted[i] && sorted[i] in multiset(sorted);
    }
    if limit >= |ps| {
      assert r == sorted;
    }
  }

  /** A prefix of a latest-first list is made of its latest entries. */
  lemma SortedPrefixIsTop(s: seq<ProjectConfig>, n: nat)
    requires SortedByAccessDesc(s) && n <= |s|
    ensures multiset(s[..n]) <= multiset(s)
    ensures forall i, q :: 0 <= i < n && q in multiset(s) - multiset(s[..n]) ==>
      s[i].lastAccessed >= q.lastAccessed
  {
    var rest := s[n..];
    assert s == s[..n] + rest;
    assert multiset(s) == multiset(s[..n]) + multiset(rest);
    forall i, q | 0 <= i < n && q in multiset(s) - multiset(s[..n])
      ensures s[i].lastAccessed >= q.lastAccessed
    {
      assert q in multiset(rest);
      var j :| 0 <= j < |rest| && rest[j] == q;
      assert s[n + j] == q;
    }
  }

  /** `get_favorite_projects`. */
  function Favorites(ps: seq<ProjectConfig>): (r: seq<ProjectConfig>)
    ensures IsSubsequence(r, ps)
    ensures forall i :: 0 <= i < |r| ==> r[i].isFavorite
    ensures forall i :: 0 <= i < |ps| && ps[i].isFavorite ==> ps[i] in r
    decreases |ps|
  {
    if ps == [] then []
    else if ps[0].isFavorite then [ps[0]] + Favorites(ps[1..])
    else Favorites(ps[1..])
  }

  /** The command histories whose worktree path does not lie under the
      project path. */
  function WithoutUnder(hs: map<string, CommandHistory>, projectPath: string): (r: map<string, CommandHistory>)
    ensures r.Keys <= hs.Keys
    ensures forall k :: k in hs ==> (k in r <==> !IsUnder(k, projectPath))
    ensures forall k :: k in r ==> r[k] == hs[k]
  {
    map k | k in hs && !IsUnder(k, projectPath) :: hs[k]
  }

  /** No history object is shared between two worktree paths. */
  predicate DistinctHistories(hs: map<string, CommandHistory>)
  {
    forall k1, k2 :: k1 in hs && k2 in hs && k1 != k2 ==> hs[k1] != hs[k2]
  }

  class AppConfig {
    var projects: seq<ProjectConfig>
    var preferences: UserPreferences
    var commandHistory: map<string, CommandHistory>
    var lastSelectedProject: Option<string>
    var updatedAt: int

    predicate Valid()
      reads this
    {
      DistinctHistories(commandHistory)
    }

    /** A configuration with the dataclass defaults, created at `now`. */
    constructor (now: int)
      ensures Valid()
      ensures projects == [] && preferences == DEFAULT_PREFERENCES && commandHistory == map[]
      ensures lastSelectedProject == None && updatedAt == now
    {
      projects := [];
      preferences := DEFAULT_PREFERENCES;
      commandHistory := map[];
      lastSelectedProject := None;
      updatedAt := now;
    }

    /** The `for i, project in enumerate(self.projects)` search. */
    method FindProject(id: string) returns (k: int)
      ensures k == IdIndex(projects, id)
    {
      k := 0;
      while k < |projects|
        invariant 0 <= k <= |projects|
        invariant forall j :: 0 <= j < k ==> projects[j].id != id
      {
        if projects[k].id == id {
          return;
        }
        k := k + 1;
      }
      k := -1;
    }

    /** `add_project`: drops any entry with the same id, as `remove_project`
        does, then appends the new entry. */
    method AddProject(c: ProjectConfig, now: int)
      requires Valid()
      modifies this`projects, this`updatedAt, this`lastSelectedProject, this`commandHistory
      ensures Valid()
      ensures projects == WithoutId(old(projects), c.id) + [c]
      ensures |old(projects)| <= |projects| <= |old(projects)| + 1
      ensures UniqueIds(old(projects)) ==> UniqueIds(projects)
      ensures var k := IdIndex(old(projects), c.id);
        (k >= 0 ==> commandHistory == WithoutUnder(old(commandHistory), old(projects)[k].path))
        && (k == -1 ==> commandHistory == old(commandHistory))
      ensures lastSelectedProject == (if HasId(old(projects), c.id) && old(lastSelectedProject) == Some(c.id)
                                      then None else old(lastSelectedProject))
      ensures updatedAt == now
    {
      var _ := RemoveProject(c.id, now);
      WithoutIdShape(old(projects), c.id);
      if UniqueIds(old(projects)) {
        AppendKeepsUnique(projects, c);
      }
      projects := projects + [c];
      updatedAt := now;
    }

    /** `remove_project`: pops the first entry with the id, forgets it as
        the last selection, and drops the command histories under its path. */
    method RemoveProject(id: string, now: int) returns (removed: bool)
      requires Valid()
      modifies this`projects, this`updatedAt, this`lastSelectedProject, this`commandHistory
      ensures Valid()
      ensures removed == HasId(old(projects), id)
      ensures projects == WithoutId(old(projects), id)
      ensures UniqueIds(old(projects)) ==> UniqueIds(projects) && !HasId(projects, id)
      ensures var k := IdIndex(old(projects), id);
        (k >= 0 ==> commandHistory == WithoutUnder(old(commandHistory), old(projects)[k].path))
        && (k == -1 ==> commandHistory == old(commandHistory))
      ensures lastSelectedProject == (if removed && old(lastSelectedProject) == Some(id) then None
                                      else old(lastSelectedProject))
      ensures updatedAt == (if removed then now else old(updatedAt))
    {
      WithoutIdShape(projects, id);
      var k := FindProject(id);
      if k == -1 {
        return false;
      }
      var removedPath := projects[k].path;
      projects := projects[..k] + projects[k + 1..];
      updatedAt := now;
      if lastSelectedProject == Some(id) {
        lastSelectedProject := None;
      }
      CleanupProjectCommandHistory(removedPath);
      return true;
    }

    /** `get_project`: the first entry with the id, or None. */
    function GetProject(id: string): (r: Option<ProjectConfig>)
      reads this
      ensures r.None? <==> !HasId(projects, id)
      ensures r.Some? ==> r.value.id == id && r.value == projects[IdIndex(projects, id)]
    {
      var k := IdIndex(projects, id);
      if k == -1 then None else Some(projects[k])
    }

    /** `update_project`: overwrites the first entry with the same id in
        place and reports whether there was one. */
    method UpdateProject(c: ProjectConfig, now: int) returns (updated: bool)
      modifies this`projects, this`updatedAt
      ensures var k := IdIndex(old(projects), c.id);
        updated == (k >= 0)
        && projects == (if k >= 0 then old(projects)[k := c] else old(projects))
      ensures |projects| == |old(projects)|
      ensures forall j :: 0 <= j < |projects| && projects[j] != old(projects)[j] ==> projects[j] == c
      ensures UniqueIds(old(projects)) ==> UniqueIds(projects)
      ensures updatedAt == (if updated then now else old(updatedAt))
    {
      var k := FindProject(c.id);
      if k == -1 {
        return false;
      }
      projects := projects[k := c];
      updatedAt := now;
      return true;
    }

    /** `get_recent_projects(limit)`. */
    function GetRecentProjects(limit: int): seq<ProjectConfig>
      reads this
    {
      RecentProjects(projects, limit)
    }

    /** `get_favorite_projects`. */
    function GetFavoriteProjects(): (r: seq<ProjectConfig>)
      reads this
      ensures IsSubsequence(r, projects)
      ensures forall i :: 0 <= i < |r| ==> r[i].isFavorite
      ensures forall i :: 0 <= i < |projects| && projects[i].isFavorite ==> projects[i] in r
    {
      Favorites(projects)
    }

    /** `add_command_execution`: creates the worktree's history on first
        use, bounded by the preference, then inserts the execution. */
    method AddCommandExecution(e: CommandExecution, now: int)
      requires Valid()
      modifies this`commandHistory, this`updatedAt, commandHistory.Values
      ensures Valid()
      ensures commandHistory.Keys == old(commandHistory).Keys + {e.worktreePath}
      ensures var h := commandHistory[e.worktreePath];
        (e.worktreePath in old(commandHistory) ==>
          h == old(commandHistory)[e.worktreePath]
          && h.executions == HistoryAdd(old(h.executions), e, h.maxHistorySize))
        && (e.worktreePath !in old(commandHistory) ==>
          fresh(h) && h.maxHistorySize == preferences.maxCommandHistory
          && h.executions == HistoryAdd([], e, preferences.maxCommandHistory))
      ensures forall k :: k in old(commandHistory) && k != e.worktreePath ==>
        commandHistory[k] == old(commandHistory)[k]
        && commandHistory[k].executions == old(commandHistory[k].executions)
      ensures updatedAt == now
    {
      var path := e.worktreePath;
      var h: CommandHistory;
      if path in commandHistory {
        h := commandHistory[path];
      } else {
        h := new CommandHistory(Some(path), preferences.maxCommandHistory);
        commandHistory := commandHistory[path := h];
      }
      h.AddExecution(e);
      updatedAt := now;
    }

    /** `get_command_history`. */
    function GetCommandHistory(worktreePath: string): (r: Option<CommandHistory>)
      reads this
      ensures r.Some? <==> worktreePath in commandHistory
      ensures r.Some? ==> r.value == commandHistory[worktreePath]
    {
      if worktreePath in commandHistory then Some(commandHistory[worktreePath]) else None
    }

    /** `clear_command_history`: a non-empty path deletes that key only; no
        path, or the empty path, deletes every history. */
    method ClearCommandHistory(worktreePath: Option<string>, now: int)
      requires Valid()
      modifies this`commandHistory, this`updatedAt
      ensures Valid()
      ensures worktreePath.Some? && worktreePath.value != [] ==>
        commandHistory.Keys == old(commandHistory).Keys - {worktreePath.value}
        && forall k :: k in commandHistory ==> commandHistory[k] == old(commandHistory)[k]
      ensures (worktreePath.None? || worktreePath.value == []) ==> commandHistory == map[]
      ensures updatedAt == now
    {
      if worktreePath.Some? && worktreePath.value != [] {
        if worktreePath.value in commandHistory {
          commandHistory := commandHistory - {worktreePath.value};
        }
      } else {
        commandHistory := map[];
      }
      updatedAt := now;
    }

    /** `_cleanup_project_command_history`: collects the keys lying under
        the project path, then deletes them. */
    method CleanupProjectCommandHistory(projectPath: string)
      requires Valid()
      modifies this`commandHistory
      ensures Valid()
      ensures commandHistory == WithoutUnder(old(commandHistory), projectPath)
    {
      var toRemove: set<string> := {};
      var pending := commandHistory.Keys;
      while pending != {}
        invariant pending <= commandHistory.Keys
        invariant forall k :: k in toRemove <==> k in commandHistory && k !in pending && IsUnder(k, projectPath)
        decreases pending
      {
        var k :| k in pending;
        if IsUnder(k, projectPath) {
          toRemove := toRemove + {k};
        }
        pending := pending - {k};
      }
      while toRemove != {}
        invariant toRemove <= commandHistory.Keys
        invariant forall k :: k in old(commandHistory) && IsUnder(k, projectPath) ==> k !in commandHistory || k in toRemove
        invariant forall k :: k in commandHistory ==> k in old(commandHistory) && commandHistory[k] == old(commandHistory)[k]
        invariant forall k :: k in old(commandHistory) && !IsUnder(k, projectPath) ==> k in commandHistory && k !in toRemove
        decreases toRemove
      {
        var k :| k in toRemove;
        commandHistory := commandHistory - {k};
        toRemove := toRemove - {k};
      }
    }
  }

  /** Re-adding a project under an id already present replaces its entry,
      moves it to the end and drops the command histories under the old
      entry's path, as a removal would. */
  lemma ReAddReplacesEntry(ps: seq<ProjectConfig>, c: ProjectConfig)
    requires UniqueIds(ps) && HasId(ps, c.id)
    ensures var r := WithoutId(ps, c.id) + [c];
      |r| == |ps| && UniqueIds(r) && r[|r| - 1] == c
      && forall j :: 0 <= j < |r| - 1 ==> r[j].id != c.id
  {
    WithoutIdShape(ps, c.id);
    var w := WithoutId(ps, c.id);
    AppendKeepsUnique(w, c);
    assert forall j :: 0 <= j < |w| ==> (w + [c])[j] == w[j];
  }
}
