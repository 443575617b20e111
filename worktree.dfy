/** The worktree record: its status and branch displays, its age, equality
    by path, and its dictionary form. */
module WorktreeModel {
  import opened PyStr
  import opened PyList
  import opened Errors
  import opened PyDict

  /** A worktree as the dataclass holds it after construction: the path is
      already normalised and `lastModified` (seconds) is always set, since
      the constructor fills a missing one with the current time. */
  datatype Worktree = Worktree(
    path: string,
    branch: string,
    commitHash: string,
    isBare: bool,
    isDetached: bool,
    hasUncommittedChanges: bool,
    lastModified: int)

  /** The tags of the flags that are set, in the order bare, detached,
      modified. */
  function StatusTags(w: Worktree): seq<string>
  {
    (if w.isBare then ["bare"] else [])
    + (if w.isDetached then ["detached"] else [])
    + (if w.hasUncommittedChanges then ["modified"] else [])
  }

  /** `get_status_display`. */
  function StatusDisplay(w: Worktree): string
  {
    var tags := StatusTags(w);
    if tags == [] then "clean" else Join(" | ", tags)
  }

  /** The display is "clean" exactly when no flag is set; otherwise it
      lists the set flags, bare first and modified last. */
  lemma StatusDisplayShape(w: Worktree)
    ensures StatusDisplay(w) == "clean" <==> !w.isBare && !w.isDetached && !w.hasUncommittedChanges
    ensures w.isBare ==> StartsWith(StatusDisplay(w), "bare")
    ensures !w.isBare && w.isDetached ==> StartsWith(StatusDisplay(w), "detached")
    ensures !w.isBare && !w.isDetached && w.hasUncommittedChanges ==> StatusDisplay(w) == "modified"
    ensures w.isBare && w.isDetached && w.hasUncommittedChanges ==> StatusDisplay(w) == "bare | detached | modified"
  {
    var tags := StatusTags(w);
    if tags != [] {
      assert tags[0] in {"bare", "detached", "modified"};
      assert |tags[0]| > 0 && tags[0][0] != 'c';
      JoinHead(" | ", tags);
      JoinPrefix(" | ", tags);
    }
    if w.isBare && w.isDetached && w.hasUncommittedChanges {
      assert tags == ["bare", "detached", "modified"];
      assert Join(" | ", tags[2..]) == "modified";
      assert Join(" | ", tags[1..]) == "detached | modified";
    }
  }

  /** `get_commit_short_hash`: `commit_hash[:8]`, "" for an empty hash. */
  function ShortHash(w: Worktree): (r: string)
    ensures |r| == Min(8, |w.commitHash|) && StartsWith(w.commitHash, r)
  {
    if w.commitHash == [] then "" else SliceTo(w.commitHash, 8)
  }

  /** `get_branch_display`. */
  function BranchDisplay(w: Worktree): string
  {
    if w.isDetached then "(" + SliceTo(w.commitHash, 8) + ")" else w.branch
  }

  /** A detached worktree shows its short hash in parentheses, any other
      its branch. */
  lemma BranchDisplayShowsHash(w: Worktree)
    ensures w.isDetached ==> BranchDisplay(w) == "(" + ShortHash(w) + ")"
    ensures w.isDetached ==> |BranchDisplay(w)| == Min(8, |w.commitHash|) + 2
    ensures !w.isDetached ==> BranchDisplay(w) == w.branch
  {
  }

  /** "N unit ago" with the plural 's' unless N is 1. */
  function AgoText(n: nat, unit: string): string
  {
    NatToString(n) + " " + unit + (if n != 1 then "s" else "") + " ago"
  }

  const SECONDS_PER_DAY := 86400

  /** `get_age_display` at time `now`. A `timedelta` keeps whole days
      (rounded down) and a remainder of seconds in [0, 86400), which is
      floor division and Euclidean remainder. */
  function AgeDisplay(w: Worktree, now: int): string
  {
    var delta := now - w.lastModified;
    var days := delta / SECONDS_PER_DAY;
    var seconds := delta % SECONDS_PER_DAY;
    if days > 0 then AgoText(days, "day")
    else if seconds > 3600 then AgoText(seconds / 3600, "hour")
    else if seconds > 60 then AgoText(seconds / 60, "minute")
    else "just now"
  }

  /** The bands of the age display for a timestamp in the past, with their
      strict boundaries: a full hour still shows in minutes. */
  lemma AgeBands(w: Worktree, now: int)
    ensures var delta := now - w.lastModified;
      (0 <= delta <= 60 ==> AgeDisplay(w, now) == "just now")
      && (60 < delta <= 3600 ==>
            1 <= delta / 60 <= 60 && AgeDisplay(w, now) == AgoText(delta / 60, "minute"))
      && (3600 < delta < SECONDS_PER_DAY ==>
            1 <= delta / 3600 <= 23 && AgeDisplay(w, now) == AgoText(delta / 3600, "hour"))
      && (SECONDS_PER_DAY <= delta ==>
            1 <= delta / SECONDS_PER_DAY && AgeDisplay(w, now) == AgoText(delta / SECONDS_PER_DAY, "day"))
  {
    var delta := now - w.lastModified;
    if 0 <= delta < SECONDS_PER_DAY {
      assert delta / SECONDS_PER_DAY == 0 && delta % SECONDS_PER_DAY == delta;
    }
  }

  /** Exactly one hour shows as "60 minutes ago". */
  lemma OneHourInMinutes(w: Worktree, now: int)
    requires now - w.lastModified == 3600
    ensures AgeDisplay(w, now) == AgoText(60, "minute")
  {
    AgeBands(w, now);
  }

  /** A timestamp up to an hour in the future makes the day count -1 and
      the remainder almost a day, so the display reads "23 hours ago". */
  lemma FutureShowsHours(w: Worktree, now: int)
    requires -3600 <= now - w.lastModified < 0
    ensures AgeDisplay(w, now) == AgoText(23, "hour")
  {
    var delta := now - w.lastModified;
    assert delta / SECONDS_PER_DAY == -1 && delta % SECONDS_PER_DAY == delta + SECONDS_PER_DAY;
  }

  /** `__eq__`: worktrees are equal when their paths are. */
  predicate SameWorktree(a: Worktree, b: Worktree)
  {
    a.path == b.path
  }

  /** `__hash__` hashes the path; the model keeps the hashed key. */
  function HashKey(w: Worktree): string
  {
    w.path
  }

  /** Equality is an equivalence that ignores every field but the path, and
      equal worktrees hash alike. */
  lemma EqualityByPath(a: Worktree, b: Worktree, c: Worktree)
    ensures SameWorktree(a, a)
    ensures SameWorktree(a, b) ==> SameWorktree(b, a) && HashKey(a) == HashKey(b)
    ensures SameWorktree(a, b) && SameWorktree(b, c) ==> SameWorktree(a, c)
    ensures SameWorktree(a, a.(branch := b.branch, commitHash := b.commitHash, isBare := b.isBare,
              isDetached := b.isDetached, hasUncommittedChanges := b.hasUncommittedChanges,
              lastModified := b.lastModified))
  {
  }

  /** `to_dict`. */
  function ToDict(w: Worktree): Dict
  {
    map[
      "path" := Str(w.path),
      "branch" := Str(w.branch),
      "commit_hash" := Str(w.commitHash),
      "is_bare" := Bool(w.isBare),
      "is_detached" := Bool(w.isDetached),
      "has_uncommitted_changes" := Bool(w.hasUncommittedChanges),
      "last_modified" := Time(w.lastModified)]
  }

  /** `from_dict` followed by the constructor, at time `now`. The timestamp
      is read first; then `path`, `branch` and `commit_hash` are required in
      that order and the three flags default to false. */
  function FromDict(d: Dict, now: int): Result<Worktree>
  {
    var lastModified :- TimeField(d, "last_modified", now);
    var path :- StrField(d, "path");
    var branch :- StrField(d, "branch");
    var commitHash :- StrField(d, "commit_hash");
    var isBare :- BoolField(d, "is_bare", false);
    var isDetached :- BoolField(d, "is_detached", false);
    var modified :- BoolField(d, "has_uncommitted_changes", false);
    Ok(Worktree(path, branch, commitHash, isBare, isDetached, modified, lastModified))
  }

  /** Reading back a serialised worktree gives the same worktree. */
  lemma FromDictToDict(w: Worktree, now: int)
    ensures FromDict(ToDict(w), now) == Ok(w)
  {
    var d := ToDict(w);
    assert d["last_modified"] == Time(w.lastModified);
    assert d["path"] == Str(w.path) && d["branch"] == Str(w.branch) && d["commit_hash"] == Str(w.commitHash);
    assert d["is_bare"] == Bool(w.isBare) && d["is_detached"] == Bool(w.isDetached);
    assert d["has_uncommitted_changes"] == Bool(w.hasUncommittedChanges);
  }

  /** A dictionary missing `path`, `branch` or `commit_hash` is refused with
      a KeyError naming the first one missing; absent flags read as false
      and an absent timestamp as `now`. */
  lemma FromDictKeys(d: Dict, now: int)
    ensures FromDict(d, now).Ok? ==> "path" in d && "branch" in d && "commit_hash" in d
    ensures TimeField(d, "last_modified", now).Ok? && "path" !in d ==>
      FromDict(d, now) == Err(KeyError("path"))
    ensures TimeField(d, "last_modified", now).Ok? && "path" in d && d["path"].Str? && "branch" !in d ==>
      FromDict(d, now) == Err(KeyError("branch"))
    ensures (TimeField(d, "last_modified", now).Ok? && "path" in d && d["path"].Str?
             && "branch" in d && d["branch"].Str? && "commit_hash" !in d) ==>
      FromDict(d, now) == Err(KeyError("commit_hash"))
    ensures FromDict(d, now).Ok? ==>
      var w := FromDict(d, now).value;
      ("is_bare" !in d ==> !w.isBare) && ("is_detached" !in d ==> !w.isDetached)
      && ("has_uncommitted_changes" !in d ==> !w.hasUncommittedChanges)
      && ("last_modified" !in d ==> w.lastModified == now)
  {
  }
}
