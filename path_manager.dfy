/** The two string clean-ups of the path manager: `sanitize_path`, which
    rewrites a user-supplied path to keep it from escaping a directory, and
    `get_safe_filename`, which turns any text into a usable file name.  The
    `isinstance` check of `sanitize_path` is subsumed by the type. */
module PathManagerModel {
  import opened PyStr
  import opened Errors

  /** No two consecutive dots. */
  predicate NoDotDot(s: string)
  {
    forall i :: 0 <= i < |s| - 1 ==> !(s[i] == '.' && s[i + 1] == '.')
  }

  // ---------------------------------------------------------------------
  // sanitize_path

  /** `s.replace("..", "")`: keeps only characters of `s`, leaves no two
      consecutive dots, and keeps a first character that is not a dot. */
  function DropDots(s: string): (r: string)
    ensures forall c :: c in r ==> c in s
    ensures NoDotDot(r)
    ensures |s| > 0 && s[0] != '.' ==> |r| > 0 && r[0] == s[0]
  {
    ReplaceChars(s, "..", "");
    DotDotGone(s);
    Replace(s, "..", "")
  }

  /** `s.replace("~", "")`: no tilde is left, nothing else is added, and a
      first character that is not a tilde stays first. */
  function DropTildes(s: string): (r: string)
    ensures '~' !in r
    ensures forall c :: c in r ==> c in s
    ensures |s| > 0 && s[0] != '~' ==> |r| > 0 && r[0] == s[0]
  {
    ReplaceCharGone(s, '~', "");
    ReplaceChars(s, "~", "");
    Replace(s, "~", "")
  }

  /** `s.replace("\\", "/")`: every backslash becomes a slash, every other
      character stays where it is. */
  function Backslashes(s: string): (r: string)
    ensures |r| == |s|
    ensures forall i :: 0 <= i < |s| ==> r[i] == (if s[i] == '\\' then '/' else s[i])
  {
    ReplaceCharAt(s, '\\', '/');
    Replace(s, "\\", "/")
  }

  lemma BackslashesFacts(s: string)
    ensures '\\' !in Backslashes(s)
    ensures forall c :: c in Backslashes(s) ==> c in s || c == '/'
    ensures NoDotDot(s) ==> NoDotDot(Backslashes(s))
  {
    var r := Backslashes(s);
    forall c | c in r ensures c != '\\' && (c in s || c == '/') {
      var i :| 0 <= i < |r| && r[i] == c;
    }
  }

  /** `strip()` keeps only characters of its argument and a first
      character that is not whitespace; it creates no two consecutive dots. */
  lemma StripFacts(s: string)
    ensures forall c :: c in Strip(s) ==> c in s
    ensures |s| > 0 && !IsSpace(s[0]) ==> Strip(s) != [] && Strip(s)[0] == s[0]
    ensures NoDotDot(s) ==> NoDotDot(Strip(s))
  {
    StripChars(s);
    if |s| > 0 && !IsSpace(s[0]) {
      StripHead(s);
    }
    StripNoDotDot(s);
  }

  lemma StripNoDotDot(s: string)
    ensures NoDotDot(s) ==> NoDotDot(Strip(s))
  {
    if NoDotDot(s) {
      StripSlice(s);
      var k := |s| - |LStrip(s)|;
      NoDotDotSlice(s, k, k + |Strip(s)|);
    }
  }

  lemma StartsWithChar(s: string, c: char)
    ensures StartsWith(s, [c]) <==> |s| > 0 && s[0] == c
  {
    if |s| > 0 && s[0] == c {
      assert s[..1] == [c];
    }
  }

  /** The rewrites of `sanitize_path` before the slash handling, in the
      order of the original: drop "..", drop "~" unless the path starts with
      it, turn backslashes into slashes, strip whitespace. */
  function Rewritten(path: string): string
  {
    var noDots := DropDots(path);
    var noTilde := if StartsWith(path, "~") then noDots else DropTildes(noDots);
    Strip(Backslashes(noTilde))
  }

  /** The same rewrites with "~" dropped before "..", so that removing a
      tilde cannot bring two dots together. */
  function RewrittenFixed(path: string): string
  {
    var noTilde := if StartsWith(path, "~") then path else DropTildes(path);
    Strip(Backslashes(DropDots(noTilde)))
  }

  /** What the rewrites guarantee, in either order. */
  predicate RewriteFacts(path: string, s: string)
  {
    && '\\' !in s
    && (!StartsWith(path, "~") ==> '~' !in s)
    && (StartsWith(path, "/") ==> StartsWith(s, "/"))
  }

  lemma RewrittenFacts(path: string)
    ensures RewriteFacts(path, Rewritten(path))
  {
    StartsWithChar(path, '~');
    StartsWithChar(path, '/');
    var noDots := DropDots(path);
    var noTilde := if StartsWith(path, "~") then noDots else DropTildes(noDots);
    var slashed := Backslashes(noTilde);
    var r := Strip(slashed);
    assert r == Rewritten(path);
    BackslashesFacts(noTilde);
    StripFacts(slashed);
    assert '\\' !in r by {
      assert '\\' in r ==> '\\' in slashed;
    }
    if !StartsWith(path, "~") {
      assert '~' !in noTilde;
      assert '~' in r ==> '~' in slashed;
      assert '~' in slashed ==> '~' in noTilde;
    }
    if StartsWith(path, "/") {
      assert noDots[0] == '/';
      assert noTilde[0] == '/';
      assert slashed[0] == '/';
      StartsWithChar(r, '/');
    }
  }

  lemma RewrittenFixedFacts(path: string)
    ensures RewriteFacts(path, RewrittenFixed(path))
    ensures NoDotDot(RewrittenFixed(path))
  {
    StartsWithChar(path, '~');
    StartsWithChar(path, '/');
    var noTilde := if StartsWith(path, "~") then path else DropTildes(path);
    var noDots := DropDots(noTilde);
    var slashed := Backslashes(noDots);
    var r := Strip(slashed);
    assert r == RewrittenFixed(path);
    BackslashesFacts(noDots);
    StripFacts(slashed);
    assert '\\' !in r by {
      assert '\\' in r ==> '\\' in slashed;
    }
    if !StartsWith(path, "~") {
      assert '~' !in noTilde;
      assert '~' in noDots ==> '~' in noTilde;
      assert '~' in slashed ==> '~' in noDots;
      assert '~' in r ==> '~' in slashed;
    }
    if StartsWith(path, "/") {
      assert noTilde[0] == '/';
      assert noDots[0] == '/';
      assert slashed[0] == '/';
      StartsWithChar(r, '/');
    }
    assert NoDotDot(noDots);
    assert NoDotDot(slashed);
  }

  /** Removing ".." left to right leaves no two consecutive dots, and a
      text not starting with a dot keeps its first character. */
  lemma {:induction false} DotDotGone(s: string)
    ensures NoDotDot(Replace(s, "..", ""))
    ensures |s| > 0 && s[0] != '.' ==> |Replace(s, "..", "")| > 0 && Replace(s, "..", "")[0] == s[0]
    decreases |s|
  {
    if |s| >= 2 {
      DotDotGone(s[2..]);
      DotDotGone(s[1..]);
      if s[..2] != ".." {
        var r := Replace(s[1..], "..", "");
        assert Replace(s, "..", "") == [s[0]] + r;
        if s[0] == '.' {
          assert s[1] != '.';
        }
      }
    }
  }

  lemma NoDotDotSlice(s: string, a: int, b: int)
    requires NoDotDot(s) && 0 <= a <= b <= |s|
    ensures NoDotDot(s[a..b])
  {
    forall i | 0 <= i < b - a - 1 ensures !(s[a..b][i] == '.' && s[a..b][i + 1] == '.') {
      assert s[a..b][i] == s[a + i] && s[a..b][i + 1] == s[a + i + 1];
    }
  }

  /** `strip("/")`: neither end is a slash, and the result is a piece of
      the argument. */
  function StripSlashes(s: string): (r: string)
    ensures r == [] || (r[0] != '/' && r[|r| - 1] != '/')
    ensures forall c :: c in r ==> c in s
    ensures NoDotDot(s) ==> NoDotDot(r)
  {
    StripSlashesFacts(s);
    StripSet(s, {'/'})
  }

  lemma StripSlashesFacts(s: string)
    ensures var r := StripSet(s, {'/'});
      && (r == [] || (r[0] != '/' && r[|r| - 1] != '/'))
      && (forall c :: c in r ==> c in s)
      && (NoDotDot(s) ==> NoDotDot(r))
  {
    StripSetShape(s, {'/'});
    var k := |s| - |LStripSet(s, {'/'})|;
    var r := StripSet(s, {'/'});
    forall c | c in r ensures c in s {
      var i :| 0 <= i < |r| && r[i] == c;
      assert r[i] == s[k + i];
    }
    if NoDotDot(s) {
      NoDotDotSlice(s, k, k + |r|);
    }
  }

  /** An absolute path keeps exactly one leading slash and loses its
      trailing ones; the root stays "/". */
  function AbsoluteSlashes(s: string): (r: string)
    ensures r == "/" || (|r| >= 2 && r[0] == '/' && r[1] != '/' && r[|r| - 1] != '/')
    ensures forall c :: c in r ==> c in s || c == '/'
    ensures NoDotDot(s) ==> NoDotDot(r)
  {
    AbsoluteSlashesFacts(s);
    var t := RStripSet("/" + LStripSet(s, {'/'}), {'/'});
    if t == [] then "/" else t
  }

  lemma AbsoluteSlashesFacts(s: string)
    ensures var t := RStripSet("/" + LStripSet(s, {'/'}), {'/'});
      && (t == [] || (|t| >= 2 && t[0] == '/' && t[1] != '/' && t[|t| - 1] != '/'))
      && (forall c :: c in t ==> c in s || c == '/')
      && (NoDotDot(s) ==> NoDotDot(t))
  {
    var rest := LStripSet(s, {'/'});
    var slashed := "/" + rest;
    var t := RStripSet(slashed, {'/'});
    assert rest == s[|s| - |rest|..];
    AbsoluteShape(rest, t);
    AbsoluteChars(s, rest, t);
    AbsoluteNoDotDot(s, rest, t);
  }

  lemma AbsoluteShape(rest: string, t: string)
    requires rest == [] || rest[0] != '/'
    requires t == RStripSet("/" + rest, {'/'})
    ensures t == [] || (|t| >= 2 && t[0] == '/' && t[1] != '/' && t[|t| - 1] != '/')
  {
    var slashed := "/" + rest;
    assert slashed[0] == '/';
    if t != [] {
      assert t == slashed[..|t|];
      assert t[0] == '/';
      assert |t| >= 2;
      assert t[1] == rest[0];
    }
  }

  lemma AbsoluteChars(s: string, rest: string, t: string)
    requires |rest| <= |s| && rest == s[|s| - |rest|..]
    requires t == RStripSet("/" + rest, {'/'})
    ensures forall c :: c in t ==> c in s || c == '/'
  {
    var slashed := "/" + rest;
    forall c | c in t ensures c in s || c == '/' {
      var i :| 0 <= i < |t| && t[i] == c;
      assert t[i] == slashed[i];
      if i > 0 {
        assert slashed[i] == rest[i - 1] == s[|s| - |rest| + i - 1];
      }
    }
  }

  lemma AbsoluteNoDotDot(s: string, rest: string, t: string)
    requires |rest| <= |s| && rest == s[|s| - |rest|..] && |t| <= |rest| + 1 && t == ("/" + rest)[..|t|]
    ensures NoDotDot(s) ==> NoDotDot(t)
  {
    if NoDotDot(s) {
      NoDotDotSlice(s, |s| - |rest|, |s|);
      assert NoDotDot("/" + rest) by {
        forall i | 0 <= i < |rest| ensures ("/" + rest)[i + 1] == rest[i] { }
      }
      NoDotDotSlice("/" + rest, 0, |t|);
    }
  }

  /** The slash handling and the final emptiness check, given the original
      path (to know whether it was absolute) and the rewritten one. */
  function Finish(path: string, sanitized: string): (r: Result<string>)
    ensures r.Err? ==> r == Err(PathError("Path becomes empty after sanitization"))
    ensures r.Ok? ==> r.value != [] && forall c :: c in r.value ==> c in sanitized || c == '/'
    ensures r.Ok? && NoDotDot(sanitized) ==> NoDotDot(r.value)
    ensures r.Ok? && !StartsWith(path, "/") && !StartsWith(path, "~") ==>
      r.value[0] != '/' && r.value[|r.value| - 1] != '/'
    ensures StartsWith(path, "/") && StartsWith(sanitized, "/") ==>
      r.Ok? && (r.value == "/" || (|r.value| >= 2 && r.value[0] == '/' && r.value[1] != '/'
                                   && r.value[|r.value| - 1] != '/'))
  {
    var wasAbsolute := StartsWith(path, "/") || StartsWith(path, "~");
    var s :=
      if !wasAbsolute then StripSlashes(sanitized)
      else if StartsWith(sanitized, "/") then AbsoluteSlashes(sanitized)
      else sanitized;
    if s == [] then Err(PathError("Path becomes empty after sanitization")) else Ok(s)
  }

  /** `sanitize_path` as written. */
  function SanitizePath(path: string): (r: Result<string>)
    ensures path == [] ==> r == Err(PathError("Path must be a non-empty string"))
    ensures path != [] && '\0' in path ==> r == Err(PathError("Path contains null bytes"))
    ensures path != [] && '\0' !in path && r.Err? ==> r == Err(PathError("Path becomes empty after sanitization"))
    ensures r.Ok? ==> r.value != []
  {
    if path == [] then Err(PathError("Path must be a non-empty string"))
    else if '\0' in path then Err(PathError("Path contains null bytes"))
    else Finish(path, Rewritten(path))
  }

  /** `sanitize_path` with the two removals in the corrected order. */
  function SanitizePathFixed(path: string): (r: Result<string>)
    ensures path == [] ==> r == Err(PathError("Path must be a non-empty string"))
    ensures path != [] && '\0' in path ==> r == Err(PathError("Path contains null bytes"))
    ensures path != [] && '\0' !in path && r.Err? ==> r == Err(PathError("Path becomes empty after sanitization"))
    ensures r.Ok? ==> r.value != []
  {
    if path == [] then Err(PathError("Path must be a non-empty string"))
    else if '\0' in path then Err(PathError("Path contains null bytes"))
    else Finish(path, RewrittenFixed(path))
  }

  /** As written, the result never holds a backslash and holds a tilde only
      when the path started with one; a relative path comes back without
      slashes at either end, an absolute one with exactly one leading slash
      and no trailing slash unless it is the root. */
  lemma SanitizePathShape(path: string)
    ensures var r := SanitizePath(path);
      && (r.Ok? ==> '\\' !in r.value)
      && (r.Ok? && !StartsWith(path, "~") ==> '~' !in r.value)
      && (r.Ok? && !StartsWith(path, "/") && !StartsWith(path, "~") ==>
            r.value[0] != '/' && r.value[|r.value| - 1] != '/')
      && (StartsWith(path, "/") && '\0' !in path ==>
            r.Ok? && (r.value == "/" || (|r.value| >= 2 && r.value[0] == '/' && r.value[1] != '/'
                                         && r.value[|r.value| - 1] != '/')))
  {
    if path != [] && '\0' !in path {
      RewrittenFacts(path);
      FinishKeeps(path, Rewritten(path));
    }
  }

  /** The corrected version keeps every property of the original and
      returns no "..". */
  lemma SanitizePathFixedShape(path: string)
    ensures var r := SanitizePathFixed(path);
      && (r.Ok? ==> '\\' !in r.value && NoDotDot(r.value))
      && (r.Ok? && !StartsWith(path, "~") ==> '~' !in r.value)
      && (r.Ok? && !StartsWith(path, "/") && !StartsWith(path, "~") ==>
            r.value[0] != '/' && r.value[|r.value| - 1] != '/')
      && (StartsWith(path, "/") && '\0' !in path ==>
            r.Ok? && (r.value == "/" || (|r.value| >= 2 && r.value[0] == '/' && r.value[1] != '/'
                                         && r.value[|r.value| - 1] != '/')))
  {
    if path != [] && '\0' !in path {
      var s := RewrittenFixed(path);
      RewrittenFixedFacts(path);
      FinishKeeps(path, s);
    }
  }

  /** The slash handling brings in no character but '/' and no "..". */
  lemma FinishKeeps(path: string, s: string)
    ensures var r := Finish(path, s);
      && (r.Ok? && '\\' !in s ==> '\\' !in r.value)
      && (r.Ok? && '~' !in s ==> '~' !in r.value)
  {
    var r := Finish(path, s);
    if r.Ok? {
      assert '\\' in r.value ==> '\\' in s;
      assert '~' in r.value ==> '~' in s;
    }
  }

  /** One step of `replace` at an occurrence of the target. */
  lemma ReplaceAtTarget(s: string, target: string, repl: string)
    requires |target| > 0
    ensures Replace(target + s, target, repl) == repl + Replace(s, target, repl)
  {
    assert (target + s)[..|target|] == target;
    assert (target + s)[|target|..] == s;
  }

  /** One step of `replace` at a character that does not start the target. */
  lemma ReplaceAtOther(c: char, s: string, target: string, repl: string)
    requires |target| > 0 && c != target[0]
    ensures Replace([c] + s, target, repl) == [c] + Replace(s, target, repl)
  {
    assert ([c] + s)[1..] == s;
    if |s| + 1 >= |target| {
      assert ([c] + s)[..|target|][0] == c;
    }
  }

  lemma {:induction false} ReplaceNoDotDot(s: string)
    requires NoDotDot(s)
    ensures Replace(s, "..", "") == s
    decreases |s|
  {
    if |s| >= 2 {
      assert s[..2][0] == s[0] && s[..2][1] == s[1];
      NoDotDotSlice(s, 1, |s|);
      ReplaceNoDotDot(s[1..]);
    }
  }

  /** A path made only of traversals and slashes is rejected. */
  lemma TraversalOnlyRejected(p: string)
    requires p == "../../.."
    ensures SanitizePath(p) == Err(PathError("Path becomes empty after sanitization"))
  {
    TraversalRewritten(p);
    var s := Rewritten(p);
    SlashesStripToNothing(s);
    assert p[0] == '.';
    StartsWithChar(p, '/');
    StartsWithChar(p, '~');
    assert Finish(p, s) == Err(PathError("Path becomes empty after sanitization"));
    assert '\0' !in p by {
      assert p == ['.', '.', '/', '.', '.', '/', '.', '.'];
    }
    assert SanitizePath(p) == Finish(p, s);
  }

  lemma TraversalRewritten(p: string)
    requires p == "../../.."
    ensures Rewritten(p) == "//"
  {
    TraversalDotsDropped(p);
    assert p[0] == '.';
    StartsWithChar(p, '~');
    var s := DropDots(p);
    assert s[0] == '/' && s[1] == '/';
    ReplaceAbsent(s, "~", "");
    assert DropTildes(s) == s;
    BackslashFree(s);
    StripKeeps(s);
  }

  lemma TraversalDotsDropped(p: string)
    requires p == "../../.."
    ensures DropDots(p) == "//"
  {
    var e: string := [];
    ReplaceAtTarget(e, "..", "");
    assert ".." + e == "..";
    ReplaceAtOther('/', "..", "..", "");
    assert ['/'] + ".." == "/..";
    ReplaceAtTarget("/..", "..", "");
    assert ".." + "/.." == "../..";
    ReplaceAtOther('/', "../..", "..", "");
    assert ['/'] + "../.." == "/../..";
    ReplaceAtTarget("/../..", "..", "");
    assert ".." + "/../.." == p;
  }

  lemma SlashesStripToNothing(s: string)
    requires s == "//"
    ensures StripSlashes(s) == []
  {
    assert s[1..] == "/";
    assert s[1..][1..] == [];
    assert LStripSet(s, {'/'}) == [];
  }

  /** A tilde between two dots survives the ".." removal and is then
      removed, leaving a traversal in the result of the original. */
  lemma TildeHidesTraversal(p: string)
    requires p == ".~./etc"
    ensures SanitizePath(p) == Ok("../etc")
  {
    TildeRewritten(p);
    var q := Rewritten(p);
    TraversalKeptByFinish(p, q);
    NoNullInTilde(p);
    assert SanitizePath(p) == Finish(p, q);
  }

  lemma NoNullInTilde(p: string)
    requires p == ".~./etc"
    ensures p != [] && '\0' !in p
  {
    assert p == ['.', '~', '.', '/', 'e', 't', 'c'];
  }

  lemma TildeRewritten(p: string)
    requires p == ".~./etc"
    ensures Rewritten(p) == "../etc"
  {
    assert p[0] == '.';
    StartsWithChar(p, '~');
    TildeDotsKept(p);
    TildeDropped(p);
    var q := DropTildes(p);
    assert q[0] == '.' && q[5] == 'c';
    assert '\\' !in q by {
      assert q == ['.', '.', '/', 'e', 't', 'c'];
    }
    BackslashFree(q);
    StripKeeps(q);
  }

  /** A text without backslashes is left alone by the backslash rewrite. */
  lemma BackslashFree(s: string)
    requires '\\' !in s
    ensures Backslashes(s) == s
  {
    var r := Backslashes(s);
    assert forall i :: 0 <= i < |s| ==> r[i] == s[i];
  }

  /** A text with no whitespace at either end is its own strip. */
  lemma StripKeeps(s: string)
    requires |s| > 0 && !IsSpace(s[0]) && !IsSpace(s[|s| - 1])
    ensures Strip(s) == s
  {
    assert LStrip(s) == s;
    assert RStrip(s) == s;
  }

  /** A text with no slash at either end is its own `strip("/")`. */
  lemma StripSlashesKeeps(s: string)
    requires |s| > 0 && s[0] != '/' && s[|s| - 1] != '/'
    ensures StripSlashes(s) == s
  {
    assert LStripSet(s, {'/'}) == s;
    assert RStripSet(s, {'/'}) == s;
  }

  lemma TildeDotsKept(p: string)
    requires p == ".~./etc"
    ensures DropDots(p) == p
  {
    assert NoDotDot(p) by {
      forall i | 0 <= i < |p| - 1 ensures !(p[i] == '.' && p[i + 1] == '.') {
        assert p[1] == '~' && p[3] == '/';
      }
    }
    ReplaceNoDotDot(p);
  }

  lemma TildeDropped(p: string)
    requires p == ".~./etc"
    ensures DropTildes(p) == "../etc"
  {
    var rest := p[2..];
    assert rest == "./etc";
    assert '~' !in rest;
    ReplaceAbsent(rest, "~", "");
    ReplaceAtTarget(rest, "~", "");
    assert p[1..] == "~" + rest;
    ReplaceAtOther('.', p[1..], "~", "");
    assert p == ['.'] + p[1..];
    assert ['.'] + rest == "../etc";
  }

  lemma TraversalKeptByFinish(p: string, q: string)
    requires p == ".~./etc" && q == "../etc"
    ensures Finish(p, q) == Ok(q)
  {
    assert p[0] == '.';
    StartsWithChar(p, '/');
    StartsWithChar(p, '~');
    assert q[0] == '.' && q[5] == 'c';
    StripSlashesKeeps(q);
  }

  // ---------------------------------------------------------------------
  // get_safe_filename

  /** The characters `<>:"/\|?*`, replaced in this order. */
  const INVALID_FILENAME_CHARS: seq<char> := ['<', '>', ':', '"', '/', '\\', '|', '?', '*']

  const MAX_FILENAME_LENGTH := 255

  /** The replacement loop as a specification: each character of `cs` in
      turn is replaced by "_". */
  function ReplaceEach(s: string, cs: seq<char>): string
    decreases |cs|, s
  {
    if |cs| == 0 then s else ReplaceEach(Replace(s, [cs[0]], "_"), cs[1..])
  }

  lemma {:induction false} ReplaceEachGone(s: string, cs: seq<char>)
    requires '_' !in cs
    ensures forall c :: c in ReplaceEach(s, cs) ==> c !in cs && (c in s || c == '_')
    decreases |cs|
  {
    if |cs| > 0 {
      var t := Replace(s, [cs[0]], "_");
      ReplaceCharGone(s, cs[0], "_");
      ReplaceEachGone(t, cs[1..]);
      forall c | c in ReplaceEach(s, cs) ensures c !in cs && (c in s || c == '_') {
        assert c in t || c == '_';
        assert c != cs[0];
      }
    }
  }

  /** `"".join(c for c in s if ord(c) >= 32)`. */
  function DropControl(s: string): (r: string)
    ensures forall i :: 0 <= i < |r| ==> r[i] as int >= 32 && r[i] in s
    ensures forall i :: 0 <= i < |s| && s[i] as int >= 32 ==> s[i] in r
    decreases |s|
  {
    if |s| == 0 then []
    else
      var rest := DropControl(s[1..]);
      if s[0] as int >= 32 then [s[0]] + rest else rest
  }

  /** The replaced, filtered and stripped name, before the empty-name
      fallback and the truncation. */
  function Cleaned(filename: string): string
  {
    StripSet(DropControl(ReplaceEach(filename, INVALID_FILENAME_CHARS)), {'.', ' '})
  }

  /** What `get_safe_filename` returns for `filename`. */
  function SafeFilename(filename: string): (r: string)
  {
    if filename == [] then "unnamed"
    else
      var cleaned := Cleaned(filename);
      if cleaned == [] then "unnamed"
      else if |cleaned| > MAX_FILENAME_LENGTH then cleaned[..MAX_FILENAME_LENGTH]
      else cleaned
  }

  /** Every character is printable and none is in `cs`. */
  predicate PrintableWithout(s: string, cs: seq<char>)
  {
    forall i :: 0 <= i < |s| ==> s[i] !in cs && s[i] as int >= 32
  }

  /** Replacing the characters of `cs` and dropping control characters
      leaves only printable characters outside `cs`. */
  lemma PrintableStage(filename: string, cs: seq<char>)
    requires '_' !in cs
    ensures PrintableWithout(DropControl(ReplaceEach(filename, cs)), cs)
  {
    var replaced := ReplaceEach(filename, cs);
    ReplaceEachGone(filename, cs);
    var printable := DropControl(replaced);
    forall i | 0 <= i < |printable| ensures printable[i] !in cs && printable[i] as int >= 32 {
      assert printable[i] in replaced;
    }
  }

  /** A piece of a text keeps the property of its characters. */
  lemma PrintableSlice(s: string, cs: seq<char>, a: int, b: int)
    requires PrintableWithout(s, cs) && 0 <= a <= b <= |s|
    ensures PrintableWithout(s[a..b], cs)
  {
    forall i | 0 <= i < b - a ensures s[a..b][i] !in cs && s[a..b][i] as int >= 32 {
      assert s[a..b][i] == s[a + i];
    }
  }

  /** Stripping `strip` from a text of printable characters outside `cs`
      keeps that property and leaves no character of `strip` at either
      end. */
  lemma StripPrintable(s: string, cs: seq<char>, strip: set<char>)
    requires PrintableWithout(s, cs)
    ensures var c := StripSet(s, strip);
      && PrintableWithout(c, cs)
      && (c != [] ==> c[0] !in strip && c[|c| - 1] !in strip)
  {
    var cleaned := StripSet(s, strip);
    StripSetShape(s, strip);
    var k := |s| - |LStripSet(s, strip)|;
    PrintableSlice(s, cs, k, k + |cleaned|);
  }

  /** The cleaned name holds only allowed characters and neither starts nor
      ends with a dot or a space. */
  lemma CleanedShape(filename: string)
    ensures var c := Cleaned(filename);
      && PrintableWithout(c, INVALID_FILENAME_CHARS)
      && (c != [] ==> c[0] != '.' && c[0] != ' ' && c[|c| - 1] != '.' && c[|c| - 1] != ' ')
  {
    UnderscoreValid();
    PrintableStage(filename, INVALID_FILENAME_CHARS);
    StripPrintable(DropControl(ReplaceEach(filename, INVALID_FILENAME_CHARS)), INVALID_FILENAME_CHARS, {'.', ' '});
  }

  lemma UnderscoreValid()
    ensures '_' !in INVALID_FILENAME_CHARS
  {
    var cs := INVALID_FILENAME_CHARS;
    forall i | 0 <= i < |cs| ensures cs[i] != '_' {
    }
  }

  lemma UnnamedShape()
    ensures PrintableWithout("unnamed", INVALID_FILENAME_CHARS)
    ensures "unnamed"[0] != '.' && "unnamed"[0] != ' '
  {
    var u := "unnamed";
    forall i | 0 <= i < |u| ensures u[i] !in INVALID_FILENAME_CHARS && u[i] as int >= 32 {
      assert u[i] in {'u', 'n', 'a', 'm', 'e', 'd'};
    }
  }

  /** A safe file name is never empty, at most 255 characters long, free of
      the invalid and the control characters, and does not start with a dot
      or a space. */
  lemma SafeFilenameShape(filename: string)
    ensures var r := SafeFilename(filename);
      && r != [] && |r| <= MAX_FILENAME_LENGTH
      && (filename == [] ==> r == "unnamed")
      && PrintableWithout(r, INVALID_FILENAME_CHARS)
      && r[0] != '.' && r[0] != ' '
  {
    if filename == [] || Cleaned(filename) == [] {
      UnnamedShape();
    } else {
      CleanedShape(filename);
      TruncatedShape(Cleaned(filename));
    }
  }

  /** Truncating a non-empty name to 255 characters keeps its first
      character and the properties of every character. */
  lemma TruncatedShape(c: string)
    requires c != [] && PrintableWithout(c, INVALID_FILENAME_CHARS)
    ensures var r := if |c| > MAX_FILENAME_LENGTH then c[..MAX_FILENAME_LENGTH] else c;
      && r != [] && |r| <= MAX_FILENAME_LENGTH && r[0] == c[0]
      && PrintableWithout(r, INVALID_FILENAME_CHARS)
  {
    if |c| > MAX_FILENAME_LENGTH {
      PrintableSlice(c, INVALID_FILENAME_CHARS, 0, MAX_FILENAME_LENGTH);
    }
  }

  /** `get_safe_filename`: the replacement loop over the invalid
      characters, then the control-character filter, the strip and the
      truncation. */
  method GetSafeFilename(filename: string) returns (r: string)
    ensures r == SafeFilename(filename)
  {
    if filename == [] {
      return "unnamed";
    }
    var safeName := ReplaceAll(filename, INVALID_FILENAME_CHARS);
    safeName := StripSet(DropControl(safeName), {'.', ' '});
    if safeName == [] {
      return "unnamed";
    }
    if |safeName| > MAX_FILENAME_LENGTH {
      safeName := safeName[..MAX_FILENAME_LENGTH];
    }
    r := safeName;
  }

  /** The replacement loop of `get_safe_filename`: each character of `cs`
      in turn is replaced by "_". */
  method ReplaceAll(s: string, cs: seq<char>) returns (r: string)
    ensures r == ReplaceEach(s, cs)
  {
    r := s;
    var i := 0;
    while i < |cs|
      invariant 0 <= i <= |cs|
      invariant ReplaceEach(r, cs[i..]) == ReplaceEach(s, cs)
    {
      assert cs[i..][1..] == cs[i + 1..];
      r := Replace(r, [cs[i]], "_");
      i := i + 1;
    }
  }
}
