/** The Python string primitives the application relies on (`str.strip`,
    `str.replace`, `str.split`, `str.lower`, `in`, `startswith`, ...), written
    as functions over `seq<char>` so that the rest of the model can use them
    with the same meaning as the Python code. */
module PyStr {

  datatype Option<T> = None | Some(value: T)

  /** `str.isspace()` for one character: the characters whose Unicode
      bidirectional class is WS, B or S, or whose category is Zs.  The regular
      expression class `\s` on `str` patterns matches the same characters. */
  predicate IsSpace(c: char)
  {
    var n := c as int;
    (0x09 <= n <= 0x0d) || (0x1c <= n <= 0x20) || n == 0x85 || n == 0xa0
    || n == 0x1680 || (0x2000 <= n <= 0x200a) || n == 0x2028 || n == 0x2029
    || n == 0x202f || n == 0x205f || n == 0x3000
  }

  predicate StartsWith(s: string, prefix: string)
  {
    |prefix| <= |s| && s[..|prefix|] == prefix
  }

  predicate EndsWith(s: string, suffix: string)
  {
    |suffix| <= |s| && s[|s| - |suffix|..] == suffix
  }

  /** `sub in s`. */
  predicate Contains(s: string, sub: string)
    decreases |s|
  {
    StartsWith(s, sub) || (|s| > 0 && Contains(s[1..], sub))
  }

  lemma {:induction false} ContainsChar(s: string, c: char)
    ensures Contains(s, [c]) <==> c in s
  {
    if |s| > 0 {
      ContainsChar(s[1..], c);
      assert s == [s[0]] + s[1..];
    }
  }

  lemma {:induction false} ContainsAppend(a: string, b: string, sub: string)
    requires Contains(a, sub)
    ensures Contains(a + b, sub)
  {
    if StartsWith(a, sub) {
      assert (a + b)[..|sub|] == a[..|sub|];
    } else {
      assert (a + b)[1..] == a[1..] + b;
      ContainsAppend(a[1..], b, sub);
    }
  }

  lemma {:induction false} ContainsPrepend(a: string, b: string, sub: string)
    requires Contains(b, sub)
    ensures Contains(a + b, sub)
    decreases |a|
  {
    if |a| > 0 {
      assert (a + b)[1..] == a[1..] + b;
      ContainsPrepend(a[1..], b, sub);
    } else {
      assert a + b == b;
    }
  }

  /** A character of `s` that occurs in `sub` is a character of `s` when `sub`
      occurs in `s`. */
  lemma {:induction false} ContainsChars(s: string, sub: string, c: char)
    requires Contains(s, sub) && c in sub
    ensures c in s
    decreases |s|
  {
    if StartsWith(s, sub) {
      assert sub == s[..|sub|];
    } else {
      ContainsChars(s[1..], sub, c);
    }
  }

  /** A text that contains `sub + more` contains `sub`. */
  lemma {:induction false} ContainsShorter(s: string, sub: string, more: string)
    requires Contains(s, sub + more)
    ensures Contains(s, sub)
    decreases |s|
  {
    if StartsWith(s, sub + more) {
      assert s[..|sub|] == (sub + more)[..|sub|];
    } else {
      ContainsShorter(s[1..], sub, more);
    }
  }

  /** A two-character text occurs exactly when the two characters stand
      side by side somewhere. */
  lemma {:induction false} ContainsPair(s: string, a: char, b: char)
    ensures Contains(s, [a, b]) <==> exists i :: 0 <= i < |s| - 1 && s[i] == a && s[i + 1] == b
    decreases |s|
  {
    if |s| > 0 {
      ContainsPair(s[1..], a, b);
      assert StartsWith(s, [a, b]) <==> |s| >= 2 && s[0] == a && s[1] == b by {
        if |s| >= 2 && s[0] == a && s[1] == b {
          assert s[..2] == [a, b];
        }
      }
      if Contains(s, [a, b]) {
        if !StartsWith(s, [a, b]) {
          var i :| 0 <= i < |s| - 2 && s[1..][i] == a && s[1..][i + 1] == b;
          assert s[i + 1] == a && s[i + 2] == b;
        }
      }
      if exists i :: 0 <= i < |s| - 1 && s[i] == a && s[i + 1] == b {
        var i :| 0 <= i < |s| - 1 && s[i] == a && s[i + 1] == b;
        if i > 0 {
          assert s[1..][i - 1] == a && s[1..][i] == b;
        }
      }
    }
  }

  /** ASCII `str.lower()` of one character. */
  function LowerChar(c: char): char
  {
    if 'A' <= c <= 'Z' then (c as int + 32) as char else c
  }

  function UpperChar(c: char): char
  {
    if 'a' <= c <= 'z' then (c as int - 32) as char else c
  }

  function Lower(s: string): (r: string)
    ensures |r| == |s| && forall i :: 0 <= i < |s| ==> r[i] == LowerChar(s[i])
  {
    seq(|s|, i requires 0 <= i < |s| => LowerChar(s[i]))
  }

  lemma LowerIdempotent(s: string)
    ensures Lower(Lower(s)) == Lower(s)
  {
  }

  lemma LowerConcat(a: string, b: string)
    ensures Lower(a + b) == Lower(a) + Lower(b)
  {
  }

  function Upper(s: string): (r: string)
    ensures |r| == |s| && forall i :: 0 <= i < |s| ==> r[i] == UpperChar(s[i])
  {
    seq(|s|, i requires 0 <= i < |s| => UpperChar(s[i]))
  }

  /** `str.lstrip(chars)`: drops every leading character that is in `chars`. */
  function LStripSet(s: string, chars: set<char>): (r: string)
    ensures |r| <= |s| && EndsWith(s, r)
    ensures r == [] || r[0] !in chars
    ensures forall i :: 0 <= i < |s| - |r| ==> s[i] in chars
    decreases |s|
  {
    if |s| > 0 && s[0] in chars then LStripSet(s[1..], chars) else s
  }

  /** `str.rstrip(chars)`: drops every trailing character that is in `chars`. */
  function RStripSet(s: string, chars: set<char>): (r: string)
    ensures |r| <= |s| && r == s[..|r|]
    ensures r == [] || r[|r| - 1] !in chars
    ensures forall i :: |r| <= i < |s| ==> s[i] in chars
    decreases |s|
  {
    if |s| > 0 && s[|s| - 1] in chars then RStripSet(s[..|s| - 1], chars) else s
  }

  /** `str.strip(chars)`. */
  function StripSet(s: string, chars: set<char>): string
  {
    RStripSet(LStripSet(s, chars), chars)
  }

  function LStrip(s: string): (r: string)
    ensures |r| <= |s| && EndsWith(s, r)
    ensures r == [] || !IsSpace(r[0])
    decreases |s|
  {
    if |s| > 0 && IsSpace(s[0]) then LStrip(s[1..]) else s
  }

  function RStrip(s: string): (r: string)
    ensures |r| <= |s| && r == s[..|r|]
    ensures r == [] || !IsSpace(r[|r| - 1])
    decreases |s|
  {
    if |s| > 0 && IsSpace(s[|s| - 1]) then RStrip(s[..|s| - 1]) else s
  }

  /** `str.strip()` with no argument: whitespace at both ends is dropped. */
  function Strip(s: string): (r: string)
    ensures |r| <= |s|
    ensures r == [] || (!IsSpace(r[0]) && !IsSpace(r[|r| - 1]))
  {
    RStrip(LStrip(s))
  }

  /** Every character of `Strip(s)` is a character of `s`. */
  lemma StripChars(s: string)
    ensures forall c :: c in Strip(s) ==> c in s
  {
    var l := LStrip(s);
    assert forall c :: c in l ==> c in s by {
      assert l == s[|s| - |l|..];
    }
    assert Strip(s) == l[..|Strip(s)|];
  }

  /** `Strip(s)` is empty exactly when `s` is only whitespace. */
  lemma {:induction false} StripEmpty(s: string)
    ensures Strip(s) == [] <==> forall i :: 0 <= i < |s| ==> IsSpace(s[i])
    decreases |s|
  {
    if |s| > 0 && IsSpace(s[0]) {
      StripEmpty(s[1..]);
      assert LStrip(s) == LStrip(s[1..]);
      assert Strip(s) == Strip(s[1..]);
      assert (forall i :: 0 <= i < |s| ==> IsSpace(s[i])) <==> (forall i :: 0 <= i < |s[1..]| ==> IsSpace(s[1..][i])) by {
        assert forall i :: 1 <= i < |s| ==> s[i] == s[1..][i - 1];
      }
    } else if |s| > 0 {
      assert LStrip(s) == s;
      assert RStrip(s) != [] by {
        if RStrip(s) == [] {
          RStripAllSpace(s);
        }
      }
    }
  }

  lemma {:induction false} RStripAllSpace(s: string)
    requires RStrip(s) == []
    ensures forall i :: 0 <= i < |s| ==> IsSpace(s[i])
    decreases |s|
  {
    if |s| > 0 {
      assert IsSpace(s[|s| - 1]);
      RStripAllSpace(s[..|s| - 1]);
      assert forall i :: 0 <= i < |s| - 1 ==> s[i] == s[..|s| - 1][i];
    }
  }

  /** `s.replace(target, repl)` for a non-empty `target`: occurrences are replaced
      left to right without overlapping. */
  function Replace(s: string, target: string, repl: string): (r: string)
    requires |target| > 0
    decreases |s|
  {
    if |s| < |target| then s
    else if s[..|target|] == target then repl + Replace(s[|target|..], target, repl)
    else [s[0]] + Replace(s[1..], target, repl)
  }

  /** Replacing a single character by a single character keeps the length and
      changes only that character. */
  lemma {:induction false} ReplaceCharAt(s: string, a: char, b: char)
    ensures |Replace(s, [a], [b])| == |s|
    ensures forall i :: 0 <= i < |s| ==> Replace(s, [a], [b])[i] == (if s[i] == a then b else s[i])
    decreases |s|
  {
    if |s| > 0 {
      ReplaceCharAt(s[1..], a, b);
      assert s[..1] == [s[0]];
    }
  }

  /** After replacing character `a` by a text without `a`, no `a` is left and
      every character comes from `s` or from the replacement text. */
  lemma {:induction false} ReplaceCharGone(s: string, a: char, repl: string)
    requires a !in repl
    ensures a !in Replace(s, [a], repl)
    ensures forall c :: c in Replace(s, [a], repl) ==> c in s || c in repl
    decreases |s|
  {
    if |s| > 0 {
      ReplaceCharGone(s[1..], a, repl);
      assert s[..1] == [s[0]];
    }
  }

  /** Replacing with the empty string removes every occurrence of a character
      and adds none. */
  lemma {:induction false} ReplaceCharRemoves(s: string, a: char, c: char)
    requires c in Replace(s, [a], [])
    ensures c in s && c != a
    decreases |s|
  {
    if |s| > 0 {
      assert s[..1] == [s[0]];
      if s[0] == a {
        ReplaceCharRemoves(s[1..], a, c);
      } else if c != s[0] {
        ReplaceCharRemoves(s[1..], a, c);
      }
    }
  }

  /** Every character of a replacement's result comes from the text or
      from the replacement string. */
  lemma {:induction false} ReplaceChars(s: string, target: string, repl: string)
    requires |target| > 0
    ensures forall c :: c in Replace(s, target, repl) ==> c in s || c in repl
    decreases |s|
  {
    if |s| >= |target| {
      ReplaceChars(s[|target|..], target, repl);
      ReplaceChars(s[1..], target, repl);
      forall c | c in s[|target|..] ensures c in s {
        var i :| 0 <= i < |s[|target|..]| && s[|target|..][i] == c;
        assert s[i + |target|] == c;
      }
    }
  }

  /** A text in which the target's first character never occurs is left
      as it is. */
  lemma {:induction false} ReplaceAbsent(s: string, target: string, repl: string)
    requires |target| > 0 && target[0] !in s
    ensures Replace(s, target, repl) == s
    decreases |s|
  {
    if |s| >= |target| {
      assert s[..|target|][0] == s[0];
      ReplaceAbsent(s[1..], target, repl);
    }
  }

  /** A text that does not start with the target keeps its first character. */
  lemma ReplaceHead(s: string, target: string, repl: string)
    requires |target| > 0 && |s| > 0 && !StartsWith(s, target)
    ensures |Replace(s, target, repl)| > 0 && Replace(s, target, repl)[0] == s[0]
  {
  }

  /** `strip()` keeps a first character that is not whitespace. */
  lemma StripHead(s: string)
    requires |s| > 0 && !IsSpace(s[0])
    ensures Strip(s) != [] && Strip(s)[0] == s[0]
  {
    assert LStrip(s) == s;
    if RStrip(s) == [] {
      RStripAllSpace(s);
    }
  }

  /** `strip()` returns a contiguous piece of its argument. */
  lemma StripSlice(s: string)
    ensures var k := |s| - |LStrip(s)|;
      0 <= k && k + |Strip(s)| <= |s| && Strip(s) == s[k..k + |Strip(s)|]
  {
    var l := LStrip(s);
    var k := |s| - |l|;
    assert EndsWith(s, l);
    assert l == s[k..];
    var r := RStrip(l);
    assert r == Strip(s);
    assert r == l[..|r|];
    assert l[..|r|] == s[k..k + |r|];
  }

  /** `strip(chars)` returns a contiguous piece of its argument that neither
      starts nor ends with one of `chars`. */
  lemma StripSetShape(s: string, chars: set<char>)
    ensures var r := StripSet(s, chars);
      r == [] || (r[0] !in chars && r[|r| - 1] !in chars)
    ensures var k := |s| - |LStripSet(s, chars)|;
      0 <= k && k + |StripSet(s, chars)| <= |s| && StripSet(s, chars) == s[k..k + |StripSet(s, chars)|]
  {
    var l := LStripSet(s, chars);
    var k := |s| - |l|;
    assert EndsWith(s, l);
    assert l == s[k..];
    var r := RStripSet(l, chars);
    assert r == l[..|r|];
    assert l[..|r|] == s[k..k + |r|];
  }

  /** `str.split(sep)` with a one-character separator: keeps empty pieces. */
  function Split(s: string, sep: char): (r: seq<string>)
    ensures |r| > 0
    ensures forall k :: 0 <= k < |r| ==> sep !in r[k]
    decreases |s|
  {
    if |s| == 0 then [[]]
    else
      var rest := Split(s[1..], sep);
      if s[0] == sep then [[]] + rest
      else [[s[0]] + rest[0]] + rest[1..]
  }

  /** The first piece of a split is the text before the first separator. */
  lemma {:induction false} SplitHead(a: string, sep: char, b: string)
    requires sep !in a
    ensures Split(a + [sep] + b, sep)[0] == a
    decreases |a|
  {
    if |a| > 0 {
      assert (a + [sep] + b)[1..] == a[1..] + [sep] + b;
      SplitHead(a[1..], sep, b);
      assert a == [a[0]] + a[1..];
    }
  }

  /** `str.split()` with no argument: the maximal runs of non-whitespace
      characters, in order. */
  function SplitWords(s: string): (r: seq<string>)
    ensures forall k :: 0 <= k < |r| ==> |r[k]| > 0
    decreases |s|
  {
    var t := LStrip(s);
    if t == [] then []
    else
      var w := Word(t);
      assert |w| > 0 && |t| <= |s|;
      [w] + SplitWords(t[|w|..])
  }

  /** The leading run of non-whitespace characters. */
  function Word(s: string): (w: string)
    ensures |w| <= |s| && w == s[..|w|]
    ensures forall i :: 0 <= i < |w| ==> !IsSpace(w[i])
    ensures |s| > 0 && !IsSpace(s[0]) ==> |w| > 0
    decreases |s|
  {
    if |s| == 0 || IsSpace(s[0]) then [] else [s[0]] + Word(s[1..])
  }

  /** `sep.join(parts)`. */
  function Join(sep: string, parts: seq<string>): string
  {
    if |parts| == 0 then []
    else if |parts| == 1 then parts[0]
    else parts[0] + sep + Join(sep, parts[1..])
  }

  /** A join of parts whose first part is non-empty starts with that part's
      first character. */
  lemma JoinHead(sep: string, parts: seq<string>)
    requires |parts| > 0 && |parts[0]| > 0
    ensures |Join(sep, parts)| > 0 && Join(sep, parts)[0] == parts[0][0]
  {
    if |parts| > 1 {
      assert Join(sep, parts) == parts[0] + (sep + Join(sep, parts[1..]));
    }
  }

  /** A join of at least one part starts with the first part. */
  lemma JoinPrefix(sep: string, parts: seq<string>)
    requires |parts| > 0
    ensures StartsWith(Join(sep, parts), parts[0])
  {
    if |parts| > 1 {
      var rest := sep + Join(sep, parts[1..]);
      assert Join(sep, parts) == parts[0] + rest;
      assert (parts[0] + rest)[..|parts[0]|] == parts[0];
    }
  }

  /** Index of the first `c` at or after `from`, as `str.find(c, from)`;
      -1 when there is none. */
  function FindFrom(s: string, c: char, from: nat): (r: int)
    ensures r == -1 || (from <= r < |s| && s[r] == c)
    ensures r == -1 ==> forall i :: from <= i < |s| ==> s[i] != c
    ensures r != -1 ==> forall i :: from <= i < r ==> s[i] != c
    decreases |s| - from
  {
    if from >= |s| then -1
    else if s[from] == c then from
    else FindFrom(s, c, from + 1)
  }

  function DigitChar(d: nat): char
    requires d < 10
  {
    "0123456789"[d]
  }

  /** `str(n)` for a natural number. */
  function NatToString(n: nat): (r: string)
    ensures |r| > 0
    decreases n
  {
    if n < 10 then [DigitChar(n)] else NatToString(n / 10) + [DigitChar(n % 10)]
  }

  /** `str(n)` for an integer. */
  function IntToString(n: int): string
  {
    if n < 0 then "-" + NatToString(-n) else NatToString(n)
  }

  /** `pathlib.PurePath(p).name` for a normalised path: the text after the last
      '/', which is empty for "/" and the empty path. */
  function PathName(p: string): (r: string)
    ensures EndsWith(p, r) && '/' !in r
    ensures |r| == |p| || p[|p| - |r| - 1] == '/'
    ensures p != [] && p[|p| - 1] != '/' ==> r != []
    decreases |p|
  {
    if |p| == 0 then []
    else if p[|p| - 1] == '/' then []
    else PathName(p[..|p| - 1]) + [p[|p| - 1]]
  }

  /** `pathlib.PurePath(child).relative_to(parent)` succeeds, for normalised
      absolute paths: the child is the parent itself or lies below it. */
  predicate IsUnder(child: string, parent: string)
  {
    child == parent
    || (parent == "/" && StartsWith(child, "/"))
    || StartsWith(child, parent + "/")
  }
}
