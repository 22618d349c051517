/** String operations with Python's semantics: suffix tests, `str.split` on a
    non-empty separator, `sep.join`, `str.replace` (every occurrence, left to
    right, without overlap), and the POSIX path functions `os.path.join` and
    `os.path.basename`. */
module Text {
  import opened Wrappers

  predicate StartsWith(s: string, prefix: string) {
    |prefix| <= |s| && s[..|prefix|] == prefix
  }

  predicate EndsWith(s: string, suffix: string) {
    |suffix| <= |s| && s[|s| - |suffix|..] == suffix
  }

  /** `sub` occurs in `s` starting at index `i`. */
  predicate MatchesAt(s: string, sub: string, i: nat) {
    i + |sub| <= |s| && s[i..i + |sub|] == sub
  }

  /** Shifting the start of the haystack by one shifts every match by one. */
  lemma MatchesAtTail(s: string, sub: string, i: nat)
    requires |s| > 0
    ensures MatchesAt(s, sub, i + 1) <==> MatchesAt(s[1..], sub, i)
  {
    if i + 1 + |sub| <= |s| {
      assert s[1..][i..i + |sub|] == s[i + 1..i + 1 + |sub|];
    }
  }

  /** Index of the first occurrence of a non-empty `sub` in `s` (Python's `str.find`). */
  function IndexOf(s: string, sub: string): (r: Option<nat>)
    requires |sub| > 0
    ensures r.Some? ==> MatchesAt(s, sub, r.value)
    ensures r.Some? ==> forall j: nat :: j < r.value ==> !MatchesAt(s, sub, j)
    ensures r.None? ==> forall j: nat :: !MatchesAt(s, sub, j)
    decreases |s|
  {
    if |s| < |sub| then None
    else if s[..|sub|] == sub then Some(0)
    else
      match IndexOf(s[1..], sub)
      case None =>
        assert forall j: nat :: !MatchesAt(s, sub, j) by {
          forall j: nat ensures !MatchesAt(s, sub, j) {
            if j > 0 {
              MatchesAtTail(s, sub, j - 1);
            } else {
              assert s[0..|sub|] == s[..|sub|];
            }
          }
        }
        None
      case Some(i) =>
        MatchesAtTail(s, sub, i);
        assert forall j: nat :: j < i + 1 ==> !MatchesAt(s, sub, j) by {
          forall j: nat | j < i + 1 ensures !MatchesAt(s, sub, j) {
            if j > 0 {
              MatchesAtTail(s, sub, j - 1);
            } else {
              assert s[0..|sub|] == s[..|sub|];
            }
          }
        }
        Some(i + 1)
  }

  /** `parts` glued together with `sep` between neighbours (Python's `sep.join(parts)`). */
  function Join(parts: seq<string>, sep: string): (r: string)
    decreases |parts|
  {
    if |parts| == 0 then ""
    else if |parts| == 1 then parts[0]
    else parts[0] + sep + Join(parts[1..], sep)
  }

  /** Python's `s.split(sep)` for a non-empty separator: the pieces between the
      occurrences of `sep`, found left to right without overlap. */
  function Split(s: string, sep: string): (r: seq<string>)
    requires |sep| > 0
    ensures |r| >= 1
    ensures Join(r, sep) == s
    ensures forall i :: 0 <= i < |r| ==> IndexOf(r[i], sep).None?
    decreases |s|
  {
    match IndexOf(s, sep)
    case None => [s]
    case Some(i) =>
      var head := s[..i];
      var rest := Split(s[i + |sep|..], sep);
      assert IndexOf(head, sep).None? by {
        var h := IndexOf(head, sep);
        if h.Some? {
          assert head[h.value..h.value + |sep|] == s[h.value..h.value + |sep|];
          assert MatchesAt(s, sep, h.value);
          assert false;
        }
      }
      assert s == head + sep + s[i + |sep|..];
      [head] + rest
  }

  /** A string without the separator splits into itself alone. */
  lemma SplitAbsent(s: string, sep: string)
    requires |sep| > 0
    requires IndexOf(s, sep).None?
    ensures Split(s, sep) == [s]
  {
  }

  /** The scanning implementation of `str.replace` for a non-empty `pat`. */
  function ReplaceScan(s: string, pat: string, repl: string): (r: string)
    requires |pat| > 0
    decreases |s|
  {
    if |s| < |pat| then s
    else if s[..|pat|] == pat then repl + ReplaceScan(s[|pat|..], pat, repl)
    else [s[0]] + ReplaceScan(s[1..], pat, repl)
  }

  /** `str.replace` with an empty `pat`: `repl` before every character and at the end. */
  function Interleave(s: string, repl: string): (r: string)
    decreases |s|
  {
    if |s| == 0 then repl else repl + [s[0]] + Interleave(s[1..], repl)
  }

  /** Python's `s.replace(pat, repl)`: every occurrence is replaced. */
  function Replace(s: string, pat: string, repl: string): (r: string) {
    if |pat| == 0 then Interleave(s, repl) else ReplaceScan(s, pat, repl)
  }

  /** When `s` does not start with `sep`, the first occurrence in `s` is one
      past the first occurrence in `s[1..]`. */
  lemma IndexOfStep(s: string, sep: string)
    requires |sep| > 0 && |s| > 0
    requires !StartsWith(s, sep)
    ensures IndexOf(s, sep) == match IndexOf(s[1..], sep)
                               case None => None
                               case Some(j) => Some(j + 1)
  {
  }

  /** When `s` does not start with `sep`, its first split piece absorbs `s[0]`. */
  lemma SplitStep(s: string, sep: string)
    requires |sep| > 0 && |s| > 0
    requires !StartsWith(s, sep)
    ensures var a := Split(s, sep); var b := Split(s[1..], sep);
            |a| == |b| && a[0] == [s[0]] + b[0] && a[1..] == b[1..]
  {
    IndexOfStep(s, sep);
    match IndexOf(s[1..], sep)
    case None =>
    case Some(j) =>
      assert s[1..][j + |sep|..] == s[j + 1 + |sep|..];
      assert s[..j + 1] == [s[0]] + s[1..][..j];
  }

  /** Prepending a character to the first part prepends it to the join. */
  lemma JoinFirstGrows(a: seq<string>, b: seq<string>, c: char, glue: string)
    requires |a| == |b| > 0
    requires a[0] == [c] + b[0] && a[1..] == b[1..]
    ensures Join(a, glue) == [c] + Join(b, glue)
  {
    if |a| > 1 {
      var tail := Join(a[1..], glue);
      assert Join(b, glue) == b[0] + glue + tail;
      assert Join(a, glue) == ([c] + b[0]) + glue + tail;
    }
  }

  lemma JoinSplitStep(s: string, sep: string, glue: string)
    requires |sep| > 0 && |s| > 0
    requires !StartsWith(s, sep)
    ensures Join(Split(s, sep), glue) == [s[0]] + Join(Split(s[1..], sep), glue)
  {
    SplitStep(s, sep);
    JoinFirstGrows(Split(s, sep), Split(s[1..], sep), s[0], glue);
  }

  /** `str.replace` replaces exactly the occurrences `str.split` cuts at: the
      result is the split pieces joined by `repl`. */
  lemma {:induction false} ReplaceIsSplitJoin(s: string, pat: string, repl: string)
    requires |pat| > 0
    ensures Replace(s, pat, repl) == Join(Split(s, pat), repl)
    decreases |s|
  {
    if |s| < |pat| {
      assert IndexOf(s, pat).None?;
    } else if s[..|pat|] == pat {
      assert MatchesAt(s, pat, 0);
      assert IndexOf(s, pat) == Some(0);
      ReplaceIsSplitJoin(s[|pat|..], pat, repl);
      var rest := Split(s[|pat|..], pat);
      assert Split(s, pat) == [""] + rest;
      assert ([""] + rest)[1..] == rest;
    } else {
      ReplaceIsSplitJoin(s[1..], pat, repl);
      JoinSplitStep(s, pat, repl);
    }
  }

  /** Replacing a string that does not occur leaves the input unchanged. */
  lemma ReplaceAbsent(s: string, pat: string, repl: string)
    requires |pat| > 0
    requires IndexOf(s, pat).None?
    ensures Replace(s, pat, repl) == s
  {
    ReplaceIsSplitJoin(s, pat, repl);
    SplitAbsent(s, pat);
  }

  /** With a non-empty replacement, the result is empty exactly when the
      input is empty and `pat` is not the empty string. */
  lemma {:induction false} ReplaceEmptyIff(s: string, pat: string, repl: string)
    requires |repl| > 0
    ensures Replace(s, pat, repl) == "" <==> s == "" && pat != ""
  {
    if |pat| > 0 && |s| > 0 {
      if |s| >= |pat| && s[..|pat|] == pat {
        assert Replace(s, pat, repl) == repl + ReplaceScan(s[|pat|..], pat, repl);
      } else if |s| >= |pat| {
        assert Replace(s, pat, repl) == [s[0]] + ReplaceScan(s[1..], pat, repl);
      }
    } else if |pat| == 0 {
      assert Interleave(s, repl)[..|repl|] == repl;
    }
  }

  /** POSIX `os.path.join(a, b)`: an absolute `b` wins; otherwise a `/` is
      inserted unless `a` is empty or already ends with one. */
  function PathJoin(a: string, b: string): (r: string)
    ensures EndsWith(r, b)
  {
    if StartsWith(b, "/") then b
    else if a == "" || EndsWith(a, "/") then a + b
    else a + "/" + b
  }

  /** POSIX `os.path.basename(p)`: everything after the last `/`. */
  function Basename(p: string): (r: string)
    ensures '/' !in r
    ensures EndsWith(p, r)
    ensures |r| < |p| ==> p[|p| - |r| - 1] == '/'
    decreases |p|
  {
    if |p| == 0 || p[|p| - 1] == '/' then ""
    else
      var b := Basename(p[..|p| - 1]);
      b + [p[|p| - 1]]
  }

  /** The name of a directory entry comes back out of its joined path. */
  lemma {:induction false} BasenameAfterSlash(dir: string, name: string)
    requires '/' !in name
    requires dir == "" || dir[|dir| - 1] == '/'
    ensures Basename(dir + name) == name
    decreases |name|
  {
    if |name| == 0 {
      assert dir + name == dir;
    } else {
      var init := name[..|name| - 1];
      assert (dir + name)[..|dir + name| - 1] == dir + init;
      BasenameAfterSlash(dir, init);
      assert name == init + [name[|name| - 1]];
    }
  }

  /** `os.path.basename(os.path.join(d, n)) == n` for an entry name `n`. */
  lemma BasenameOfJoin(dir: string, name: string)
    requires '/' !in name
    ensures Basename(PathJoin(dir, name)) == name
  {
    if StartsWith(name, "/") {
    } else if dir == "" || EndsWith(dir, "/") {
      BasenameAfterSlash(dir, name);
    } else {
      assert dir + "/" + name == (dir + "/") + name;
      BasenameAfterSlash(dir + "/", name);
    }
  }

  /** Everything up to the last `/` is dropped by `Basename`. */
  lemma {:induction false} BasenameSkipsDirectory(dir: string, rest: string)
    requires |dir| > 0 && dir[|dir| - 1] == '/'
    ensures Basename(dir + rest) == Basename(rest)
    decreases |rest|
  {
    if |rest| == 0 {
      assert dir + rest == dir;
    } else if rest[|rest| - 1] != '/' {
      var init := rest[..|rest| - 1];
      assert (dir + rest)[..|dir + rest| - 1] == dir + init;
      BasenameSkipsDirectory(dir, init);
    }
  }

  /** With no separator in `p`, the split is `p` alone and `p` is its own base name. */
  lemma SplitWithoutSlash(p: string)
    requires IndexOf(p, "/").None?
    ensures Split(p, "/") == [p]
    ensures Basename(p) == p
  {
    forall k | 0 <= k < |p| ensures p[k] != '/' {
      assert !MatchesAt(p, "/", k);
      assert p[k..k + 1] == [p[k]];
    }
    BasenameAfterSlash("", p);
    assert "" + p == p;
  }

  /** At the first separator `i`, the split is `p[..i]` followed by the split of the rest. */
  lemma SplitAtSlash(p: string, i: nat)
    requires IndexOf(p, "/") == Some(i)
    ensures i < |p| && p[i] == '/'
    ensures Split(p, "/") == [p[..i]] + Split(p[i + 1..], "/")
  {
    SplitAt(p, "/", i);
    assert p[i] == p[i..i + 1][0];
  }

  /** At the first occurrence `i` of `sep`, the split is `s[..i]` followed by
      the split of what comes after the occurrence. */
  lemma SplitAt(s: string, sep: string, i: nat)
    requires |sep| > 0
    requires IndexOf(s, sep) == Some(i)
    ensures i + |sep| <= |s| && s[i..i + |sep|] == sep
    ensures Split(s, sep) == [s[..i]] + Split(s[i + |sep|..], sep)
  {
  }

  lemma BasenamePastSlash(p: string, i: nat)
    requires i < |p| && p[i] == '/'
    ensures Basename(p) == Basename(p[i + 1..])
  {
    assert p == p[..i + 1] + p[i + 1..];
    BasenameSkipsDirectory(p[..i + 1], p[i + 1..]);
  }

  /** The last element of a non-empty list (Python's `xs[-1]`). */
  function Last<T>(xs: seq<T>): (r: T)
    requires |xs| > 0
  {
    xs[|xs| - 1]
  }

  lemma LastOfCons<T>(parts: seq<T>, x: T, tail: seq<T>)
    requires parts == [x] + tail && |tail| > 0
    ensures Last(parts) == Last(tail)
  {
  }

  /** `p.split("/")[-1]` is `Basename(p)`: the last piece of the split is the
      text after the last `/`. */
  lemma {:induction false} LastPieceOfSplit(p: string)
    ensures Last(Split(p, "/")) == Basename(p)
    decreases |p|
  {
    match IndexOf(p, "/")
    case None =>
      SplitWithoutSlash(p);
    case Some(i) =>
      var rest := p[i + 1..];
      SplitAtSlash(p, i);
      LastPieceOfSplit(rest);
      LastOfCons(Split(p, "/"), p[..i], Split(rest, "/"));
      BasenamePastSlash(p, i);
  }
}
