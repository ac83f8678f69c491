/** The string and path functions of Go's standard library that the launcher
    relies on (`strings.TrimSpace`, `strings.ToLower`, `strings.Split`,
    `strings.Contains`, `filepath.Base`, `filepath.Dir`, `filepath.Join`),
    written over `seq<char>`. */
module Text {

  /** Go's `unicode.IsSpace`. */
  predicate IsSpace(c: char) {
    c == ' ' || c == '\t' || c == '\n' || c == '\U{000B}' || c == '\U{000C}' || c == '\r'
    || c == '\U{0085}' || c == '\U{00A0}' || c == '\U{1680}'
    || ('\U{2000}' <= c <= '\U{200A}')
    || c == '\U{2028}' || c == '\U{2029}' || c == '\U{202F}' || c == '\U{205F}' || c == '\U{3000}'
  }

  /** True when every character of `s` is white space (so also for ""). */
  predicate Blank(s: string) {
    forall i :: 0 <= i < |s| ==> IsSpace(s[i])
  }

  /** Go's `strings.TrimSpace`: drop white space at both ends. */
  function TrimSpace(s: string): (r: string)
    ensures |r| <= |s|
    ensures r == "" <==> Blank(s)
    decreases |s|
  {
    if |s| > 0 && IsSpace(s[0]) then TrimSpace(s[1..])
    else if |s| > 0 && IsSpace(s[|s| - 1]) then TrimSpace(s[..|s| - 1])
    else s
  }

  /** A trimmed string neither starts nor ends with white space. */
  lemma {:induction false} TrimSpaceEnds(s: string)
    ensures var r := TrimSpace(s); r != "" ==> !IsSpace(r[0]) && !IsSpace(r[|r| - 1])
    decreases |s|
  {
    if |s| > 0 && IsSpace(s[0]) {
      TrimSpaceEnds(s[1..]);
    } else if |s| > 0 && IsSpace(s[|s| - 1]) {
      TrimSpaceEnds(s[..|s| - 1]);
    }
  }

  /** A trimmed string is the input with white space cut from both ends: a
      slice of it with only white space before and after. */
  lemma TrimSpaceSlice(s: string)
    ensures exists i, j :: 0 <= i <= j <= |s| && TrimSpace(s) == s[i..j] && Blank(s[..i]) && Blank(s[j..])
  {
    var i, j := TrimSpaceBounds(s);
  }

  /** The bounds of the slice `TrimSpace` keeps. */
  lemma {:induction false} TrimSpaceBounds(s: string) returns (i: nat, j: nat)
    ensures i <= j <= |s| && TrimSpace(s) == s[i..j] && Blank(s[..i]) && Blank(s[j..])
    decreases |s|
  {
    if |s| > 0 && IsSpace(s[0]) {
      var t := s[1..];
      assert TrimSpace(s) == TrimSpace(t);
      var i', j' := TrimSpaceBounds(t);
      BoundsFront(s, i', j');
      i, j := i' + 1, j' + 1;
      assert TrimSpace(s) == s[i..j];
    } else if |s| > 0 && IsSpace(s[|s| - 1]) {
      var t := s[..|s| - 1];
      assert TrimSpace(s) == TrimSpace(t);
      i, j := TrimSpaceBounds(t);
      BoundsBack(s, i, j);
      assert TrimSpace(s) == s[i..j];
    } else {
      i, j := 0, |s|;
      assert TrimSpace(s) == s == s[0..|s|];
      assert s[..0] == [] && s[|s|..] == [];
    }
  }

  /** Bounds in `s[1..]` moved one place right stay bounds in `s` when
      `s[0]` is white space. */
  lemma BoundsFront(s: string, i: nat, j: nat)
    requires |s| > 0 && IsSpace(s[0]) && i <= j <= |s| - 1
    requires Blank(s[1..][..i]) && Blank(s[1..][j..])
    ensures s[1..][i..j] == s[i + 1..j + 1] && Blank(s[..i + 1]) && Blank(s[j + 1..])
  {
    assert s[..i + 1] == [s[0]] + s[1..][..i];
    assert s[j + 1..] == s[1..][j..];
    BlankFront(s[0], s[1..][..i]);
  }

  /** Bounds in `s[..|s| - 1]` stay bounds in `s` when its last character is
      white space. */
  lemma BoundsBack(s: string, i: nat, j: nat)
    requires |s| > 0 && IsSpace(s[|s| - 1]) && i <= j <= |s| - 1
    requires Blank(s[..|s| - 1][..i]) && Blank(s[..|s| - 1][j..])
    ensures s[..|s| - 1][i..j] == s[i..j] && Blank(s[..i]) && Blank(s[j..])
  {
    assert s[..i] == s[..|s| - 1][..i];
    assert s[j..] == s[..|s| - 1][j..] + [s[|s| - 1]];
    BlankBack(s[..|s| - 1][j..], s[|s| - 1]);
  }

  lemma BlankFront(c: char, t: string)
    requires IsSpace(c) && Blank(t)
    ensures Blank([c] + t)
  {
    assert forall k :: 0 < k < |t| + 1 ==> ([c] + t)[k] == t[k - 1];
  }

  lemma BlankBack(t: string, c: char)
    requires IsSpace(c) && Blank(t)
    ensures Blank(t + [c])
  {
    assert forall k :: 0 <= k < |t| ==> (t + [c])[k] == t[k];
  }

  /** Trimming twice is trimming once. */
  lemma TrimSpaceIdempotent(s: string)
    ensures TrimSpace(TrimSpace(s)) == TrimSpace(s)
  {
    TrimSpaceEnds(s);
    TrimSpaceKeeps(TrimSpace(s));
  }

  lemma TrimSpaceKeeps(t: string)
    requires t == "" || (!IsSpace(t[0]) && !IsSpace(t[|t| - 1]))
    ensures TrimSpace(t) == t
  {
  }

  /** ASCII case mapping of one character (see README, "Left out"). */
  function LowerChar(c: char): (r: char)
    ensures 'A' <= r <= 'Z' ==> false
  {
    if 'A' <= c <= 'Z' then (c as int + 32) as char else c
  }

  /** Go's `strings.ToLower`, for ASCII letters. */
  function ToLower(s: string): (r: string)
    ensures |r| == |s|
    ensures forall i :: 0 <= i < |s| ==> r[i] == LowerChar(s[i])
  {
    seq(|s|, i requires 0 <= i < |s| => LowerChar(s[i]))
  }

  lemma ToLowerIdempotent(s: string)
    ensures ToLower(ToLower(s)) == ToLower(s)
  {
  }

  /** Lower-casing a trimmed string leaves it trimmed. */
  lemma LowerKeepsTrimmed(t: string)
    requires t == "" || (!IsSpace(t[0]) && !IsSpace(t[|t| - 1]))
    ensures var l := ToLower(t); l == "" || (!IsSpace(l[0]) && !IsSpace(l[|l| - 1]))
  {
  }

  predicate HasPrefix(s: string, p: string) {
    p <= s
  }

  predicate HasSuffix(s: string, q: string) {
    |q| <= |s| && s[|s| - |q|..] == q
  }

  /** `t` occurs in `s` starting at offset `i`. */
  predicate At(s: string, t: string, i: int) {
    0 <= i && i + |t| <= |s| && s[i..i + |t|] == t
  }

  /** Go's `strings.Contains`. */
  predicate Contains(s: string, t: string) {
    exists i | 0 <= i <= |s| - |t| :: At(s, t, i)
  }

  /** The last `|q|` characters having no occurrence of `t` at all means `t`
      does not occur in the suffix either. */
  lemma ContainsSuffix(s: string, t: string, k: nat)
    requires k <= |s| && Contains(s[k..], t)
    ensures Contains(s, t)
  {
    var i :| 0 <= i <= |s[k..]| - |t| && At(s[k..], t, i);
    assert s[k..][i..i + |t|] == s[k + i..k + i + |t|];
    assert At(s, t, k + i);
  }

  // ----- strings.Split and its inverse -----

  /** Go's `strings.Split(s, string(sep))`: the pieces between separators,
      always at least one. */
  function Split(s: string, sep: char): (r: seq<string>)
    ensures |r| >= 1
    ensures forall i :: 0 <= i < |r| ==> sep !in r[i]
    decreases |s|
  {
    if s == "" then [""]
    else if s[0] == sep then [""] + Split(s[1..], sep)
    else
      var rest := Split(s[1..], sep);
      [[s[0]] + rest[0]] + rest[1..]
  }

  /** Go's `strings.Join(parts, string(sep))` for a non-empty list. */
  function JoinWith(parts: seq<string>, sep: char): string
    requires |parts| >= 1
    decreases |parts|
  {
    if |parts| == 1 then parts[0] else parts[0] + [sep] + JoinWith(parts[1..], sep)
  }

  /** Splitting loses nothing: the pieces joined back give the input. */
  lemma {:induction false} SplitJoin(s: string, sep: char)
    ensures JoinWith(Split(s, sep), sep) == s
    decreases |s|
  {
    if s == "" {
    } else if s[0] == sep {
      SplitJoin(s[1..], sep);
      var rest := Split(s[1..], sep);
      assert Split(s, sep) == [""] + rest;
      assert ([""] + rest)[1..] == rest;
    } else {
      SplitJoin(s[1..], sep);
      var rest := Split(s[1..], sep);
      var r := [[s[0]] + rest[0]] + rest[1..];
      assert Split(s, sep) == r;
      if |rest| == 1 {
        assert JoinWith(r, sep) == [s[0]] + rest[0];
      } else {
        assert r[1..] == rest[1..];
        assert JoinWith(rest, sep) == rest[0] + [sep] + JoinWith(rest[1..], sep);
        assert JoinWith(r, sep) == [s[0]] + (rest[0] + [sep] + JoinWith(rest[1..], sep));
      }
    }
  }

  /** Joining pieces that hold no separator and splitting again gives the
      pieces back. */
  lemma {:induction false} JoinSplit(parts: seq<string>, sep: char)
    requires |parts| >= 1
    requires forall i :: 0 <= i < |parts| ==> sep !in parts[i]
    ensures Split(JoinWith(parts, sep), sep) == parts
    decreases |parts|, |parts[0]|
  {
    var p := parts[0];
    if |parts| == 1 {
      SplitNoSep(p, sep);
    } else if p == "" {
      var rest := JoinWith(parts[1..], sep);
      assert JoinWith(parts, sep) == [sep] + rest;
      JoinSplit(parts[1..], sep);
      SplitSepHead(rest, sep);
      assert parts == [""] + parts[1..];
    } else {
      var tail := [p[1..]] + parts[1..];
      assert tail[1..] == parts[1..];
      assert forall i :: 0 <= i < |tail| ==> sep !in tail[i] by {
        forall i | 0 <= i < |tail| ensures sep !in tail[i] {
          if i == 0 { assert forall c :: c in p[1..] ==> c in p; } else { assert tail[i] == parts[i]; }
        }
      }
      var rest := JoinWith(tail, sep);
      assert rest == p[1..] + [sep] + JoinWith(parts[1..], sep);
      assert JoinWith(parts, sep) == [p[0]] + rest;
      assert p[0] in p;
      JoinSplit(tail, sep);
      SplitCharHead(p[0], rest, sep);
      assert [p[0]] + p[1..] == p;
      assert parts == [p] + parts[1..];
    }
  }

  lemma SplitSepHead(rest: string, sep: char)
    ensures Split([sep] + rest, sep) == [""] + Split(rest, sep)
  {
    assert ([sep] + rest)[1..] == rest;
  }

  lemma SplitCharHead(c: char, rest: string, sep: char)
    requires c != sep
    ensures var r := Split(rest, sep); Split([c] + rest, sep) == [[c] + r[0]] + r[1..]
  {
    assert ([c] + rest)[0] == c && ([c] + rest)[1..] == rest;
  }

  lemma {:induction false} SplitNoSep(s: string, sep: char)
    requires sep !in s
    ensures Split(s, sep) == [s]
    decreases |s|
  {
    if s != "" {
      assert forall c :: c in s[1..] ==> c in s;
      SplitNoSep(s[1..], sep);
      assert [s[0]] + s[1..] == s;
    }
  }

  // ----- path/filepath, for '/'-separated paths -----

  function DropTrailingSlashes(s: string): (r: string)
    ensures r <= s
    ensures r == "" || r[|r| - 1] != '/'
    decreases |s|
  {
    if |s| > 0 && s[|s| - 1] == '/' then DropTrailingSlashes(s[..|s| - 1]) else s
  }

  /** The characters after the last '/', or all of `s` when it has none. */
  function AfterLastSlash(s: string): (r: string)
    ensures '/' !in r
    ensures |r| <= |s| && r == s[|s| - |r|..]
    ensures s != "" && s[|s| - 1] != '/' ==> r != ""
    decreases |s|
  {
    if s == "" || s[|s| - 1] == '/' then ""
    else AfterLastSlash(s[..|s| - 1]) + [s[|s| - 1]]
  }

  /** Everything up to and including the last '/', or "" when there is none. */
  function UpToLastSlash(s: string): (r: string)
    ensures r <= s
    ensures r == "" || r[|r| - 1] == '/'
    decreases |s|
  {
    if s == "" then ""
    else if s[|s| - 1] == '/' then s
    else UpToLastSlash(s[..|s| - 1])
  }

  /** Go's `filepath.Base`: the last element, "." for "" and "/" for a path of
      slashes only. */
  function Base(path: string): (r: string)
    ensures r != ""
    ensures r != "/" ==> '/' !in r
  {
    if path == "" then "."
    else
      var p := DropTrailingSlashes(path);
      if p == "" then "/" else AfterLastSlash(p)
  }

  lemma {:induction false} AfterLastSlashOf(a: string, b: string)
    requires '/' !in b
    ensures AfterLastSlash(a + "/" + b) == b
    decreases |b|
  {
    var p := a + "/";
    assert p[|p| - 1] == '/';
    AfterSlashSuffix(p, b);
  }

  lemma {:induction false} AfterSlashSuffix(p: string, b: string)
    requires p != "" && p[|p| - 1] == '/' && '/' !in b
    ensures AfterLastSlash(p + b) == b
    decreases |b|
  {
    if b == "" {
      assert p + b == p;
    } else {
      var s := p + b;
      var init, last := b[..|b| - 1], b[|b| - 1];
      assert last in b;
      assert s[|s| - 1] == last;
      assert s[..|s| - 1] == p + init;
      assert '/' !in init by {
        assert forall c :: c in init ==> c in b;
      }
      assert last != '/';
      assert AfterLastSlash(s) == AfterLastSlash(p + init) + [last];
      AfterSlashSuffix(p, init);
      assert init + [last] == b;
    }
  }

  /** The base name of `a/b` is `b` when `b` is a plain name. */
  lemma BaseOf(a: string, b: string)
    requires b != "" && '/' !in b
    ensures Base(a + "/" + b) == b
  {
    var s := a + "/" + b;
    assert s[|s| - 1] == b[|b| - 1];
    assert DropTrailingSlashes(s) == s;
    AfterLastSlashOf(a, b);
  }

  /** A plain name is its own base name. */
  lemma BasePlain(b: string)
    requires b != "" && '/' !in b
    ensures Base(b) == b
  {
    assert DropTrailingSlashes(b) == b;
    AfterLastSlashPlain(b);
  }

  lemma {:induction false} AfterLastSlashPlain(b: string)
    requires '/' !in b
    ensures AfterLastSlash(b) == b
    decreases |b|
  {
    if b != "" {
      assert forall c :: c in b[..|b| - 1] ==> c in b;
      AfterLastSlashPlain(b[..|b| - 1]);
    }
  }

  /** Go's `filepath.Dir`, without the `Clean` of inner elements (see README). */
  function Dir(path: string): string {
    var head := UpToLastSlash(path);
    if head == "" then "."
    else
      var d := DropTrailingSlashes(head);
      if d == "" then "/" else d
  }

  /** The last '/' of `a/name` is the one before `name` when `name` has none. */
  lemma {:induction false} UpToLastSlashOf(a: string, name: string)
    requires '/' !in name
    ensures UpToLastSlash(a + "/" + name) == a + "/"
    decreases |name|
  {
    var p := a + "/" + name;
    if name == "" {
      assert p == a + "/";
    } else {
      assert p[..|p| - 1] == a + "/" + name[..|name| - 1];
      UpToLastSlashOf(a, name[..|name| - 1]);
    }
  }

  /** The directory of `d/name` is `d`. */
  lemma DirOf(d: string, name: string)
    requires d != "" && d[|d| - 1] != '/' && '/' !in name
    ensures Dir(d + "/" + name) == d
  {
    UpToLastSlashOf(d, name);
    assert (d + "/")[..|d|] == d;
    assert DropTrailingSlashes(d + "/") == DropTrailingSlashes(d) == d;
  }

  /** A '/'-terminated prefix of `s` is kept by `UpToLastSlash`. */
  lemma {:induction false} UpToLastSlashKeeps(s: string, p: string)
    requires p <= s && p != "" && p[|p| - 1] == '/'
    ensures p <= UpToLastSlash(s)
    decreases |s|
  {
    if s[|s| - 1] != '/' {
      assert |p| < |s|;
      UpToLastSlashKeeps(s[..|s| - 1], p);
    }
  }

  /** Dropping trailing slashes after `d + "/"` stops at `d` at the latest
      when `d` does not end in a slash itself. */
  lemma {:induction false} DropTrailingSlashesKeeps(h: string, d: string)
    requires d + "/" <= h && d != "" && d[|d| - 1] != '/'
    ensures d <= DropTrailingSlashes(h)
    decreases |h|
  {
    if h[|h| - 1] == '/' {
      if |h| == |d| + 1 {
        assert h[..|h| - 1] == d;
        assert DropTrailingSlashes(d) == d;
      } else {
        assert d + "/" <= h[..|h| - 1];
        DropTrailingSlashesKeeps(h[..|h| - 1], d);
      }
    }
  }

  /** The directory of a path below `d` is `d` or lies below it. */
  lemma DirBelow(path: string, d: string)
    requires HasPrefix(path, d + "/") && d != "" && d[|d| - 1] != '/'
    ensures var r := Dir(path); r == d || HasPrefix(r, d + "/")
  {
    var head := UpToLastSlash(path);
    UpToLastSlashKeeps(path, d + "/");
    DropTrailingSlashesKeeps(head, d);
    var r := DropTrailingSlashes(head);
    assert r <= head;
    if |r| > |d| {
      assert r[..|d| + 1] == head[..|d| + 1] == d + "/";
    }
  }

  /** Go's `filepath.Join` of two elements, without `Clean` (see README). */
  function Join(a: string, b: string): (r: string)
    ensures b <= r || a <= r
  {
    if a == "" || a == "." then b
    else if b == "" then a
    else if HasSuffix(a, "/") then a + b
    else a + "/" + b
  }

  /** The joined value: an empty or "." first element gives the second, an
      empty second element gives the first, and otherwise the first element,
      one '/' unless it already ends in one, and the second. */
  lemma JoinShape(a: string, b: string)
    ensures a == "" || a == "." ==> Join(a, b) == b
    ensures a != "" && a != "." && b == "" ==> Join(a, b) == a
    ensures a != "" && a != "." && b != "" ==>
      && HasPrefix(Join(a, b), a) && HasSuffix(Join(a, b), b)
      && |Join(a, b)| == |a| + |b| + (if HasSuffix(a, "/") then 0 else 1)
      && (!HasSuffix(a, "/") ==> Join(a, b)[|a|] == '/')
  {
  }

  /** A joined path ends with its last element. */
  lemma JoinEndsWith(a: string, b: string)
    requires b != ""
    ensures HasSuffix(Join(a, b), b)
  {
  }

  // ----- filepath.Clean -----

  /** The elements of a cleaned path: none is empty or "." or holds a '/',
      and ".." elements only lead a path that is not rooted. */
  predicate CleanElements(es: seq<string>, rooted: bool) {
    && (forall i :: 0 <= i < |es| ==> es[i] != "" && es[i] != "." && '/' !in es[i])
    && (forall i :: 0 <= i < |es| && es[i] == ".." ==> !rooted && forall j :: 0 <= j < i ==> es[j] == "..")
  }

  /** Add one element to the cleaned elements so far: drop "" and ".", let a
      ".." cancel the element before it (or vanish at the root). */
  function CleanStep(acc: seq<string>, e: string, rooted: bool): seq<string> {
    if e == "" || e == "." then acc
    else if e == ".." then
      if |acc| > 0 && acc[|acc| - 1] != ".." then acc[..|acc| - 1]
      else if rooted then acc
      else acc + [".."]
    else acc + [e]
  }

  function CleanFold(es: seq<string>, acc: seq<string>, rooted: bool): seq<string>
    decreases |es|
  {
    if es == [] then acc else CleanFold(es[1..], CleanStep(acc, es[0], rooted), rooted)
  }

  /** Go's `filepath.Clean`, lexically: the shortest path naming the same
      file, "." for an empty result. */
  function Clean(path: string): string {
    var rooted := path != "" && path[0] == '/';
    var es := CleanFold(Split(path, '/'), [], rooted);
    var body := if es == [] then "" else JoinWith(es, '/');
    if rooted then "/" + body else if body == "" then "." else body
  }

  lemma CleanStepKeeps(acc: seq<string>, e: string, rooted: bool)
    requires CleanElements(acc, rooted) && '/' !in e
    ensures CleanElements(CleanStep(acc, e, rooted), rooted)
  {
    if e == ".." && !(|acc| > 0 && acc[|acc| - 1] != "..") && !rooted {
      assert forall j :: 0 <= j < |acc| ==> acc[j] == "..";
    }
  }

  lemma {:induction false} CleanFoldKeeps(es: seq<string>, acc: seq<string>, rooted: bool)
    requires CleanElements(acc, rooted)
    requires forall i :: 0 <= i < |es| ==> '/' !in es[i]
    ensures CleanElements(CleanFold(es, acc, rooted), rooted)
    decreases |es|
  {
    if es != [] {
      CleanStepKeeps(acc, es[0], rooted);
      CleanFoldKeeps(es[1..], CleanStep(acc, es[0], rooted), rooted);
    }
  }

  /** Elements that are already clean pass through unchanged. */
  lemma {:induction false} CleanFoldIdentity(xs: seq<string>, acc: seq<string>, rooted: bool)
    requires CleanElements(acc + xs, rooted)
    ensures CleanFold(xs, acc, rooted) == acc + xs
    decreases |xs|
  {
    if xs != [] {
      var all := acc + xs;
      assert all[|acc|] == xs[0];
      if xs[0] == ".." {
        assert forall j :: 0 <= j < |acc| ==> acc[j] == all[j];
      }
      assert CleanStep(acc, xs[0], rooted) == acc + [xs[0]];
      assert (acc + [xs[0]]) + xs[1..] == all;
      CleanFoldIdentity(xs[1..], acc + [xs[0]], rooted);
    }
  }

  lemma {:induction false} JoinWithFirst(es: seq<string>, sep: char)
    requires |es| >= 1 && es[0] != ""
    ensures JoinWith(es, sep) != "" && JoinWith(es, sep)[0] == es[0][0]
  {
  }

  lemma {:induction false} JoinWithLast(es: seq<string>, sep: char)
    requires |es| >= 1 && es[|es| - 1] != ""
    ensures var j := JoinWith(es, sep); j != "" && j[|j| - 1] == es[|es| - 1][|es[|es| - 1]| - 1]
    decreases |es|
  {
    if |es| > 1 {
      JoinWithLast(es[1..], sep);
    }
  }

  lemma {:induction false} JoinWithConcat(xs: seq<string>, ys: seq<string>, sep: char)
    requires |xs| >= 1 && |ys| >= 1
    ensures JoinWith(xs + ys, sep) == JoinWith(xs, sep) + [sep] + JoinWith(ys, sep)
    decreases |xs|
  {
    if |xs| == 1 {
      assert (xs + ys)[1..] == ys;
    } else {
      assert (xs + ys)[1..] == xs[1..] + ys;
      JoinWithConcat(xs[1..], ys, sep);
    }
  }

  /** Splitting at a separator splits the two sides independently. */
  lemma {:induction false} SplitConcat(a: string, b: string, sep: char)
    ensures Split(a + [sep] + b, sep) == Split(a, sep) + Split(b, sep)
    decreases |a|
  {
    var s := a + [sep] + b;
    if a == "" {
      assert s[1..] == b;
    } else {
      assert s[1..] == a[1..] + [sep] + b;
      SplitConcat(a[1..], b, sep);
    }
  }

  /** The cleaned path is never empty, keeps the path rooted or not, and ends
      in '/' only when it is the root itself. */
  lemma CleanShape(path: string)
    ensures var c := Clean(path);
      && c != ""
      && (c[0] == '/' <==> path != "" && path[0] == '/')
      && (c == "/" || c[|c| - 1] != '/')
  {
    var rooted := path != "" && path[0] == '/';
    var es := CleanFold(Split(path, '/'), [], rooted);
    CleanFoldKeeps(Split(path, '/'), [], rooted);
    if es != [] {
      JoinWithFirst(es, '/');
      JoinWithLast(es, '/');
    }
  }

  /** Cleaning twice is cleaning once. */
  lemma CleanIdempotent(path: string)
    ensures Clean(Clean(path)) == Clean(path)
  {
    var rooted := path != "" && path[0] == '/';
    var es := CleanFold(Split(path, '/'), [], rooted);
    CleanFoldKeeps(Split(path, '/'), [], rooted);
    var c := Clean(path);
    if es == [] {
      if rooted {
        assert c == "/";
        CleanRoot();
      } else {
        assert c == ".";
        CleanDot();
      }
    } else {
      var j := JoinWith(es, '/');
      JoinSplit(es, '/');
      JoinWithFirst(es, '/');
      if rooted {
        assert c == "/" + j;
        RootedSplit(j);
        CleanRooted(c, es);
      } else {
        assert c == j;
        CleanUnrooted(c, es);
      }
    }
  }

  lemma CleanRoot()
    ensures Clean("/") == "/"
  {
    RootedSplit("");
    assert Split("/", '/') == ["", ""];
  }

  lemma CleanDot()
    ensures Clean(".") == "."
  {
    SplitDot();
  }

  lemma SplitDot()
    ensures Split(".", '/') == ["."]
  {
    var d := ".";
    assert d != "" && d[0] == '.' && d[0] != '/' && d[1..] == "";
    var rest := Split(d[1..], '/');
    assert rest == [""];
    assert [d[0]] + rest[0] == ".";
    assert rest[1..] == [];
  }

  lemma RootedSplit(j: string)
    ensures Split("/" + j, '/') == [""] + Split(j, '/')
  {
    assert ("/" + j)[1..] == j;
  }

  /** The elements of a rooted clean path other than "/". */
  lemma RootedCleanElements(dir: string)
    requires Clean(dir) == dir && |dir| > 1 && dir[0] == '/'
    ensures var ds := CleanFold(Split(dir, '/'), [], true);
      && ds != [] && CleanElements(ds, true)
      && dir == "/" + JoinWith(ds, '/')
      && Split(dir, '/') == [""] + ds
  {
    var ds := CleanFold(Split(dir, '/'), [], true);
    CleanFoldKeeps(Split(dir, '/'), [], true);
    assert ds != [];
    var j := JoinWith(ds, '/');
    assert dir == "/" + j;
    RootedSplit(j);
    JoinSplit(ds, '/');
  }

  lemma PlainConcat(ds: seq<string>, ns: seq<string>)
    requires CleanElements(ds, true) && CleanElements(ns, true)
    ensures CleanElements(ds + ns, true)
  {
    var all := ds + ns;
    forall i | 0 <= i < |all|
      ensures all[i] != "" && all[i] != "." && '/' !in all[i] && all[i] != ".."
    {
      if i < |ds| { assert all[i] == ds[i]; } else { assert all[i] == ns[i - |ds|]; }
    }
  }

  lemma CleanRooted(path: string, es: seq<string>)
    requires path != "" && path[0] == '/'
    requires Split(path, '/') == [""] + es
    requires CleanElements(es, true) && es != []
    ensures Clean(path) == "/" + JoinWith(es, '/')
  {
    var all := [""] + es;
    assert all[0] == "" && all[1..] == es;
    assert CleanFold(all, [], true) == CleanFold(es, [], true);
    assert [] + es == es;
    CleanFoldIdentity(es, [], true);
    assert CleanFold(Split(path, '/'), [], true) == es;
  }

  lemma CleanUnrooted(path: string, es: seq<string>)
    requires path != "" && path[0] != '/'
    requires Split(path, '/') == es
    requires CleanElements(es, false) && es != []
    ensures Clean(path) == JoinWith(es, '/')
  {
    assert es == [] + es;
    CleanFoldIdentity(es, [], false);
    JoinWithFirst(es, '/');
  }

  lemma SplitJoined(dir: string, name: string, ds: seq<string>)
    requires Split(dir, '/') == [""] + ds
    ensures Split(dir + "/" + name, '/') == [""] + (ds + Split(name, '/'))
  {
    assert dir + "/" + name == dir + ['/'] + name;
    SplitConcat(dir, name, '/');
  }

  /** The elements of a rooted clean directory followed by a plain name. */
  lemma PlainJoinElements(dir: string, name: string)
    requires Clean(dir) == dir && |dir| > 1 && dir[0] == '/'
    requires CleanElements(Split(name, '/'), true)
    ensures var ds := CleanFold(Split(dir, '/'), [], true);
      var ns := Split(name, '/');
      && Split(dir + "/" + name, '/') == [""] + (ds + ns)
      && CleanElements(ds + ns, true) && ds + ns != []
      && dir == "/" + JoinWith(ds, '/') && name == JoinWith(ns, '/')
  {
    RootedCleanElements(dir);
    var ds := CleanFold(Split(dir, '/'), [], true);
    var ns := Split(name, '/');
    SplitJoin(name, '/');
    SplitJoined(dir, name, ds);
    PlainConcat(ds, ns);
  }

  /** Joining a name to a directory without a trailing '/' puts one '/'
      between them. */
  lemma JoinPlain(dir: string, name: string)
    requires dir != "" && dir != "." && dir[|dir| - 1] != '/' && name != ""
    ensures Join(dir, name) == dir + "/" + name
  {
  }

  /** `dir/name` is already clean when `dir` is and `name` is plain. */
  lemma CleanPlainConcat(dir: string, name: string)
    requires Clean(dir) == dir && |dir| > 1 && dir[0] == '/'
    requires CleanElements(Split(name, '/'), true)
    ensures Clean(dir + "/" + name) == dir + "/" + name
  {
    PlainJoinElements(dir, name);
    var ds := CleanFold(Split(dir, '/'), [], true);
    var ns := Split(name, '/');
    var t := dir + "/" + name;
    assert t[0] == '/';
    CleanRooted(t, ds + ns);
    JoinWithConcat(ds, ns, '/');
    SlashConcat(JoinWith(ds, '/'), JoinWith(ns, '/'));
  }

  lemma SlashConcat(a: string, b: string)
    ensures "/" + (a + ['/'] + b) == ("/" + a) + "/" + b
  {
  }

  /** A rooted, already clean directory other than "/" joined with a path of
      plain elements (no "", "." or "..") stays as it is when cleaned. */
  lemma CleanPlainJoin(dir: string, name: string)
    requires Clean(dir) == dir && |dir| > 1 && dir[0] == '/'
    requires CleanElements(Split(name, '/'), true)
    ensures Clean(Join(dir, name)) == dir + "/" + name
  {
    PlainJoinElements(dir, name);
    JoinWithFirst(Split(name, '/'), '/');
    CleanShape(dir);
    JoinPlain(dir, name);
    CleanPlainConcat(dir, name);
  }

  // ----- strings.ReplaceAll for one character -----

  function ReplaceChar(s: string, from: char, to: char): (r: string)
    ensures |r| == |s|
    ensures forall i :: 0 <= i < |s| ==> r[i] == if s[i] == from then to else s[i]
  {
    seq(|s|, i requires 0 <= i < |s| => if s[i] == from then to else s[i])
  }

  lemma ReplaceCharRemoves(s: string, from: char, to: char)
    requires from != to
    ensures from !in ReplaceChar(s, from, to)
  {
    var r := ReplaceChar(s, from, to);
    forall i | 0 <= i < |r| ensures r[i] != from { }
  }

  // ----- decimal formatting (fmt's %d) -----

  function DigitChar(d: nat): char
    requires d < 10
  {
    "0123456789"[d]
  }

  function NatToString(n: nat): (r: string)
    ensures r != ""
    ensures forall i :: 0 <= i < |r| ==> '0' <= r[i] <= '9'
    decreases n
  {
    if n < 10 then [DigitChar(n)] else NatToString(n / 10) + [DigitChar(n % 10)]
  }

  /** `%d` of an integer. */
  function IntToString(i: int): string {
    if i < 0 then "-" + NatToString(-i) else NatToString(i)
  }

  /** The value of a string of decimal digits. */
  function DecimalValue(s: string): int
    decreases |s|
  {
    if s == "" then 0 else 10 * DecimalValue(s[..|s| - 1]) + (s[|s| - 1] as int - '0' as int)
  }

  /** Reading back the digits gives the number. */
  lemma {:induction false} NatToStringValue(n: nat)
    ensures DecimalValue(NatToString(n)) == n
    decreases n
  {
    if n >= 10 {
      NatToStringValue(n / 10);
      var r := NatToString(n);
      assert r[..|r| - 1] == NatToString(n / 10);
    }
  }

  /** The formatted number is never written with a redundant leading zero. */
  lemma {:induction false} NatToStringNoLeadingZero(n: nat)
    ensures NatToString(n)[0] == '0' ==> n == 0
    decreases n
  {
    if n >= 10 {
      NatToStringNoLeadingZero(n / 10);
    }
  }

  // ----- byte-wise string order (Go's < on strings, sort.Strings) -----

  /** `a` sorts before or equal to `b`. Go compares the UTF-8 bytes, which
      orders strings the same way as comparing code points. */
  predicate AtMost(a: string, b: string)
    decreases |a|
  {
    if a == "" then true
    else if b == "" then false
    else if a[0] != b[0] then a[0] < b[0]
    else AtMost(a[1..], b[1..])
  }

  lemma {:induction false} AtMostTotal(a: string, b: string)
    ensures AtMost(a, b) || AtMost(b, a)
    decreases |a|
  {
    if a != "" && b != "" && a[0] == b[0] {
      AtMostTotal(a[1..], b[1..]);
    }
  }

  lemma {:induction false} AtMostTransitive(a: string, b: string, c: string)
    requires AtMost(a, b) && AtMost(b, c)
    ensures AtMost(a, c)
    decreases |a|
  {
    if a != "" && b != "" && c != "" && a[0] == b[0] && b[0] == c[0] {
      AtMostTransitive(a[1..], b[1..], c[1..]);
    }
  }

  lemma {:induction false} AtMostAntisymmetric(a: string, b: string)
    requires AtMost(a, b) && AtMost(b, a)
    ensures a == b
    decreases |a|
  {
    if a != "" && b != "" {
      AtMostAntisymmetric(a[1..], b[1..]);
      assert a == [a[0]] + a[1..] && b == [b[0]] + b[1..];
    }
  }

  predicate Sorted(xs: seq<string>) {
    forall i, j :: 0 <= i < j < |xs| ==> AtMost(xs[i], xs[j])
  }

  /** Insert `x` into the sorted list `xs`. */
  function Insert(x: string, xs: seq<string>): (r: seq<string>)
    requires Sorted(xs)
    ensures Sorted(r) && multiset(r) == multiset(xs) + multiset{x}
    decreases |xs|
  {
    if xs == [] then [x]
    else if AtMost(x, xs[0]) then
      assert forall j :: 0 <= j < |xs| ==> AtMost(x, xs[j]) by {
        forall j | 0 <= j < |xs| ensures AtMost(x, xs[j]) {
          if j > 0 { AtMostTransitive(x, xs[0], xs[j]); }
        }
      }
      [x] + xs
    else
      AtMostTotal(x, xs[0]);
      var rest := Insert(x, xs[1..]);
      assert multiset(xs) == multiset{xs[0]} + multiset(xs[1..]) by { assert xs == [xs[0]] + xs[1..]; }
      assert forall y :: y in multiset(rest) ==> AtMost(xs[0], y) by {
        forall y | y in multiset(rest) ensures AtMost(xs[0], y) {
          if y != x {
            assert y in multiset(xs[1..]);
            var k :| 1 <= k < |xs| && xs[k] == y by { assert y in xs[1..]; }
          }
        }
      }
      assert forall j :: 0 <= j < |rest| ==> AtMost(xs[0], rest[j]) by {
        forall j | 0 <= j < |rest| ensures AtMost(xs[0], rest[j]) {
          assert rest[j] in multiset(rest);
        }
      }
      [xs[0]] + rest
  }

  /** `sort.Strings`: the same strings in ascending order. */
  function SortStrings(xs: seq<string>): (r: seq<string>)
    ensures Sorted(r) && multiset(r) == multiset(xs)
    decreases |xs|
  {
    if xs == [] then []
    else
      assert xs == [xs[0]] + xs[1..];
      Insert(xs[0], SortStrings(xs[1..]))
  }
}
