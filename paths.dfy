/** POSIX path handling as `os.path` does it (`join`, `abspath`, `relpath`, `dirname`,
    `splitext`), with paths normalised as lists of segments. The working directory is a
    parameter. */
module Paths {
  import opened Base
  import opened Strings

  /** `s.split('/')`. */
  function Split(s: string): (r: seq<string>)
    ensures |r| >= 1
    ensures forall i :: 0 <= i < |r| ==> '/' !in r[i]
    decreases |s|
  {
    match Find(s, '/')
    case None => [s]
    case Some(i) => [s[..i]] + Split(s[i + 1..])
  }

  /** `'/'.join(segments)`. */
  function JoinSegments(segments: seq<string>): string
    decreases |segments|
  {
    if segments == [] then []
    else if |segments| == 1 then segments[0]
    else segments[0] + "/" + JoinSegments(segments[1..])
  }

  /** Splitting on `/` and joining with `/` gives back the path. */
  lemma {:induction false} JoinSplit(s: string)
    ensures JoinSegments(Split(s)) == s
    decreases |s|
  {
    match Find(s, '/')
    case None =>
    case Some(i) =>
      var rest := Split(s[i + 1..]);
      var r := [s[..i]] + rest;
      assert Split(s) == r;
      assert |r| >= 2 && r[0] == s[..i] && r[1..] == rest;
      assert JoinSegments(r) == s[..i] + "/" + JoinSegments(rest);
      JoinSplit(s[i + 1..]);
      assert s == s[..i] + "/" + s[i + 1..];
  }

  /** Splitting a path at a separator puts the segments of both sides together. */
  lemma {:induction false} SplitAtSlash(a: string, b: string)
    ensures Split(a + "/" + b) == Split(a) + Split(b)
    decreases |a|
  {
    var s := a + "/" + b;
    match Find(a, '/')
    case None =>
      assert s[..|a|] == a && s[|a|] == '/';
      assert Find(s, '/') == Some(|a|) by { FindAfter(a, "/" + b); assert s == a + ("/" + b); }
      assert s[|a| + 1..] == b;
    case Some(i) =>
      FindAppend(a, "/" + b, '/');
      assert s == a + ("/" + b);
      assert s[..i] == a[..i];
      assert s[i + 1..] == a[i + 1..] + "/" + b;
      SplitAtSlash(a[i + 1..], b);
  }

  lemma {:induction false} FindAfter(a: string, b: string)
    requires '/' !in a && b != [] && b[0] == '/'
    ensures Find(a + b, '/') == Some(|a|)
    decreases |a|
  {
    if a != [] {
      assert (a + b)[1..] == a[1..] + b;
      FindAfter(a[1..], b);
    } else {
      assert a + b == b;
    }
  }

  /** `os.path.join(a, b)`: an absolute `b` replaces `a`; otherwise a separator is inserted
      unless `a` is empty or already ends with one. */
  function Join(a: string, b: string): string {
    if b != [] && b[0] == '/' then b
    else if a == [] || a[|a| - 1] == '/' then a + b
    else a + "/" + b
  }

  /** A segment that normalisation keeps as it is. */
  predicate Plain(segment: string) {
    segment != [] && segment != "." && segment != ".." && '/' !in segment
  }

  predicate AllPlain(segments: seq<string>) {
    forall i :: 0 <= i < |segments| ==> Plain(segments[i])
  }

  /** One step of `os.path.normpath` on an absolute path: empty and `.` segments vanish,
      `..` removes the last segment (and stays at the root when there is none). */
  function Step(acc: seq<string>, segment: string): seq<string> {
    if segment == [] || segment == "." then acc
    else if segment == ".." then (if acc == [] then acc else acc[..|acc| - 1])
    else acc + [segment]
  }

  function Normalize(acc: seq<string>, segments: seq<string>): seq<string>
    decreases |segments|
  {
    if segments == [] then acc else Normalize(Step(acc, segments[0]), segments[1..])
  }

  /** Normalised absolute paths hold plain segments only. */
  lemma {:induction false} NormalizePlain(acc: seq<string>, segments: seq<string>)
    requires AllPlain(acc)
    requires forall i :: 0 <= i < |segments| ==> '/' !in segments[i]
    ensures AllPlain(Normalize(acc, segments))
    decreases |segments|
  {
    if segments != [] {
      NormalizePlain(Step(acc, segments[0]), segments[1..]);
    }
  }

  /** Plain segments are appended unchanged. */
  lemma {:induction false} NormalizeOfPlain(acc: seq<string>, segments: seq<string>)
    requires AllPlain(segments)
    ensures Normalize(acc, segments) == acc + segments
    decreases |segments|
  {
    if segments != [] {
      NormalizeOfPlain(acc + [segments[0]], segments[1..]);
      assert acc + [segments[0]] + segments[1..] == acc + segments;
    }
  }

  /** Normalisation is a left fold: two runs in a row are one run over the concatenation. */
  lemma {:induction false} NormalizeAppend(acc: seq<string>, x: seq<string>, y: seq<string>)
    ensures Normalize(acc, x + y) == Normalize(Normalize(acc, x), y)
    decreases |x|
  {
    if x != [] {
      assert (x + y)[0] == x[0] && (x + y)[1..] == x[1..] + y;
      NormalizeAppend(Step(acc, x[0]), x[1..], y);
    } else {
      assert x + y == y;
    }
  }

  /** `k` copies of `..`. */
  function Ups(k: nat): (r: seq<string>)
    ensures |r| == k && forall i :: 0 <= i < k ==> r[i] == ".."
  {
    if k == 0 then [] else [".."] + Ups(k - 1)
  }

  /** Each `..` removes one trailing segment. */
  lemma {:induction false} NormalizeUps(acc: seq<string>, k: nat)
    requires k <= |acc|
    ensures Normalize(acc, Ups(k)) == acc[..|acc| - k]
    decreases k
  {
    if k > 0 {
      assert Ups(k)[0] == ".." && Ups(k)[1..] == Ups(k - 1);
      NormalizeUps(acc[..|acc| - 1], k - 1);
      assert acc[..|acc| - 1][..|acc| - 1 - (k - 1)] == acc[..|acc| - k];
    }
  }

  /** `os.path.abspath(p)`: `normpath(join(os.getcwd(), p))`, as the list of its segments. */
  function AbsSegments(p: string, cwd: string): (r: seq<string>)
    ensures AllPlain(r)
  {
    var segments := Rooted(p, cwd);
    NormalizePlain([], segments);
    Normalize([], segments)
  }

  /** The segments of `p`, after those of the working directory when `p` is relative. */
  function Rooted(p: string, cwd: string): (r: seq<string>)
    ensures forall i :: 0 <= i < |r| ==> '/' !in r[i]
  {
    if p != [] && p[0] == '/' then Split(p) else Split(cwd) + Split(p)
  }

  /** The length of the longest common prefix of two segment lists. */
  function CommonPrefix(a: seq<string>, b: seq<string>): (n: nat)
    ensures n <= |a| && n <= |b| && a[..n] == b[..n]
    ensures n < |a| && n < |b| ==> a[n] != b[n]
  {
    if a == [] || b == [] || a[0] != b[0] then 0
    else
      var n := CommonPrefix(a[1..], b[1..]);
      assert a[..n + 1] == [a[0]] + a[1..][..n];
      assert b[..n + 1] == [b[0]] + b[1..][..n];
      n + 1
  }

  /** `os.path.relpath(path, start)` on segment lists: climb out of `start` to the common
      prefix, then descend into `path`. */
  function RelSegments(path: seq<string>, start: seq<string>): seq<string> {
    var n := CommonPrefix(start, path);
    Ups(|start| - n) + path[n..]
  }

  /** Walking the relative path from `start` leads back to `path`. */
  lemma RelSegmentsRoundTrip(path: seq<string>, start: seq<string>)
    requires AllPlain(path)
    ensures Normalize(start, RelSegments(path, start)) == path
  {
    var n := CommonPrefix(start, path);
    NormalizeAppend(start, Ups(|start| - n), path[n..]);
    NormalizeUps(start, |start| - n);
    assert start[..n] == path[..n];
    NormalizeOfPlain(start[..n], path[n..]);
    assert path[..n] + path[n..] == path;
  }

  /** A path inside `start` is reached by its remaining segments alone. */
  lemma {:induction false} RelSegmentsInside(start: seq<string>, rest: seq<string>)
    ensures RelSegments(start + rest, start) == rest
    decreases |start|
  {
    var n := CommonPrefix(start, start + rest);
    if start != [] {
      assert (start + rest)[0] == start[0] && (start + rest)[1..] == start[1..] + rest;
      RelSegmentsInside(start[1..], rest);
    }
    assert n == |start|;
    assert (start + rest)[|start|..] == rest;
  }

  /** The text `relpath` returns for a segment list: `.` when there is nothing to walk. */
  function RelText(segments: seq<string>): string {
    if segments == [] then "." else JoinSegments(segments)
  }

  /** `os.path.relpath(abspath(path), abspath(start))`. */
  function RelPath(path: string, start: string, cwd: string): string {
    RelText(RelSegments(AbsSegments(path, cwd), AbsSegments(start, cwd)))
  }

  /** The position of the last occurrence of `c` in `s`. */
  function RFind(s: string, c: char): (r: Option<nat>)
    ensures r.Some? ==> r.value < |s| && s[r.value] == c && c !in s[r.value + 1..]
    ensures r.None? ==> c !in s
  {
    if s == [] then None
    else if s[|s| - 1] == c then Some(|s| - 1)
    else
      var r := RFind(s[..|s| - 1], c);
      assert s[..|s| - 1] + [s[|s| - 1]] == s;
      r
  }

  /** `s.rstrip('/')`. */
  function RStripSlashes(s: string): string {
    if s != [] && s[|s| - 1] == '/' then RStripSlashes(s[..|s| - 1]) else s
  }

  /** `os.path.dirname(p)`: everything before the last separator, without trailing
      separators unless it consists of separators only. */
  function DirName(p: string): string {
    var head := match RFind(p, '/') case None => [] case Some(i) => p[..i + 1];
    if head != [] && RStripSlashes(head) != [] then RStripSlashes(head) else head
  }

  /** The directory of a path of plain segments is the path of all segments but the last. */
  lemma DirNameOfPlain(segments: seq<string>)
    requires segments != [] && AllPlain(segments)
    ensures DirName(JoinSegments(segments)) == JoinSegments(segments[..|segments| - 1])
  {
    if |segments| == 1 {
      assert RFind(JoinSegments(segments), '/') == None;
    } else {
      var init := segments[..|segments| - 1];
      var last := segments[|segments| - 1];
      JoinLast(segments);
      assert AllPlain(init) by {
        forall i | 0 <= i < |init| ensures Plain(init[i]) { assert init[i] == segments[i]; }
      }
      DirNameOfJoin(init, last);
    }
  }

  lemma DirNameOfJoin(init: seq<string>, last: string)
    requires init != [] && AllPlain(init) && Plain(last)
    ensures DirName(JoinSegments(init) + "/" + last) == JoinSegments(init)
  {
    var d := JoinSegments(init);
    var head := d + "/";
    var p := head + last;
    RFindAt(head, last, '/');
    assert RFind(p, '/') == Some(|d|);
    assert p[..|d| + 1] == head;
    assert head[..|head| - 1] == d;
    assert RStripSlashes(head) == RStripSlashes(d);
    JoinEndsPlain(init);
  }

  lemma {:induction false} JoinLast(segments: seq<string>)
    requires |segments| >= 2
    ensures JoinSegments(segments)
            == JoinSegments(segments[..|segments| - 1]) + "/" + segments[|segments| - 1]
    decreases |segments|
  {
    if |segments| > 2 {
      JoinLast(segments[1..]);
      assert segments[1..][..|segments| - 2] == segments[1..|segments| - 1];
      assert segments[..|segments| - 1][1..] == segments[1..|segments| - 1];
    }
  }

  /** Searching from the end finds nothing in a suffix that lacks the character. */
  lemma {:induction false} RFindAppend(a: string, b: string, c: char)
    requires c !in b
    ensures RFind(a + b, c) == RFind(a, c)
    decreases |b|
  {
    if b != [] {
      assert (a + b)[..|a + b| - 1] == a + b[..|b| - 1];
      RFindAppend(a, b[..|b| - 1], c);
    } else {
      assert a + b == a;
    }
  }

  /** A join of plain segments neither is empty nor ends with a separator. */
  lemma {:induction false} JoinEndsPlain(segments: seq<string>)
    requires segments != [] && AllPlain(segments)
    ensures RStripSlashes(JoinSegments(segments)) == JoinSegments(segments)
    ensures JoinSegments(segments) != []
  {
    var p := JoinSegments(segments);
    if |segments| >= 2 {
      JoinLast(segments);
      var last := segments[|segments| - 1];
      assert p[|p| - 1] == last[|last| - 1];
    }
  }

  /** `os.path.splitext(p)`: the extension is the text from the last `.` of the last path
      component on, unless that component has only dots before it. */
  function SplitExt(p: string): (r: (string, string))
    ensures r.0 + r.1 == p
    ensures r.1 == [] || (r.1[0] == '.' && '/' !in r.1 && '.' !in r.1[1..])
  {
    var sep := match RFind(p, '/') case None => -1 case Some(i) => i;
    var dot := match RFind(p, '.') case None => -1 case Some(i) => i;
    if dot > sep && exists k :: sep < k < dot && p[k] != '.' then
      assert p[..dot] + p[dot..] == p;
      (p[..dot], p[dot..])
    else (p, [])
  }

  lemma RFindAt(a: string, b: string, c: char)
    requires a != [] && a[|a| - 1] == c && c !in b
    ensures RFind(a + b, c) == Some(|a| - 1)
  {
    RFindAppend(a, b, c);
  }

  /** A dot after the last separator, with a character other than a dot between the two,
      starts the extension. */
  lemma SplitExtAt(p: string, sep: nat, dot: nat, k: nat)
    requires RFind(p, '/') == Some(sep) && RFind(p, '.') == Some(dot)
    requires sep < k < dot && p[k] != '.'
    ensures SplitExt(p) == (p[..dot], p[dot..])
  {
  }

  /** In `head` + `c` + `tail` with no `c` in `tail`, the last `c` follows `head`. */
  lemma LastAt(p: string, head: string, tail: string, c: char)
    requires c !in tail && p == head + [c] + tail
    ensures RFind(p, c) == Some(|head|)
  {
    RFindAt(head + [c], tail, c);
  }

  lemma SplitExtAtDot(root: string, ext: string, p: string, sep: nat, k: nat)
    requires p == root + "." + ext
    requires RFind(p, '/') == Some(sep) && RFind(p, '.') == Some(|root|)
    requires sep < k < |root| && p[k] != '.'
    ensures SplitExt(p) == (root, "." + ext)
  {
    SplitExtAt(p, sep, |root|, k);
    assert p[..|root|] == root;
    assert p[|root|..] == "." + ext;
  }

  lemma NoSlashTail(base: string, ext: string)
    requires '/' !in base && '/' !in ext
    ensures '/' !in base + "." + ext
  {
    var tail := base + "." + ext;
    assert forall i :: 0 <= i < |tail| ==> tail[i] != '/';
  }

  /** In `dir/base.ext` the last separator follows `dir` and the last dot follows `dir/base`. */
  lemma SlashAndDot(dir: string, base: string, ext: string)
    requires '/' !in base + "." + ext && '.' !in ext
    ensures var p := dir + "/" + base + "." + ext;
            RFind(p, '/') == Some(|dir|) && RFind(p, '.') == Some(|dir + "/" + base|)
  {
    var head := dir + "/";
    var root := head + base;
    var tail := base + "." + ext;
    var p := root + "." + ext;
    assert p == dir + "/" + tail;
    assert "/" == ['/'] && "." == ['.'];
    LastAt(p, dir, tail, '/');
    LastAt(p, root, ext, '.');
  }

  lemma SplitExtWith(dir: string, base: string, ext: string, k: nat)
    requires k < |base| && base[k] != '.'
    requires var p := dir + "/" + base + "." + ext;
             RFind(p, '/') == Some(|dir|) && RFind(p, '.') == Some(|dir + "/" + base|)
    ensures SplitExt(dir + "/" + base + "." + ext) == (dir + "/" + base, "." + ext)
  {
    var head := dir + "/";
    var root := head + base;
    var p := root + "." + ext;
    assert |head| == |dir| + 1 && |root| == |head| + |base|;
    assert p[|head| + k] == base[k] by {
      assert root[|head| + k] == base[k];
    }
    SplitExtAtDot(root, ext, p, |dir|, |head| + k);
  }

  /** A name `dir/base.ext` (an extension without dots or separators, and a base name that is
      not all dots) splits into `dir/base` and `.ext`. */
  lemma SplitExtOf(dir: string, base: string, ext: string)
    requires '/' !in base && '/' !in ext && '.' !in ext
    requires exists k :: 0 <= k < |base| && base[k] != '.'
    ensures SplitExt(dir + "/" + base + "." + ext) == (dir + "/" + base, "." + ext)
  {
    NoSlashTail(base, ext);
    SlashAndDot(dir, base, ext);
    var k :| 0 <= k < |base| && base[k] != '.';
    SplitExtWith(dir, base, ext, k);
  }

  /** A name `base.ext` without separators (an extension without dots, and a base name that is
      not all dots) splits into `base` and `.ext`. */
  lemma SplitExtBare(base: string, ext: string)
    requires '/' !in base && '/' !in ext && '.' !in ext
    requires exists k :: 0 <= k < |base| && base[k] != '.'
    ensures SplitExt(base + "." + ext) == (base, "." + ext)
  {
    var p := base + "." + ext;
    NoSlashTail(base, ext);
    assert RFind(p, '/') == None;
    assert "." == ['.'];
    LastAt(p, base, ext, '.');
    var k :| 0 <= k < |base| && base[k] != '.';
    assert p[k] == base[k];
    assert p[..|base|] == base;
    assert p[|base|..] == "." + ext;
  }

  /** Joining separator-free segments and splitting the result again gives the segments back. */
  lemma {:induction false} SplitJoin(segments: seq<string>)
    requires segments != [] && forall i :: 0 <= i < |segments| ==> '/' !in segments[i]
    ensures Split(JoinSegments(segments)) == segments
    decreases |segments|
  {
    if |segments| == 1 {
      assert Find(segments[0], '/') == None;
    } else {
      SplitJoin(segments[1..]);
      SplitAtSlash(segments[0], JoinSegments(segments[1..]));
      assert Find(segments[0], '/') == None;
      assert segments == [segments[0]] + segments[1..];
    }
  }

  /** A join of plain segments starts with the first character of its first segment, so it is
      a relative path. */
  lemma JoinStart(segments: seq<string>)
    requires segments != [] && AllPlain(segments)
    ensures JoinSegments(segments) != [] && JoinSegments(segments)[0] == segments[0][0]
  {
    assert Plain(segments[0]);
    if |segments| > 1 {
      assert JoinSegments(segments) == segments[0] + ("/" + JoinSegments(segments[1..]));
    }
  }

  /** Plain segments at the end of a path survive normalisation unchanged. */
  lemma NormalizePlainTail(x: seq<string>, segments: seq<string>)
    requires AllPlain(segments)
    ensures Normalize([], x + segments) == Normalize([], x) + segments
  {
    NormalizeAppend([], x, segments);
    NormalizeOfPlain(Normalize([], x), segments);
  }

  /** A trailing empty segment (a path ending in a separator) changes nothing. */
  lemma NormalizeEmptyTail(x: seq<string>)
    ensures Normalize([], x + [""]) == Normalize([], x)
  {
    NormalizeAppend([], x, [""]);
    assert [""][1..] == [];
  }

  /** Joining a relative `f` of plain segments appends those segments to the rooted `base`,
      up to a trailing empty segment that normalisation drops. */
  lemma RootedJoin(base: string, segments: seq<string>, cwd: string)
    requires segments != [] && AllPlain(segments)
    ensures exists x :: Rooted(Join(base, JoinSegments(segments)), cwd) == x + segments
                        && (Rooted(base, cwd) == x || Rooted(base, cwd) == x + [""])
  {
    var f := JoinSegments(segments);
    JoinStart(segments);
    SplitJoin(segments);
    if base == [] {
      RootedJoinEmpty(f, cwd);
    } else if base[|base| - 1] == '/' {
      RootedJoinSlash(base, f, cwd);
    } else {
      RootedJoinNoSlash(base, f, cwd);
    }
  }

  lemma RootedJoinEmpty(f: string, cwd: string)
    requires f != [] && f[0] != '/'
    ensures Rooted(Join([], f), cwd) == Split(cwd) + Split(f)
    ensures Rooted([], cwd) == Split(cwd) + [""]
  {
    assert Join([], f) == f;
    assert Split([]) == [[]];
    assert Rooted([], cwd) == Split(cwd) + Split([]);
  }

  lemma RootedJoinSlash(base: string, f: string, cwd: string)
    requires base != [] && base[|base| - 1] == '/' && f != [] && f[0] != '/'
    ensures var b := base[..|base| - 1];
            var x := if base[0] == '/' then Split(b) else Split(cwd) + Split(b);
            Rooted(Join(base, f), cwd) == x + Split(f) && Rooted(base, cwd) == x + [""]
  {
    SplitJoinedAfterSlash(base, f);
    SplitTrailingSlash(base);
    assert Join(base, f)[0] == base[0];
  }

  lemma SplitJoinedAfterSlash(base: string, f: string)
    requires base != [] && base[|base| - 1] == '/' && f != [] && f[0] != '/'
    ensures Join(base, f) == base + f
    ensures Split(Join(base, f)) == Split(base[..|base| - 1]) + Split(f)
  {
    var b := base[..|base| - 1];
    assert base == b + "/";
    assert Join(base, f) == b + "/" + f;
    SplitAtSlash(b, f);
  }

  lemma SplitTrailingSlash(base: string)
    requires base != [] && base[|base| - 1] == '/'
    ensures Split(base) == Split(base[..|base| - 1]) + [[]]
  {
    var b := base[..|base| - 1];
    var e: string := [];
    assert base == b + "/" + e;
    SplitAtSlash(b, e);
    assert Split(e) == [e];
  }

  lemma JoinNoSlash(base: string, f: string)
    requires base != [] && base[|base| - 1] != '/' && f != [] && f[0] != '/'
    ensures Join(base, f) == base + "/" + f && Join(base, f)[0] == base[0]
  {
  }

  lemma RootedJoinNoSlash(base: string, f: string, cwd: string)
    requires base != [] && base[|base| - 1] != '/' && f != [] && f[0] != '/'
    ensures Rooted(Join(base, f), cwd) == Rooted(base, cwd) + Split(f)
  {
    var j := Join(base, f);
    JoinNoSlash(base, f);
    SplitAtSlash(base, f);
    assert Split(j) == Split(base) + Split(f);
    if base[0] != '/' {
      assert Split(cwd) + (Split(base) + Split(f)) == (Split(cwd) + Split(base)) + Split(f);
    }
  }


  /** `abspath(join(base, f))` for a relative `f` of plain segments is the absolute form of
      `base` followed by those segments. */
  lemma AbsJoin(base: string, segments: seq<string>, cwd: string)
    requires segments != [] && AllPlain(segments)
    ensures AbsSegments(Join(base, JoinSegments(segments)), cwd) == AbsSegments(base, cwd) + segments
  {
    RootedJoin(base, segments, cwd);
    var x :| Rooted(Join(base, JoinSegments(segments)), cwd) == x + segments
             && (Rooted(base, cwd) == x || Rooted(base, cwd) == x + [""]);
    NormalizePlainTail(x, segments);
    NormalizeEmptyTail(x);
  }

  /** `relpath(abspath(join(base, f)), abspath(base))` gives back a relative `f` of plain
      segments, whatever the working directory. */
  lemma RelPathOfJoin(base: string, segments: seq<string>, cwd: string)
    requires segments != [] && AllPlain(segments)
    ensures RelPath(Join(base, JoinSegments(segments)), base, cwd) == JoinSegments(segments)
  {
    AbsJoin(base, segments, cwd);
    RelSegmentsInside(AbsSegments(base, cwd), segments);
  }

  /** Joining two non-empty segment lists puts one separator between their joins. */
  lemma {:induction false} JoinSegmentsAppend(a: seq<string>, b: seq<string>)
    requires a != [] && b != []
    ensures JoinSegments(a + b) == JoinSegments(a) + "/" + JoinSegments(b)
    decreases |a|
  {
    assert (a + b)[0] == a[0] && (a + b)[1..] == a[1..] + b;
    if |a| > 1 {
      JoinSegmentsAppend(a[1..], b);
    } else {
      assert a[1..] + b == b;
    }
  }

  /** A join of plain segments does not end with a separator. */
  lemma JoinLastChar(segments: seq<string>)
    requires segments != [] && AllPlain(segments)
    ensures JoinSegments(segments) != [] && JoinSegments(segments)[|JoinSegments(segments)| - 1] != '/'
  {
    var last := segments[|segments| - 1];
    assert Plain(last);
    if |segments| >= 2 {
      JoinLast(segments);
    }
  }

  /** Joining a path of plain segments onto a directory of plain segments gives the path of
      all the segments. */
  lemma JoinPlainDirs(dir: seq<string>, segments: seq<string>)
    requires AllPlain(dir) && segments != [] && AllPlain(segments)
    ensures Join(JoinSegments(dir), JoinSegments(segments)) == JoinSegments(dir + segments)
    ensures AllPlain(dir + segments)
  {
    JoinStart(segments);
    if dir == [] {
      assert dir + segments == segments;
    } else {
      JoinLastChar(dir);
      JoinSegmentsAppend(dir, segments);
    }
  }
}
