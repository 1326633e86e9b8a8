/** Slash-separated paths of the remote file system (downloaders/clouddrive.py). */
module Paths {
  import opened Wrappers
  import opened Btih

  /** Python's `s.split(c)`: always at least one part. */
  function Split(s: string, c: char): (parts: seq<string>)
    ensures |parts| >= 1
  {
    if |s| == 0 then [""]
    else if s[0] == c then [""] + Split(s[1..], c)
    else
      var rest := Split(s[1..], c);
      [[s[0]] + rest[0]] + rest[1..]
  }

  /** Python's `c.join(parts)`. */
  function Join(parts: seq<string>, c: char): string {
    if |parts| == 0 then ""
    else if |parts| == 1 then parts[0]
    else parts[0] + [c] + Join(parts[1..], c)
  }

  lemma {:induction false} SplitWithout(s: string, c: char)
    requires c !in s
    ensures Split(s, c) == [s]
  {
    if |s| != 0 {
      SplitWithout(s[1..], c);
      assert s == [s[0]] + s[1..];
    }
  }

  /** How one more leading character changes the parts. */
  function Consed(x: char, c: char, parts: seq<string>): seq<string>
    requires |parts| >= 1
  {
    if x == c then [""] + parts else [[x] + parts[0]] + parts[1..]
  }

  lemma SplitCons(s: string, c: char)
    requires |s| > 0
    ensures Split(s, c) == Consed(s[0], c, Split(s[1..], c))
  {
  }

  lemma Prepend(x: char, c: char, ra: seq<string>, rb: seq<string>)
    requires |ra| >= 1
    ensures Consed(x, c, ra + rb) == Consed(x, c, ra) + rb
  {
  }

  /** Splitting distributes over a separator in the middle. */
  lemma {:induction false} SplitConcat(a: string, c: char, b: string)
    ensures Split(a + [c] + b, c) == Split(a, c) + Split(b, c)
  {
    var s := a + [c] + b;
    if |a| == 0 {
      assert s[0] == c && s[1..] == b;
      assert Split(a, c) == [""];
    } else {
      assert s[0] == a[0] && s[1..] == a[1..] + [c] + b;
      SplitConcat(a[1..], c, b);
      SplitCons(a, c);
      SplitCons(s, c);
      Prepend(a[0], c, Split(a[1..], c), Split(b, c));
    }
  }

  lemma {:induction false} SplitParts(s: string, c: char)
    ensures forall i :: 0 <= i < |Split(s, c)| ==> c !in Split(s, c)[i]
  {
    if |s| != 0 {
      SplitParts(s[1..], c);
    }
  }

  /** `join` undoes `split`. */
  lemma {:induction false} JoinSplit(s: string, c: char)
    ensures Join(Split(s, c), c) == s
  {
    if |s| != 0 {
      JoinSplit(s[1..], c);
      var rest := Split(s[1..], c);
      if s[0] == c {
        assert ([""] + rest)[1..] == rest;
        assert "" + [c] + s[1..] == s;
      } else {
        var parts := [[s[0]] + rest[0]] + rest[1..];
        assert parts[1..] == rest[1..];
        assert s == [s[0]] + s[1..];
        if |rest| > 1 {
          assert ([s[0]] + rest[0]) + [c] + Join(rest[1..], c) == [s[0]] + (rest[0] + [c] + Join(rest[1..], c));
        }
      }
    }
  }

  /** `split` undoes `join` on parts free of the separator. */
  lemma {:induction false} SplitJoin(parts: seq<string>, c: char)
    requires |parts| >= 1
    requires forall i :: 0 <= i < |parts| ==> c !in parts[i]
    ensures Split(Join(parts, c), c) == parts
  {
    SplitWithout(parts[0], c);
    if |parts| > 1 {
      SplitJoin(parts[1..], c);
      SplitConcat(parts[0], c, Join(parts[1..], c));
      assert parts == [parts[0]] + parts[1..];
    }
  }

  function NonEmpty(parts: seq<string>): seq<string> {
    if |parts| == 0 then []
    else if parts[0] == "" then NonEmpty(parts[1..])
    else [parts[0]] + NonEmpty(parts[1..])
  }

  lemma {:induction false} NonEmptyParts(parts: seq<string>)
    ensures forall x :: x in NonEmpty(parts) <==> x in parts && x != ""
  {
    if |parts| != 0 {
      NonEmptyParts(parts[1..]);
      assert parts == [parts[0]] + parts[1..];
    }
  }

  lemma {:induction false} NonEmptyIdentity(parts: seq<string>)
    requires forall x :: x in parts ==> x != ""
    ensures NonEmpty(parts) == parts
  {
    if |parts| != 0 {
      assert parts[0] in parts;
      assert forall x :: x in parts[1..] ==> x in parts;
      NonEmptyIdentity(parts[1..]);
      assert parts == [parts[0]] + parts[1..];
    }
  }

  lemma {:induction false} NonEmptyConcat(a: seq<string>, b: seq<string>)
    ensures NonEmpty(a + b) == NonEmpty(a) + NonEmpty(b)
  {
    if |a| == 0 {
      assert a + b == b;
    } else {
      assert (a + b)[1..] == a[1..] + b;
      NonEmptyConcat(a[1..], b);
    }
  }

  datatype PathError = InvalidPath | InvalidProfileSubdir | BadBtih

  predicate HasDots(parts: seq<string>) {
    "." in parts || ".." in parts
  }

  /** `_normalize_absolute_path`: drops empty segments, refuses dots, backslashes and relative paths. */
  function Normalize(path: string): Result<string, PathError> {
    if |path| == 0 || path[0] != '/' || '\\' in path then Err(InvalidPath)
    else
      var parts := Split(path, '/');
      if HasDots(parts) then Err(InvalidPath)
      else Ok("/" + Join(NonEmpty(parts), '/'))
  }

  /** Accepted are exactly the absolute paths without backslashes and dot segments. */
  lemma NormalizeOkIff(path: string)
    ensures Normalize(path).Ok?
            <==> "/" <= path && '\\' !in path && "." !in Split(path, '/') && ".." !in Split(path, '/')
  {
    hide Split;
    assert "/" <= path <==> |path| > 0 && path[0] == '/';
  }

  /** The names on a path, root first. */
  function Segments(path: string): seq<string> {
    NonEmpty(Split(path, '/'))
  }

  function Absolute(names: seq<string>): string {
    "/" + Join(names, '/')
  }

  predicate ValidName(name: string) {
    name != "" && name != "." && name != ".." && '/' !in name && '\\' !in name
  }

  predicate ValidNames(names: seq<string>) {
    forall i :: 0 <= i < |names| ==> ValidName(names[i])
  }

  /** Characters of a joined path come from its parts or are separators. */
  lemma {:induction false} JoinChars(parts: seq<string>, c: char, x: char)
    requires x in Join(parts, c)
    ensures x == c || exists i :: 0 <= i < |parts| && x in parts[i]
  {
    if |parts| == 1 {
      assert x in parts[0];
    } else if |parts| > 1 && x !in parts[0] && x != c {
      assert x in Join(parts[1..], c);
      JoinChars(parts[1..], c, x);
      var i :| 0 <= i < |parts[1..]| && x in parts[1..][i];
      assert x in parts[i + 1];
    }
  }

  lemma {:induction false} SplitChars(s: string, c: char, i: nat, x: char)
    requires i < |Split(s, c)| && x in Split(s, c)[i]
    ensures x in s
  {
    if |s| != 0 {
      var rest := Split(s[1..], c);
      if s[0] == c {
        SplitChars(s[1..], c, i - 1, x);
      } else if i != 0 || x != s[0] {
        assert x in rest[i];
        SplitChars(s[1..], c, i, x);
      }
      assert s == [s[0]] + s[1..];
    }
  }

  /** A path written from valid names reads back as those names, and is its own normal form. */
  lemma AbsoluteSegments(names: seq<string>)
    requires ValidNames(names)
    ensures Segments(Absolute(names)) == names
    ensures Normalize(Absolute(names)) == Ok(Absolute(names))
  {
    var path := Absolute(names);
    assert path == "" + ['/'] + Join(names, '/');
    SplitConcat("", '/', Join(names, '/'));
    var tail := Split(Join(names, '/'), '/');
    assert Split(path, '/') == [""] + tail;
    if |names| == 0 {
      assert tail == [""];
      assert NonEmpty(tail) == [];
    } else {
      SplitJoin(names, '/');
      NonEmptyIdentity(names);
    }
    assert ([""] + tail)[1..] == tail;
    assert Segments(path) == names;
    if '\\' in path {
      JoinChars(names, '/', '\\');
    }
    assert !HasDots(Split(path, '/'));
  }

  /** What normalisation accepts, it turns into the path of its segments. */
  lemma NormalizeSegments(path: string)
    requires Normalize(path).Ok?
    ensures ValidNames(Segments(path))
    ensures Normalize(path).value == Absolute(Segments(path))
    ensures Segments(Normalize(path).value) == Segments(path)
  {
    var parts := Split(path, '/');
    SplitParts(path, '/');
    NonEmptyParts(parts);
    forall i | 0 <= i < |Segments(path)| ensures ValidName(Segments(path)[i]) {
      var name := Segments(path)[i];
      assert name in Segments(path);
      var j :| 0 <= j < |parts| && parts[j] == name;
      if '\\' in name {
        SplitChars(path, '/', j, '\\');
      }
    }
    AbsoluteSegments(Segments(path));
  }

  lemma NormalizeIdempotent(path: string)
    requires Normalize(path).Ok?
    ensures Normalize(Normalize(path).value) == Normalize(path)
  {
    NormalizeSegments(path);
    AbsoluteSegments(Segments(path));
  }

  /** Two accepted spellings normalise alike exactly when they name the same segments. */
  lemma NormalizeIdentifies(p: string, q: string)
    requires Normalize(p).Ok? && Normalize(q).Ok?
    ensures Normalize(p) == Normalize(q) <==> Segments(p) == Segments(q)
  {
    NormalizeSegments(p);
    NormalizeSegments(q);
  }

  /** `f"/{name}" if base == "/" else f"{base}/{name}"`. */
  function Child(base: string, name: string): string {
    if base == "/" then "/" + name else base + "/" + name
  }

  lemma {:induction false} JoinConcat(a: seq<string>, b: seq<string>, c: char)
    requires |a| >= 1 && |b| >= 1
    ensures Join(a + b, c) == Join(a, c) + [c] + Join(b, c)
  {
    if |a| == 1 {
      assert (a + b)[1..] == b;
    } else {
      assert (a + b)[1..] == a[1..] + b;
      JoinConcat(a[1..], b, c);
    }
  }

  lemma {:induction false} JoinNonEmpty(parts: seq<string>, c: char)
    requires |parts| >= 1 && parts[0] != ""
    ensures Join(parts, c) != ""
  {
  }

  /** Appending a relative path to a normal one appends its names. */
  lemma ChildSegments(base: seq<string>, sub: string)
    requires ValidNames(base) && ValidNames(Split(sub, '/'))
    ensures Child(Absolute(base), sub) == Absolute(base + Split(sub, '/'))
  {
    var parts := Split(sub, '/');
    JoinSplit(sub, '/');
    if |base| == 0 {
      assert base + parts == parts;
    } else {
      JoinConcat(base, parts, '/');
      JoinNonEmpty(base, '/');
      assert |Absolute(base)| > 1;
    }
  }

  /** `resolve_destination`. */
  function ResolveDestination(root: string, subdir: string): Result<string, PathError> {
    var base := Normalize(root);
    if base.Err? then base
    else if subdir == "" || subdir[0] == '/' || '\\' in subdir
            || "" in Split(subdir, '/') || HasDots(Split(subdir, '/'))
    then Err(InvalidProfileSubdir)
    else Normalize(Child(base.value, subdir))
  }

  ghost predicate ProperPrefix(a: seq<string>, b: seq<string>) {
    a < b
  }

  /** The resolved directory always exists as a path, strictly below its root and keeping the subdirectory's names. */
  lemma ResolveDestinationBelowRoot(root: string, subdir: string)
    requires Normalize(root).Ok?
    ensures ResolveDestination(root, subdir).Ok? <==> ValidNames(Split(subdir, '/'))
    ensures ResolveDestination(root, subdir).Err? ==> ResolveDestination(root, subdir) == Err(InvalidProfileSubdir)
    ensures ResolveDestination(root, subdir).Ok? ==>
              var r := ResolveDestination(root, subdir).value;
              && Segments(r) == Segments(root) + Split(subdir, '/')
              && ProperPrefix(Segments(root), Segments(r))
              && Normalize(r) == Ok(r)
  {
    NormalizeSegments(root);
    var parts := Split(subdir, '/');
    SplitParts(subdir, '/');
    assert subdir != "" && subdir[0] == '/' ==> parts[0] == "";
    if ValidNames(parts) {
      JoinSplit(subdir, '/');
      if '\\' in subdir {
        JoinChars(parts, '/', '\\');
      }
      assert "" !in parts && !HasDots(parts);
      assert parts[0] != "";
      ChildSegments(Segments(root), subdir);
      AbsoluteSegments(Segments(root) + parts);
    } else {
      var i :| 0 <= i < |parts| && !ValidName(parts[i]);
      assert parts[i] in parts;
      if '\\' in parts[i] {
        SplitChars(subdir, '/', i, '\\');
      }
    }
  }

  lemma NormalBtihIsName(btih: string)
    requires NormalBtih(btih)
    ensures ValidName(btih) && Split(btih, '/') == [btih]
  {
    SplitWithout(btih, '/');
  }

  /** `resolve_task_destination`. */
  function ResolveTaskDestination(directory: string, btih: string): Result<string, PathError> {
    var base := Normalize(directory);
    var identity := NormalizeBtih(btih);
    if base.Err? then base
    else if identity.Err? then Err(BadBtih)
    else Normalize(Child(base.value, identity.value))
  }

  lemma TaskDestinationShape(directory: string, btih: string)
    ensures ResolveTaskDestination(directory, btih).Ok?
            <==> Normalize(directory).Ok? && NormalizeBtih(btih).Ok?
    ensures var r := ResolveTaskDestination(directory, btih);
            r.Err? ==> r.error == if Normalize(directory).Err? then InvalidPath else BadBtih
    ensures ResolveTaskDestination(directory, btih).Ok? ==>
              var r := ResolveTaskDestination(directory, btih).value;
              && Segments(r) == Segments(directory) + [NormalizeBtih(btih).value]
              && r == Absolute(Segments(r)) && ValidNames(Segments(r))
  {
    if Normalize(directory).Ok? && NormalizeBtih(btih).Ok? {
      var identity := NormalizeBtih(btih).value;
      NormalBtihIsName(identity);
      NormalizeSegments(directory);
      ChildSegments(Segments(directory), identity);
      AbsoluteSegments(Segments(directory) + [identity]);
    }
  }

  /** Task directories collide only for the same directory and the same 160-bit hash. */
  lemma TaskDestinationInjective(d1: string, b1: string, d2: string, b2: string)
    ensures ResolveTaskDestination(d1, b1).Ok? && ResolveTaskDestination(d2, b2).Ok? ==>
              (ResolveTaskDestination(d1, b1) == ResolveTaskDestination(d2, b2)
               <==> Normalize(d1) == Normalize(d2) && Denoted(b1) == Denoted(b2))
  {
    if ResolveTaskDestination(d1, b1).Ok? && ResolveTaskDestination(d2, b2).Ok? {
      TaskDestinationShape(d1, b1);
      TaskDestinationShape(d2, b2);
      NormalizeIdentifies(d1, d2);
      NormalizeIdentifiesBits(b1, b2);
      var s1 := Segments(d1) + [NormalizeBtih(b1).value];
      var s2 := Segments(d2) + [NormalizeBtih(b2).value];
      if s1 == s2 {
        assert s1[|s1| - 1] == s2[|s2| - 1];
        assert s1[..|s1| - 1] == Segments(d1) && s2[..|s2| - 1] == Segments(d2);
      }
    }
  }

  /** Removes trailing slashes: Python's `path.rstrip("/")`. */
  function RStrip(path: string): string {
    if |path| != 0 && path[|path| - 1] == '/' then RStrip(path[..|path| - 1]) else path
  }

  function LStrip(path: string): string {
    if |path| != 0 && path[0] == '/' then LStrip(path[1..]) else path
  }

  /** Exactly the slashes at the end go. */
  lemma {:induction false} RStripMeans(path: string)
    ensures RStrip(path) <= path && forall i :: |RStrip(path)| <= i < |path| ==> path[i] == '/'
    ensures RStrip(path) != "" ==> RStrip(path)[|RStrip(path)| - 1] != '/'
  {
    if |path| != 0 && path[|path| - 1] == '/' {
      RStripMeans(path[..|path| - 1]);
    }
  }

  /** Exactly the slashes at the start go. */
  lemma {:induction false} LStripMeans(path: string)
    ensures var n := |path| - |LStrip(path)|;
            n >= 0 && path[n..] == LStrip(path) && forall i :: 0 <= i < n ==> path[i] == '/'
    ensures LStrip(path) != "" ==> LStrip(path)[0] != '/'
  {
    if |path| != 0 && path[0] == '/' {
      LStripMeans(path[1..]);
      var n := |path| - |LStrip(path)|;
      assert path[n..] == path[1..][n - 1..];
      assert forall i :: 0 < i < n ==> path[i] == path[1..][i - 1];
    }
  }

  lemma {:induction false} JoinEnds(names: seq<string>)
    requires ValidNames(names) && |names| > 0
    ensures var s := Join(names, '/'); |s| > 0 && s[|s| - 1] != '/' && s[0] != '/'
  {
    assert ValidName(names[0]);
    assert names[0][0] in names[0];
    if |names| > 1 {
      JoinEnds(names[1..]);
    } else {
      assert names[0][|names[0]| - 1] in names[0];
    }
  }

  /** A normal path other than the root does not end in a slash. */
  lemma NoTrailingSlash(names: seq<string>)
    requires ValidNames(names) && |names| > 0
    ensures RStrip(Absolute(names)) == Absolute(names) != ""
  {
    JoinEnds(names);
  }
}
