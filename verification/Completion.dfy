/**
 * Deciding that a download is complete from directory listings alone
 * (downloads/completion.py, and DirectorySnapshot of downloaders/clouddrive.py).
 */
module Completion {
  import opened Wrappers
  import opened Ordering
  import Directories
  import Paths

  datatype FileFact = FileFact(path: string, size: nat)

  predicate PathLe(a: FileFact, b: FileFact) {
    StrLe(a.path, b.path)
  }

  lemma PathLePreorder()
    ensures TotalPreorder(PathLe)
  {
    StrLeOrder();
  }

  /** A directory snapshot: the listed files, sorted by path on construction. */
  type Snapshot = s: seq<FileFact> | Sorted(s, PathLe) witness []

  function MakeSnapshot(files: seq<FileFact>): Snapshot {
    PathLePreorder();
    SortSorted(files, PathLe);
    Sort(files, PathLe)
  }

  /** `as_size_map().get(path)`: the last listing of a path wins. */
  function SizeOf(files: seq<FileFact>, path: string): Option<nat> {
    if |files| == 0 then None
    else
      var later := SizeOf(files[1..], path);
      if later.Some? then later
      else if files[0].path == path then Some(files[0].size) else None
  }

  /** A path resolves to a size if some listing of it says so and no later one lists it again. */
  lemma {:induction false} SizeOfMeans(files: seq<FileFact>, path: string, size: nat)
    ensures SizeOf(files, path) == Some(size) <==>
              exists i :: 0 <= i < |files| && files[i] == FileFact(path, size)
                          && forall j :: i < j < |files| ==> files[j].path != path
  {
    if |files| != 0 {
      var rest := files[1..];
      SizeOfMeans(rest, path, size);
      if i :| 0 <= i < |rest| && rest[i] == FileFact(path, size)
              && forall j :: i < j < |rest| ==> rest[j].path != path {
        assert files[i + 1] == FileFact(path, size);
        assert forall j :: i + 1 < j < |files| ==> files[j] == rest[j - 1];
      }
      if i :| 0 <= i < |files| && files[i] == FileFact(path, size)
              && forall j :: i < j < |files| ==> files[j].path != path {
        if i > 0 {
          assert rest[i - 1] == FileFact(path, size);
          assert forall j :: i - 1 < j < |rest| ==> rest[j] == files[j + 1];
        } else {
          forall f | f in rest ensures f.path != path {
            var j :| 0 <= j < |rest| && rest[j] == f;
            assert files[j + 1] == f;
          }
          SizeOfAbsent(rest, path);
        }
      }
      if SizeOf(rest, path).None? && SizeOf(files, path) == Some(size) {
        forall j | 0 < j < |files| ensures files[j].path != path {
          if files[j].path == path {
            assert rest[j - 1] == files[j];
            SizeOfPresent(rest, files[j]);
          }
        }
        assert files[0] == FileFact(path, size);
      }
    }
  }

  /** `as_size_map().items()` of a sorted listing: one entry a path, the last one listed. */
  function Items(files: seq<FileFact>): seq<FileFact> {
    if |files| == 0 then []
    else if |files| > 1 && files[0].path == files[1].path then Items(files[1..])
    else [files[0]] + Items(files[1..])
  }

  lemma {:induction false} SizeOfAbsent(files: seq<FileFact>, path: string)
    requires forall f :: f in files ==> f.path != path
    ensures SizeOf(files, path) == None
  {
    if |files| != 0 {
      assert files[0] in files;
      assert forall f :: f in files[1..] ==> f in files;
      SizeOfAbsent(files[1..], path);
    }
  }

  lemma {:induction false} InsertKeepsSizes(x: FileFact, s: seq<FileFact>, path: string)
    requires Sorted(s, PathLe)
    ensures SizeOf(Insert(x, s, PathLe), path) == SizeOf([x] + s, path)
  {
    assert ([x] + s)[1..] == s;
    if |s| != 0 && !PathLe(x, s[0]) {
      InsertKeepsSizes(x, s[1..], path);
      assert ([x] + s[1..])[1..] == s[1..];
      StrLeTotal(x.path, s[0].path);
      var rest := Insert(x, s[1..], PathLe);
      assert ([s[0]] + rest)[1..] == rest;
    }
  }

  /** Sorting a listing by path is stable, so it keeps what each path resolves to. */
  lemma {:induction false} SnapshotKeepsSizes(files: seq<FileFact>, path: string)
    ensures SizeOf(MakeSnapshot(files), path) == SizeOf(files, path)
  {
    if |files| != 0 {
      SnapshotKeepsSizes(files[1..], path);
      PathLePreorder();
      SortSorted(files[1..], PathLe);
      var rest := Sort(files[1..], PathLe);
      InsertKeepsSizes(files[0], rest, path);
      assert ([files[0]] + rest)[1..] == rest;
    }
  }

  /** The items of a snapshot are strictly sorted and are exactly its path-to-size mapping. */
  lemma {:induction false} ItemsSound(s: Snapshot)
    ensures StrictlySorted(Items(s), PathLe)
    ensures forall f :: f in Items(s) <==> SizeOf(s, f.path) == Some(f.size)
    ensures forall f :: f in Items(s) ==> f in s
  {
    if |s| != 0 {
      var t: Snapshot := s[1..];
      ItemsSound(t);
      StrLeOrder();
      if |s| > 1 && s[0].path == s[1].path {
        forall f ensures f in Items(s) <==> SizeOf(s, f.path) == Some(f.size) {
          if f.path == s[0].path {
            SizeOfPresent(t, s[1]);
          }
        }
      } else {
        forall g | g in t ensures PathLe(s[0], g) && !PathLe(g, s[0]) {
          var j :| 0 <= j < |t| && t[j] == g;
          assert PathLe(s[0], s[1]);
          assert PathLe(s[0], s[j + 1]);
          assert !PathLe(s[1], s[0]);
          assert j == 0 || PathLe(s[1], s[j + 1]);
        }
        SizeOfAbsent(t, s[0].path);
      }
    }
  }

  lemma {:induction false} SizeOfPresent(files: seq<FileFact>, f: FileFact)
    requires f in files
    ensures SizeOf(files, f.path).Some?
  {
    if files[0] != f {
      assert f in files[1..];
      SizeOfPresent(files[1..], f);
    }
  }

  ghost predicate SameSizes(s: Snapshot, t: Snapshot) {
    forall p :: SizeOf(s, p) == SizeOf(t, p)
  }

  /** Comparing item lists is comparing mappings, so the fingerprint is canonical. */
  lemma ItemsCanonical(s: Snapshot, t: Snapshot)
    ensures Items(s) == Items(t) <==> SameSizes(s, t)
  {
    ItemsSound(s);
    ItemsSound(t);
    if SameSizes(s, t) {
      forall f ensures f in Items(s) <==> f in Items(t) {
        assert SizeOf(s, f.path) == SizeOf(t, f.path);
      }
      StrictlySortedUnique(Items(s), Items(t), PathLe);
    }
    if Items(s) == Items(t) {
      forall p ensures SizeOf(s, p) == SizeOf(t, p) {
        if SizeOf(s, p).Some? { assert FileFact(p, SizeOf(s, p).value) in Items(s); }
        if SizeOf(t, p).Some? { assert FileFact(p, SizeOf(t, p).value) in Items(t); }
      }
    }
  }

  function TotalSize(files: seq<FileFact>): nat {
    if |files| == 0 then 0 else files[0].size + TotalSize(files[1..])
  }

  lemma TotalSizeSingle(f: FileFact)
    ensures TotalSize([f]) == f.size
  {
    assert [f][1..] == [];
  }

  /** With the size of one file, this determines the sum. */
  lemma {:induction false} TotalSizeConcat(a: seq<FileFact>, b: seq<FileFact>)
    ensures TotalSize(a + b) == TotalSize(a) + TotalSize(b)
  {
    if |a| == 0 {
      assert a + b == b;
    } else {
      assert (a + b)[1..] == a[1..] + b;
      TotalSizeConcat(a[1..], b);
    }
  }

  lemma {:induction false} TotalSizePositive(files: seq<FileFact>)
    ensures TotalSize(files) > 0 <==> exists f :: f in files && f.size > 0
  {
    if |files| != 0 {
      TotalSizePositive(files[1..]);
      assert files == [files[0]] + files[1..];
    }
  }

  /** The listed items whose size is not what the baseline recorded; deletions are not changes. */
  function Diff(baseline: Snapshot, items: seq<FileFact>): seq<FileFact> {
    if |items| == 0 then []
    else
      (if SizeOf(baseline, items[0].path) != Some(items[0].size) then [items[0]] else [])
      + Diff(baseline, items[1..])
  }

  /** Whether a path is an owned path or lies inside one. */
  predicate Under(path: string, owned: string) {
    path == owned || Paths.RStrip(owned) + "/" <= path
  }

  predicate UnderAny(path: string, owned: seq<string>) {
    exists i :: 0 <= i < |owned| && Under(path, owned[i])
  }

  function Restrict(items: seq<FileFact>, owned: seq<string>): seq<FileFact> {
    if |items| == 0 then []
    else
      (if UnderAny(items[0].path, owned) then [items[0]] else []) + Restrict(items[1..], owned)
  }

  datatype CompletionError = OutsideDestination

  /** `_top_level_owner`: the entry directly below the destination that holds a path. */
  function TopLevelOwner(destination: string, path: string): Result<string, CompletionError> {
    var normalized := Paths.RStrip(destination);
    if normalized == "" then Ok("/" + Paths.Split(Paths.LStrip(path), '/')[0])
    else
      var prefix := normalized + "/";
      if prefix <= path then Ok(prefix + Paths.Split(path[|prefix|..], '/')[0])
      else Err(OutsideDestination)
  }

  function OwnersOf(destination: string, items: seq<FileFact>): Result<seq<string>, CompletionError> {
    if |items| == 0 then Ok([])
    else
      var first := TopLevelOwner(destination, items[0].path);
      var rest := OwnersOf(destination, items[1..]);
      if first.Err? then Err(first.error)
      else if rest.Err? then rest
      else Ok([first.value] + rest.value)
  }

  datatype CompletionState = CompletionState(
    baseline: Snapshot,
    destination: string,
    required: nat,
    owned: seq<string>,
    lastFingerprint: seq<FileFact>,
    stable: nat)

  /** What the constructor of the state insists on. */
  predicate Constructible(destination: string, required: nat) {
    required >= 2 && "/" <= destination
  }

  function Fresh(baseline: Snapshot, destination: string, required: nat): CompletionState {
    CompletionState(baseline, destination, required, [], [], 0)
  }

  datatype Observation = Observation(state: CompletionState, completed: bool, changedCount: nat, changedSize: nat)

  function Conclude(state: CompletionState, owned: seq<string>, changed: seq<FileFact>): Observation {
    var total := TotalSize(changed);
    if changed == [] || total == 0 then
      Observation(state.(owned := owned, lastFingerprint := [], stable := 0), false, |changed|, total)
    else
      var stable := if changed == state.lastFingerprint then state.stable + 1 else 1;
      Observation(state.(owned := owned, lastFingerprint := changed, stable := stable),
                  stable >= state.required, |changed|, total)
  }

  /** `observe_completion`. */
  function Observe(state: CompletionState, current: Snapshot): Result<Observation, CompletionError> {
    var diff := Diff(state.baseline, Items(current));
    if state.owned != [] then Ok(Conclude(state, state.owned, Restrict(diff, state.owned)))
    else
      var owners := OwnersOf(state.destination, diff);
      if owners.Err? then Err(owners.error)
      else Ok(Conclude(state, SortedSet(owners.value, StrLe), diff))
  }

  // ---- Every changed file lies under its own frozen owner ----

  /** Strictly below the destination: its directory prefix, then a name. */
  ghost predicate StrictlyBelow(destination: string, path: string) {
    var prefix := Paths.RStrip(destination) + "/";
    prefix <= path && |path| > |prefix| && path[|prefix|] != '/'
  }

  /** A listing the client can return: every path is the destination itself or strictly below it. */
  ghost predicate Inside(destination: string, snapshot: Snapshot) {
    forall f :: f in snapshot ==> f.path == Paths.RStrip(destination) || StrictlyBelow(destination, f.path)
  }

  lemma {:induction false} FirstPart(s: string)
    ensures var first := Paths.Split(s, '/')[0]; first == s || first + "/" <= s
    ensures s != "" && s[0] != '/' ==> Paths.Split(s, '/')[0] != ""
  {
    if |s| != 0 && s[0] != '/' {
      FirstPart(s[1..]);
      assert s == [s[0]] + s[1..];
    }
  }

  lemma {:induction false} RStripNoSlash(s: string, t: string)
    requires t != "" && t[|t| - 1] != '/'
    ensures Paths.RStrip(s + t) == s + t
  {
    assert (s + t)[|s + t| - 1] == t[|t| - 1];
  }

  /** A direct child of the destination: one more name. */
  ghost predicate DirectChild(destination: string, owner: string) {
    var prefix := Paths.RStrip(destination) + "/";
    prefix < owner && '/' !in owner[|prefix|..]
  }

  lemma OwnerOfPath(destination: string, path: string)
    requires StrictlyBelow(destination, path)
    ensures var prefix := Paths.RStrip(destination) + "/";
            TopLevelOwner(destination, path) == Ok(prefix + Paths.Split(path[|prefix|..], '/')[0])
  {
    hide Paths.Split;
    var prefix := Paths.RStrip(destination) + "/";
    var relative := path[|prefix|..];
    if Paths.RStrip(destination) == "" {
      assert prefix == "/" && path[1..] == relative;
      assert Paths.LStrip(path) == Paths.LStrip(relative) == relative;
    }
  }

  /** The owner of a path is the direct child of the destination that the path is or lies below. */
  lemma OwnerIsDirectChild(destination: string, path: string)
    requires StrictlyBelow(destination, path)
    ensures TopLevelOwner(destination, path).Ok?
    ensures DirectChild(destination, TopLevelOwner(destination, path).value)
    ensures Under(path, TopLevelOwner(destination, path).value)
  {
    var prefix := Paths.RStrip(destination) + "/";
    var relative := path[|prefix|..];
    var first := Paths.Split(relative, '/')[0];
    assert path == prefix + relative;
    OwnerOfPath(destination, path);
    FirstPart(relative);
    Paths.SplitParts(relative, '/');
    assert (prefix + first)[|prefix|..] == first;
    if first != relative {
      assert first[|first| - 1] in first;
      RStripNoSlash(prefix, first);
      assert prefix + first + "/" == prefix + (first + "/");
    }
  }

  lemma {:induction false} OwnersContain(destination: string, items: seq<FileFact>)
    requires forall i :: 0 <= i < |items| ==> StrictlyBelow(destination, items[i].path)
    ensures OwnersOf(destination, items).Ok?
    ensures forall i :: 0 <= i < |items| ==>
              exists o :: o in OwnersOf(destination, items).value && Under(items[i].path, o)
    ensures items != [] ==> OwnersOf(destination, items).value != []
  {
    if |items| != 0 {
      OwnerIsDirectChild(destination, items[0].path);
      OwnersContain(destination, items[1..]);
      var first := TopLevelOwner(destination, items[0].path).value;
      var rest := OwnersOf(destination, items[1..]).value;
      assert OwnersOf(destination, items).value == [first] + rest;
      forall i | 0 <= i < |items|
        ensures exists o :: o in [first] + rest && Under(items[i].path, o)
      {
        if i == 0 {
          assert first in [first] + rest;
        } else {
          var o :| o in rest && Under(items[1..][i - 1].path, o);
          assert o in [first] + rest;
        }
      }
    }
  }

  lemma {:induction false} RestrictAll(items: seq<FileFact>, owned: seq<string>)
    requires forall i :: 0 <= i < |items| ==> UnderAny(items[i].path, owned)
    ensures Restrict(items, owned) == items
  {
    if |items| != 0 {
      forall i | 0 <= i < |items[1..]| ensures UnderAny(items[1..][i].path, owned) {
        assert items[1..][i] == items[i + 1];
      }
      RestrictAll(items[1..], owned);
      assert items == [items[0]] + items[1..];
    }
  }

  ghost function Owners(destination: string, items: seq<FileFact>): seq<string> {
    var owners := OwnersOf(destination, items);
    if owners.Ok? then SortedSet(owners.value, StrLe) else []
  }

  /** The first fingerprint, taken before ownership exists, already is its owner-restricted form. */
  lemma FirstFingerprintIsRestricted(destination: string, items: seq<FileFact>)
    requires forall i :: 0 <= i < |items| ==> StrictlyBelow(destination, items[i].path)
    ensures Restrict(items, Owners(destination, items)) == items
    ensures Owners(destination, items) == [] <==> items == []
  {
    OwnersContain(destination, items);
    var found := OwnersOf(destination, items).value;
    var owners := Owners(destination, items);
    StrLeOrder();
    SortedSetSorted(found, StrLe);
    forall i | 0 <= i < |items| ensures UnderAny(items[i].path, owners) {
      var o :| o in found && Under(items[i].path, o);
      assert o in owners;
    }
    RestrictAll(items, owners);
    if items != [] {
      assert found[0] in found;
      assert found[0] in owners;
    }
  }

  // ---- When an observation raises ----

  lemma {:induction false} DiffMembers(baseline: Snapshot, items: seq<FileFact>)
    ensures forall f :: f in Diff(baseline, items) <==> f in items && SizeOf(baseline, f.path) != Some(f.size)
  {
    if |items| != 0 {
      DiffMembers(baseline, items[1..]);
      assert items == [items[0]] + items[1..];
    }
  }

  lemma {:induction false} OwnersOfRaises(destination: string, items: seq<FileFact>)
    ensures OwnersOf(destination, items).Err? <==> exists f :: f in items && TopLevelOwner(destination, f.path).Err?
  {
    if |items| != 0 {
      OwnersOfRaises(destination, items[1..]);
      assert items == [items[0]] + items[1..];
    }
  }

  /** Nothing is owned yet, and a file that the baseline did not hold is listed at the destination path itself. */
  predicate FileAtDestination(c: CompletionState, s: Snapshot) {
    && c.owned == []
    && SizeOf(s, c.destination).Some? && SizeOf(s, c.destination) != SizeOf(c.baseline, c.destination)
  }

  /** Inside a directory, only the directory's own path has no owner. */
  lemma OnlyDestinationHasNoOwner(destination: string, path: string)
    requires Paths.RStrip(destination) == destination != ""
    requires path == destination || StrictlyBelow(destination, path)
    ensures TopLevelOwner(destination, path).Err? <==> path == destination
  {
    if path != destination {
      OwnerIsDirectChild(destination, path);
    }
  }

  /**
   * For a listing inside its directory, an observation raises exactly when a changed file stands in the directory's
   * place.
   */
  lemma ObserveRaisesIff(c: CompletionState, s: Snapshot)
    requires Paths.RStrip(c.destination) == c.destination != "" && Inside(c.destination, s)
    ensures Observe(c, s).Err? <==> FileAtDestination(c, s)
  {
    hide OwnersOf, Diff, TopLevelOwner, StrictlyBelow, Paths.RStrip, SizeOf, Items, Conclude;
    var diff := Diff(c.baseline, Items(s));
    ItemsSound(s);
    DiffMembers(c.baseline, Items(s));
    OwnersOfRaises(c.destination, diff);
    forall f | f in diff ensures TopLevelOwner(c.destination, f.path).Err? <==> f.path == c.destination {
      assert f in s;
      OnlyDestinationHasNoOwner(c.destination, f.path);
    }
    if FileAtDestination(c, s) {
      assert FileFact(c.destination, SizeOf(s, c.destination).value) in diff;
    }
  }

  // ---- Folding observations over a whole poll history ----

  /** The state after observing the snapshots in order, if no observation raises. */
  function Fold(state: CompletionState, snapshots: seq<Snapshot>): Option<CompletionState> {
    if |snapshots| == 0 then Some(state)
    else
      var before := Fold(state, snapshots[..|snapshots| - 1]);
      if before.None? then None
      else
        var last := Observe(before.value, snapshots[|snapshots| - 1]);
        if last.Err? then None else Some(last.value.state)
  }

  /** Whether the last observation of a history reports completion. */
  predicate ReportsCompletion(state: CompletionState, snapshots: seq<Snapshot>)
    requires |snapshots| > 0
  {
    var before := Fold(state, snapshots[..|snapshots| - 1]);
    before.Some? &&
    var last := Observe(before.value, snapshots[|snapshots| - 1]);
    last.Ok? && last.value.completed
  }

  ghost function Changes(baseline: Snapshot, snapshot: Snapshot): seq<FileFact> {
    Diff(baseline, Items(snapshot))
  }

  /** The owners frozen at the first snapshot that differs from the baseline. */
  ghost function FrozenOwners(baseline: Snapshot, destination: string, snapshots: seq<Snapshot>): seq<string> {
    if |snapshots| == 0 then []
    else
      var earlier := FrozenOwners(baseline, destination, snapshots[..|snapshots| - 1]);
      if earlier != [] then earlier
      else Owners(destination, Changes(baseline, snapshots[|snapshots| - 1]))
  }

  /** The changes of one snapshot that the task owns, given everything seen so far. */
  ghost function OwnedChanges(baseline: Snapshot, owners: seq<string>, snapshot: Snapshot): seq<FileFact> {
    Restrict(Changes(baseline, snapshot), owners)
  }

  /** Some change has content. */
  ghost predicate Downloaded(changes: seq<FileFact>) {
    exists f :: f in changes && f.size > 0
  }

  ghost predicate ChangesBelow(baseline: Snapshot, destination: string, snapshot: Snapshot) {
    forall i :: 0 <= i < |Changes(baseline, snapshot)|
      ==> StrictlyBelow(destination, Changes(baseline, snapshot)[i].path)
  }

  ghost predicate UnchangedBefore(baseline: Snapshot, snapshots: seq<Snapshot>, n: nat)
    requires n <= |snapshots|
  {
    forall k :: 0 <= k < n ==> Changes(baseline, snapshots[k]) == []
  }

  /** The first changed files lie strictly below the destination; later snapshots may show anything. */
  ghost predicate FirstChangeBelow(baseline: Snapshot, destination: string, snapshots: seq<Snapshot>) {
    forall k :: 0 <= k < |snapshots| && UnchangedBefore(baseline, snapshots, k)
      ==> ChangesBelow(baseline, destination, snapshots[k])
  }

  /** The last `count` snapshots show the same owned, non-empty, positive-size change set. */
  ghost predicate StableFor(baseline: Snapshot, owners: seq<string>, snapshots: seq<Snapshot>, count: nat) {
    && 1 <= count <= |snapshots|
    && var last := OwnedChanges(baseline, owners, snapshots[|snapshots| - 1]);
       && Downloaded(last)
       && forall k :: |snapshots| - count <= k < |snapshots| ==> OwnedChanges(baseline, owners, snapshots[k]) == last
  }

  lemma PrefixBelow(baseline: Snapshot, destination: string, snapshots: seq<Snapshot>, n: nat)
    requires n <= |snapshots| && FirstChangeBelow(baseline, destination, snapshots)
    ensures FirstChangeBelow(baseline, destination, snapshots[..n])
  {
    forall k | 0 <= k < n && UnchangedBefore(baseline, snapshots[..n], k)
      ensures ChangesBelow(baseline, destination, snapshots[..n][k])
    {
      assert UnchangedBefore(baseline, snapshots, k) by {
        forall j | 0 <= j < k ensures Changes(baseline, snapshots[j]) == [] {
          assert snapshots[..n][j] == snapshots[j];
        }
      }
      assert ChangesBelow(baseline, destination, snapshots[k]);
    }
  }

  /** Before the freeze there are no changes at all, so the later owners restrict them to the same nothing. */
  lemma {:induction false} NoOwnersNoChanges(baseline: Snapshot, destination: string, snapshots: seq<Snapshot>)
    requires FirstChangeBelow(baseline, destination, snapshots)
    requires FrozenOwners(baseline, destination, snapshots) == []
    ensures UnchangedBefore(baseline, snapshots, |snapshots|)
  {
    if |snapshots| != 0 {
      var n := |snapshots| - 1;
      PrefixBelow(baseline, destination, snapshots, n);
      NoOwnersNoChanges(baseline, destination, snapshots[..n]);
      assert UnchangedBefore(baseline, snapshots, n) by {
        forall k | 0 <= k < n ensures Changes(baseline, snapshots[k]) == [] {
          assert snapshots[..n][k] == snapshots[k];
        }
      }
      assert ChangesBelow(baseline, destination, snapshots[n]);
      FirstFingerprintIsRestricted(destination, Changes(baseline, snapshots[n]));
    }
  }

  ghost predicate FoldShape(baseline: Snapshot, destination: string, required: nat, snapshots: seq<Snapshot>,
                            s: CompletionState) {
    var owners := FrozenOwners(baseline, destination, snapshots);
    && s.baseline == baseline && s.destination == destination && s.required == required
    && s.owned == owners
    && (|snapshots| == 0 ==> s.lastFingerprint == [] && s.stable == 0)
    && (|snapshots| > 0 ==>
          var last := OwnedChanges(baseline, owners, snapshots[|snapshots| - 1]);
          && s.lastFingerprint == (if Downloaded(last) then last else [])
          && (s.stable == 0 <==> !Downloaded(last)))
    && forall c: nat :: c >= 1 ==> (StableFor(baseline, owners, snapshots, c) <==> c <= s.stable)
  }

  /** One more snapshot extends the run of equal change sets exactly when it repeats the last one. */
  lemma StableForStep(baseline: Snapshot, owners: seq<string>, snapshots: seq<Snapshot>, c: nat)
    requires |snapshots| >= 2 && c >= 2
    ensures var n := |snapshots| - 1;
            StableFor(baseline, owners, snapshots, c) <==>
              && StableFor(baseline, owners, snapshots[..n], c - 1)
              && OwnedChanges(baseline, owners, snapshots[n]) == OwnedChanges(baseline, owners, snapshots[n - 1])
  {
    var n := |snapshots| - 1;
    var init := snapshots[..n];
    assert init[|init| - 1] == snapshots[n - 1];
    if StableFor(baseline, owners, snapshots, c) {
      forall k | |init| - (c - 1) <= k < |init|
        ensures OwnedChanges(baseline, owners, init[k]) == OwnedChanges(baseline, owners, init[|init| - 1])
      {
        assert init[k] == snapshots[k];
      }
    }
    if StableFor(baseline, owners, init, c - 1)
       && OwnedChanges(baseline, owners, snapshots[n]) == OwnedChanges(baseline, owners, snapshots[n - 1]) {
      forall k | |snapshots| - c <= k < |snapshots|
        ensures OwnedChanges(baseline, owners, snapshots[k]) == OwnedChanges(baseline, owners, snapshots[n])
      {
        if k < n { assert init[k] == snapshots[k]; }
      }
    }
  }

  lemma {:induction false} FoldCharacterised(baseline: Snapshot, destination: string, required: nat,
                                             snapshots: seq<Snapshot>)
    requires FirstChangeBelow(baseline, destination, snapshots)
    ensures Fold(Fresh(baseline, destination, required), snapshots).Some?
    ensures FoldShape(baseline, destination, required, snapshots,
                      Fold(Fresh(baseline, destination, required), snapshots).value)
  {
    if |snapshots| != 0 {
      var n := |snapshots| - 1;
      var init := snapshots[..n];
      PrefixBelow(baseline, destination, snapshots, n);
      FoldCharacterised(baseline, destination, required, init);
      FoldStep(baseline, destination, required, snapshots, Fold(Fresh(baseline, destination, required), init).value);
    }
  }

  /** While nothing is owned, the newest changes have owners, and these own all of them. */
  lemma FirstOwnersHold(baseline: Snapshot, destination: string, snapshots: seq<Snapshot>)
    requires |snapshots| > 0 && FirstChangeBelow(baseline, destination, snapshots)
    ensures FrozenOwners(baseline, destination, snapshots[..|snapshots| - 1]) == [] ==>
            var diff := Changes(baseline, snapshots[|snapshots| - 1]);
            && OwnersOf(destination, diff).Ok?
            && Restrict(diff, Owners(destination, diff)) == diff
  {
    var n := |snapshots| - 1;
    var init := snapshots[..n];
    PrefixBelow(baseline, destination, snapshots, n);
    if FrozenOwners(baseline, destination, init) == [] {
      NoOwnersNoChanges(baseline, destination, init);
      assert UnchangedBefore(baseline, snapshots, n) by {
        forall k | 0 <= k < n ensures Changes(baseline, snapshots[k]) == [] {
          assert init[k] == snapshots[k];
        }
      }
      assert ChangesBelow(baseline, destination, snapshots[n]);
      FirstFingerprintIsRestricted(destination, Changes(baseline, snapshots[n]));
      OwnersContain(destination, Changes(baseline, snapshots[n]));
    }
  }

  /** What the next observation concludes from: the frozen owners and the changes they own. */
  lemma NextConclusion(baseline: Snapshot, destination: string, required: nat, snapshots: seq<Snapshot>,
                       s: CompletionState)
    requires |snapshots| > 0
    requires FirstChangeBelow(baseline, destination, snapshots)
    requires FoldShape(baseline, destination, required, snapshots[..|snapshots| - 1], s)
    ensures var owners := FrozenOwners(baseline, destination, snapshots);
            Observe(s, snapshots[|snapshots| - 1])
            == Ok(Conclude(s, owners, OwnedChanges(baseline, owners, snapshots[|snapshots| - 1])))
    ensures FrozenOwners(baseline, destination, snapshots[..|snapshots| - 1]) == [] ==>
              s.stable == 0 && s.lastFingerprint == []
  {
    hide Diff, Items, Restrict, OwnersOf, TotalSize, StrictlyBelow, SortedSet, StableFor, FirstChangeBelow, Downloaded;
    hide Conclude;
    var n := |snapshots| - 1;
    var init := snapshots[..n];
    FirstOwnersHold(baseline, destination, snapshots);
    PrefixBelow(baseline, destination, snapshots, n);
    if FrozenOwners(baseline, destination, init) == [] {
      NoOwnersNoChanges(baseline, destination, init);
      if n > 0 {
        assert Changes(baseline, init[n - 1]) == [];
        NothingRestricted(FrozenOwners(baseline, destination, init));
      }
    }
  }

  lemma NothingRestricted(owners: seq<string>)
    ensures Restrict([], owners) == [] && !Downloaded([])
  {
  }

  /** The stable count after it is the length of the run of equal, downloaded change sets. */
  lemma StableCount(baseline: Snapshot, destination: string, required: nat, snapshots: seq<Snapshot>,
                    s: CompletionState, c: nat)
    requires |snapshots| > 0 && c >= 1
    requires FirstChangeBelow(baseline, destination, snapshots)
    requires FoldShape(baseline, destination, required, snapshots[..|snapshots| - 1], s)
    ensures var owners := FrozenOwners(baseline, destination, snapshots);
            var last := OwnedChanges(baseline, owners, snapshots[|snapshots| - 1]);
            StableFor(baseline, owners, snapshots, c) <==> c <= Conclude(s, owners, last).state.stable
  {
    hide Diff, Items, Restrict, OwnersOf, TotalSize, StrictlyBelow, SortedSet, FirstChangeBelow, Observe, Changes;
    hide Downloaded;
    var n := |snapshots| - 1;
    var init := snapshots[..n];
    var owners := FrozenOwners(baseline, destination, snapshots);
    var before := FrozenOwners(baseline, destination, init);
    var last := OwnedChanges(baseline, owners, snapshots[n]);
    NextConclusion(baseline, destination, required, snapshots, s);
    DownloadedMeans(last);
    if c > 1 && n > 0 {
      StableForStep(baseline, owners, snapshots, c);
      assert snapshots[n - 1] == init[n - 1];
      if before == [] {
        PrefixBelow(baseline, destination, snapshots, n);
        NoOwnersNoChanges(baseline, destination, init);
        NothingRestricted(owners);
        assert OwnedChanges(baseline, owners, snapshots[n - 1]) == [];
      }
    }
  }

  lemma DownloadedMeans(changes: seq<FileFact>)
    ensures Downloaded(changes) <==> changes != [] && TotalSize(changes) > 0
  {
    TotalSizePositive(changes);
  }

  lemma FoldStep(baseline: Snapshot, destination: string, required: nat, snapshots: seq<Snapshot>, s: CompletionState)
    requires |snapshots| > 0
    requires FirstChangeBelow(baseline, destination, snapshots)
    requires FoldShape(baseline, destination, required, snapshots[..|snapshots| - 1], s)
    ensures Observe(s, snapshots[|snapshots| - 1]).Ok?
    ensures FoldShape(baseline, destination, required, snapshots, Observe(s, snapshots[|snapshots| - 1]).value.state)
    ensures var o := Observe(s, snapshots[|snapshots| - 1]).value;
            var owners := FrozenOwners(baseline, destination, snapshots);
            var changes := OwnedChanges(baseline, owners, snapshots[|snapshots| - 1]);
            o.changedCount == |changes| && o.changedSize == TotalSize(changes)
  {
    hide OwnedChanges, TotalSize, StableFor, FirstChangeBelow, Observe, Downloaded;
    var owners := FrozenOwners(baseline, destination, snapshots);
    var last := OwnedChanges(baseline, owners, snapshots[|snapshots| - 1]);
    NextConclusion(baseline, destination, required, snapshots, s);
    DownloadedMeans(last);
    var next := Observe(s, snapshots[|snapshots| - 1]).value.state;
    forall c: nat | c >= 1 ensures StableFor(baseline, owners, snapshots, c) <==> c <= next.stable {
      StableCount(baseline, destination, required, snapshots, s, c);
    }
  }

  /**
   * The completion rule of the third decision record, for every poll history: the newest
   * observation reports completion exactly when the last `required` snapshots show one and the
   * same non-empty change set of positive total size, restricted to the owners frozen at the
   * first change.
   */
  lemma CompletionIffStable(baseline: Snapshot, destination: string, required: nat, snapshots: seq<Snapshot>)
    requires |snapshots| > 0 && required >= 2
    requires FirstChangeBelow(baseline, destination, snapshots)
    ensures ReportsCompletion(Fresh(baseline, destination, required), snapshots)
            <==> StableFor(baseline, FrozenOwners(baseline, destination, snapshots), snapshots, required)
  {
    hide Diff, Items, Restrict, OwnersOf, TotalSize, SortedSet, FrozenOwners, StableFor, FirstChangeBelow;
    hide OwnedChanges;
    var start := Fresh(baseline, destination, required);
    var n := |snapshots| - 1;
    PrefixBelow(baseline, destination, snapshots, n);
    FoldCharacterised(baseline, destination, required, snapshots);
    FoldCharacterised(baseline, destination, required, snapshots[..n]);
    var after := Fold(start, snapshots).value;
    assert Observe(Fold(start, snapshots[..n]).value, snapshots[n]).value.completed <==> after.stable >= required;
  }

  /** What an observation counts and adds up: the owned changes of the newest snapshot. */
  lemma ObservationCounts(baseline: Snapshot, destination: string, required: nat, snapshots: seq<Snapshot>)
    requires |snapshots| > 0 && FirstChangeBelow(baseline, destination, snapshots)
    ensures var before := Fold(Fresh(baseline, destination, required), snapshots[..|snapshots| - 1]);
            var owners := FrozenOwners(baseline, destination, snapshots);
            var last := snapshots[|snapshots| - 1];
            var changes := OwnedChanges(baseline, owners, last);
            && before.Some? && Observe(before.value, last).Ok?
            && Observe(before.value, last).value.state.owned == owners
            && Observe(before.value, last).value.changedCount == |changes|
            && Observe(before.value, last).value.changedSize == TotalSize(changes)
  {
    hide Observe, OwnersOf, Restrict, Changes, FirstChangeBelow;
    var n := |snapshots| - 1;
    PrefixBelow(baseline, destination, snapshots, n);
    FoldCharacterised(baseline, destination, required, snapshots[..n]);
    FoldStep(baseline, destination, required, snapshots,
             Fold(Fresh(baseline, destination, required), snapshots[..n]).value);
  }

  // ---- Which changes are owned ----

  /** For normal paths, to be under an owner is to extend its segments. */
  lemma UnderMeansExtends(owner: seq<string>, names: seq<string>)
    requires Paths.ValidNames(owner) && Paths.ValidNames(names)
    ensures Under(Paths.Absolute(names), Paths.Absolute(owner)) <==> owner <= names
  {
    hide Paths.RStrip, Paths.Absolute;
    Directories.WithinMeansExtends(owner, names);
  }

  lemma {:induction false} DiffSorted(baseline: Snapshot, items: seq<FileFact>)
    requires StrictlySorted(items, PathLe)
    ensures StrictlySorted(Diff(baseline, items), PathLe)
  {
    if |items| != 0 {
      DiffSorted(baseline, items[1..]);
      DiffMembers(baseline, items[1..]);
      Follows(items, Diff(baseline, items[1..]));
    }
  }

  lemma {:induction false} RestrictSorted(items: seq<FileFact>, owned: seq<string>)
    requires StrictlySorted(items, PathLe)
    ensures StrictlySorted(Restrict(items, owned), PathLe)
    ensures forall f :: f in Restrict(items, owned) <==> f in items && UnderAny(f.path, owned)
  {
    if |items| != 0 {
      RestrictSorted(items[1..], owned);
      assert items == [items[0]] + items[1..];
      Follows(items, Restrict(items[1..], owned));
    }
  }

  /** What comes from the rest of a sorted listing comes after its first file. */
  lemma Follows(items: seq<FileFact>, rest: seq<FileFact>)
    requires |items| > 0 && StrictlySorted(items, PathLe) && forall f :: f in rest ==> f in items[1..]
    requires StrictlySorted(rest, PathLe)
    ensures StrictlySorted([items[0]] + rest, PathLe)
  {
    forall j | 0 <= j < |rest| ensures PathLe(items[0], rest[j]) && !PathLe(rest[j], items[0]) {
      assert rest[j] in rest;
      var i :| 0 <= i < |items[1..]| && items[1..][i] == rest[j];
      assert items[i + 1] == rest[j];
    }
  }

  /**
   * The owned changes are exactly the files that the snapshot lists with a size other than the baseline's and
   * that lie under an owner, each once and in order of their paths.
   */
  lemma OwnedChangesMean(baseline: Snapshot, owners: seq<string>, snapshot: Snapshot)
    ensures var changes := OwnedChanges(baseline, owners, snapshot);
            && StrictlySorted(changes, PathLe)
            && forall f :: f in changes <==>
                 && SizeOf(snapshot, f.path) == Some(f.size) && SizeOf(baseline, f.path) != Some(f.size)
                 && exists i :: 0 <= i < |owners| && Under(f.path, owners[i])
  {
    hide Items, Diff, Restrict, SizeOf;
    ItemsSound(snapshot);
    DiffSorted(baseline, Items(snapshot));
    DiffMembers(baseline, Items(snapshot));
    RestrictSorted(Changes(baseline, snapshot), owners);
  }

  /** The owners are exactly the direct children of the destination that hold a changed file. */
  lemma OwnersMean(destination: string, items: seq<FileFact>, owner: string)
    requires forall i :: 0 <= i < |items| ==> StrictlyBelow(destination, items[i].path)
    ensures owner in Owners(destination, items) <==>
              DirectChild(destination, owner) && exists i :: 0 <= i < |items| && Under(items[i].path, owner)
  {
    hide StrictlyBelow, DirectChild, Under, TopLevelOwner;
    OwnersContain(destination, items);
    OwnersMembers(destination, items);
    StrLeOrder();
    SortedSetSorted(OwnersOf(destination, items).value, StrLe);
    forall i | 0 <= i < |items|
      ensures TopLevelOwner(destination, items[i].path).Ok?
      ensures TopLevelOwner(destination, items[i].path).value == owner
              <==> DirectChild(destination, owner) && Under(items[i].path, owner)
    {
      OwnerIsUnique(destination, items[i].path, owner);
    }
  }

  lemma {:induction false} OwnersMembers(destination: string, items: seq<FileFact>)
    requires OwnersOf(destination, items).Ok?
    ensures forall o :: o in OwnersOf(destination, items).value <==>
                          exists i :: 0 <= i < |items| && TopLevelOwner(destination, items[i].path) == Ok(o)
  {
    hide TopLevelOwner;
    if |items| != 0 {
      OwnersMembers(destination, items[1..]);
      var rest := OwnersOf(destination, items[1..]).value;
      forall o | exists i :: 0 <= i < |items[1..]| && TopLevelOwner(destination, items[1..][i].path) == Ok(o)
        ensures exists i :: 0 <= i < |items| && TopLevelOwner(destination, items[i].path) == Ok(o)
      {
        var i :| 0 <= i < |items[1..]| && TopLevelOwner(destination, items[1..][i].path) == Ok(o);
        assert TopLevelOwner(destination, items[i + 1].path) == Ok(o);
      }
      forall i, o | 0 <= i < |items| && TopLevelOwner(destination, items[i].path) == Ok(o)
        ensures o in OwnersOf(destination, items).value
      {
        if i > 0 { assert TopLevelOwner(destination, items[1..][i - 1].path) == Ok(o); }
      }
    }
  }

  /** A path below the destination lies under one direct child only. */
  lemma OwnerIsUnique(destination: string, path: string, owner: string)
    requires StrictlyBelow(destination, path)
    ensures TopLevelOwner(destination, path).Ok?
    ensures TopLevelOwner(destination, path).value == owner <==> DirectChild(destination, owner) && Under(path, owner)
  {
    OwnerIsDirectChild(destination, path);
    if DirectChild(destination, owner) && Under(path, owner) {
      ChildOwns(destination, path, owner);
    }
  }

  lemma ChildOwns(destination: string, path: string, owner: string)
    requires StrictlyBelow(destination, path) && DirectChild(destination, owner) && Under(path, owner)
    ensures TopLevelOwner(destination, path) == Ok(owner)
  {
    hide Paths.Split, StrictlyBelow;
    var prefix := Paths.RStrip(destination) + "/";
    var name, relative := owner[|prefix|..], path[|prefix|..];
    OwnerOfPath(destination, path);
    assert owner == prefix + name && path == prefix + relative;
    assert name[|name| - 1] in name;
    RStripNoSlash(prefix, name);
    if path != owner {
      assert prefix + name + "/" == prefix + (name + "/");
      assert (prefix + relative)[|prefix|..] == relative && (prefix + (name + "/")) <= prefix + relative;
      assert relative[..|name| + 1] == (prefix + relative)[|prefix|..|prefix + (name + "/")|];
      assert (prefix + relative)[..|prefix + (name + "/")|] == prefix + (name + "/");
      assert relative[..|name| + 1] == name + "/";
    }
    FirstName(relative, name);
  }

  lemma FirstName(relative: string, name: string)
    requires '/' !in name && (relative == name || name + "/" <= relative)
    ensures Paths.Split(relative, '/')[0] == name
  {
    Paths.SplitWithout(name, '/');
    if relative != name {
      var rest := relative[|name| + 1..];
      assert relative == name + ['/'] + rest;
      Paths.SplitConcat(name, '/', rest);
    }
  }
}
