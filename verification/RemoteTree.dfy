/**
 * Taking a snapshot of a remote directory: a bounded depth-first walk over an untrusted server
 * (downloaders/clouddrive.py).
 */
module RemoteTree {
  import opened Wrappers
  import Completion
  import Directories
  import Paths

  datatype Kind = Directory | File | Other

  datatype Entry = Entry(fullPath: string, kind: Kind, size: int)

  /** The entries a listing streams, and whether the call then fails. */
  datatype Reply = Reply(entries: seq<Entry>, failed: bool)

  /** Each directory is listed at most once, so a server is what it would answer for each path. */
  type Server = string -> Reply

  datatype Limits = Limits(maxDepth: nat, maxEntries: nat)

  datatype TreeError = InvalidPath | DepthExceeded | EntriesExceeded | OutsideDestination | ReadFailed

  /** The check on every listed path. */
  predicate Within(destination: string, path: string) {
    path == destination || Paths.RStrip(destination) + "/" <= path || destination == "/"
  }

  predicate Admitted(destination: string, e: Entry) {
    Paths.Normalize(e.fullPath).Ok? && Within(destination, Paths.Normalize(e.fullPath).value)
  }

  function PathOf(e: Entry): string {
    if Paths.Normalize(e.fullPath).Ok? then Paths.Normalize(e.fullPath).value else ""
  }

  function FactOf(e: Entry): Completion.FileFact {
    Completion.FileFact(PathOf(e), if e.size < 0 then 0 else e.size)
  }

  /** The files among the entries. */
  function FilesOf(entries: seq<Entry>): seq<Completion.FileFact> {
    if |entries| == 0 then []
    else
      var n := |entries| - 1;
      FilesOf(entries[..n]) + if entries[n].kind == File then [FactOf(entries[n])] else []
  }

  /** The directories among the entries. */
  function DirectoriesOf(entries: seq<Entry>): seq<string> {
    if |entries| == 0 then []
    else
      var n := |entries| - 1;
      DirectoriesOf(entries[..n]) + if entries[n].kind == Directory then [PathOf(entries[n])] else []
  }

  /** The entry of a file: its path in normal form, and its size, where a negative one counts as none. */
  ghost predicate FileEntry(e: Entry, f: Completion.FileFact) {
    && e.kind == File && Paths.Normalize(e.fullPath) == Ok(f.path)
    && (e.size >= 0 ==> f.size == e.size) && (e.size < 0 ==> f.size == 0)
  }

  ghost predicate DirectoryEntry(e: Entry, path: string) {
    e.kind == Directory && Paths.Normalize(e.fullPath) == Ok(path)
  }

  lemma {:induction false} FilesMean(entries: seq<Entry>, f: Completion.FileFact)
    requires forall e :: e in entries ==> Paths.Normalize(e.fullPath).Ok?
    ensures f in FilesOf(entries) <==> exists e :: e in entries && FileEntry(e, f)
  {
    hide Paths.Normalize;
    if |entries| != 0 {
      var n := |entries| - 1;
      assert entries == entries[..n] + [entries[n]];
      assert entries[n] in entries;
      FilesMean(entries[..n], f);
      assert entries[n].kind == File ==> (FileEntry(entries[n], f) <==> f == FactOf(entries[n]));
    }
  }

  lemma {:induction false} DirectoriesMean(entries: seq<Entry>, path: string)
    requires forall e :: e in entries ==> Paths.Normalize(e.fullPath).Ok?
    ensures path in DirectoriesOf(entries) <==> exists e :: e in entries && DirectoryEntry(e, path)
  {
    hide Paths.Normalize;
    if |entries| != 0 {
      var n := |entries| - 1;
      assert entries == entries[..n] + [entries[n]];
      assert entries[n] in entries;
      DirectoriesMean(entries[..n], path);
      assert entries[n].kind == Directory ==> (DirectoryEntry(entries[n], path) <==> path == PathOf(entries[n]));
    }
  }

  /** An entry is admitted exactly if its path is a path at all and extends the destination's segments. */
  lemma AdmittedMeans(root: seq<string>, e: Entry)
    requires Paths.ValidNames(root)
    ensures Admitted(Paths.Absolute(root), e) <==>
              Paths.Normalize(e.fullPath).Ok? && root <= Paths.Segments(e.fullPath)
  {
    hide Paths.Normalize, Paths.RStrip, Paths.Segments, Paths.Absolute;
    if Paths.Normalize(e.fullPath).Ok? {
      Paths.NormalizeSegments(e.fullPath);
      Directories.WithinMeansExtends(root, Paths.Segments(e.fullPath));
      RootAdmitsAll(root);
    }
  }

  lemma RootAdmitsAll(root: seq<string>)
    requires Paths.ValidNames(root)
    ensures Paths.Absolute(root) == "/" <==> root == []
  {
    if root != [] {
      Paths.JoinEnds(root);
    }
  }

  /** The files of several listings, one after the other. */
  function AllFiles(server: Server, listed: seq<string>): seq<Completion.FileFact> {
    if |listed| == 0 then [] else AllFiles(server,
                                           listed[..|listed| - 1]) + FilesOf(server(listed[|listed| - 1]).entries)
  }

  function TotalEntries(server: Server, listed: seq<string>): nat {
    if |listed| == 0 then 0 else TotalEntries(server, listed[..|listed| - 1]) + |server(listed[|listed| - 1]).entries|
  }

  // ---- What is reachable ----

  /** Each directory of the chain is listed by the one before it. */
  ghost predicate Chain(server: Server, root: string, chain: seq<string>) {
    && |chain| > 0 && chain[0] == root
    && forall i :: 0 < i < |chain| ==> chain[i] in DirectoriesOf(server(chain[i - 1]).entries)
  }

  ghost predicate ReachableBy(server: Server, root: string, path: string, chain: seq<string>) {
    Chain(server, root, chain) && chain[|chain| - 1] == path
  }

  ghost predicate Reachable(server: Server, root: string, path: string) {
    exists chain :: ReachableBy(server, root, path, chain)
  }

  ghost predicate ReachableAt(server: Server, root: string, path: string, depth: nat) {
    exists chain :: ReachableBy(server, root, path, chain) && |chain| == depth + 1
  }

  ghost predicate Distinct(s: seq<string>) {
    forall i, j :: 0 <= i < j < |s| ==> s[i] != s[j]
  }

  ghost predicate AllReachable(server: Server, root: string, listed: seq<string>) {
    forall i :: 0 <= i < |listed| ==> Reachable(server, root, listed[i])
  }

  ghost predicate TooDeep(server: Server, limits: Limits, root: string, path: string) {
    ReachableAt(server, root, path, limits.maxDepth + 1)
  }

  /** Why the walk may give up. */
  ghost predicate Justified(server: Server, limits: Limits, root: string, e: TreeError) {
    match e
    case DepthExceeded => exists p :: TooDeep(server, limits, root, p)
    case EntriesExceeded =>
      exists listed :: Distinct(listed) && AllReachable(server, root, listed)
                       && TotalEntries(server, listed) > limits.maxEntries
    case OutsideDestination => exists p, e :: Lists(server, root, p, e) && Strays(root, e)
    case InvalidPath => exists p, e :: Lists(server, root, p, e) && Malformed(e)
    case ReadFailed => exists p :: Reachable(server, root, p) && server(p).failed
  }

  ghost predicate Lists(server: Server, root: string, p: string, e: Entry) {
    Reachable(server, root, p) && e in server(p).entries
  }

  predicate Malformed(e: Entry) {
    Paths.Normalize(e.fullPath).Err?
  }

  predicate Strays(destination: string, e: Entry) {
    !Malformed(e) && !Admitted(destination, e)
  }

  // ---- The termination measure ----

  function Power(base: nat, exponent: nat): (r: nat)
    ensures base > 0 ==> r > 0
  {
    if exponent == 0 then 1 else base * Power(base, exponent - 1)
  }

  /** A pending directory weighs as much as the largest tree the limits allow below it. */
  function Weight(limits: Limits, depth: nat): nat {
    if depth > limits.maxDepth then 1 else Power(limits.maxEntries + 1, limits.maxDepth + 1 - depth)
  }

  function Pending(limits: Limits, pending: seq<(string, nat)>): nat {
    if |pending| == 0 then 0 else Pending(limits, pending[..|pending| - 1]) + Weight(limits, pending[|pending| - 1].1)
  }

  function Times(n: nat, weight: nat): nat {
    if n == 0 then 0 else Times(n - 1, weight) + weight
  }

  lemma {:induction false} TimesMonotone(m: nat, n: nat, weight: nat)
    requires m <= n
    ensures Times(m, weight) <= Times(n, weight)
  {
    if m < n {
      TimesMonotone(m, n - 1, weight);
    }
  }

  lemma {:induction false} TimesIsProduct(n: nat, weight: nat)
    ensures Times(n, weight) == n * weight
  {
    if n > 0 {
      TimesIsProduct(n - 1, weight);
    }
  }

  /** Listing a directory replaces its weight by less, however many directories it contains. */
  lemma ListingLosesWeight(limits: Limits, depth: nat, pushed: nat)
    requires depth <= limits.maxDepth && pushed <= limits.maxEntries
    ensures Times(pushed, Weight(limits, depth + 1)) < Weight(limits, depth)
  {
    var below := Weight(limits, depth + 1);
    TimesMonotone(pushed, limits.maxEntries, below);
    TimesIsProduct(limits.maxEntries + 1, below);
    if depth == limits.maxDepth {
      assert Power(limits.maxEntries + 1, 0) == 1;
    }
    assert Weight(limits, depth) == (limits.maxEntries + 1) * below;
  }

  // ---- One listing ----

  function Stacked(paths: seq<string>, depth: nat): (r: seq<(string, nat)>)
    ensures |r| == |paths| && forall i :: 0 <= i < |r| ==> r[i] == (paths[i], depth)
  {
    if |paths| == 0 then [] else Stacked(paths[..|paths| - 1], depth) + [(paths[|paths| - 1], depth)]
  }

  /** The inner loops: entries are checked one by one and become files or pending directories. */
  method ReadEntries(limits: Limits, destination: string, entries: seq<Entry>, depth: nat,
                     files: seq<Completion.FileFact>, pending: seq<(string, nat)>)
    returns (r: Result<(seq<Completion.FileFact>, seq<(string, nat)>), TreeError>)
    ensures r.Ok? ==>
              && r.value == (files + FilesOf(entries), pending + Stacked(DirectoriesOf(entries), depth + 1))
              && (forall i :: 0 <= i < |entries| ==> Admitted(destination, entries[i]))
              && (entries == [] || |r.value.0| + |r.value.1| <= limits.maxEntries)
              && |r.value.0| + |r.value.1| <= |files| + |pending| + |entries|
    ensures r.Err? ==>
              || (r.error == EntriesExceeded && |files| + |pending| + |entries| > limits.maxEntries)
              || (r.error == InvalidPath && exists e :: e in entries && Malformed(e))
              || (r.error == OutsideDestination && exists e :: e in entries && Strays(destination, e))
  {
    hide Within, Paths.Normalize;
    var files', pending' := files, pending;
    for i := 0 to |entries|
      invariant files' == files + FilesOf(entries[..i])
      invariant pending' == pending + Stacked(DirectoriesOf(entries[..i]), depth + 1)
      invariant forall j :: 0 <= j < i ==> Admitted(destination, entries[j])
      invariant i > 0 ==> |files'| + |pending'| <= limits.maxEntries
      invariant |files'| + |pending'| <= |files| + |pending| + i
    {
      assert entries[..i + 1][..i] == entries[..i];
      if |files'| + |pending'| >= limits.maxEntries {
        return Err(EntriesExceeded);
      }
      var e := entries[i];
      assert e in entries;
      var path := Paths.Normalize(e.fullPath);
      if path.Err? {
        return Err(InvalidPath);
      }
      if !Within(destination, path.value) {
        return Err(OutsideDestination);
      }
      if e.kind == Directory {
        ghost var before := DirectoriesOf(entries[..i]);
        assert (before + [path.value])[..|before|] == before;
        pending' := pending' + [(path.value, depth + 1)];
      } else if e.kind == File {
        files' := files' + [Completion.FileFact(path.value, if e.size < 0 then 0 else e.size)];
      }
    }
    assert entries[..|entries|] == entries;
    r := Ok((files', pending'));
  }

  // ---- The walk ----

  /** Everything listed so far was good; nothing it mentions is forgotten. */
  ghost predicate Walked(server: Server, limits: Limits, root: string, listed: seq<string>,
                         pending: seq<(string, nat)>, files: seq<Completion.FileFact>) {
    && Distinct(listed)
    && (forall i :: 0 <= i < |listed| ==> Good(server, root, listed[i]))
    && (forall i :: 0 <= i < |pending| ==> ReachableAt(server, root, pending[i].0, pending[i].1))
    && (forall i :: 0 <= i < |pending| ==> pending[i].1 <= limits.maxDepth + 1)
    && Noted(root, listed, pending)
    && (forall p, q :: p in listed && q in DirectoriesOf(server(p).entries) ==> Noted(q, listed, pending))
    && files == AllFiles(server, listed)
    && |files| <= limits.maxEntries
  }

  ghost predicate Good(server: Server, root: string, path: string) {
    && Reachable(server, root, path) && !server(path).failed
    && forall i :: 0 <= i < |server(path).entries| ==> Admitted(root, server(path).entries[i])
  }

  ghost predicate Noted(path: string, listed: seq<string>, pending: seq<(string, nat)>) {
    path in listed || exists i :: 0 <= i < |pending| && pending[i].0 == path
  }

  lemma NotedAfterPop(path: string, listed: seq<string>, pending: seq<(string, nat)>, listed': seq<string>,
                      pending': seq<(string, nat)>)
    requires |pending| > 0 && Noted(path, listed, pending)
    requires listed <= listed' && pending[|pending| - 1].0 in listed' && pending[..|pending| - 1] <= pending'
    ensures Noted(path, listed', pending')
  {
    if path !in listed {
      var i :| 0 <= i < |pending| && pending[i].0 == path;
      if i < |pending| - 1 {
        assert pending'[i] == pending[..|pending| - 1][i];
      }
    }
  }

  lemma ReachableStep(server: Server, root: string, path: string, depth: nat, next: string)
    requires ReachableAt(server, root, path, depth) && next in DirectoriesOf(server(path).entries)
    ensures ReachableAt(server, root, next, depth + 1)
  {
    hide DirectoriesOf;
    var chain :| ReachableBy(server, root, path, chain) && |chain| == depth + 1;
    assert ReachableBy(server, root, next, chain + [next]);
  }

  lemma SkipKeepsWalked(server: Server, limits: Limits, root: string, listed: seq<string>,
                        pending: seq<(string, nat)>, files: seq<Completion.FileFact>)
    requires |pending| > 0 && Walked(server, limits, root, listed, pending, files)
    requires pending[|pending| - 1].0 in listed
    ensures Walked(server, limits, root, listed, pending[..|pending| - 1], files)
  {
    hide DirectoriesOf, Good, Noted, ReachableAt, AllFiles;
    var pending' := pending[..|pending| - 1];
    NotedAfterPop(root, listed, pending, listed, pending');
    forall p, q | p in listed && q in DirectoriesOf(server(p).entries) ensures Noted(q, listed, pending') {
      NotedAfterPop(q, listed, pending, listed, pending');
    }
  }

  lemma ListingKeepsWalked(server: Server, limits: Limits, root: string, listed: seq<string>,
                           pending: seq<(string, nat)>, files: seq<Completion.FileFact>)
    requires |pending| > 0 && Walked(server, limits, root, listed, pending, files)
    requires var (path, depth) := pending[|pending| - 1];
             && path !in listed && depth <= limits.maxDepth && Good(server, root, path)
             && |files + FilesOf(server(path).entries)| <= limits.maxEntries
    ensures var (path, depth) := pending[|pending| - 1];
            Walked(server, limits, root, listed + [path],
                   pending[..|pending| - 1] + Stacked(DirectoriesOf(server(path).entries), depth + 1),
                   files + FilesOf(server(path).entries))
  {
    hide Good, Noted, ReachableAt, FilesOf, DirectoriesOf;
    var (path, depth) := pending[|pending| - 1];
    var found := DirectoriesOf(server(path).entries);
    var rest := pending[..|pending| - 1];
    var listed', pending' := listed + [path], rest + Stacked(found, depth + 1);
    assert listed'[..|listed|] == listed;
    forall i | 0 <= i < |pending'| ensures ReachableAt(server, root, pending'[i].0, pending'[i].1) {
      if i >= |rest| {
        assert found[i - |rest|] in found;
        ReachableStep(server, root, path, depth, found[i - |rest|]);
      } else {
        assert pending'[i] == pending[i];
      }
    }
    NotedAfterPop(root, listed, pending, listed', pending');
    forall p, q | p in listed' && q in DirectoriesOf(server(p).entries) ensures Noted(q, listed', pending') {
      if p in listed {
        NotedAfterPop(q, listed, pending, listed', pending');
      } else {
        var i :| 0 <= i < |found| && found[i] == q;
        NotedAt(q, listed', pending', |rest| + i);
      }
    }
  }

  lemma NotedAt(path: string, listed: seq<string>, pending: seq<(string, nat)>, i: nat)
    requires i < |pending| && pending[i].0 == path
    ensures Noted(path, listed, pending)
  {
  }

  /** A finished walk has listed everything reachable. */
  lemma {:induction false} AllListed(server: Server, root: string, listed: seq<string>, chain: seq<string>, n: nat)
    requires root in listed && forall p, q :: p in listed && q in DirectoriesOf(server(p).entries) ==> q in listed
    requires Chain(server, root, chain) && n < |chain|
    ensures chain[n] in listed
  {
    if n > 0 {
      AllListed(server, root, listed, chain, n - 1);
    }
  }

  lemma {:induction false} AllFilesMembers(server: Server, listed: seq<string>, f: Completion.FileFact)
    ensures f in AllFiles(server, listed) <==> exists p :: p in listed && f in FilesOf(server(p).entries)
  {
    if |listed| != 0 {
      var n := |listed| - 1;
      AllFilesMembers(server, listed[..n], f);
      assert listed == listed[..n] + [listed[n]];
    }
  }

  /** The listed directories are exactly the reachable ones, each listed once, and the files are exactly theirs. */
  ghost predicate Complete(server: Server, root: string, listed: seq<string>, files: seq<Completion.FileFact>) {
    && Distinct(listed)
    && (forall p :: p in listed <==> Reachable(server, root, p))
    && files == AllFiles(server, listed)
    && (forall f :: f in files <==> exists p :: Reachable(server, root, p) && f in FilesOf(server(p).entries))
    && (forall p :: p in listed ==> Good(server, root, p))
  }

  /** What a complete walk returns, entry by entry. */
  lemma CompleteMeans(server: Server, root: string, listed: seq<string>, files: seq<Completion.FileFact>,
                      f: Completion.FileFact)
    requires Complete(server, root, listed, files)
    ensures f in files <==> exists p, e :: Reachable(server, root, p) && e in server(p).entries && FileEntry(e, f)
  {
    hide FilesOf, Reachable, FileEntry, Paths.Normalize;
    forall p | Reachable(server, root, p)
      ensures f in FilesOf(server(p).entries) <==> exists e :: e in server(p).entries && FileEntry(e, f)
    {
      assert Good(server, root, p);
      forall e | e in server(p).entries ensures Paths.Normalize(e.fullPath).Ok? {
        var i :| 0 <= i < |server(p).entries| && server(p).entries[i] == e;
        assert Admitted(root, server(p).entries[i]);
      }
      FilesMean(server(p).entries, f);
    }
  }

  /** The directory is reached within the depth limit. */
  ghost predicate Near(server: Server, limits: Limits, root: string, path: string) {
    exists depth: nat :: depth <= limits.maxDepth && ReachableAt(server, root, path, depth)
  }

  lemma WalkedIsComplete(server: Server, limits: Limits, root: string, listed: seq<string>,
                         files: seq<Completion.FileFact>)
    requires Walked(server, limits, root, listed, [], files)
    ensures Complete(server, root, listed, files)
  {
    hide DirectoriesOf, FilesOf, AllFiles;
    forall p ensures p in listed <==> Reachable(server, root, p) {
      if Reachable(server, root, p) {
        var chain :| ReachableBy(server, root, p, chain);
        assert Noted(root, listed, []);
        forall p, q | p in listed && q in DirectoriesOf(server(p).entries) ensures q in listed {
          assert Noted(q, listed, []);
        }
        AllListed(server, root, listed, chain, |chain| - 1);
      }
    }
    forall f ensures f in files <==> exists p :: Reachable(server, root, p) && f in FilesOf(server(p).entries) {
      AllFilesMembers(server, listed, f);
    }
  }

  lemma StartWalked(server: Server, limits: Limits, root: string)
    ensures Walked(server, limits, root, [], [(root, 0)], [])
  {
    var pending := [(root, 0 as nat)];
    assert ReachableBy(server, root, root, [root]);
    assert pending[0].0 == root;
  }

  lemma PendingStacked(limits: Limits, pending: seq<(string, nat)>, paths: seq<string>, depth: nat)
    ensures Pending(limits, pending + Stacked(paths, depth))
            == Pending(limits, pending) + Times(|paths|, Weight(limits, depth))
    decreases |paths|
  {
    hide Weight;
    if |paths| == 0 {
      assert pending + Stacked(paths, depth) == pending;
    } else {
      var n := |paths| - 1;
      PendingStacked(limits, pending, paths[..n], depth);
      var all := pending + Stacked(paths, depth);
      assert all[..|all| - 1] == pending + Stacked(paths[..n], depth);
      assert all[|all| - 1] == (paths[n], depth);
    }
  }

  lemma ListingDecreases(limits: Limits, rest: seq<(string, nat)>, path: string, depth: nat, paths: seq<string>)
    requires depth <= limits.maxDepth && |paths| <= limits.maxEntries
    ensures Pending(limits, rest + Stacked(paths, depth + 1)) < Pending(limits, rest + [(path, depth)])
  {
    hide Weight, Stacked, Times;
    assert (rest + [(path, depth)])[..|rest|] == rest;
    PendingStacked(limits, rest, paths, depth + 1);
    ListingLosesWeight(limits, depth, |paths|);
  }

  lemma WeightPositive(limits: Limits, depth: nat)
    ensures Weight(limits, depth) > 0
  {
  }

  /** The evidence behind an entry-level refusal. */
  lemma EntryRefusal(server: Server, limits: Limits, root: string, path: string, e: TreeError)
    requires Reachable(server, root, path)
    requires || (e == InvalidPath && exists x :: x in server(path).entries && Malformed(x))
             || (e == OutsideDestination && exists x :: x in server(path).entries && Strays(root, x))
    ensures Justified(server, limits, root, e)
  {
    hide Malformed, Strays, Reachable;
    if e == InvalidPath {
      var x :| x in server(path).entries && Malformed(x);
      assert Lists(server, root, path, x);
    } else {
      var x :| x in server(path).entries && Strays(root, x);
      assert Lists(server, root, path, x);
    }
  }

  lemma TotalGrows(server: Server, listed: seq<string>, path: string)
    ensures TotalEntries(server, listed + [path]) == TotalEntries(server, listed) + |server(path).entries|
  {
    assert (listed + [path])[..|listed|] == listed;
  }

  lemma PathIsReachable(server: Server, limits: Limits, root: string, listed: seq<string>,
                        pending: seq<(string, nat)>, files: seq<Completion.FileFact>)
    requires |pending| > 0 && Walked(server, limits, root, listed, pending, files)
    ensures ReachableAt(server, root, pending[|pending| - 1].0, pending[|pending| - 1].1)
    ensures Reachable(server, root, pending[|pending| - 1].0)
    ensures pending[|pending| - 1].1 <= limits.maxDepth + 1
    ensures AllReachable(server, root, listed) && Distinct(listed)
  {
    hide DirectoriesOf, AllFiles, Noted, ReachableBy;
    var chain :| ReachableBy(server, root, pending[|pending| - 1].0, chain) && |chain| == pending[|pending| - 1].1 + 1;
  }

  lemma TooManyEntries(server: Server, limits: Limits, root: string, listed: seq<string>, path: string)
    requires Distinct(listed) && path !in listed && AllReachable(server, root, listed) && Reachable(server, root, path)
    requires TotalEntries(server, listed + [path]) > limits.maxEntries
    ensures Justified(server, limits, root, EntriesExceeded)
  {
    hide Reachable, TotalEntries;
    assert Distinct(listed + [path]) && AllReachable(server, root, listed + [path]);
  }

  lemma DeepIsJustified(server: Server, limits: Limits, root: string, path: string)
    requires ReachableAt(server, root, path, limits.maxDepth + 1)
    ensures Justified(server, limits, root, DepthExceeded)
  {
    assert TooDeep(server, limits, root, path);
  }

  lemma FailureIsJustified(server: Server, limits: Limits, root: string, path: string)
    requires Reachable(server, root, path) && server(path).failed
    ensures Justified(server, limits, root, ReadFailed)
  {
  }

  lemma NearListing(server: Server, limits: Limits, root: string, path: string, depth: nat)
    requires ReachableAt(server, root, path, depth) && depth <= limits.maxDepth
    ensures Near(server, limits, root, path)
  {
  }

  lemma GoodListing(server: Server, root: string, path: string)
    requires Reachable(server, root, path) && !server(path).failed
    requires forall i :: 0 <= i < |server(path).entries| ==> Admitted(root, server(path).entries[i])
    ensures Good(server, root, path)
  {
  }

  lemma ListedWithinLimit(limits: Limits, entries: seq<Entry>, files: seq<Completion.FileFact>,
                          pending: seq<(string, nat)>, depth: nat)
    requires |files| <= limits.maxEntries
    requires entries == []
             || |files + FilesOf(entries)| + |pending + Stacked(DirectoriesOf(entries), depth + 1)| <= limits.maxEntries
    ensures |files + FilesOf(entries)| <= limits.maxEntries && |DirectoriesOf(entries)| <= limits.maxEntries
  {
  }

  lemma FilesWithinLimit(server: Server, limits: Limits, root: string, listed: seq<string>,
                         pending: seq<(string, nat)>, files: seq<Completion.FileFact>)
    requires Walked(server, limits, root, listed, pending, files)
    ensures |files| <= limits.maxEntries
  {
  }

  /** `snapshot`: the walk over a destination that is already in normal form. */
  method Walk(server: Server, limits: Limits, destination: string)
    returns (r: Result<seq<Completion.FileFact>, TreeError>, ghost listed: seq<string>)
    ensures r.Ok? ==> Complete(server, destination, listed, r.value) && |r.value| <= limits.maxEntries
    ensures r.Ok? ==> forall p :: p in listed ==> Near(server, limits, destination, p)
    ensures r.Err? ==> Justified(server, limits, destination, r.error)
  {
    hide DirectoriesOf, FilesOf, AllFiles, Good, Noted, Reachable, ReachableAt, Walked, Complete, Near;
    hide Weight, TotalEntries;
    hide Justified, Admitted, Malformed, Strays, AllReachable, Distinct, Stacked;
    var files: seq<Completion.FileFact> := [];
    var pending: seq<(string, nat)> := [(destination, 0)];
    var visited: set<string> := {};
    listed := [];
    StartWalked(server, limits, destination);
    while pending != []
      invariant Walked(server, limits, destination, listed, pending, files)
      invariant forall p :: p in visited <==> p in listed
      invariant forall p :: p in listed ==> Near(server, limits, destination, p)
      invariant if listed == [] then |files| + |pending| == 1 else |files| + |pending| <= TotalEntries(server, listed)
      decreases Pending(limits, pending)
    {
      var (path, depth) := pending[|pending| - 1];
      WeightPositive(limits, depth);
      PathIsReachable(server, limits, destination, listed, pending, files);
      if path in visited {
        SkipKeepsWalked(server, limits, destination, listed, pending, files);
        pending := pending[..|pending| - 1];
        continue;
      }
      visited := visited + {path};
      if depth > limits.maxDepth {
        DeepIsJustified(server, limits, destination, path);
        return Err(DepthExceeded), listed;
      }
      var reply := server(path);
      TotalGrows(server, listed, path);
      var read := ReadEntries(limits, destination, reply.entries, depth, files, pending[..|pending| - 1]);
      if read.Err? {
        if read.error == EntriesExceeded {
          TooManyEntries(server, limits, destination, listed, path);
        } else {
          EntryRefusal(server, limits, destination, path, read.error);
        }
        return Err(read.error), listed;
      }
      if reply.failed {
        FailureIsJustified(server, limits, destination, path);
        return Err(ReadFailed), listed;
      }
      GoodListing(server, destination, path);
      NearListing(server, limits, destination, path, depth);
      FilesWithinLimit(server, limits, destination, listed, pending, files);
      ListedWithinLimit(limits, reply.entries, files, pending[..|pending| - 1], depth);
      ListingKeepsWalked(server, limits, destination, listed, pending, files);
      assert pending == pending[..|pending| - 1] + [(path, depth)];
      ListingDecreases(limits, pending[..|pending| - 1], path, depth, DirectoriesOf(reply.entries));
      listed := listed + [path];
      files, pending := read.value.0, read.value.1;
    }
    WalkedIsComplete(server, limits, destination, listed, files);
    FilesWithinLimit(server, limits, destination, listed, pending, files);
    r := Ok(files);
  }

  lemma CompleteFiles(server: Server, root: string, listed: seq<string>, files: seq<Completion.FileFact>)
    requires Complete(server, root, listed, files)
    ensures files == AllFiles(server, listed)
  {
  }

  /** `snapshot`, from the path it is asked for to the sorted snapshot. */
  method TakeSnapshot(server: Server, limits: Limits, path: string)
    returns (r: Result<Completion.Snapshot, TreeError>, ghost listed: seq<string>)
    ensures Paths.Normalize(path).Err? ==> r == Err(InvalidPath)
    ensures Paths.Normalize(path).Ok? ==>
              var root := Paths.Normalize(path).value;
              && (r.Ok? ==>
                    && Complete(server, root, listed, AllFiles(server, listed))
                    && r.value == Completion.MakeSnapshot(AllFiles(server, listed))
                    && |r.value| <= limits.maxEntries
                    && (root != "/" ==> Completion.Inside(root, r.value)))
              && (r.Err? ==> Justified(server, limits, root, r.error))
  {
    hide Complete, Reachable, AllFiles, Completion.Inside;
    var destination := Paths.Normalize(path);
    if destination.Err? {
      return Err(InvalidPath), [];
    }
    var files;
    files, listed := Walk(server, limits, destination.value);
    if files.Err? {
      return Err(files.error), listed;
    }
    SnapshotInside(server, path, listed, files.value);
    CompleteFiles(server, destination.value, listed, files.value);
    r := Ok(Completion.MakeSnapshot(files.value));
  }

  // ---- Snapshots stay inside their destination ----

  lemma {:induction false} FactPath(entries: seq<Entry>, f: Completion.FileFact)
    requires f in FilesOf(entries)
    ensures exists i :: 0 <= i < |entries| && PathOf(entries[i]) == f.path
  {
    var n := |entries| - 1;
    if f in FilesOf(entries[..n]) {
      FactPath(entries[..n], f);
      var i :| 0 <= i < n && PathOf(entries[..n][i]) == f.path;
      assert PathOf(entries[i]) == f.path;
    } else {
      assert PathOf(entries[n]) == f.path;
    }
  }

  /** A normal path that extends a normal one by a slash extends it by a name. */
  lemma BelowByName(base: seq<string>, path: string)
    requires Paths.ValidNames(base) && |base| > 0
    requires Paths.Normalize(path) == Ok(path) && Paths.Absolute(base) + "/" <= path
    ensures Completion.StrictlyBelow(Paths.Absolute(base), path)
  {
    var prefix := Paths.Absolute(base) + "/";
    var rest := path[|prefix|..];
    Paths.NoTrailingSlash(base);
    Paths.NormalizeSegments(path);
    assert path == Paths.Absolute(base) + ['/'] + rest;
    Paths.SplitConcat(Paths.Absolute(base), '/', rest);
    NormalSplit(path);
    var parts := Paths.Split(rest, '/');
    assert Paths.Split(path, '/')[|Paths.Split(Paths.Absolute(base), '/')|] == parts[0];
    NamedFirst(rest);
    assert path[|prefix|] == rest[0];
  }

  lemma NamedFirst(s: string)
    requires Paths.Split(s, '/')[0] != ""
    ensures s != "" && s[0] != '/'
  {
  }

  /** Only the first part of a normal path other than the root is empty. */
  lemma NormalSplit(path: string)
    requires Paths.Normalize(path) == Ok(path) && Paths.Segments(path) != []
    ensures forall i :: 0 < i < |Paths.Split(path, '/')| ==> Paths.Split(path, '/')[i] != ""
  {
    Paths.NormalizeSegments(path);
    var names := Paths.Segments(path);
    assert path == "" + ['/'] + Paths.Join(names, '/');
    Paths.SplitConcat("", '/', Paths.Join(names, '/'));
    Paths.SplitJoin(names, '/');
    assert Paths.Split(path, '/') == [""] + names;
    forall i | 0 < i < |Paths.Split(path, '/')| ensures Paths.Split(path, '/')[i] != "" {
      assert Paths.ValidName(names[i - 1]);
    }
  }

  lemma SnapshotInside(server: Server, path: string, listed: seq<string>, files: seq<Completion.FileFact>)
    requires Paths.Normalize(path).Ok? && Complete(server, Paths.Normalize(path).value, listed, files)
    ensures Paths.Normalize(path).value != "/" ==>
              Completion.Inside(Paths.Normalize(path).value, Completion.MakeSnapshot(files))
  {
    hide FilesOf, AllFiles, Reachable, Paths.Normalize, Paths.RStrip;
    var root := Paths.Normalize(path).value;
    if root != "/" {
      Paths.NormalizeSegments(path);
      Paths.NormalizeIdempotent(path);
      Paths.NoTrailingSlash(Paths.Segments(path));
      var snapshot := Completion.MakeSnapshot(files);
      forall f | f in snapshot ensures f.path == root || Completion.StrictlyBelow(root, f.path) {
        assert f in multiset(snapshot);
        assert f in files;
        var p :| Reachable(server, root, p) && f in FilesOf(server(p).entries);
        assert p in listed;
        FactPath(server(p).entries, f);
        var i :| 0 <= i < |server(p).entries| && PathOf(server(p).entries[i]) == f.path;
        assert Admitted(root, server(p).entries[i]);
        Paths.NormalizeIdempotent(server(p).entries[i].fullPath);
        if f.path != root {
          BelowByName(Paths.Segments(path), f.path);
        }
      }
    }
  }
}
