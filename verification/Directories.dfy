/**
 * Creating the directory of a task on the remote drive, one path segment after the other
 * (downloaders/clouddrive.py).
 */
module Directories {
  import opened Wrappers
  import Paths

  /** The remote file system: every path that exists, and whether it is a directory. */
  type Nodes = map<string, bool>

  /** What a folder creation answers; a refused or broken call may still have made the folder. */
  datatype CreateReply = Created | Refused(appeared: bool) | Broke(appeared: bool)

  /** What the drive does at one segment. */
  datatype Answers = Answers(listFails: bool, create: CreateReply, checkFails: bool)

  datatype EnsureError = InvalidPath | OutsideRoot | ComponentIsFile | ListFailed | CreateRejected | CreateBroke

  predicate DirectChild(parent: string, path: string) {
    var above, names := Paths.Segments(parent), Paths.Segments(path);
    |names| == |above| + 1 && names[..|above|] == above
  }

  /** An honest direct listing. */
  function ChildrenOf(nodes: Nodes, parent: string): Nodes {
    map p | p in nodes && DirectChild(parent, p) :: nodes[p]
  }

  /** The path of the first `n` segments. */
  function Prefix(path: string, n: nat): string
    requires n <= |Paths.Segments(path)|
  {
    Paths.Absolute(Paths.Segments(path)[..n])
  }

  predicate IsDirectory(nodes: Nodes, path: string) {
    path in nodes && nodes[path]
  }

  /** Every node is kept as it was; every new one is a directory on the path, below the root. */
  ghost predicate OnlyAdds(before: Nodes, after: Nodes, root: string, path: string) {
    && (forall p :: p in before ==> p in after && after[p] == before[p])
    && (forall p :: p in after && p !in before ==> after[p] && OnPath(root, path, p))
  }

  ghost predicate OnPath(root: string, path: string, p: string) {
    exists n :: |Paths.Segments(root)| < n <= |Paths.Segments(path)| && p == Prefix(path, n)
  }

  // ---- The textual root check is a check on segments ----

  predicate WithinRoot(root: string, destination: string) {
    destination == root || Paths.RStrip(root) + "/" <= destination
  }

  lemma AbsoluteSplit(names: seq<string>)
    requires Paths.ValidNames(names)
    ensures Paths.Split(Paths.Absolute(names), '/') == [""] + if names == [] then [""] else names
  {
    assert Paths.Absolute(names) == "" + ['/'] + Paths.Join(names, '/');
    Paths.SplitConcat("", '/', Paths.Join(names, '/'));
    if names != [] {
      Paths.SplitJoin(names, '/');
    }
  }

  /** The part of a destination after its root: what the code splits into folder names. */
  function Relative(root: string, destination: string): string
    requires WithinRoot(root, destination) && destination != root
  {
    if root == "/" then Paths.LStrip(destination) else destination[|Paths.RStrip(root)| + 1..]
  }

  lemma RootSegments(root: seq<string>)
    requires Paths.ValidNames(root)
    ensures Paths.RStrip(Paths.Absolute(root)) == if root == [] then "" else Paths.Absolute(root)
  {
    if root != [] {
      Paths.JoinEnds(root);
    }
  }

  /** Being textually within the root means extending its segments, and the rest splits into the added names. */
  lemma WithinMeansExtends(root: seq<string>, names: seq<string>)
    requires Paths.ValidNames(root) && Paths.ValidNames(names)
    ensures WithinRoot(Paths.Absolute(root), Paths.Absolute(names)) <==> root <= names
    ensures Paths.Absolute(root) == Paths.Absolute(names) <==> root == names
    ensures root < names ==> WithinRoot(Paths.Absolute(root), Paths.Absolute(names))
                             && Paths.Split(Relative(Paths.Absolute(root), Paths.Absolute(names)), '/')
                                == names[|root|..]
  {
    hide Paths.Split, Paths.RStrip, Paths.LStrip, WithinRoot, Paths.Absolute, Paths.Join, Relative, Paths.NonEmpty;
    var r, d := Paths.Absolute(root), Paths.Absolute(names);
    Paths.AbsoluteSegments(root);
    Paths.AbsoluteSegments(names);
    RootIsWithin(r);
    if root == names {
    } else if root < names {
      ExtensionIsWithin(root, names);
    } else if WithinRoot(r, d) {
      WithinExtends(root, names);
    }
  }

  lemma RootIsWithin(root: string)
    ensures WithinRoot(root, root)
  {
  }

  lemma WithinExtends(root: seq<string>, names: seq<string>)
    requires Paths.ValidNames(root) && Paths.ValidNames(names)
    requires Paths.Absolute(root) != Paths.Absolute(names) && WithinRoot(Paths.Absolute(root), Paths.Absolute(names))
    ensures root <= names
  {
    hide Paths.Split, Paths.RStrip, Paths.Absolute;
    var r, d := Paths.Absolute(root), Paths.Absolute(names);
    RootSegments(root);
    if root != [] {
      var rest := d[|r| + 1..];
      assert d == r + ['/'] + rest;
      Paths.SplitConcat(r, '/', rest);
      AbsoluteSplit(root);
      AbsoluteSplit(names);
      var parts := Paths.Split(rest, '/');
      if names != [] {
        assert [""] + names == [""] + (root + parts);
        assert names == ([""] + names)[1..];
        assert root + parts == ([""] + (root + parts))[1..];
      }
    }
  }

  lemma ExtensionIsWithin(root: seq<string>, names: seq<string>)
    requires Paths.ValidNames(root) && Paths.ValidNames(names) && root < names
    requires Paths.Absolute(root) != Paths.Absolute(names)
    ensures WithinRoot(Paths.Absolute(root), Paths.Absolute(names))
    ensures Paths.Split(Relative(Paths.Absolute(root), Paths.Absolute(names)), '/') == names[|root|..]
  {
    var r, d, added := Paths.Absolute(root), Paths.Absolute(names), names[|root|..];
    assert names == root + added;
    RootSegments(root);
    Paths.SplitJoin(added, '/');
    if root == [] {
      assert added == names;
      RelativeToTop(names);
    } else {
      hide Paths.Split, Paths.RStrip;
      Paths.JoinConcat(root, added, '/');
      Paths.JoinEnds(root);
      assert d == r + ['/'] + Paths.Join(added, '/');
      assert r != "/";
    }
  }

  lemma RelativeToTop(names: seq<string>)
    requires Paths.ValidNames(names) && names != []
    ensures Paths.LStrip(Paths.Absolute(names)) == Paths.Join(names, '/')
  {
    Paths.JoinEnds(names);
    assert Paths.Absolute(names)[1..] == Paths.Join(names, '/');
  }

  /** What the drive did that ends in this error. */
  predicate Gave(answers: Answers, e: EnsureError) {
    match e
    case ListFailed => answers.listFails || answers.checkFails
    case CreateRejected => answers.create.Refused?
    case CreateBroke => answers.create.Broke?
    case _ => false
  }

  // ---- The drive and the loop ----

  class Drive {
    var nodes: Nodes

    constructor (nodes: Nodes)
      ensures this.nodes == nodes
    {
      this.nodes := nodes;
    }

    method List(parent: string, fails: bool) returns (r: Option<Nodes>)
      ensures r == if fails then None else Some(ChildrenOf(nodes, parent))
    {
      if fails {
        return None;
      }
      r := Some(ChildrenOf(nodes, parent));
    }

    method CreateFolder(target: string, reply: CreateReply)
      modifies this
      ensures nodes == if reply.Created? || reply.appeared then old(nodes)[target := true] else old(nodes)
    {
      if reply.Created? || reply.appeared {
        nodes := nodes[target := true];
      }
    }

    /** One pass of the loop in `ensure_destination`. */
    method EnsureFolder(current: string, target: string, answers: Answers) returns (r: Result<(), EnsureError>)
      requires DirectChild(current, target)
      modifies this
      ensures r.Ok? ==> IsDirectory(nodes, target)
      ensures var made := answers.create.Created? || answers.create.appeared;
              nodes == if !answers.listFails && target !in old(nodes) && made then old(nodes)[target := true]
                       else old(nodes)
      ensures r.Err? ==> r.error != InvalidPath && r.error != OutsideRoot
      ensures r == Err(ComponentIsFile) <==> !answers.listFails && target in old(nodes) && !old(nodes)[target]
      ensures r == Err(ListFailed) <==>
                answers.listFails || (target !in old(nodes) && !answers.create.Created? && answers.checkFails)
      ensures r == Err(CreateRejected) <==>
                && !answers.listFails && target !in old(nodes) && !answers.checkFails
                && answers.create.Refused? && !answers.create.appeared
      ensures r == Err(CreateBroke) <==>
                && !answers.listFails && target !in old(nodes) && !answers.checkFails
                && answers.create.Broke? && !answers.create.appeared
    {
      hide DirectChild;
      var entries := List(current, answers.listFails);
      if entries.None? {
        return Err(ListFailed);
      }
      if target in entries.value {
        if !entries.value[target] {
          return Err(ComponentIsFile);
        }
        return Ok(());
      }
      CreateFolder(target, answers.create);
      if !answers.create.Created? {
        var again := List(current, answers.checkFails);
        if again.None? {
          return Err(ListFailed);
        }
        if !IsDirectory(again.value, target) {
          return Err(if answers.create.Broke? then CreateBroke else CreateRejected);
        }
      }
      r := Ok(());
    }

    /** `ensure_destination`: on return every prefix exists as a directory, and nothing was made off the path. */
    method EnsureDestination(root: string, path: string, answers: nat -> Answers) returns (r: Result<(), EnsureError>)
      requires Paths.Normalize(root) == Ok(root)
      modifies this
      ensures r == Err(InvalidPath) <==> Paths.Normalize(path).Err?
      ensures r == Err(OutsideRoot) <==> Paths.Normalize(path).Ok? && !(Paths.Segments(root) <= Paths.Segments(path))
      ensures r.Ok? ==> forall n :: |Paths.Segments(root)| < n <= |Paths.Segments(path)|
                          ==> IsDirectory(nodes, Prefix(path, n))
      ensures OnlyAdds(old(nodes), nodes, root, path)
      ensures r == Err(ComponentIsFile) ==>
                exists n :: |Paths.Segments(root)| < n <= |Paths.Segments(path)|
                            && Prefix(path, n) in old(nodes) && !old(nodes)[Prefix(path, n)]
      ensures r.Err? && r.error in {ListFailed, CreateRejected, CreateBroke} ==>
                exists i :: 0 <= i < |Paths.Segments(path)| - |Paths.Segments(root)| && Gave(answers(i), r.error)
    {
      hide Paths.Normalize, Paths.Split, Paths.NonEmpty, WithinRoot, Paths.RStrip, DirectChild;
      hide Paths.Child, Paths.Absolute, Relative;
      var destination := Paths.Normalize(path);
      if destination.Err? {
        return Err(InvalidPath);
      }
      Paths.NormalizeSegments(path);
      Paths.NormalizeSegments(root);
      ghost var base, names := Paths.Segments(root), Paths.Segments(path);
      WithinMeansExtends(base, names);
      if !WithinRoot(root, destination.value) {
        return Err(OutsideRoot);
      }
      if destination.value == root {
        return Ok(());
      }
      var folders := Paths.Split(Relative(root, destination.value), '/');
      var current := root;
      assert names[..|base| + 0] == base;
      for i := 0 to |folders|
        invariant current == Paths.Absolute(names[..|base| + i])
        invariant forall n :: |base| < n <= |base| + i ==> IsDirectory(nodes, Prefix(path, n))
        invariant OnlyAdds(old(nodes), nodes, root, path)
      {
        ChildOfPrefix(names, |base| + i);
        var target := Paths.Normalize(Paths.Child(current, folders[i]));
        assert target == Ok(Prefix(path, |base| + i + 1));
        var made := EnsureFolder(current, target.value, answers(i));
        if made.Err? {
          return Err(made.error);
        }
        current := target.value;
      }
      r := Ok(());
    }
  }

  lemma ChildOfPrefix(names: seq<string>, n: nat)
    requires Paths.ValidNames(names) && n < |names|
    ensures Paths.Child(Paths.Absolute(names[..n]), names[n]) == Paths.Absolute(names[..n + 1])
    ensures Paths.Normalize(Paths.Absolute(names[..n + 1])) == Ok(Paths.Absolute(names[..n + 1]))
    ensures DirectChild(Paths.Absolute(names[..n]), Paths.Absolute(names[..n + 1]))
  {
    assert Paths.ValidName(names[n]);
    Paths.SplitWithout(names[n], '/');
    Paths.ChildSegments(names[..n], names[n]);
    assert names[..n] + [names[n]] == names[..n + 1];
    Paths.AbsoluteSegments(names[..n]);
    Paths.AbsoluteSegments(names[..n + 1]);
  }
}
