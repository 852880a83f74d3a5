/** Recursive deletion on the server, src-tauri/src/commands.rs: one walk with an explicit stack
    removes the files, and the directories follow in reverse order of the walk. */
module RemoteDelete {
  import opened Wrappers

  type Path = seq<string>

  datatype Kind = File | Dir | Symlink | Other

  datatype Entry = Entry(path: Path, kind: Kind)

  /** `Refused`: the server says no because of the state of its tree. `Broken`: anything else
      that can go wrong with a command. */
  datatype RemoteError = Refused | Broken

  type Tree = map<Path, Kind>

  predicate Under(root: Path, p: Path) {
    root <= p
  }

  predicate IsChild(dir: Path, p: Path) {
    |p| == |dir| + 1 && dir <= p
  }

  function Parent(p: Path): Path {
    if p == [] then [] else p[..|p| - 1]
  }

  /** Everything but the root of the server lies in a directory. */
  ghost predicate Closed(tree: Tree) {
    forall p :: p in tree && p != [] ==> Parent(p) in tree && tree[Parent(p)].Dir?
  }

  function ChildrenOf(tree: Tree, dir: Path): set<Path> {
    set p | p in tree && IsChild(dir, p)
  }

  function DirsUnder(tree: Tree, root: Path): set<Path> {
    set p | p in tree && Under(root, p) && tree[p].Dir?
  }

  /** The tree without a directory and everything below it. */
  function Without(tree: Tree, root: Path): Tree {
    map p | p in tree && !Under(root, p) :: tree[p]
  }

  /** The tree without the non-directories in the directories that were visited. */
  function Swept(tree: Tree, visited: set<Path>): Tree {
    map p | p in tree && !(p != [] && Parent(p) in visited && !tree[p].Dir?) :: tree[p]
  }

  class RemoteServer {
    var tree: Tree
    ghost var faults: nat  // commands that failed for another reason than the state of the tree

    constructor (tree: Tree)
      ensures this.tree == tree
    {
      this.tree := tree;
    }

    /** The entries of a directory, in an order of the server's choice. */
    method List(dir: Path) returns (r: Result<seq<Entry>, RemoteError>)
      modifies this`faults
      ensures faults == old(faults) + if r == Failure(Broken) then 1 else 0
      ensures r.Success? ==>
                && dir in tree && tree[dir].Dir?
                && (forall e :: e in r.value ==> e.path in tree && IsChild(dir, e.path) && e.kind == tree[e.path])
                && (forall p :: p in ChildrenOf(tree, dir) ==> Entry(p, tree[p]) in r.value)
                && (forall i, j :: 0 <= i < j < |r.value| ==> r.value[i].path != r.value[j].path)
      ensures r == Failure(Refused) ==> !(dir in tree && tree[dir].Dir?)
    {
      if * {
        faults := faults + 1;
        return Failure(Broken);
      }
      if !(dir in tree && tree[dir].Dir?) {
        return Failure(Refused);
      }
      var left := ChildrenOf(tree, dir);
      var entries := [];
      while left != {}
        invariant left <= ChildrenOf(tree, dir)
        invariant forall p :: p in ChildrenOf(tree, dir) - left ==> Entry(p, tree[p]) in entries
        invariant forall e :: e in entries ==> e.path in ChildrenOf(tree, dir) - left && e.kind == tree[e.path]
        invariant forall i, j :: 0 <= i < j < |entries| ==> entries[i].path != entries[j].path
      {
        var p :| p in left;
        left := left - {p};
        entries := entries + [Entry(p, tree[p])];
      }
      r := Success(entries);
    }

    method Remove(path: Path) returns (r: Result<(), RemoteError>)
      modifies this
      ensures faults == old(faults) + if r == Failure(Broken) then 1 else 0
      ensures r.Success? ==> path in old(tree) && !old(tree)[path].Dir? && tree == old(tree) - {path}
      ensures r.Failure? ==> tree == old(tree)
      ensures r == Failure(Refused) ==> !(path in old(tree) && !old(tree)[path].Dir?)
    {
      if * {
        faults := faults + 1;
        return Failure(Broken);
      }
      if !(path in tree && !tree[path].Dir?) {
        return Failure(Refused);
      }
      tree := tree - {path};
      r := Success(());
    }

    /** A directory can only be removed when it is empty. */
    method Rmdir(path: Path) returns (r: Result<(), RemoteError>)
      modifies this
      ensures faults == old(faults) + if r == Failure(Broken) then 1 else 0
      ensures r.Success? ==>
                && path in old(tree) && old(tree)[path].Dir? && ChildrenOf(old(tree), path) == {}
                && tree == old(tree) - {path}
      ensures r.Failure? ==> tree == old(tree)
      ensures r == Failure(Refused) ==>
                !(path in old(tree) && old(tree)[path].Dir? && ChildrenOf(old(tree), path) == {})
    {
      if * {
        faults := faults + 1;
        return Failure(Broken);
      }
      if !(path in tree && tree[path].Dir? && ChildrenOf(tree, path) == {}) {
        return Failure(Refused);
      }
      tree := tree - {path};
      r := Success(());
    }
  }

  /** How far the walk has come: the directories visited, each after its parent, and those on
      the stack, which are the children of visited ones. */
  ghost predicate Walk(tree: Tree, root: Path, visited: seq<Path>, stack: seq<Path>) {
    && Distinct(visited + stack)
    && (forall d :: d in visited || d in stack ==> d in DirsUnder(tree, root))
    && (root in visited || root in stack)
    && (forall i :: 0 <= i < |visited| ==> visited[i] == root || Parent(visited[i]) in visited[..i])
    && (forall d :: d in stack ==> d == root || Parent(d) in visited)
    && (forall d, c :: d in visited && c in DirsUnder(tree, root) && IsChild(d, c) ==> c in visited || c in stack)
  }

  predicate Distinct(s: seq<Path>) {
    forall i, j :: 0 <= i < j < |s| ==> s[i] != s[j]
  }

  /** Once the stack is empty every directory below the root has been visited. */
  lemma AllVisited(tree: Tree, root: Path, visited: seq<Path>, d: Path)
    requires Closed(tree) && Walk(tree, root, visited, [])
    requires d in DirsUnder(tree, root)
    ensures d in visited
    decreases |d|
  {
    if d != root {
      var parent := Parent(d);
      assert parent in DirsUnder(tree, root) && IsChild(parent, d);
      AllVisited(tree, root, visited, parent);
    }
  }

  function SetOf(s: seq<Path>): set<Path> {
    set p | p in s
  }

  /** Nothing but entries of the directory is gone. */
  ghost predicate OnlyChildrenGone(before: Tree, after: Tree, dir: Path) {
    && (forall p :: p in after ==> p in before && after[p] == before[p])
    && (forall p :: p in before && !IsChild(dir, p) ==> p in after)
  }

  /** One round of the walk: lists a directory, removes its files and stacks its directories. */
  method VisitDirectory(server: RemoteServer, dir: Path, stack: seq<Path>) returns (r: Result<seq<Path>, RemoteError>)
    modifies server
    ensures server.faults == old(server.faults) + if r == Failure(Broken) then 1 else 0
    ensures OnlyChildrenGone(old(server.tree), server.tree, dir)
    ensures r == Failure(Refused) ==> !(dir in old(server.tree) && old(server.tree)[dir].Dir?)
    ensures r.Success? ==>
              && dir in old(server.tree) && old(server.tree)[dir].Dir?
              && stack <= r.value && Distinct(r.value[|stack|..])
              && (forall p :: p in r.value[|stack|..] <==>
                    p in ChildrenOf(old(server.tree), dir) && old(server.tree)[p].Dir?)
              && (forall p :: p in ChildrenOf(old(server.tree), dir) && !old(server.tree)[p].Dir? ==> p !in server.tree)
              && (forall p :: p in ChildrenOf(old(server.tree), dir) && old(server.tree)[p].Dir? ==> p in server.tree)
  {
    ghost var before := server.tree;
    var entries :- server.List(dir);
    var pushed: seq<Path> := [];
    for i := 0 to |entries|
      invariant OnlyChildrenGone(before, server.tree, dir)
      invariant server.faults == old(server.faults)
      invariant Distinct(pushed)
      invariant forall p :: p in pushed <==> exists k :: 0 <= k < i && entries[k].path == p && entries[k].kind.Dir?
      invariant forall k :: 0 <= k < i ==> (entries[k].path in server.tree <==> entries[k].kind.Dir?)
      invariant forall k :: i <= k < |entries| ==> entries[k].path in server.tree
    {
      var entry := entries[i];
      if entry.kind.Dir? {
        assert entry.path !in pushed;
        pushed := pushed + [entry.path];
      } else {
        assert entry in entries;
        var _ :- server.Remove(entry.path);
      }
    }
    forall p
      ensures p in pushed <==> p in ChildrenOf(before, dir) && before[p].Dir?
    {
      if p in ChildrenOf(before, dir) {
        assert Entry(p, before[p]) in entries;
      }
    }
    assert (stack + pushed)[|stack|..] == pushed;
    forall p | p in ChildrenOf(before, dir)
      ensures p in server.tree <==> before[p].Dir?
    {
      assert Entry(p, before[p]) in entries;
    }
    r := Success(stack + pushed);
  }

  /** Visiting the top of the stack takes the walk one directory further. */
  lemma WalkStep(tree: Tree, root: Path, visited: seq<Path>, stack: seq<Path>, dir: Path, pushed: seq<Path>)
    requires Closed(tree) && Walk(tree, root, visited, stack + [dir])
    requires Distinct(pushed) && forall p :: p in pushed <==> p in ChildrenOf(tree, dir) && tree[p].Dir?
    ensures Walk(tree, root, visited + [dir], stack + pushed)
  {
    var visited' := visited + [dir];
    assert dir in stack + [dir];
    forall p | p in pushed
      ensures p in DirsUnder(tree, root) && Parent(p) == dir && p !in visited && p !in stack && p != root
    {
      assert IsChild(dir, p);
      PushedIsNew(tree, root, visited, stack, dir, p);
    }
    StillDistinct(visited, stack, dir, pushed);
    forall i | 0 <= i < |visited'|
      ensures visited'[i] == root || Parent(visited'[i]) in visited'[..i]
    {
      if i < |visited| {
        assert visited'[..i] == visited[..i];
      } else {
        assert visited'[..i] == visited;
      }
    }
    forall d, c | d in visited' && c in DirsUnder(tree, root) && IsChild(d, c)
      ensures c in visited' || c in stack + pushed
    {
      if d == dir {
        assert c in ChildrenOf(tree, dir);
      } else {
        assert c in visited || c in stack + [dir];
      }
    }
  }

  /** A child of the directory on top has not been seen yet. */
  lemma PushedIsNew(tree: Tree, root: Path, visited: seq<Path>, stack: seq<Path>, dir: Path, p: Path)
    requires Walk(tree, root, visited, stack + [dir]) && IsChild(dir, p) && p in tree && tree[p].Dir?
    ensures p != root && p !in visited && p !in stack
  {
    assert dir in stack + [dir];
    assert Under(root, dir);
    assert Parent(p) == dir;
    assert dir !in visited by {
      DistinctParts(visited, stack, dir);
    }
    forall i | 0 <= i < |visited|
      ensures visited[i] != p
    {
      assert visited[i] == root || Parent(visited[i]) in visited[..i];
    }
  }

  lemma DistinctParts(visited: seq<Path>, stack: seq<Path>, dir: Path)
    requires Distinct(visited + (stack + [dir]))
    ensures dir !in visited && dir !in stack
  {
    var all := visited + (stack + [dir]);
    var last := |all| - 1;
    assert all[last] == dir;
    forall i | 0 <= i < |visited|
      ensures visited[i] != dir
    {
      assert all[i] == visited[i];
    }
    forall i | 0 <= i < |stack|
      ensures stack[i] != dir
    {
      assert all[|visited| + i] == stack[i];
    }
  }

  lemma StillDistinct(visited: seq<Path>, stack: seq<Path>, dir: Path, pushed: seq<Path>)
    requires Distinct(visited + (stack + [dir])) && Distinct(pushed)
    requires forall p :: p in pushed ==> p !in visited && p !in stack && p != dir
    ensures Distinct((visited + [dir]) + (stack + pushed))
  {
    DistinctParts(visited, stack, dir);
    var old', new' := visited + (stack + [dir]), (visited + [dir]) + (stack + pushed);
    forall i, j | 0 <= i < j < |new'|
      ensures new'[i] != new'[j]
    {
      var n, m := |visited|, |visited| + 1 + |stack|;
      if j >= m {
        assert new'[j] == pushed[j - m];
        assert new'[j] in pushed;
        if i < m {
          assert i < n ==> new'[i] in visited;
          assert n < i ==> new'[i] in stack;
        }
      } else {
        assert new'[i] == if i < n then old'[i] else if i == n then dir else old'[i - 1];
        assert new'[j] == if j < n then old'[j] else if j == n then dir else old'[j - 1];
        assert i < n ==> new'[i] in visited;
        assert n < j ==> new'[j] in stack;
      }
    }
  }

  /** What a visit does to a swept tree. */
  lemma SweptStep(tree: Tree, root: Path, visited: seq<Path>, stack: seq<Path>, dir: Path, before: Tree, after: Tree)
    requires Closed(tree) && Walk(tree, root, visited, stack + [dir])
    requires before == Swept(tree, SetOf(visited))
    requires OnlyChildrenGone(before, after, dir)
    requires forall p :: p in ChildrenOf(before, dir) ==> (p in after <==> before[p].Dir?)
    ensures after == Swept(tree, SetOf(visited + [dir]))
    ensures forall p :: p in ChildrenOf(tree, dir) ==> p in before && before[p] == tree[p]
  {
    var goal := Swept(tree, SetOf(visited + [dir]));
    DistinctParts(visited, stack, dir);
    hide Walk, DirsUnder;
    forall p | p in ChildrenOf(tree, dir)
      ensures Parent(p) == dir && p in before && before[p] == tree[p]
    {
    }
    forall p
      ensures p in after <==> p in goal
    {
      assert p in tree && IsChild(dir, p) ==> p in ChildrenOf(tree, dir);
      assert p in tree && p != [] && Parent(p) == dir ==> IsChild(dir, p);
      assert p in SetOf(visited + [dir]) <==> p in visited || p == dir;
    }
  }

  /** Everything outside the directory is as it was, and nothing is new. */
  ghost predicate OnlyInsideGone(before: Tree, after: Tree, root: Path) {
    && (forall p :: p in after ==> p in before && after[p] == before[p])
    && (forall p :: p in before && !Under(root, p) ==> p in after)
  }

  /** The tree while the visited directories are removed from the last one on. */
  function Stripped(tree: Tree, root: Path, left: set<Path>): Tree {
    map p | p in tree && (!Under(root, p) || p in left) :: tree[p]
  }

  /** After the walk only the visited directories are left below the root. */
  lemma SweptIsStripped(tree: Tree, root: Path, visited: seq<Path>)
    requires Closed(tree) && Walk(tree, root, visited, [])
    ensures Swept(tree, SetOf(visited)) == Stripped(tree, root, SetOf(visited))
  {
    forall p | p in tree
      ensures p in Swept(tree, SetOf(visited)) <==> p in Stripped(tree, root, SetOf(visited))
    {
      if p != [] && Parent(p) in visited {
        assert Parent(p) in DirsUnder(tree, root);
        assert Under(root, p);
      }
      if Under(root, p) {
        assert root in visited + [] && root in DirsUnder(tree, root);
        if tree[p].Dir? {
          AllVisited(tree, root, visited, p);
        } else {
          assert p != root && Under(root, Parent(p)) && p != [];
          AllVisited(tree, root, visited, Parent(p));
        }
      }
    }
  }

  /** The last directory that is left is empty, because its children came after it. */
  lemma LastIsEmpty(tree: Tree, root: Path, visited: seq<Path>, n: nat)
    requires Walk(tree, root, visited, []) && 0 < n <= |visited|
    ensures ChildrenOf(Stripped(tree, root, SetOf(visited[..n])), visited[n - 1]) == {}
  {
    var dir := visited[n - 1];
    forall i | 0 <= i < n
      ensures !IsChild(dir, visited[i])
    {
      ParentIsNotLater(tree, root, visited, i, n - 1);
    }
    assert dir in visited && Under(root, dir);
  }

  /** What the walk says of one visited directory. */
  lemma Visited(tree: Tree, root: Path, visited: seq<Path>, k: nat)
    requires Walk(tree, root, visited, []) && k < |visited|
    ensures visited[k] in tree && tree[visited[k]].Dir? && Under(root, visited[k])
    ensures visited[k] == root || Parent(visited[k]) in visited[..k]
    ensures forall i :: 0 <= i < |visited| && i != k ==> visited[i] != visited[k]
  {
    assert visited + [] == visited;
    assert visited[k] in visited;
  }

  lemma ParentIsNotLater(tree: Tree, root: Path, visited: seq<Path>, i: nat, k: nat)
    requires Walk(tree, root, visited, []) && i <= k < |visited|
    ensures !IsChild(visited[k], visited[i])
  {
    hide Walk;
    Visited(tree, root, visited, i);
    Visited(tree, root, visited, k);
  }

  lemma StrippedStep(tree: Tree, root: Path, visited: seq<Path>, n: nat)
    requires Walk(tree, root, visited, []) && 0 < n <= |visited|
    ensures Stripped(tree, root, SetOf(visited[..n])) - {visited[n - 1]}
              == Stripped(tree, root, SetOf(visited[..n - 1]))
    ensures visited[n - 1] in Stripped(tree, root, SetOf(visited[..n])) && tree[visited[n - 1]].Dir?
  {
    hide Walk, Under, Stripped, SetOf;
    Visited(tree, root, visited, n - 1);
    SetOfLast(visited, n);
    StripOne(tree, root, SetOf(visited[..n]), visited[n - 1]);
  }

  lemma StripOne(tree: Tree, root: Path, left: set<Path>, d: Path)
    requires d in left && d in tree && Under(root, d)
    ensures Stripped(tree, root, left) - {d} == Stripped(tree, root, left - {d})
    ensures d in Stripped(tree, root, left)
  {
    hide Under;
  }

  lemma SetOfLast(visited: seq<Path>, n: nat)
    requires 0 < n <= |visited|
    requires forall i :: 0 <= i < |visited| && i != n - 1 ==> visited[i] != visited[n - 1]
    ensures visited[n - 1] in SetOf(visited[..n])
    ensures SetOf(visited[..n - 1]) == SetOf(visited[..n]) - {visited[n - 1]}
  {
    assert visited[..n][n - 1] == visited[n - 1];
    forall p
      ensures p in visited[..n - 1] <==> p in visited[..n] && p != visited[n - 1]
    {
      if p in visited[..n] && p != visited[n - 1] {
        var i :| 0 <= i < n && visited[..n][i] == p;
        assert visited[..n - 1][i] == p;
      }
      if p in visited[..n - 1] {
        var i :| 0 <= i < n - 1 && visited[..n - 1][i] == p;
        assert visited[..n][i] == p;
      }
    }
  }

  /** The first half: the walk, which removes everything but the directories. */
  method WalkTree(server: RemoteServer, root: Path) returns (r: Result<seq<Path>, RemoteError>)
    requires Closed(server.tree)
    modifies server
    ensures server.faults == old(server.faults) + if r == Failure(Broken) then 1 else 0
    ensures r.Success? ==>
              && Walk(old(server.tree), root, r.value, [])
              && server.tree == Swept(old(server.tree), SetOf(r.value))
    ensures OnlyInsideGone(old(server.tree), server.tree, root)
    ensures r == Failure(Refused) ==> !(root in old(server.tree) && old(server.tree)[root].Dir?)
  {
    hide Walk, Swept, DirsUnder, OnlyChildrenGone, IsChild, OnlyInsideGone;
    ghost var tree := server.tree;
    NothingGone(tree, root);
    if !(root in server.tree && server.tree[root].Dir?) {
      // the first listing fails
      var listing := server.List(root);
      return Failure(listing.error);
    }
    WalkStart(tree, root);
    var stack, visited := [root], [];
    while stack != []
      invariant Walk(tree, root, visited, stack) && server.tree == Swept(tree, SetOf(visited))
      invariant OnlyInsideGone(tree, server.tree, root)
      invariant server.faults == old(server.faults)
      decreases |DirsUnder(tree, root) - SetOf(visited)|
    {
      var dir := stack[|stack| - 1];
      var below := stack[..|stack| - 1];
      SplitLast(stack);
      ghost var before := server.tree;
      TopIsInside(tree, root, visited, below, dir);
      var visit := VisitDirectory(server, dir, below);
      InsideStep(tree, root, dir, before, server.tree);
      if visit.Failure? {
        return Failure(visit.error);
      }
      TakeStep(tree, root, visited, below, dir, before, server.tree, visit.value[|below|..]);
      SplitPrefix(below, visit.value);
      stack := visit.value;
      visited := visited + [dir];
    }
    r := Success(visited);
  }

  lemma SplitLast(s: seq<Path>)
    requires s != []
    ensures s == s[..|s| - 1] + [s[|s| - 1]]
  {
  }

  lemma SplitPrefix(a: seq<Path>, s: seq<Path>)
    requires a <= s
    ensures s == a + s[|a|..]
  {
  }

  lemma NothingGone(tree: Tree, root: Path)
    ensures OnlyInsideGone(tree, tree, root)
  {
  }

  /** `delete_remote_tree`. On success the directory is gone with everything below it, and
      nothing else. Whatever fails, nothing outside is touched. The server never has a reason
      of its own to refuse: every directory is empty when its turn to be removed comes. So the
      deletion succeeds if and only if the directory is there and no command breaks. */
  method DeleteRemoteTree(server: RemoteServer, root: Path) returns (r: Result<(), RemoteError>)
    requires Closed(server.tree)
    modifies server
    ensures server.faults == old(server.faults) + if r == Failure(Broken) then 1 else 0
    ensures r.Success? <==>
              server.faults == old(server.faults) && root in old(server.tree) && old(server.tree)[root].Dir?
    ensures r.Success? ==>
              && root in old(server.tree) && old(server.tree)[root].Dir?
              && server.tree == Without(old(server.tree), root)
    ensures OnlyInsideGone(old(server.tree), server.tree, root)
    ensures r == Failure(Refused) ==> !(root in old(server.tree) && old(server.tree)[root].Dir?)
  {
    hide Walk, Swept, Stripped, OnlyInsideGone;
    ghost var tree := server.tree;
    var walk := WalkTree(server, root);
    if walk.Failure? {
      assert walk.error.Refused? || walk.error.Broken?;
      return Failure(walk.error);
    }
    var visited := walk.value;
    SweptIsStripped(tree, root, visited);
    r := RemoveDirectories(server, tree, root, visited);
    assert r.Failure? ==> r.error.Refused? || r.error.Broken?;
  }

  /** The second half: the directories go in reverse order of the walk. */
  method RemoveDirectories(server: RemoteServer, ghost tree: Tree, ghost root: Path, visited: seq<Path>)
    returns (r: Result<(), RemoteError>)
    requires Walk(tree, root, visited, []) && server.tree == Stripped(tree, root, SetOf(visited))
    modifies server
    ensures server.faults == old(server.faults) + if r == Failure(Broken) then 1 else 0
    ensures r.Success? ==> root in tree && tree[root].Dir? && server.tree == Without(tree, root)
    ensures OnlyInsideGone(tree, server.tree, root)
    ensures r != Failure(Refused)
  {
    WalkHasRoot(tree, root, visited);
    hide Walk;
    var n := |visited|;
    assert visited[..n] == visited;
    while n > 0
      invariant 0 <= n <= |visited|
      invariant server.tree == Stripped(tree, root, SetOf(visited[..n])) && server.faults == old(server.faults)
    {
      LastIsEmpty(tree, root, visited, n);
      StrippedStep(tree, root, visited, n);
      var _ :- server.Rmdir(visited[n - 1]);
      n := n - 1;
    }
    r := Success(());
  }

  lemma WalkHasRoot(tree: Tree, root: Path, visited: seq<Path>)
    requires Walk(tree, root, visited, [])
    ensures root in tree && tree[root].Dir?
  {
    assert visited + [] == visited;
  }

  lemma InsideStep(tree: Tree, root: Path, dir: Path, before: Tree, after: Tree)
    requires OnlyInsideGone(tree, before, root) && OnlyChildrenGone(before, after, dir) && Under(root, dir)
    ensures OnlyInsideGone(tree, after, root)
  {
  }

  /** One round of the walk, on the tree and on the books. */
  lemma TakeStep(tree: Tree, root: Path, visited: seq<Path>, stack: seq<Path>, dir: Path, before: Tree, after: Tree,
                 pushed: seq<Path>)
    requires Closed(tree) && Walk(tree, root, visited, stack + [dir])
    requires before == Swept(tree, SetOf(visited)) && OnlyChildrenGone(before, after, dir) && Distinct(pushed)
    requires forall p :: p in pushed <==> p in ChildrenOf(before, dir) && before[p].Dir?
    requires forall p :: p in ChildrenOf(before, dir) ==> (p in after <==> before[p].Dir?)
    ensures Walk(tree, root, visited + [dir], stack + pushed)
    ensures after == Swept(tree, SetOf(visited + [dir]))
  {
    SweptStep(tree, root, visited, stack, dir, before, after);
    forall p
      ensures p in ChildrenOf(tree, dir) <==> p in ChildrenOf(before, dir)
    {
      assert p in before ==> p in tree;
    }
    hide Walk, Swept;
    WalkStep(tree, root, visited, stack, dir, pushed);
  }

  lemma WalkStart(tree: Tree, root: Path)
    requires root in tree && tree[root].Dir?
    ensures Walk(tree, root, [], [root])
    ensures Swept(tree, SetOf([])) == tree
  {
    assert [] + [root] == [root];
  }

  /** The directory on top of the stack is one below the root that is not visited yet. */
  lemma TopIsInside(tree: Tree, root: Path, visited: seq<Path>, stack: seq<Path>, dir: Path)
    requires Walk(tree, root, visited, stack + [dir])
    ensures Under(root, dir) && dir in tree && tree[dir].Dir? && dir in Swept(tree, SetOf(visited))
    ensures Swept(tree, SetOf(visited))[dir].Dir?
    ensures DirsUnder(tree, root) - SetOf(visited + [dir]) < DirsUnder(tree, root) - SetOf(visited)
    ensures |DirsUnder(tree, root) - SetOf(visited + [dir])| < |DirsUnder(tree, root) - SetOf(visited)|
  {
    DistinctParts(visited, stack, dir);
    assert dir in stack + [dir];
    var rest := DirsUnder(tree, root) - SetOf(visited + [dir]);
    assert DirsUnder(tree, root) - SetOf(visited) == rest + {dir};
  }
}
