/** Directory items of src-tauri/src/transfer/worker.rs: how one listing becomes child items,
    and what files a directory stands for. */
module DirectoryExpansion {
  import opened Wrappers

  datatype Direction = Download | Upload | Copy

  datatype EntryKind = File | Dir | Symlink | Other

  /** An entry of a listing, with the listing it has if it is, or leads to, a directory. */
  datatype Entry = Entry(
    name: string,
    kind: EntryKind,
    linkBroken: bool,
    targetIsDir: bool,
    listing: seq<Entry>)

  type Path = seq<string>

  /** One file to be transferred. */
  datatype Leaf = Leaf(source: Path, target: Path)

  /** The work an item stands for: one file, or a directory that is still to be listed. */
  datatype Work =
    | OneFile(leaf: Leaf)
    | Directory(direction: Direction, follow: bool, source: Path, target: Path, listing: seq<Entry>)

  /** What an entry becomes: nothing, a file item or a directory item. A download copies links
      it does not follow, a remote copy skips them, an upload follows every link. */
  function ChildKind(direction: Direction, follow: bool, entry: Entry): Option<bool> {
    match direction
    case Upload => if entry.linkBroken then None else Some(entry.kind.Dir? || entry.targetIsDir)
    case Download =>
      (match entry.kind
       case Dir => Some(true)
       case File => Some(false)
       case Symlink =>
         if entry.linkBroken then None
         else if follow then Some(entry.targetIsDir)
         else Some(false)
       case Other => None)
    case Copy =>
      (match entry.kind
       case Dir => Some(true)
       case File => Some(false)
       case Symlink => if follow && !entry.linkBroken then Some(entry.targetIsDir) else None
       case Other => None)
  }

  /** The files a listing stands for, in pre-order. */
  function FilesUnder(direction: Direction, follow: bool, source: Path, target: Path, entries: seq<Entry>): seq<Leaf>
    decreases entries
  {
    if entries == [] then []
    else
      FilesAt(direction, follow, source, target, entries[0])
      + FilesUnder(direction, follow, source, target, entries[1..])
  }

  function FilesAt(direction: Direction, follow: bool, source: Path, target: Path, entry: Entry): seq<Leaf>
    decreases entry
  {
    match ChildKind(direction, follow, entry)
    case None => []
    case Some(isDir) =>
      if isDir then FilesUnder(direction, follow, source + [entry.name], target + [entry.name], entry.listing)
      else [Leaf(source + [entry.name], target + [entry.name])]
  }

  function FilesOf(work: Work): seq<Leaf> {
    match work
    case OneFile(leaf) => [leaf]
    case Directory(direction, follow, source, target, listing) =>
      FilesUnder(direction, follow, source, target, listing)
  }

  function FilesOfAll(works: seq<Work>): seq<Leaf> {
    if works == [] then [] else FilesOf(works[0]) + FilesOfAll(works[1..])
  }

  /** `expand_remote_directory`, `expand_local_directory` and `expand_copy_directory`: one child
      for each entry that is not skipped, in the order of the listing. */
  method ExpandDirectory(work: Work) returns (children: seq<Work>)
    requires work.Directory?
    ensures children == ChildrenOf(work.direction, work.follow, work.source, work.target, work.listing)
  {
    hide ChildrenOf, ChildKind;
    var all := work.listing;
    children := [];
    assert all[0..] == all;
    for i := 0 to |all|
      invariant ChildrenOf(work.direction, work.follow, work.source, work.target, all)
             == children + ChildrenOf(work.direction, work.follow, work.source, work.target, all[i..])
    {
      var entry := all[i];
      var source, target := work.source + [entry.name], work.target + [entry.name];
      NextChild(work, i, children);
      match ChildKind(work.direction, work.follow, entry) {
        case None =>
        case Some(isDir) =>
          if isDir {
            children := children + [Directory(work.direction, work.follow, source, target, entry.listing)];
          } else {
            children := children + [OneFile(Leaf(source, target))];
          }
      }
    }
    NoChildren(work);
  }

  lemma NextChild(work: Work, i: nat, before: seq<Work>)
    requires work.Directory? && i < |work.listing|
    ensures var entry := work.listing[i];
            var (source, target) := (work.source + [entry.name], work.target + [entry.name]);
            var rest := ChildrenOf(work.direction, work.follow, work.source, work.target, work.listing[i + 1..]);
            before + ChildrenOf(work.direction, work.follow, work.source, work.target, work.listing[i..])
            == match ChildKind(work.direction, work.follow, entry)
               case None => before + rest
               case Some(isDir) =>
                 before + [if isDir then Directory(work.direction, work.follow, source, target, entry.listing)
                           else OneFile(Leaf(source, target))] + rest
  {
    assert work.listing[i..][1..] == work.listing[i + 1..];
  }

  lemma NoChildren(work: Work)
    requires work.Directory?
    ensures ChildrenOf(work.direction, work.follow, work.source, work.target, work.listing[|work.listing|..]) == []
  {
  }

  function ChildrenOf(direction: Direction, follow: bool, source: Path, target: Path, entries: seq<Entry>): seq<Work> {
    if entries == [] then []
    else
      var entry := entries[0];
      var rest := ChildrenOf(direction, follow, source, target, entries[1..]);
      match ChildKind(direction, follow, entry)
      case None => rest
      case Some(isDir) =>
        [if isDir then Directory(direction, follow, source + [entry.name], target + [entry.name], entry.listing)
         else OneFile(Leaf(source + [entry.name], target + [entry.name]))] + rest
  }

  /** The children stand for exactly the files of their parent, in the same order. */
  lemma {:induction false} ChildrenKeepFiles(direction: Direction, follow: bool, source: Path, target: Path,
                                             entries: seq<Entry>)
    ensures FilesOfAll(ChildrenOf(direction, follow, source, target, entries))
         == FilesUnder(direction, follow, source, target, entries)
  {
    if entries != [] {
      ChildrenKeepFiles(direction, follow, source, target, entries[1..]);
    }
  }

  /** The directories still to be listed, now or later. */
  function Listings(work: Work): nat {
    match work
    case OneFile(_) => 0
    case Directory(direction, follow, _, _, listing) => 1 + ListingsUnder(direction, follow, listing)
  }

  function ListingsUnder(direction: Direction, follow: bool, entries: seq<Entry>): nat
    decreases entries
  {
    if entries == [] then 0
    else ListingsAt(direction, follow, entries[0]) + ListingsUnder(direction, follow, entries[1..])
  }

  function ListingsAt(direction: Direction, follow: bool, entry: Entry): nat
    decreases entry
  {
    if ChildKind(direction, follow, entry) == Some(true) then 1 + ListingsUnder(direction, follow, entry.listing) else 0
  }

  function ListingsOfAll(works: seq<Work>): nat {
    if works == [] then 0 else Listings(works[0]) + ListingsOfAll(works[1..])
  }

  /** Expanding a directory uses up exactly one listing, so expansion comes to an end. */
  lemma {:induction false} ChildrenUseUpOneListing(direction: Direction, follow: bool, source: Path, target: Path,
                                                   entries: seq<Entry>)
    ensures ListingsOfAll(ChildrenOf(direction, follow, source, target, entries))
         == ListingsUnder(direction, follow, entries)
         == Listings(Directory(direction, follow, source, target, entries)) - 1
  {
    if entries != [] {
      ChildrenUseUpOneListing(direction, follow, source, target, entries[1..]);
    }
  }

  // Which files these are, by the kinds of the entries alone

  predicate IsPlainFile(e: Entry) {
    e.kind == File && !e.linkBroken && !e.targetIsDir
  }

  predicate IsPlainDir(e: Entry) {
    e.kind == Dir && !e.linkBroken
  }

  /** A tree of directories and files, without links or anything special. */
  ghost predicate IsPlainTree(entries: seq<Entry>) {
    forall e :: e in entries ==> IsPlainFile(e) || (IsPlainDir(e) && IsPlainTree(e.listing))
  }

  /** The names on the way to every file of such a tree, in pre-order. */
  function FileNames(entries: seq<Entry>): seq<seq<string>>
    decreases entries
  {
    if entries == [] then []
    else
      var e := entries[0];
      (if e.kind == File then [[e.name]] else Behind(e.name, FileNames(e.listing))) + FileNames(entries[1..])
  }

  function Behind(name: string, trails: seq<seq<string>>): seq<seq<string>> {
    seq(|trails|, i requires 0 <= i < |trails| => [name] + trails[i])
  }

  function Leaves(source: Path, target: Path, trails: seq<seq<string>>): seq<Leaf> {
    seq(|trails|, i requires 0 <= i < |trails| => Leaf(source + trails[i], target + trails[i]))
  }

  lemma LeavesBehind(source: Path, target: Path, name: string, trails: seq<seq<string>>)
    ensures Leaves(source, target, Behind(name, trails)) == Leaves(source + [name], target + [name], trails)
  {
    forall i | 0 <= i < |trails|
      ensures Leaves(source, target, Behind(name, trails))[i] == Leaves(source + [name], target + [name], trails)[i]
    {
      assert source + ([name] + trails[i]) == source + [name] + trails[i];
      assert target + ([name] + trails[i]) == target + [name] + trails[i];
    }
  }

  lemma LeavesOfBoth(source: Path, target: Path, a: seq<seq<string>>, b: seq<seq<string>>)
    ensures Leaves(source, target, a + b) == Leaves(source, target, a) + Leaves(source, target, b)
  {
  }

  /** In every direction a plain tree stands for exactly its files: one for each, in order, with the
      names on the way to it on both sides. */
  lemma {:induction false} PlainTreeIsTransferred(direction: Direction, follow: bool, source: Path, target: Path,
                                                  entries: seq<Entry>)
    requires IsPlainTree(entries)
    ensures FilesUnder(direction, follow, source, target, entries) == Leaves(source, target, FileNames(entries))
    decreases entries
  {
    hide Leaves, Behind;
    if entries == [] {
      NoLeaves(source, target);
    } else {
      var e := entries[0];
      assert e in entries;
      PlainTreeIsTransferred(direction, follow, source, target, entries[1..]);
      if e.kind == File {
        LeavesOfBoth(source, target, [[e.name]], FileNames(entries[1..]));
        OneLeaf(source, target, e.name);
      } else {
        PlainTreeIsTransferred(direction, follow, source + [e.name], target + [e.name], e.listing);
        LeavesBehind(source, target, e.name, FileNames(e.listing));
        LeavesOfBoth(source, target, Behind(e.name, FileNames(e.listing)), FileNames(entries[1..]));
      }
    }
  }

  lemma NoLeaves(source: Path, target: Path)
    ensures Leaves(source, target, []) == []
  {
  }

  lemma OneLeaf(source: Path, target: Path, name: string)
    ensures Leaves(source, target, [[name]]) == [Leaf(source + [name], target + [name])]
  {
  }

  /** A way down through plain directories to a plain file. */
  ghost predicate PlainTrail(entries: seq<Entry>, trail: seq<Entry>) {
    && trail != [] && trail[0] in entries
    && (if |trail| == 1 then IsPlainFile(trail[0])
        else IsPlainDir(trail[0]) && PlainTrail(trail[0].listing, trail[1..]))
  }

  function NamesOf(trail: seq<Entry>): seq<string> {
    if trail == [] then [] else [trail[0].name] + NamesOf(trail[1..])
  }

  lemma {:induction false} EntryIsTransferred(direction: Direction, follow: bool, source: Path, target: Path,
                                              entries: seq<Entry>, e: Entry, leaf: Leaf)
    requires e in entries && leaf in FilesAt(direction, follow, source, target, e)
    ensures leaf in FilesUnder(direction, follow, source, target, entries)
  {
    if entries[0] != e {
      EntryIsTransferred(direction, follow, source, target, entries[1..], e, leaf);
    }
  }

  /** Whatever else is in a tree: no plain file at the end of plain directories is left out. */
  lemma {:induction false} PlainFileIsTransferred(direction: Direction, follow: bool, source: Path, target: Path,
                                                  entries: seq<Entry>, trail: seq<Entry>)
    requires PlainTrail(entries, trail)
    ensures Leaf(source + NamesOf(trail), target + NamesOf(trail))
            in FilesUnder(direction, follow, source, target, entries)
    decreases |trail|
  {
    var e := trail[0];
    var leaf := Leaf(source + NamesOf(trail), target + NamesOf(trail));
    if |trail| == 1 {
      assert trail[1..] == [] && NamesOf(trail) == [e.name];
    } else {
      var names := NamesOf(trail[1..]);
      PlainFileIsTransferred(direction, follow, source + [e.name], target + [e.name], e.listing, trail[1..]);
      assert source + ([e.name] + names) == source + [e.name] + names;
      assert target + ([e.name] + names) == target + [e.name] + names;
    }
    EntryIsTransferred(direction, follow, source, target, entries, e, leaf);
  }

  /** What becomes of links. A broken one is always left out. Otherwise an upload follows every link;
      downloads and copies between servers follow links if they are told to; if not, a download copies
      the link itself and a copy leaves it out. */
  lemma LinksAreTransferred(direction: Direction, follow: bool, source: Path, target: Path, e: Entry)
    requires e.kind == Symlink
    ensures var there := FilesUnder(direction, follow, source, target, [e]);
            var itself := [Leaf(source + [e.name], target + [e.name])];
            var followed := if e.targetIsDir
                            then FilesUnder(direction, follow, source + [e.name], target + [e.name], e.listing)
                            else itself;
            there == if e.linkBroken then []
                     else if direction == Upload || follow then followed
                     else if direction == Download then itself
                     else []
  {
    hide FilesUnder;
    Alone(direction, follow, source, target, e);
  }

  /** Sockets, devices and the like are left out. An upload knows no such kind; what it finds there is
      a file, or a directory if it leads to one. */
  lemma OthersAreTransferred(direction: Direction, follow: bool, source: Path, target: Path, e: Entry)
    requires e.kind == Other
    ensures var there := FilesUnder(direction, follow, source, target, [e]);
            there == if direction != Upload || e.linkBroken then []
                     else if e.targetIsDir
                     then FilesUnder(direction, follow, source + [e.name], target + [e.name], e.listing)
                     else [Leaf(source + [e.name], target + [e.name])]
  {
    hide FilesUnder;
    Alone(direction, follow, source, target, e);
  }

  lemma Alone(direction: Direction, follow: bool, source: Path, target: Path, e: Entry)
    ensures FilesUnder(direction, follow, source, target, [e]) == FilesAt(direction, follow, source, target, e)
  {
    assert [e][1..] == [];
  }
}
