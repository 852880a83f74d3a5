/** The folder comparison of src-tauri/src/sync.rs: both sides are collected by a walk with a
    stack of directories, and the collected paths are compared one by one. */
module FolderSync {
  import opened Wrappers

  /** What a listing says about an entry, and what listing it as a directory gives. */
  datatype Entry = Entry(name: string, path: string, size: nat, mtime: Option<int>,
                         isDir: bool, brokenLink: bool, listing: Listing)

  datatype Listing = Unreadable | Listed(entries: seq<Entry>)

  datatype Facts = Facts(size: nat, mtime: Option<int>, isDir: bool, absolute: string)

  datatype Collected = ListingFailed | Complete(found: map<string, Facts>)

  /** Which entries a walk leaves out, with everything below them: those that a pattern
      excludes, and on the remote side links that lead nowhere. */
  datatype Filter = Filter(excludes: (string, string) -> bool, skipsBroken: bool)
  {
    predicate Keeps(relative: string, e: Entry) {
      !excludes(relative, e.name) && !(skipsBroken && e.brokenLink)
    }
  }

  function Extend(prefix: string, name: string): string {
    if prefix == "" then name else prefix + "/" + name
  }

  function FactsOf(e: Entry): Facts {
    Facts(e.size, e.mtime, e.isDir, e.path)
  }

  // What there is to find

  type Finding = (string, Facts)

  /** Everything the walk should find below a listing. */
  ghost function FoundIn(filter: Filter, entries: seq<Entry>, prefix: string): set<Finding> {
    if entries == [] then {}
    else FoundAt(filter, entries[0], prefix) + FoundIn(filter, entries[1..], prefix)
  }

  ghost function FoundAt(filter: Filter, e: Entry, prefix: string): set<Finding> {
    var relative := Extend(prefix, e.name);
    if !filter.Keeps(relative, e) then {}
    else {(relative, FactsOf(e))} + (if e.isDir then FoundBelow(filter, e.listing, relative) else {})
  }

  ghost function FoundBelow(filter: Filter, listing: Listing, prefix: string): set<Finding> {
    match listing
    case Unreadable => {}
    case Listed(entries) => FoundIn(filter, entries, prefix)
  }

  /** Some directory that the walk comes to cannot be listed. */
  ghost predicate FailsBelow(filter: Filter, listing: Listing, prefix: string) {
    match listing
    case Unreadable => true
    case Listed(entries) => FailsIn(filter, entries, prefix)
  }

  ghost predicate FailsIn(filter: Filter, entries: seq<Entry>, prefix: string) {
    entries != [] && (FailsAt(filter, entries[0], prefix) || FailsIn(filter, entries[1..], prefix))
  }

  ghost predicate FailsAt(filter: Filter, e: Entry, prefix: string) {
    var relative := Extend(prefix, e.name);
    filter.Keeps(relative, e) && e.isDir && FailsBelow(filter, e.listing, relative)
  }

  // The walk

  type Pending = seq<(Listing, string)>

  ghost function FoundOn(filter: Filter, stack: Pending): set<Finding> {
    if stack == [] then {}
    else FoundOn(filter, stack[..|stack| - 1])
         + FoundBelow(filter, stack[|stack| - 1].0, stack[|stack| - 1].1)
  }

  ghost predicate FailsOn(filter: Filter, stack: Pending) {
    stack != []
    && (FailsOn(filter, stack[..|stack| - 1]) || FailsBelow(filter, stack[|stack| - 1].0, stack[|stack| - 1].1))
  }

  ghost function Weight(listing: Listing): nat {
    match listing
    case Unreadable => 1
    case Listed(entries) => 1 + WeightIn(entries)
  }

  ghost function WeightIn(entries: seq<Entry>): nat {
    if entries == [] then 0 else Weight(entries[0].listing) + WeightIn(entries[1..])
  }

  ghost function WeightOn(stack: Pending): nat {
    if stack == [] then 0 else WeightOn(stack[..|stack| - 1]) + Weight(stack[|stack| - 1].0)
  }

  ghost function Pairs(m: map<string, Facts>): set<Finding> {
    set k | k in m :: (k, m[k])
  }

  /** No path is found twice with different facts. */
  ghost predicate Functional(findings: set<Finding>) {
    forall a, b :: a in findings && b in findings && a.0 == b.0 ==> a == b
  }

  lemma InPairs(m: map<string, Facts>, f: Finding)
    ensures f in Pairs(m) <==> f.0 in m && m[f.0] == f.1
  {
    if f.0 in m && m[f.0] == f.1 {
      var k := f.0;
      assert (k, m[k]) == f;
    }
  }

  /** The paths of some findings. */
  ghost function PathsOf(findings: set<Finding>): set<string> {
    set f | f in findings :: f.0
  }

  /** A path that was there keeps one of its findings, whichever comes last. */
  lemma Insert(m: map<string, Facts>, path: string, facts: Facts, all: set<Finding>)
    requires Pairs(m) <= all && (path, facts) in all
    ensures Pairs(m[path := facts]) <= all
  {
    forall f | f in Pairs(m[path := facts]) ensures f in all {
      InPairs(m, f);
    }
  }

  lemma PathsOfBoth(a: set<Finding>, b: set<Finding>)
    ensures PathsOf(a + b) == PathsOf(a) + PathsOf(b)
  {
    forall path | path in PathsOf(a) + PathsOf(b) ensures path in PathsOf(a + b) {
      if path in PathsOf(a) {
        var f :| f in a && f.0 == path;
        assert f in a + b;
      } else {
        var f :| f in b && f.0 == path;
        assert f in a + b;
      }
    }
  }

  lemma PathsOfOne(f: Finding)
    ensures PathsOf({f}) == {f.0} && PathsOf({}) == {}
  {
    assert f in {f};
  }

  /** A collection that has the right paths and nothing wrong is right, if no path was found twice
      with different facts, and only then. */
  lemma ExactIffFunctional(m: map<string, Facts>, all: set<Finding>)
    requires m.Keys == PathsOf(all) && Pairs(m) <= all
    ensures Pairs(m) == all <==> Functional(all)
  {
    if Functional(all) {
      forall f | f in all ensures f in Pairs(m) {
        assert f.0 in PathsOf(all);
        InPairs(m, (f.0, m[f.0]));
      }
    }
  }

  lemma Push(filter: Filter, stack: Pending, listing: Listing, prefix: string)
    ensures var pushed := stack + [(listing, prefix)];
            && FoundOn(filter, pushed) == FoundOn(filter, stack) + FoundBelow(filter, listing, prefix)
            && (FailsOn(filter, pushed) <==> FailsOn(filter, stack) || FailsBelow(filter, listing, prefix))
            && WeightOn(pushed) == WeightOn(stack) + Weight(listing)
  {
    var pushed := stack + [(listing, prefix)];
    assert pushed[..|stack|] == stack;
  }

  lemma NextEntry(filter: Filter, entries: seq<Entry>, i: nat, prefix: string)
    requires i < |entries|
    ensures FoundIn(filter, entries[i..], prefix)
         == FoundAt(filter, entries[i], prefix) + FoundIn(filter, entries[i + 1..], prefix)
    ensures FailsIn(filter, entries[i..], prefix)
       <==> FailsAt(filter, entries[i], prefix) || FailsIn(filter, entries[i + 1..], prefix)
    ensures WeightIn(entries[i..]) == Weight(entries[i].listing) + WeightIn(entries[i + 1..])
  {
    assert entries[i..][0] == entries[i] && entries[i..][1..] == entries[i + 1..];
  }

  /** `collect_local` and `collect_remote`: has exactly the paths there are to find, each with facts
      that were found there, or reports that a directory could not be listed. */
  method Collect(filter: Filter, root: Listing) returns (r: Collected)
    ensures r.ListingFailed? <==> FailsBelow(filter, root, "")
    ensures r.Complete? ==>
              var all := FoundBelow(filter, root, "");
              && r.found.Keys == PathsOf(all) && Pairs(r.found) <= all
              && (Pairs(r.found) == all <==> Functional(all))
  {
    hide FoundOn, FailsOn, FoundBelow, FailsBelow, FoundIn, FailsIn, WeightOn, Functional, Pairs, PathsOf;
    ghost var all := FoundBelow(filter, root, "");
    var out: map<string, Facts> := map[];
    var stack: Pending := [];
    Start(filter, root, out, all);
    Push(filter, stack, root, "");
    Moved(filter, out, stack, all, [(root, "")], {}, all);
    stack := [(root, "")];
    while stack != []
      invariant Collecting(filter, out, stack, {}, all)
      invariant FailsOn(filter, stack) <==> FailsBelow(filter, root, "")
      decreases WeightOn(stack)
    {
      var (listing, prefix) := stack[|stack| - 1];
      ghost var before := WeightOn(stack);
      Pop(filter, stack);
      ghost var waiting := FoundBelow(filter, listing, prefix);
      Moved(filter, out, stack, {}, stack[..|stack| - 1], waiting, all);
      stack := stack[..|stack| - 1];
      match listing {
        case Unreadable =>
          return ListingFailed;
        case Listed(entries) =>
          out, stack := Visit(filter, entries, prefix, out, stack, all);
      }
    }
    Done(filter, out, all);
    ExactIffFunctional(out, all);
    r := Complete(out);
  }

  /** What has been collected is right, and together with what is still on the stack and in `rest`
      it has every path there is. */
  ghost predicate Collecting(filter: Filter, out: map<string, Facts>, stack: Pending, rest: set<Finding>,
                             all: set<Finding>)
  {
    && Pairs(out) <= all && FoundOn(filter, stack) + rest <= all
    && out.Keys + PathsOf(FoundOn(filter, stack) + rest) == PathsOf(all)
  }

  lemma Start(filter: Filter, root: Listing, out: map<string, Facts>, all: set<Finding>)
    requires out == map[]
    ensures Collecting(filter, out, [], all, all) && FoundOn(filter, []) == {} && !FailsOn(filter, [])
    ensures [] + [(root, "")] == [(root, "")]
  {
    assert Pairs(out) == {};
    assert FoundOn(filter, []) + all == all;
  }

  lemma Done(filter: Filter, out: map<string, Facts>, all: set<Finding>)
    ensures Collecting(filter, out, [], {}, all) ==> out.Keys == PathsOf(all) && Pairs(out) <= all
    ensures !FailsOn(filter, [])
  {
    assert FoundOn(filter, []) + {} == {} && PathsOf({}) == {};
  }

  /** Findings may move between the stack and the rest. */
  lemma Moved(filter: Filter, out: map<string, Facts>, stack: Pending, rest: set<Finding>, stack': Pending,
              rest': set<Finding>, all: set<Finding>)
    requires Collecting(filter, out, stack, rest, all)
    requires FoundOn(filter, stack) + rest == FoundOn(filter, stack') + rest'
    ensures Collecting(filter, out, stack', rest', all)
  {
  }

  lemma Pop(filter: Filter, stack: Pending)
    requires stack != []
    ensures var (listing, prefix) := stack[|stack| - 1];
            var rest := stack[..|stack| - 1];
            && FoundOn(filter, stack) == FoundOn(filter, rest) + FoundBelow(filter, listing, prefix)
            && (FailsOn(filter, stack) <==> FailsOn(filter, rest) || FailsBelow(filter, listing, prefix))
            && WeightOn(stack) == WeightOn(rest) + Weight(listing)
            && (listing.Unreadable? ==> FailsBelow(filter, listing, prefix))
            && (listing.Listed? ==>
                  && FoundBelow(filter, listing, prefix) == FoundIn(filter, listing.entries, prefix)
                  && FailsBelow(filter, listing, prefix) == FailsIn(filter, listing.entries, prefix)
                  && Weight(listing) == 1 + WeightIn(listing.entries))
  {
  }

  /** One listing: what is kept is recorded, and kept directories wait on the stack. */
  method Visit(filter: Filter, entries: seq<Entry>, prefix: string, out0: map<string, Facts>, stack0: Pending,
               ghost all: set<Finding>)
    returns (out: map<string, Facts>, stack: Pending)
    requires Collecting(filter, out0, stack0, FoundIn(filter, entries, prefix), all)
    ensures Collecting(filter, out, stack, {}, all)
    ensures FailsOn(filter, stack) <==> FailsOn(filter, stack0) || FailsIn(filter, entries, prefix)
    ensures WeightOn(stack) <= WeightOn(stack0) + WeightIn(entries)
  {
    hide FoundOn, FailsOn, FoundBelow, FailsBelow, FoundIn, FailsIn, WeightOn, WeightIn, Weight, Pairs, PathsOf,
      FoundAt, FailsAt, Collecting;
    out, stack := out0, stack0;
    assert entries[0..] == entries;
    for i := 0 to |entries|
      invariant Collecting(filter, out, stack, FoundIn(filter, entries[i..], prefix), all)
      invariant (FailsOn(filter, stack) || FailsIn(filter, entries[i..], prefix))
           <==> FailsOn(filter, stack0) || FailsIn(filter, entries, prefix)
      invariant WeightOn(stack) + WeightIn(entries[i..]) <= WeightOn(stack0) + WeightIn(entries)
    {
      var entry := entries[i];
      ghost var rest := FoundIn(filter, entries[i + 1..], prefix);
      NextEntry(filter, entries, i, prefix);
      AtEntry(filter, entry, prefix);
      var relative := Extend(prefix, entry.name);
      if filter.Keeps(relative, entry) {
        ghost var below := if entry.isDir then FoundBelow(filter, entry.listing, relative) else {};
        Moved(filter, out, stack, FoundIn(filter, entries[i..], prefix), stack,
              {(relative, FactsOf(entry))} + below + rest, all);
        Recorded(filter, out, stack, (relative, FactsOf(entry)), below, rest, all);
        out := out[relative := FactsOf(entry)];
        if entry.isDir {
          Push(filter, stack, entry.listing, relative);
          Moved(filter, out, stack, below + rest, stack + [(entry.listing, relative)], rest, all);
          stack := stack + [(entry.listing, relative)];
        } else {
          assert {} + rest == rest;
        }
      } else {
        assert {} + rest == rest;
      }
    }
    NothingLeft(filter, entries, prefix);
  }

  lemma Recorded(filter: Filter, out: map<string, Facts>, stack: Pending, f: Finding, below: set<Finding>,
                 rest: set<Finding>, all: set<Finding>)
    requires Collecting(filter, out, stack, {f} + below + rest, all)
    ensures Collecting(filter, out[f.0 := f.1], stack, below + rest, all)
  {
    hide FoundOn, Pairs, PathsOf;
    var waiting := FoundOn(filter, stack);
    assert waiting + ({f} + below + rest) == {f} + (waiting + (below + rest));
    PathsOfBoth({f}, waiting + (below + rest));
    PathsOfOne(f);
    assert f in {f} + (waiting + (below + rest));
    assert (f.0, f.1) == f;
    Insert(out, f.0, f.1, all);
  }

  lemma NothingLeft(filter: Filter, entries: seq<Entry>, prefix: string)
    ensures FoundIn(filter, entries[|entries|..], prefix) == {} && !FailsIn(filter, entries[|entries|..], prefix)
    ensures WeightIn(entries[|entries|..]) == 0
  {
  }

  lemma AtEntry(filter: Filter, e: Entry, prefix: string)
    ensures var relative := Extend(prefix, e.name);
            if !filter.Keeps(relative, e) then FoundAt(filter, e, prefix) == {} && !FailsAt(filter, e, prefix)
            else if e.isDir then
              && FoundAt(filter, e, prefix) == {(relative, FactsOf(e))} + FoundBelow(filter, e.listing, relative)
              && FailsAt(filter, e, prefix) == FailsBelow(filter, e.listing, relative)
            else FoundAt(filter, e, prefix) == {(relative, FactsOf(e))} && !FailsAt(filter, e, prefix)
  {
  }

  // Paths

  predicate IsName(name: string) {
    name != "" && '/' !in name
  }

  /** Names are proper and differ among siblings, everywhere below. */
  ghost predicate WellNamed(entries: seq<Entry>) {
    && (forall i, j :: 0 <= i < j < |entries| ==> entries[i].name != entries[j].name)
    && (forall e :: e in entries ==>
          IsName(e.name) && (e.listing.Listed? ==> WellNamed(e.listing.entries)))
  }

  /** A way down from a listing to an entry, on which every step is kept: neither the entry nor
      any directory above it is excluded. */
  ghost predicate KeptTrail(filter: Filter, entries: seq<Entry>, prefix: string, trail: seq<Entry>) {
    && trail != [] && trail[0] in entries
    && filter.Keeps(Extend(prefix, trail[0].name), trail[0])
    && (|trail| > 1 ==>
          trail[0].isDir && trail[0].listing.Listed?
          && KeptTrail(filter, trail[0].listing.entries, Extend(prefix, trail[0].name), trail[1..]))
  }

  function PathOf(prefix: string, trail: seq<Entry>): string
    decreases |trail|
  {
    if trail == [] then prefix else PathOf(Extend(prefix, trail[0].name), trail[1..])
  }

  function Below(trail: seq<Entry>): string {
    if trail == [] then "" else "/" + trail[0].name + Below(trail[1..])
  }

  lemma {:induction false} PathIsPrefix(prefix: string, trail: seq<Entry>)
    requires prefix != ""
    ensures PathOf(prefix, trail) == prefix + Below(trail)
    decreases |trail|
  {
    if trail != [] {
      PathIsPrefix(Extend(prefix, trail[0].name), trail[1..]);
      assert prefix + "/" + trail[0].name + Below(trail[1..]) == prefix + ("/" + trail[0].name + Below(trail[1..]));
    }
  }

  lemma NotShorter(a: string, s: string, b: string, t: string)
    requires '/' !in b && a + s == b + t && (s != "" ==> s[0] == '/')
    ensures |a| >= |b|
  {
    assert forall i :: 0 <= i < |b| ==> (a + s)[i] == b[i];
    assert s != "" ==> (a + s)[|a|] == '/';
  }

  /** Two texts that agree up to their first slash agree in what is behind it. */
  lemma FirstNames(a: string, s: string, b: string, t: string)
    requires '/' !in a && '/' !in b && a + s == b + t
    requires (s != "" ==> s[0] == '/') && (t != "" ==> t[0] == '/')
    ensures a == b && s == t
  {
    NotShorter(a, s, b, t);
    NotShorter(b, t, a, s);
    assert a == (a + s)[..|a|] && b == (b + t)[..|b|];
    assert s == (a + s)[|a|..] && t == (b + t)[|b|..];
  }

  lemma SameName(entries: seq<Entry>, a: Entry, b: Entry)
    requires WellNamed(entries) && a in entries && b in entries && a.name == b.name
    ensures a == b
  {
  }

  lemma {:induction false} SameBelow(filter: Filter, entries: seq<Entry>, prefix: string, a: seq<Entry>, b: seq<Entry>)
    requires WellNamed(entries) && KeptTrail(filter, entries, prefix, a) && KeptTrail(filter, entries, prefix, b)
    requires Below(a) == Below(b)
    ensures a == b
    decreases |a|
  {
    hide WellNamed, Below, Filter.Keeps, Extend;
    BelowFirst(a);
    BelowFirst(b);
    StepDown(filter, entries, prefix, a);
    StepDown(filter, entries, prefix, b);
    FirstNames(a[0].name, Below(a[1..]), b[0].name, Below(b[1..]));
    SameName(entries, a[0], b[0]);
    if |a| > 1 {
      SameBelow(filter, a[0].listing.entries, Extend(prefix, a[0].name), a[1..], b[1..]);
    }
    SameSequence(a, b);
  }

  lemma BelowFirst(trail: seq<Entry>)
    requires trail != []
    ensures Below(trail) != "" && Below(trail)[1..] == trail[0].name + Below(trail[1..])
    ensures if |trail| == 1 then Below(trail[1..]) == ""
            else Below(trail[1..]) != "" && Below(trail[1..])[0] == '/'
  {
    SlashFirst(trail[0].name, Below(trail[1..]));
    if |trail| > 1 {
      SlashFirst(trail[1].name, Below(trail[1..][1..]));
    }
  }

  lemma SlashFirst(name: string, rest: string)
    ensures var s := "/" + name + rest; s[0] == '/' && s[1..] == name + rest
  {
  }

  lemma SameSequence(a: seq<Entry>, b: seq<Entry>)
    requires a != [] && b != [] && a[0] == b[0] && a[1..] == b[1..]
    ensures a == b
  {
    assert a == [a[0]] + a[1..] && b == [b[0]] + b[1..];
  }

  lemma StepDown(filter: Filter, entries: seq<Entry>, prefix: string, trail: seq<Entry>)
    requires WellNamed(entries) && KeptTrail(filter, entries, prefix, trail)
    ensures trail != [] && IsName(trail[0].name)
    ensures |trail| > 1 ==>
              && trail[0].listing.Listed? && WellNamed(trail[0].listing.entries)
              && KeptTrail(filter, trail[0].listing.entries, Extend(prefix, trail[0].name), trail[1..])
  {
  }

  /** Different entries have different relative paths. */
  lemma PathsAreInjective(filter: Filter, entries: seq<Entry>, a: seq<Entry>, b: seq<Entry>)
    requires WellNamed(entries) && KeptTrail(filter, entries, "", a) && KeptTrail(filter, entries, "", b)
    requires PathOf("", a) == PathOf("", b)
    ensures a == b
  {
    hide KeptTrail, WellNamed;
    StepDown(filter, entries, "", a);
    StepDown(filter, entries, "", b);
    FromRoot(a);
    FromRoot(b);
    SameBelow(filter, entries, "", a, b);
  }

  lemma FromRoot(trail: seq<Entry>)
    requires trail != [] && trail[0].name != ""
    ensures "/" + PathOf("", trail) == Below(trail)
  {
    PathIsPrefix(trail[0].name, trail[1..]);
    assert "/" + (trail[0].name + Below(trail[1..])) == "/" + trail[0].name + Below(trail[1..]);
  }

  ghost predicate LeadsTo(filter: Filter, entries: seq<Entry>, prefix: string, trail: seq<Entry>, f: Finding) {
    && KeptTrail(filter, entries, prefix, trail)
    && f == (PathOf(prefix, trail), FactsOf(trail[|trail| - 1]))
  }

  lemma {:induction false} TrailTo(filter: Filter, entries: seq<Entry>, prefix: string, f: Finding)
    returns (trail: seq<Entry>)
    requires f in FoundIn(filter, entries, prefix)
    ensures LeadsTo(filter, entries, prefix, trail, f)
    decreases entries
  {
    hide Filter.Keeps, Extend, FoundIn, FoundAt;
    OneOrOther(filter, entries, prefix, f);
    var e := entries[0];
    var relative := Extend(prefix, e.name);
    if f in FoundIn(filter, entries[1..], prefix) {
      trail := TrailTo(filter, entries[1..], prefix, f);
    } else {
      AtEntry(filter, e, prefix);
      if f == (relative, FactsOf(e)) {
        trail := [e];
        assert trail[1..] == [];
        assert PathOf(prefix, trail) == PathOf(relative, []) == relative;
      } else {
        assert e.isDir && f in FoundBelow(filter, e.listing, relative);
        var rest := TrailTo(filter, e.listing.entries, relative, f);
        trail := [e] + rest;
        assert trail[1..] == rest;
      }
    }
  }

  lemma OneOrOther(filter: Filter, entries: seq<Entry>, prefix: string, f: Finding)
    requires f in FoundIn(filter, entries, prefix)
    ensures entries != []
    ensures f in FoundAt(filter, entries[0], prefix) || f in FoundIn(filter, entries[1..], prefix)
  {
  }

  lemma {:induction false} InListing(filter: Filter, entries: seq<Entry>, prefix: string, e: Entry)
    requires e in entries
    ensures FoundAt(filter, e, prefix) <= FoundIn(filter, entries, prefix)
  {
    hide FoundAt;
    if entries[0] != e {
      InListing(filter, entries[1..], prefix, e);
    }
  }

  lemma {:induction false} TrailIsFound(filter: Filter, entries: seq<Entry>, prefix: string, trail: seq<Entry>)
    requires KeptTrail(filter, entries, prefix, trail)
    ensures (PathOf(prefix, trail), FactsOf(trail[|trail| - 1])) in FoundIn(filter, entries, prefix)
    decreases |trail|
  {
    hide Filter.Keeps, Extend, FoundIn, FoundAt;
    var e := trail[0];
    InListing(filter, entries, prefix, e);
    AtEntry(filter, e, prefix);
    if |trail| > 1 {
      TrailIsFound(filter, e.listing.entries, Extend(prefix, e.name), trail[1..]);
    } else {
      assert trail[1..] == [];
    }
  }

  /** What there is to find is what kept trails lead to. */
  lemma FoundByTrails(filter: Filter, entries: seq<Entry>, prefix: string, f: Finding)
    ensures f in FoundIn(filter, entries, prefix) <==>
              exists trail :: LeadsTo(filter, entries, prefix, trail, f)
  {
    hide KeptTrail, PathOf, FoundIn, FactsOf;
    if f in FoundIn(filter, entries, prefix) {
      var trail := TrailTo(filter, entries, prefix, f);
    }
    forall trail | LeadsTo(filter, entries, prefix, trail, f)
      ensures f in FoundIn(filter, entries, prefix)
    {
      TrailIsFound(filter, entries, prefix, trail);
    }
  }

  /** With proper names no path is found twice. */
  lemma FindingsAreFunctional(filter: Filter, entries: seq<Entry>)
    requires WellNamed(entries)
    ensures Functional(FoundIn(filter, entries, ""))
  {
    hide FoundIn, KeptTrail, PathOf, WellNamed;
    var all := FoundIn(filter, entries, "");
    forall a, b | a in all && b in all && a.0 == b.0 ensures a == b {
      FoundByTrails(filter, entries, "", a);
      FoundByTrails(filter, entries, "", b);
      var s :| LeadsTo(filter, entries, "", s, a);
      var t :| LeadsTo(filter, entries, "", t, b);
      PathsAreInjective(filter, entries, s, t);
    }
  }

  /** A way down through directories that can be listed, whatever is excluded. */
  ghost predicate IsTrail(entries: seq<Entry>, trail: seq<Entry>) {
    && trail != [] && trail[0] in entries
    && (|trail| > 1 ==> trail[0].isDir && trail[0].listing.Listed? && IsTrail(trail[0].listing.entries, trail[1..]))
  }

  /** No pattern excludes the i-th entry on the way, neither by its relative path nor by its name, and
      it is no broken link where those are skipped. */
  ghost predicate NotExcluded(filter: Filter, prefix: string, trail: seq<Entry>, i: nat)
    requires i < |trail|
  {
    && !filter.excludes(PathOf(prefix, trail[..i + 1]), trail[i].name)
    && !(filter.skipsBroken && trail[i].brokenLink)
  }

  lemma FurtherDown(filter: Filter, prefix: string, trail: seq<Entry>, i: nat)
    requires i + 1 < |trail|
    ensures NotExcluded(filter, prefix, trail, i + 1)
       <==> NotExcluded(filter, Extend(prefix, trail[0].name), trail[1..], i)
  {
    hide Extend;
    assert trail[..i + 2][1..] == trail[1..][..i + 1];
  }

  lemma FirstStep(filter: Filter, prefix: string, trail: seq<Entry>)
    requires trail != []
    ensures NotExcluded(filter, prefix, trail, 0) <==> filter.Keeps(Extend(prefix, trail[0].name), trail[0])
  {
    hide Extend;
    assert trail[..1][1..] == [];
    assert PathOf(prefix, trail[..1]) == PathOf(Extend(prefix, trail[0].name), []);
  }

  /** What is kept is what can be reached without meeting anything excluded: neither the entry nor any
      directory above it is. */
  lemma {:induction false} KeptMeansNotExcluded(filter: Filter, entries: seq<Entry>, prefix: string, trail: seq<Entry>)
    ensures KeptTrail(filter, entries, prefix, trail) <==>
            IsTrail(entries, trail) && forall i :: 0 <= i < |trail| ==> NotExcluded(filter, prefix, trail, i)
    decreases |trail|
  {
    hide Extend, NotExcluded, Filter.Keeps;
    if trail != [] {
      var e, rest := trail[0], trail[1..];
      var relative := Extend(prefix, e.name);
      FirstStep(filter, prefix, trail);
      forall i | 0 <= i < |rest|
        ensures NotExcluded(filter, prefix, trail, i + 1) <==> NotExcluded(filter, relative, rest, i)
      {
        FurtherDown(filter, prefix, trail, i);
      }
      if rest != [] && e.listing.Listed? {
        KeptMeansNotExcluded(filter, e.listing.entries, relative, rest);
        if forall i :: 0 <= i < |trail| ==> NotExcluded(filter, prefix, trail, i) {
          forall i | 0 <= i < |rest| ensures NotExcluded(filter, relative, rest, i) {
            assert NotExcluded(filter, prefix, trail, i + 1);
          }
        }
        if NotExcluded(filter, prefix, trail, 0)
           && forall i :: 0 <= i < |rest| ==> NotExcluded(filter, relative, rest, i)
        {
          forall i | 0 <= i < |trail| ensures NotExcluded(filter, prefix, trail, i) {
            if i > 0 {
              assert NotExcluded(filter, relative, rest, i - 1);
            }
          }
        }
      }
    }
  }

  /** Holds exactly what the filter keeps of a folder. */
  ghost predicate Holds(found: map<string, Facts>, filter: Filter, entries: seq<Entry>) {
    forall f :: f in Pairs(found) <==> exists trail :: LeadsTo(filter, entries, "", trail, f)
  }

  /** Holds exactly the paths of what the filter keeps, each with the facts of an entry there. With
      proper names there is only one such entry. */
  ghost predicate Covers(found: map<string, Facts>, filter: Filter, entries: seq<Entry>) {
    && (forall path :: path in found ==> exists trail :: LeadsTo(filter, entries, "", trail, (path, found[path])))
    && (forall trail :: KeptTrail(filter, entries, "", trail) ==> PathOf("", trail) in found)
    && (WellNamed(entries) ==> Holds(found, filter, entries))
  }

  /** The collection of a folder is exact: what it holds are the entries that are not excluded
      and have no excluded entry above them, each under its path and with its own facts. Should a
      server list names that are empty, have a slash or repeat, entries that end up with the same
      path share one place. */
  method CollectFolder(filter: Filter, entries: seq<Entry>) returns (r: Collected)
    ensures r.ListingFailed? <==> FailsIn(filter, entries, "")
    ensures r.Complete? ==> Covers(r.found, filter, entries)
  {
    hide FoundIn, WellNamed, FailsIn, Covers, Functional, Pairs, PathsOf;
    r := Collect(filter, Listed(entries));
    if r.Complete? {
      FoundIsCovered(filter, entries, r.found);
    }
  }

  lemma FoundIsCovered(filter: Filter, entries: seq<Entry>, found: map<string, Facts>)
    requires var all := FoundIn(filter, entries, "");
             found.Keys == PathsOf(all) && Pairs(found) <= all && (Pairs(found) == all <==> Functional(all))
    ensures Covers(found, filter, entries)
  {
    hide FoundIn, LeadsTo, WellNamed, Functional, KeptTrail;
    var all := FoundIn(filter, entries, "");
    forall path | path in found
      ensures exists trail :: LeadsTo(filter, entries, "", trail, (path, found[path]))
    {
      InPairs(found, (path, found[path]));
      FoundByTrails(filter, entries, "", (path, found[path]));
    }
    forall trail | KeptTrail(filter, entries, "", trail) ensures PathOf("", trail) in found {
      KeptTrailFinds(filter, entries, trail);
    }
    if WellNamed(entries) {
      FindingsAreFunctional(filter, entries);
      forall f ensures f in Pairs(found) <==> exists trail :: LeadsTo(filter, entries, "", trail, f) {
        FoundByTrails(filter, entries, "", f);
      }
    }
  }

  lemma KeptTrailFinds(filter: Filter, entries: seq<Entry>, trail: seq<Entry>)
    requires KeptTrail(filter, entries, "", trail)
    ensures PathOf("", trail) in PathsOf(FoundIn(filter, entries, ""))
  {
    hide FoundIn;
    TrailIsFound(filter, entries, "", trail);
    var f := (PathOf("", trail), FactsOf(trail[|trail| - 1]));
    assert f in FoundIn(filter, entries, "") && f.0 == PathOf("", trail);
  }

  // Verdicts

  datatype DiffKind = Equal | LocalNewer | RemoteNewer | LocalOnly | RemoteOnly | Different

  const MTIME_TOLERANCE_SECS := 2

  /** `classify`. */
  function Classify(local: Option<Facts>, remote: Option<Facts>): DiffKind {
    match (local, remote)
    case (Some(_), None) => LocalOnly
    case (None, Some(_)) => RemoteOnly
    case (None, None) => Equal
    case (Some(l), Some(r)) =>
      if l.isDir || r.isDir then (if l.isDir == r.isDir then Equal else Different)
      else if l.size != r.size then
        if l.mtime.None? || r.mtime.None? || l.mtime == r.mtime then Different
        else if l.mtime.value > r.mtime.value then LocalNewer
        else RemoteNewer
      else if l.mtime.None? || r.mtime.None? then Equal
      else if -MTIME_TOLERANCE_SECS <= l.mtime.value - r.mtime.value <= MTIME_TOLERANCE_SECS then Equal
      else if l.mtime.value > r.mtime.value then LocalNewer
      else RemoteNewer
  }

  /** The same verdict, seen from the other side. */
  function Mirror(kind: DiffKind): DiffKind {
    match kind
    case LocalNewer => RemoteNewer
    case RemoteNewer => LocalNewer
    case LocalOnly => RemoteOnly
    case RemoteOnly => LocalOnly
    case _ => kind
  }

  lemma ClassifyIsMirrored(local: Option<Facts>, remote: Option<Facts>)
    ensures Classify(remote, local) == Mirror(Classify(local, remote))
  {
  }

  // The diff

  datatype DiffEntry = DiffEntry(path: string, isDir: bool, kind: DiffKind,
                                 localSize: Option<nat>, remoteSize: Option<nat>,
                                 localMtime: Option<int>, remoteMtime: Option<int>,
                                 localPath: string, remotePath: string)

  /** What was collected on a side, and the path there of something that is not. */
  datatype Side = Side(found: map<string, Facts>, join: string -> string)
  {
    function Get(path: string): Option<Facts> {
      if path in found then Some(found[path]) else None
    }

    function Size(path: string): Option<nat> {
      if path in found then Some(found[path].size) else None
    }

    function Mtime(path: string): Option<int> {
      if path in found then found[path].mtime else None
    }

    function Absolute(path: string): string {
      if path in found then found[path].absolute else join(path)
    }
  }

  function IsDirOn(local: Side, remote: Side, path: string): bool {
    if path in local.found then local.found[path].isDir
    else path in remote.found && remote.found[path].isDir
  }

  function EntryFor(local: Side, remote: Side, path: string): DiffEntry {
    DiffEntry(path, IsDirOn(local, remote, path), Classify(local.Get(path), remote.Get(path)),
              local.Size(path), remote.Size(path), local.Mtime(path), remote.Mtime(path),
              local.Absolute(path), remote.Absolute(path))
  }

  /** The order of strings. */
  predicate AtMost(a: string, b: string) {
    a == "" || (b != "" && (a[0] < b[0] || (a[0] == b[0] && AtMost(a[1..], b[1..]))))
  }

  lemma {:induction false} AtMostIsTotal(a: string, b: string)
    ensures AtMost(a, b) || AtMost(b, a)
    ensures AtMost(a, b) && AtMost(b, a) ==> a == b
    ensures a == b ==> AtMost(a, b)
  {
    if a != "" && b != "" && a[0] == b[0] {
      AtMostIsTotal(a[1..], b[1..]);
      assert a == [a[0]] + a[1..] && b == [b[0]] + b[1..];
    }
  }

  lemma {:induction false} AtMostIsTransitive(a: string, b: string, c: string)
    requires AtMost(a, b) && AtMost(b, c)
    ensures AtMost(a, c)
  {
    if a != "" && a[0] == b[0] == c[0] {
      AtMostIsTransitive(a[1..], b[1..], c[1..]);
    }
  }

  /** A difference decides, at the first place where there is one. */
  ghost predicate DiffersUpwards(a: string, b: string, i: nat) {
    i < |a| && i < |b| && a[..i] == b[..i] && a[i] < b[i]
  }

  /** It is the order of a dictionary: by the first character that differs, and a beginning of a string
      comes before it. */
  lemma {:induction false} AtMostIsDictionaryOrder(a: string, b: string)
    ensures AtMost(a, b) <==> a <= b || exists i: nat :: DiffersUpwards(a, b, i)
  {
    if a != "" && b != "" {
      FirstDecides(a, b);
      if a[0] < b[0] {
        assert DiffersUpwards(a, b, 0);
      } else if a[0] == b[0] {
        AtMostIsDictionaryOrder(a[1..], b[1..]);
        assert a == [a[0]] + a[1..] && b == [b[0]] + b[1..];
        if i: nat :| DiffersUpwards(a[1..], b[1..], i) {
          assert a[..i + 1] == [a[0]] + a[1..][..i] && b[..i + 1] == [b[0]] + b[1..][..i];
          assert DiffersUpwards(a, b, i + 1);
        }
        if i: nat :| DiffersUpwards(a, b, i) {
          assert i > 0;
          assert a[1..][..i - 1] == a[..i][1..] && b[1..][..i - 1] == b[..i][1..];
          assert DiffersUpwards(a[1..], b[1..], i - 1);
        }
      }
    }
  }

  lemma FirstDecides(a: string, b: string)
    requires a != "" && b != ""
    ensures (exists i: nat :: DiffersUpwards(a, b, i)) ==> a[0] <= b[0]
  {
    if i: nat :| DiffersUpwards(a, b, i) && i > 0 {
      assert a[..i][0] == b[..i][0];
    }
  }

  predicate Sorted(keys: seq<string>) {
    forall i, j :: 0 <= i < j < |keys| ==> AtMost(keys[i], keys[j])
  }

  predicate Ascending(keys: seq<string>) {
    forall i, j :: 0 <= i < j < |keys| ==> AtMost(keys[i], keys[j]) && keys[i] != keys[j]
  }

  function SetOf(keys: seq<string>): set<string> {
    set k | k in keys
  }

  function Paths(diff: seq<DiffEntry>): seq<string> {
    seq(|diff|, i requires 0 <= i < |diff| => diff[i].path)
  }

  /** Every path of the two sides once, in order, with what the sides say about it. */
  ghost predicate IsDiff(local: Side, remote: Side, diff: seq<DiffEntry>) {
    && Ascending(Paths(diff)) && SetOf(Paths(diff)) == local.found.Keys + remote.found.Keys
    && forall i :: 0 <= i < |diff| ==> diff[i] == EntryFor(local, remote, diff[i].path)
  }

  function InsertKey(keys: seq<string>, key: string): (r: seq<string>)
    requires Sorted(keys)
    ensures Sorted(r) && SetOf(r) == SetOf(keys) + {key}
  {
    if keys == [] then [key]
    else if AtMost(key, keys[0]) then
      assert forall j :: 0 <= j < |keys| ==> AtMost(key, keys[j]) by {
        forall j | 0 < j < |keys| ensures AtMost(key, keys[j]) {
          AtMostIsTransitive(key, keys[0], keys[j]);
        }
      }
      [key] + keys
    else
      assert AtMost(keys[0], key) by {
        AtMostIsTotal(key, keys[0]);
      }
      var rest := InsertKey(keys[1..], key);
      assert forall k :: k in rest ==> AtMost(keys[0], k) by {
        forall k | k in rest ensures AtMost(keys[0], k) {
          assert k in SetOf(rest);
        }
      }
      InsertedBehind(keys, key, rest);
      [keys[0]] + rest
  }

  lemma InsertedBehind(keys: seq<string>, key: string, rest: seq<string>)
    requires keys != [] && SetOf(rest) == SetOf(keys[1..]) + {key}
    ensures SetOf([keys[0]] + rest) == SetOf(keys) + {key}
  {
    assert forall k :: k in [keys[0]] + rest <==> k == keys[0] || k in SetOf(rest);
    assert forall k :: k in keys <==> k == keys[0] || k in keys[1..];
  }

  /** The library sort. */
  function SortKeys(keys: seq<string>): (r: seq<string>)
    ensures Sorted(r) && SetOf(r) == SetOf(keys)
  {
    if keys == [] then [] else InsertKey(SortKeys(keys[1..]), keys[0])
  }

  /** The library's removal of repeated neighbours. */
  method Dedup(keys: seq<string>) returns (r: seq<string>)
    requires Sorted(keys)
    ensures Ascending(r) && SetOf(r) == SetOf(keys)
  {
    r := [];
    for i := 0 to |keys|
      invariant Ascending(r) && SetOf(r) == SetOf(keys[..i])
      invariant r == [] <==> i == 0
      invariant i > 0 ==> r[|r| - 1] == keys[i - 1]
    {
      assert SetOf(keys[..i + 1]) == SetOf(keys[..i]) + {keys[i]};
      if r == [] || r[|r| - 1] != keys[i] {
        Appended(r, keys[i]);
        r := r + [keys[i]];
      }
    }
    assert keys[..|keys|] == keys;
  }

  lemma Appended(r: seq<string>, key: string)
    requires Ascending(r) && (r != [] ==> AtMost(r[|r| - 1], key) && r[|r| - 1] != key)
    ensures Ascending(r + [key]) && SetOf(r + [key]) == SetOf(r) + {key}
  {
    forall i | 0 <= i < |r| ensures AtMost(r[i], key) && r[i] != key {
      if i < |r| - 1 {
        AtMostIsTransitive(r[i], r[|r| - 1], key);
        AtMostIsTotal(r[i], r[|r| - 1]);
      }
    }
  }

  method KeysOf(m: map<string, Facts>) returns (keys: seq<string>)
    ensures SetOf(keys) == m.Keys
  {
    keys := [];
    var rest := m.Keys;
    while rest != {}
      invariant SetOf(keys) + rest == m.Keys
      decreases rest
    {
      var k :| k in rest;
      assert SetOf(keys + [k]) == SetOf(keys) + {k};
      keys := keys + [k];
      rest := rest - {k};
    }
  }

  /** The part of `compare` behind the two collections. */
  method Diff(local: Side, remote: Side) returns (diff: seq<DiffEntry>)
    ensures IsDiff(local, remote, diff)
  {
    hide EntryFor, Ascending, Sorted;
    var ours := KeysOf(local.found);
    var theirs := KeysOf(remote.found);
    var keys := SortKeys(ours + theirs);
    SetOfBoth(ours, theirs);
    keys := Dedup(keys);
    diff := [];
    for i := 0 to |keys|
      invariant |diff| == i && forall j :: 0 <= j < i ==> diff[j] == EntryFor(local, remote, keys[j])
    {
      diff := diff + [EntryFor(local, remote, keys[i])];
    }
    PathsOfEntries(local, remote, keys, diff);
  }

  lemma PathsOfEntries(local: Side, remote: Side, keys: seq<string>, diff: seq<DiffEntry>)
    requires |diff| == |keys| && forall j :: 0 <= j < |keys| ==> diff[j] == EntryFor(local, remote, keys[j])
    ensures Paths(diff) == keys
  {
  }

  lemma SetOfBoth(a: seq<string>, b: seq<string>)
    ensures SetOf(a + b) == SetOf(a) + SetOf(b)
  {
  }

  lemma BothEmpty(a: seq<string>, b: seq<string>)
    requires SetOf(a) == SetOf(b)
    ensures a == [] ==> b == []
  {
    if b != [] {
      assert b[0] in SetOf(b);
    }
  }

  lemma {:induction false} AscendingIsUnique(a: seq<string>, b: seq<string>)
    requires Ascending(a) && Ascending(b) && SetOf(a) == SetOf(b)
    ensures a == b
  {
    BothEmpty(a, b);
    BothEmpty(b, a);
    if a != [] {
      assert a[0] in SetOf(a) && b[0] in SetOf(b);
      AtMostIsTotal(a[0], b[0]);
      assert SetOf(a[1..]) == SetOf(a) - {a[0]};
      assert SetOf(b[1..]) == SetOf(b) - {b[0]};
      AscendingIsUnique(a[1..], b[1..]);
      assert a == [a[0]] + a[1..] && b == [b[0]] + b[1..];
    }
  }

  /** Comparing the other way round gives the same paths in the same order, every verdict
      mirrored and everything else swapped. Only `isDir` can differ, where one side has a
      directory and the other has none of that path: it follows the side called local. */
  lemma SwappingMirrors(local: Side, remote: Side, diff: seq<DiffEntry>, swapped: seq<DiffEntry>)
    requires IsDiff(local, remote, diff) && IsDiff(remote, local, swapped)
    ensures |diff| == |swapped|
    ensures forall i :: 0 <= i < |diff| ==>
              var d, s := diff[i], swapped[i];
              && s.path == d.path && s.kind == Mirror(d.kind)
              && s.localSize == d.remoteSize && s.remoteSize == d.localSize
              && s.localMtime == d.remoteMtime && s.remoteMtime == d.localMtime
              && s.localPath == d.remotePath && s.remotePath == d.localPath
    ensures forall i :: 0 <= i < |diff| ==>
              var path := diff[i].path;
              (swapped[i].isDir == diff[i].isDir <==>
               !(path in local.found && path in remote.found
                 && local.found[path].isDir != remote.found[path].isDir))
  {
    hide Ascending, SetOf, Classify;
    AscendingIsUnique(Paths(diff), Paths(swapped));
    forall i | 0 <= i < |diff| ensures swapped[i].path == diff[i].path {
      assert Paths(diff)[i] == Paths(swapped)[i];
    }
    forall i | 0 <= i < |diff| ensures swapped[i].kind == Mirror(diff[i].kind) {
      ClassifyIsMirrored(local.Get(diff[i].path), remote.Get(diff[i].path));
    }
  }

  // What the entries of a diff say, on the facts of both sides

  /** What an entry shows of a side is what the side holds there. */
  lemma EntryShowsFacts(local: Side, remote: Side, diff: seq<DiffEntry>, i: nat)
    requires IsDiff(local, remote, diff) && i < |diff|
    ensures var d := diff[i];
            && (d.path in local.found || d.path in remote.found)
            && (if d.path in local.found
                then var f := local.found[d.path];
                     d.localSize == Some(f.size) && d.localMtime == f.mtime && d.localPath == f.absolute
                     && d.isDir == f.isDir
                else d.localSize == None && d.localMtime == None && d.localPath == local.join(d.path)
                     && d.isDir == remote.found[d.path].isDir)
            && (if d.path in remote.found
                then var f := remote.found[d.path];
                     d.remoteSize == Some(f.size) && d.remoteMtime == f.mtime && d.remotePath == f.absolute
                else d.remoteSize == None && d.remoteMtime == None && d.remotePath == remote.join(d.path))
  {
    assert diff[i].path in SetOf(Paths(diff)) by {
      assert Paths(diff)[i] == diff[i].path;
    }
  }

  /** A side is called newer only if both times are known and its own is the later one. */
  lemma NewerIsLater(local: Side, remote: Side, diff: seq<DiffEntry>, i: nat)
    requires IsDiff(local, remote, diff) && i < |diff|
    ensures var d := diff[i];
            && (d.kind == LocalNewer ==>
                  d.localMtime.Some? && d.remoteMtime.Some? && d.localMtime.value > d.remoteMtime.value)
            && (d.kind == RemoteNewer ==>
                  d.localMtime.Some? && d.remoteMtime.Some? && d.remoteMtime.value > d.localMtime.value)
  {
    EntryShowsFacts(local, remote, diff, i);
  }

  /** A path is on one side alone if and only if the verdict says so. */
  lemma OnlyMeansAlone(local: Side, remote: Side, diff: seq<DiffEntry>, i: nat)
    requires IsDiff(local, remote, diff) && i < |diff|
    ensures var d := diff[i];
            && (d.kind == LocalOnly <==> d.path in local.found && d.path !in remote.found)
            && (d.kind == RemoteOnly <==> d.path in remote.found && d.path !in local.found)
  {
    EntryShowsFacts(local, remote, diff, i);
  }

  /** Of two files: they count as equal if and only if the sizes agree and the times are unknown or at
      most two seconds apart, and as different if and only if the sizes differ and no time is the
      later one. Otherwise the later one is newer. */
  lemma FilesAreTold(local: Side, remote: Side, diff: seq<DiffEntry>, i: nat)
    requires IsDiff(local, remote, diff) && i < |diff|
    requires diff[i].path in local.found && diff[i].path in remote.found
    requires !local.found[diff[i].path].isDir && !remote.found[diff[i].path].isDir
    ensures var d, l, r := diff[i], local.found[diff[i].path], remote.found[diff[i].path];
            var known := l.mtime.Some? && r.mtime.Some?;
            && (d.kind == Equal <==>
                  l.size == r.size && (!known || -2 <= l.mtime.value - r.mtime.value <= 2))
            && (d.kind == Different <==> l.size != r.size && (!known || l.mtime.value == r.mtime.value))
            && (d.kind == LocalNewer <==>
                  known && l.mtime.value > r.mtime.value
                  && (l.size != r.size || l.mtime.value - r.mtime.value > 2))
            && (d.kind == RemoteNewer <==>
                  known && r.mtime.value > l.mtime.value
                  && (l.size != r.size || r.mtime.value - l.mtime.value > 2))
  {
    EntryShowsFacts(local, remote, diff, i);
  }

  /** Two directories are equal; a directory and a file are different. Sizes and times do not matter. */
  lemma DirectoriesAreTold(local: Side, remote: Side, diff: seq<DiffEntry>, i: nat)
    requires IsDiff(local, remote, diff) && i < |diff|
    requires diff[i].path in local.found && diff[i].path in remote.found
    requires local.found[diff[i].path].isDir || remote.found[diff[i].path].isDir
    ensures diff[i].kind ==
            if local.found[diff[i].path].isDir && remote.found[diff[i].path].isDir then Equal else Different
  {
    EntryShowsFacts(local, remote, diff, i);
  }

  /** `compare`: fails if and only if a directory that it has to list cannot be listed, and else
      compares what both sides hold. */
  method Compare(excludes: (string, string) -> bool, localRoot: seq<Entry>, remoteRoot: seq<Entry>,
                 localJoin: string -> string, remoteJoin: string -> string)
    returns (r: Option<seq<DiffEntry>>)
    ensures var ours, theirs := Filter(excludes, false), Filter(excludes, true);
            r.None? <==> FailsIn(ours, localRoot, "") || FailsIn(theirs, remoteRoot, "")
    ensures var ours, theirs := Filter(excludes, false), Filter(excludes, true);
            r.Some? ==>
              exists local: Side, remote: Side ::
                && Covers(local.found, ours, localRoot) && Covers(remote.found, theirs, remoteRoot)
                && local.join == localJoin && remote.join == remoteJoin && IsDiff(local, remote, r.value)
  {
    hide FailsIn, Covers, IsDiff;
    var local := CollectFolder(Filter(excludes, false), localRoot);
    if local.ListingFailed? {
      return None;
    }
    var remote := CollectFolder(Filter(excludes, true), remoteRoot);
    if remote.ListingFailed? {
      return None;
    }
    var ours, theirs := Side(local.found, localJoin), Side(remote.found, remoteJoin);
    var diff := Diff(ours, theirs);
    assert Covers(ours.found, Filter(excludes, false), localRoot);
    assert Covers(theirs.found, Filter(excludes, true), remoteRoot);
    r := Some(diff);
  }
}
