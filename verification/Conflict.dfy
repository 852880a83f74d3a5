/** Conflict resolution of src-tauri/src/transfer/conflict.rs: what to do when the target of a
    transfer exists already, and how a fresh name is made. */
module Conflict {
  import opened Wrappers

  datatype ConflictPolicy = Ask | Overwrite | Skip | Rename | Resume | OverwriteIfNewer

  datatype FileFacts = FileFacts(size: nat, mtime: Option<int>)

  datatype Resolution = Write(offset: nat, rename: bool) | LeaveAlone

  function Resolve(policy: ConflictPolicy, source: FileFacts, existing: FileFacts): Resolution {
    match policy
    case Ask => Write(0, false)
    case Overwrite => Write(0, false)
    case Skip => LeaveAlone
    case Rename => Write(0, true)
    case Resume =>
      if existing.size < source.size then Write(existing.size, false)
      else if existing.size == source.size then LeaveAlone
      else Write(0, false)
    case OverwriteIfNewer =>
      if source.mtime.Some? && (existing.mtime.Some? ==> source.mtime.value > existing.mtime.value)
      then Write(0, false)
      else LeaveAlone
  }

  /** A non-zero offset is only ever chosen by `Resume`, inside the source, at the end of what
      exists, and never together with a new name. */
  lemma OffsetsComeFromResume(policy: ConflictPolicy, source: FileFacts, existing: FileFacts)
    ensures var r := Resolve(policy, source, existing);
            r.Write? && r.offset > 0 <==> policy == Resume && 0 < existing.size < source.size
    ensures var r := Resolve(policy, source, existing);
            r.Write? && r.offset > 0 ==> r.offset == existing.size && !r.rename
  {
  }

  /** What each policy decides, in full: which leave the target alone, and which take a new name. All
      others write to the target from the beginning, but for the offset above. */
  lemma PoliciesDecide(policy: ConflictPolicy, source: FileFacts, existing: FileFacts)
    ensures var r := Resolve(policy, source, existing);
            && (r.LeaveAlone? <==>
                  || policy == Skip
                  || (policy == Resume && existing.size == source.size)
                  || (policy == OverwriteIfNewer
                      && (source.mtime == None
                          || (existing.mtime.Some? && source.mtime.value <= existing.mtime.value))))
            && (r.Write? && r.rename <==> policy == Rename)
  {
  }

  /** Once the target is what the source is, the policies that skip, resume or compare leave it
      alone, and exactly these do. */
  lemma SettledIsLeftAlone(policy: ConflictPolicy, source: FileFacts)
    ensures Resolve(policy, source, source).LeaveAlone? <==> policy in {Skip, Resume, OverwriteIfNewer}
  {
  }

  /** Of two files that carry different times the newer one overwrites the other, and never the
      other way round; with equal times neither does. */
  lemma NewerWins(a: FileFacts, b: FileFacts)
    requires a.mtime.Some? && b.mtime.Some?
    ensures Resolve(OverwriteIfNewer, a, b).Write? && Resolve(OverwriteIfNewer, b, a).Write? <==> false
    ensures a.mtime != b.mtime ==>
              (Resolve(OverwriteIfNewer, a, b).Write? <==> Resolve(OverwriteIfNewer, b, a).LeaveAlone?)
    ensures Resolve(OverwriteIfNewer, a, b).Write? ==> a.mtime.value > b.mtime.value
  {
  }

  /** The decimal digits of a number. */
  function Decimal(n: nat): string {
    if n < 10 then [Digit(n)] else Decimal(n / 10) + [Digit(n % 10)]
  }

  function Digit(d: nat): char
    requires d < 10
  {
    ('0' as int + d) as char
  }

  /** The position of the last dot, if there is one. */
  function LastDot(name: string): (at: Option<nat>)
    ensures at.Some? ==> at.value < |name| && name[at.value] == '.' && '.' !in name[at.value + 1..]
    ensures at.None? ==> '.' !in name
  {
    if name == [] then None
    else if name[|name| - 1] == '.' then Some(|name| - 1)
    else LastDot(name[..|name| - 1])
  }

  /** The name without its extension, and the extension with its dot. */
  function SplitName(name: string): (string, string) {
    match LastDot(name)
    case Some(at) => if at > 0 then (name[..at], name[at..]) else (name, "")
    case None => (name, "")
  }

  function Numbered(name: string, n: nat): string {
    var (stem, ext) := SplitName(name);
    stem + " (" + Decimal(n) + ")" + ext
  }

  /** Stem and extension make up the name. The extension starts at the last dot; a name that has none,
      or only at its beginning, has no extension. */
  lemma NameIsSplit(name: string)
    ensures var (stem, ext) := SplitName(name);
            && stem + ext == name
            && (ext == "" || (ext[0] == '.' && '.' !in ext[1..] && stem != ""))
            && (ext == "" ==> '.' !in name || (name[0] == '.' && '.' !in name[1..]))
  {
  }

  lemma {:induction false} DecimalIsInjective(m: nat, n: nat)
    requires Decimal(m) == Decimal(n)
    ensures m == n
  {
    var a, b := Decimal(m), Decimal(n);
    LastDigit(m);
    LastDigit(n);
    LongIffTens(m);
    LongIffTens(n);
    assert a[|a| - 1] == b[|b| - 1];
    if m >= 10 {
      assert a[..|a| - 1] == Decimal(m / 10) && b[..|b| - 1] == Decimal(n / 10);
      DecimalIsInjective(m / 10, n / 10);
    }
  }

  lemma LongIffTens(n: nat)
    ensures |Decimal(n)| > 1 <==> n >= 10
  {
    if n >= 10 {
      NotEmpty(n / 10);
    }
  }

  lemma NotEmpty(n: nat)
    ensures Decimal(n) != ""
  {
  }

  lemma LastDigit(n: nat)
    ensures var s := Decimal(n); s != "" && s[|s| - 1] == ('0' as int + n % 10) as char
  {
  }

  /** The names that are tried are all different, and differ from the name itself. */
  lemma NumberedAreDifferent(name: string, m: nat, n: nat)
    requires m != n
    ensures Numbered(name, m) != Numbered(name, n) && Numbered(name, n) != name
  {
    var (stem, ext) := SplitName(name);
    NameIsSplit(name);
    var a, b := Numbered(name, m), Numbered(name, n);
    assert |name| == |stem| + |ext| && |b| == |stem| + 2 + |Decimal(n)| + 1 + |ext|;
    if a == b {
      assert |Decimal(m)| == |Decimal(n)|;
      assert Decimal(m) == a[|stem| + 2..|stem| + 2 + |Decimal(m)|];
      assert Decimal(n) == b[|stem| + 2..|stem| + 2 + |Decimal(n)|];
      DecimalIsInjective(m, n);
    }
  }

  const LIMIT := 10000

  /** The first numbered name that is not taken; when the numbers run out, one with a random
      tag instead of a number. */
  method UniqueName(name: string, taken: set<string>, tag: string) returns (chosen: string)
    ensures (exists n :: 1 <= n < LIMIT && Numbered(name, n) !in taken) ==> chosen !in taken
    ensures forall n :: 1 <= n < LIMIT && Numbered(name, n) !in taken ==>
              exists m :: 1 <= m <= n && chosen == Numbered(name, m)
    ensures (forall n :: 1 <= n < LIMIT ==> Numbered(name, n) in taken) ==>
              chosen == SplitName(name).0 + " (" + tag + ")" + SplitName(name).1
  {
    var n := 1;
    while n < LIMIT
      invariant 1 <= n <= LIMIT
      invariant forall k :: 1 <= k < n ==> Numbered(name, k) in taken
    {
      if Numbered(name, n) !in taken {
        return Numbered(name, n);
      }
      n := n + 1;
    }
    var (stem, ext) := SplitName(name);
    chosen := stem + " (" + tag + ")" + ext;
  }
}
