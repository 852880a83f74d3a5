/** The lines of an `ls`-style directory listing: parse_unix_line and its helpers in
    src-tauri/src/protocol/ftp/parser.rs, against a printer of such lines. */
module FtpListing {
  import opened Wrappers
  import Conflict
  import FtpReplies

  datatype EntryKind = File | Dir | Symlink | Other

  /** The twelve mode bits. */
  type Mode = bv12

  datatype Entry = Entry(name: string, kind: EntryKind, size: nat, mode: Option<Mode>,
                         owner: Option<string>, group: Option<string>, target: Option<string>)

  // Tokens

  /** The white space of Unicode. */
  predicate IsSpace(c: char) {
    || '\t' <= c <= '\r' || c == ' ' || c == '\U{85}' || c == '\U{A0}' || c == '\U{1680}'
    || '\U{2000}' <= c <= '\U{200A}' || c == '\U{2028}' || c == '\U{2029}' || c == '\U{202F}'
    || c == '\U{205F}' || c == '\U{3000}'
  }

  /** How far the token at the start of the line goes. */
  function TokenLength(s: string): (n: nat)
    ensures n <= |s|
    ensures s != "" && !IsSpace(s[0]) ==> n > 0
    ensures forall i :: 0 <= i < n ==> !IsSpace(s[i])
    ensures n < |s| ==> IsSpace(s[n])
  {
    if s == "" || IsSpace(s[0]) then 0 else 1 + TokenLength(s[1..])
  }

  function Tokens(s: string): seq<string>
    decreases |s|
  {
    if s == "" then []
    else if IsSpace(s[0]) then Tokens(s[1..])
    else [s[..TokenLength(s)]] + Tokens(s[TokenLength(s)..])
  }

  /** What follows token number `index`, if it is not the end of the line. */
  function AfterToken(s: string, index: nat): Option<string>
    decreases |s|
  {
    if s == "" then None
    else if IsSpace(s[0]) then AfterToken(s[1..], index)
    else InsideToken(s, index)
  }

  /** The same, from a position inside a token. */
  function InsideToken(s: string, index: nat): Option<string>
    decreases |s|, if s != "" && !IsSpace(s[0]) then 0 else 1
  {
    var n := TokenLength(s);
    if n == |s| then None
    else if index == 0 then Some(s[n..])
    else AfterToken(s[n + 1..], index - 1)
  }

  function WithoutSpace(s: string): string {
    if s != "" && s[0] == ' ' then s[1..] else s
  }

  function Remainder(line: string, index: nat): Option<string> {
    match AfterToken(line, index)
    case None => None
    case Some(rest) => Some(WithoutSpace(rest))
  }

  /** `remainder_after_token`. */
  method RemainderAfterToken(line: string, index: nat) returns (r: Option<string>)
    ensures r == Remainder(line, index)
  {
    var seen, inToken := 0, false;
    for i := 0 to |line|
      invariant seen <= index
      invariant AfterToken(line, index) ==
                if inToken then InsideToken(line[i..], index - seen) else AfterToken(line[i..], index - seen)
    {
      var here := line[i..];
      assert here[0] == line[i] && here[1..] == line[i + 1..];
      if IsSpace(line[i]) && inToken {
        if seen == index {
          return Some(WithoutSpace(here));
        }
        seen := seen + 1;
        inToken := false;
      } else if !IsSpace(line[i]) {
        StepInside(here, index - seen);
        inToken := true;
      }
    }
    assert line[|line|..] == "";
    r := None;
  }

  lemma StepInside(s: string, index: nat)
    requires s != "" && !IsSpace(s[0])
    ensures InsideToken(s, index) == InsideToken(s[1..], index)
  {
    var n := TokenLength(s);
    assert n == 1 + TokenLength(s[1..]);
    assert s[n..] == s[1..][n - 1..];
    if n < |s| {
      assert s[n + 1..] == s[1..][n..];
    }
  }

  /** A token in front of white space is the first one. */
  lemma {:induction false} TokenLengthOf(token: string, rest: string)
    requires forall i :: 0 <= i < |token| ==> !IsSpace(token[i])
    requires rest == "" || IsSpace(rest[0])
    ensures TokenLength(token + rest) == |token|
  {
    if token == "" {
      assert token + rest == rest;
    } else {
      TokenLengthOf(token[1..], rest);
      assert (token + rest)[1..] == token[1..] + rest;
    }
  }

  lemma OnlyToken(s: string)
    requires s != "" && forall i :: 0 <= i < |s| ==> !IsSpace(s[i])
    ensures TokenLength(s) == |s| && Tokens(s) == [s]
  {
    TokenLengthOf(s, "");
    assert s + "" == s && s[|s|..] == "" && s[..|s|] == s;
  }

  /** A line that ends inside a token has a token. */
  lemma {:induction false} LastOfSpaces(s: string)
    ensures s != "" && !IsSpace(s[|s| - 1]) ==> Tokens(s) != []
  {
    hide IsSpace, TokenLength;
    if s != "" && IsSpace(s[0]) {
      LastOfSpaces(s[1..]);
    }
  }

  // Numbers and words

  predicate IsDigits(s: string) {
    s != "" && forall i :: 0 <= i < |s| ==> FtpReplies.IsDigit(s[i])
  }

  function NumberOf(s: string): nat
    requires forall i :: 0 <= i < |s| ==> FtpReplies.IsDigit(s[i])
  {
    if s == "" then 0 else NumberOf(s[..|s| - 1]) * 10 + FtpReplies.Value(s[|s| - 1])
  }

  const U32 := 0x1_0000_0000
  const U64 := 0x1_0000_0000_0000_0000

  /** Reads an unsigned number below a bound; a plus sign is allowed. */
  function Unsigned(s: string, bound: nat): Option<nat> {
    var digits := if s != "" && s[0] == '+' then s[1..] else s;
    if IsDigits(digits) && NumberOf(digits) < bound then Some(NumberOf(digits)) else None
  }

  function Lower(c: char): char {
    if 'A' <= c <= 'Z' then ((c as int) + 32) as char else c
  }

  function LowerAll(s: string): string {
    seq(|s|, i requires 0 <= i < |s| => Lower(s[i]))
  }

  const MONTHS: set<string> :=
    {"jan", "feb", "mar", "apr", "may", "jun", "jul", "aug", "sep", "oct", "nov", "dec"}

  predicate IsMonth(s: string) {
    LowerAll(s) in MONTHS
  }

  /** The octets of a string in UTF-8. */
  function Octets(s: string): nat {
    if s == "" then 0 else Octets(s[1..]) + OctetsOf(s[0])
  }

  function OctetsOf(c: char): nat {
    if c < '\U{80}' then 1 else if c < '\U{800}' then 2 else if c < '\U{10000}' then 3 else 4
  }

  predicate IsTimeOrYear(s: string) {
    ':' in s || Octets(s) == 4
  }

  // Lines

  predicate IsMonthAt(tokens: seq<string>, i: nat)
    requires i + 2 < |tokens|
  {
    IsMonth(tokens[i]) && Unsigned(tokens[i + 1], U32).Some? && IsTimeOrYear(tokens[i + 2])
  }

  /** The first token from `i` on that looks like the month of a date. */
  function MonthIndex(tokens: seq<string>, i: nat): (r: Option<nat>)
    ensures r.Some? ==> i <= r.value && r.value + 2 < |tokens|
    decreases |tokens| - i
  {
    if i + 2 >= |tokens| then None
    else if IsMonthAt(tokens, i) then Some(i)
    else MonthIndex(tokens, i + 1)
  }

  predicate ArrowAt(s: string, i: nat) {
    i + 4 <= |s| && s[i] == ' ' && s[i + 1] == '-' && s[i + 2] == '>' && s[i + 3] == ' '
  }

  /** Cuts at the first arrow. */
  function SplitArrow(s: string): Option<(string, string)> {
    if s == "" then None
    else if ArrowAt(s, 0) then Some(("", s[4..]))
    else match SplitArrow(s[1..])
         case None => None
         case Some((name, target)) => Some(([s[0]] + name, target))
  }

  const BITS: seq<Mode> := [0x100, 0x80, 0x40, 0x20, 0x10, 0x8, 0x4, 0x2, 0x1]
  const SET_USER: Mode := 0x800
  const SET_GROUP: Mode := 0x400
  const STICKY: Mode := 0x200

  predicate Grants(c: char) {
    c != '-' && c != 'S' && c != 'T'
  }

  function AddIf(mode: Mode, on: bool, bit: Mode): Mode {
    if on then mode | bit else mode
  }

  /** The rights that the first `k` letters after the type grant. */
  function Rights(text: string, k: nat): Mode
    requires k <= 9 && |text| >= 10
  {
    if k == 0 then 0 else AddIf(Rights(text, k - 1), Grants(text[k]), BITS[k - 1])
  }

  predicate Marks(c: char, lower: char, upper: char) {
    c == lower || c == upper
  }

  function Permissions(text: string): Option<Mode> {
    if |text| < 10 then None
    else
      var user := AddIf(Rights(text, 9), Marks(text[3], 's', 'S'), SET_USER);
      var group := AddIf(user, Marks(text[6], 's', 'S'), SET_GROUP);
      Some(AddIf(group, Marks(text[9], 't', 'T'), STICKY))
  }

  /** `parse_permission_string`. */
  method ParsePermissions(text: string) returns (r: Option<Mode>)
    ensures r == Permissions(text)
  {
    hide AddIf;
    if |text| < 10 {
      return None;
    }
    var mode: Mode := 0;
    for offset := 0 to |BITS|
      invariant mode == Rights(text, offset)
    {
      mode := AddIf(mode, Grants(text[offset + 1]), BITS[offset]);
    }
    mode := AddIf(mode, Marks(text[3], 's', 'S'), SET_USER);
    mode := AddIf(mode, Marks(text[6], 's', 'S'), SET_GROUP);
    mode := AddIf(mode, Marks(text[9], 't', 'T'), STICKY);
    r := Some(mode);
  }

  function KindOf(letter: char): EntryKind {
    if letter == 'd' then Dir else if letter == 'l' then Symlink else if letter == '-' then File else Other
  }

  predicate IsName(name: string) {
    name != "" && name != "." && name != ".."
  }

  /** The entry of a line whose date starts at token `month`. */
  function EntryAt(line: string, tokens: seq<string>, month: nat): Option<Entry>
    requires line != "" && 3 <= month < |tokens|
  {
    match Remainder(line, month + 2)
    case None => None
    case Some(part) =>
      var (name, target) :=
        match SplitArrow(part)
        case Some((name, target)) => if line[0] == 'l' then (name, Some(target)) else (part, None)
        case None => (part, None);
      if !IsName(name) then None
      else
        var size := Unsigned(tokens[month - 1], U64);
        Some(Entry(name, KindOf(line[0]), if size.Some? then size.value else 0, Permissions(tokens[0]),
                   if month >= 5 then Some(tokens[month - 3]) else if month == 4 then Some(tokens[2]) else None,
                   if month >= 5 then Some(tokens[month - 2]) else None,
                   target))
  }

  /** `parse_unix_line`. */
  function UnixLine(line: string): Option<Entry> {
    if line == "" || line[0] !in "-dlcbps" then None
    else
      var tokens := Tokens(line);
      if |tokens| < 7 then None
      else
        match MonthIndex(tokens, 3)
        case None => None
        case Some(month) => EntryAt(line, tokens, month)
  }

  /** `parse_list_line`, for listings in this form. */
  function ListLine(line: string): Option<Entry> {
    var text := FtpReplies.TrimEnd(line);
    if text == "" || (|text| >= 6 && text[..6] == "total ") then None else UnixLine(text)
  }

  // The printer

  /** Everything a printed line shows. `mark` is what some systems put behind the permissions; some
      print no group, or neither owner nor group; the columns are set off by the given gaps. */
  datatype Printed = Printed(letter: char, mode: Mode, mark: string, links: string, owner: Option<string>,
                             group: Option<string>, size: nat, month: string, day: nat, time: string,
                             gaps: seq<string>, name: string, target: Option<string>)

  function ExecLetter(exec: bool, special: bool, both: char, alone: char): char {
    if special then (if exec then both else alone) else if exec then 'x' else '-'
  }

  function Letter(on: bool, c: char): char {
    if on then c else '-'
  }

  predicate Has(mode: Mode, bit: Mode) {
    mode & bit != 0
  }

  function ModeLetters(mode: Mode): string {
    [Letter(Has(mode, 0x100), 'r'), Letter(Has(mode, 0x80), 'w'),
     ExecLetter(Has(mode, 0x40), Has(mode, SET_USER), 's', 'S'),
     Letter(Has(mode, 0x20), 'r'), Letter(Has(mode, 0x10), 'w'),
     ExecLetter(Has(mode, 0x8), Has(mode, SET_GROUP), 's', 'S'),
     Letter(Has(mode, 0x4), 'r'), Letter(Has(mode, 0x2), 'w'),
     ExecLetter(Has(mode, 0x1), Has(mode, STICKY), 't', 'T')]
  }

  /** Columns, each with the gap behind it, and what comes after them. */
  function Row(columns: seq<string>, gaps: seq<string>, tail: string): string
    requires |columns| == |gaps|
  {
    if columns == [] then tail else columns[0] + (gaps[0] + Row(columns[1..], gaps[1..], tail))
  }

  function ColumnsOf(p: Printed): seq<string> {
    [[p.letter] + ModeLetters(p.mode) + p.mark, p.links] + OwnerColumns(p)
    + [Conflict.Decimal(p.size), p.month, Conflict.Decimal(p.day), p.time]
  }

  function OwnerColumns(p: Printed): seq<string> {
    if p.owner.None? then [] else if p.group.None? then [p.owner.value] else [p.owner.value, p.group.value]
  }

  function NamePart(p: Printed): string {
    match p.target
    case None => p.name
    case Some(target) => p.name + " -> " + target
  }

  function PrintedLine(p: Printed): string
    requires |p.gaps| == |ColumnsOf(p)|
  {
    Row(ColumnsOf(p), p.gaps, NamePart(p))
  }

  predicate IsWord(s: string) {
    s != "" && forall i :: 0 <= i < |s| ==> !IsSpace(s[i])
  }

  predicate IsGap(s: string) {
    s != "" && forall i :: 0 <= i < |s| ==> IsSpace(s[i])
  }

  predicate Printable(p: Printed) {
    && p.letter in "-dlcbps"
    && (p.mark != "" ==> IsWord(p.mark)) && IsWord(p.links)
    && (p.owner.Some? ==> IsWord(p.owner.value)) && (p.group.Some? ==> p.owner.Some? && IsWord(p.group.value))
    && p.size < U64 && IsMonth(p.month) && p.day < U32 && IsWord(p.time) && IsTimeOrYear(p.time)
    && |p.gaps| == |ColumnsOf(p)| && (forall i :: 0 <= i < |p.gaps| ==> IsGap(p.gaps[i]))
    && p.gaps[|p.gaps| - 1] == " " && (p.target.Some? ==> p.letter == 'l')
  }

  ghost predicate HasArrow(s: string) {
    exists i: nat :: ArrowAt(s, i)
  }

  /** The arrow between the name and the target of a link is the first one on the line. */
  ghost predicate ArrowIsPlain(p: Printed) {
    p.letter == 'l' ==> !HasArrow(if p.target.Some? then p.name + " " else p.name)
  }

  /** What the parser should make of the line. */
  function Meaning(p: Printed): Entry {
    Entry(p.name, KindOf(p.letter), p.size, Some(p.mode), p.owner, p.group, p.target)
  }

  /** The letters that `ls` puts in front tell directories, links, files and everything else apart;
      a line that starts with another one is none of these lines. */
  lemma LettersTellKinds(line: string)
    ensures KindOf('d') == Dir && KindOf('l') == Symlink && KindOf('-') == File
    ensures forall c :: c in "cbps" ==> KindOf(c) == Other
    ensures line != "" && line[0] !in "-dlcbps" ==> UnixLine(line) == None
  {
  }

  /** A parsed entry always has a proper name: those that stand for the directory itself and its
      parent are left out. */
  lemma EntriesHaveNames(line: string)
    ensures UnixLine(line).Some? ==> UnixLine(line).value.name !in {"", ".", ".."}
  {
  }

  /** There are at least seven tokens, which the parser asks for. They can be missing only if there is
      neither owner nor group and the name is all white space. */
  predicate EnoughTokens(p: Printed) {
    p.owner.None? ==> Tokens(NamePart(p)) != []
  }

  /** The line of the sum is no entry, whatever it says. */
  lemma TotalIsNoEntry(rest: string)
    ensures ListLine("total " + rest) == None
  {
    hide UnixLine;
    TrimKeepsFront("total ", rest);
  }

  lemma {:induction false} TrimKeepsFront(front: string, rest: string)
    requires front != "" && front[|front| - 1] != '\r' && front[|front| - 1] != '\n'
    ensures |FtpReplies.TrimEnd(front + rest)| >= |front| && FtpReplies.TrimEnd(front + rest)[..|front|] == front
  {
    var whole := front + rest;
    if rest == "" {
      assert whole == front;
    } else {
      TrimKeepsFront(front, rest[..|rest| - 1]);
      assert whole[..|whole| - 1] == front + rest[..|rest| - 1];
    }
  }

  // All twelve mode bits

  lemma ModeRoundTrip(letter: char, mode: Mode, mark: string)
    ensures Permissions([letter] + ModeLetters(mode) + mark) == Some(mode)
  {
    hide Rights, ModeLetters, AddIf, Marks, Has, IsBitOf, Mask, Keep;
    NineBits();
    var text, letters := [letter] + ModeLetters(mode) + mark, ModeLetters(mode);
    NineLetters(mode);
    assert forall k :: 1 <= k <= 9 ==> text[k] == letters[k - 1];
    RightsShown(mode, text, 9);
    LettersMark(mode);
    SingleBits(mode);
    AddBit(mode, 0x1FF, SET_USER);
    AddBit(mode, 0x9FF, SET_GROUP);
    AddBit(mode, 0xDFF, STICKY);
    AllBits(mode);
  }

  lemma AllBits(mode: Mode)
    ensures Keep(mode, AddIf(0xDFF, true, STICKY)) == mode
    ensures AddIf(0x1FF, true, SET_USER) == 0x9FF && AddIf(0x9FF, true, SET_GROUP) == 0xDFF
  {
  }

  lemma NineLetters(mode: Mode)
    ensures |ModeLetters(mode)| == 9
  {
  }

  function Keep(mode: Mode, mask: Mode): Mode {
    mode & mask
  }

  function Mask(k: nat): Mode
    requires k <= 9
  {
    if k == 0 then 0 else AddIf(Mask(k - 1), true, BITS[k - 1])
  }

  lemma {:induction false} RightsShown(mode: Mode, text: string, k: nat)
    requires |text| >= 10 && k <= 9
    requires |ModeLetters(mode)| == 9 && forall i :: 1 <= i <= 9 ==> text[i] == ModeLetters(mode)[i - 1]
    ensures Rights(text, k) == Keep(mode, Mask(k))
  {
    hide ModeLetters, AddIf, Has, IsBitOf, Keep;
    if k == 0 {
      NoBits(mode);
    } else {
      var bit := BITS[k - 1];
      RightsShown(mode, text, k - 1);
      LetterGrants(mode, k - 1);
      SingleBits(mode);
      AddBit(mode, Mask(k - 1), bit);
    }
  }

  lemma NoBits(mode: Mode)
    ensures Keep(mode, 0) == 0
  {
  }

  lemma NineBits()
    ensures Mask(9) == 0x1FF
  {
    assert Mask(3) == 0x1C0;
    assert Mask(6) == 0x1F8;
  }

  lemma LetterGrants(mode: Mode, k: nat)
    requires k < 9
    ensures |ModeLetters(mode)| == 9 && (Grants(ModeLetters(mode)[k]) <==> Has(mode, BITS[k]))
  {
    hide Has;
  }

  lemma LettersMark(mode: Mode)
    ensures var letters := ModeLetters(mode);
            && |letters| == 9
            && (Marks(letters[2], 's', 'S') <==> Has(mode, SET_USER))
            && (Marks(letters[5], 's', 'S') <==> Has(mode, SET_GROUP))
            && (Marks(letters[8], 't', 'T') <==> Has(mode, STICKY))
  {
    hide Has;
  }

  predicate IsBitOf(mode: Mode, bit: Mode) {
    mode & bit == 0 || mode & bit == bit
  }

  lemma SingleBits(mode: Mode)
    ensures forall k :: 0 <= k < 9 ==> IsBitOf(mode, BITS[k])
    ensures IsBitOf(mode, SET_USER) && IsBitOf(mode, SET_GROUP) && IsBitOf(mode, STICKY)
  {
  }

  lemma AddBit(mode: Mode, mask: Mode, bit: Mode)
    requires IsBitOf(mode, bit)
    ensures AddIf(Keep(mode, mask), Has(mode, bit), bit) == Keep(mode, AddIf(mask, true, bit))
  {
    hide IsBitOf, Has, Keep, AddIf;
    AddsNothing(Keep(mode, mask), bit);
    if Has(mode, bit) {
      AddsOn(mode, mask, bit);
    } else {
      AddsOff(mode, mask, bit);
    }
  }

  lemma AddsNothing(mode: Mode, bit: Mode)
    ensures AddIf(mode, false, bit) == mode
  {
  }

  lemma AddsOn(mode: Mode, mask: Mode, bit: Mode)
    requires IsBitOf(mode, bit) && Has(mode, bit)
    ensures AddIf(Keep(mode, mask), true, bit) == Keep(mode, AddIf(mask, true, bit))
  {
  }

  lemma AddsOff(mode: Mode, mask: Mode, bit: Mode)
    requires !Has(mode, bit)
    ensures Keep(mode, mask) == Keep(mode, AddIf(mask, true, bit))
  {
  }

  // Numbers

  lemma {:induction false} DecimalReads(n: nat)
    ensures IsDigits(Conflict.Decimal(n)) && NumberOf(Conflict.Decimal(n)) == n
  {
    if n >= 10 {
      DecimalReads(n / 10);
      var front, s := Conflict.Decimal(n / 10), Conflict.Decimal(n);
      assert s[..|s| - 1] == front;
    }
  }

  lemma UnsignedDecimal(n: nat, bound: nat)
    requires n < bound
    ensures Unsigned(Conflict.Decimal(n), bound) == Some(n)
  {
    DecimalReads(n);
  }

  lemma DigitsAreWord(s: string)
    requires IsDigits(s)
    ensures IsWord(s) && !IsMonth(s)
  {
    assert LowerAll(s)[0] == s[0];
  }

  lemma {:induction false} AsciiOctets(s: string)
    requires forall i :: 0 <= i < |s| ==> s[i] < '\U{80}'
    ensures Octets(s) == |s|
  {
    if s != "" {
      AsciiOctets(s[1..]);
    }
  }

  lemma MonthIsWord(s: string)
    requires IsMonth(s)
    ensures IsWord(s) && !IsTimeOrYear(s)
  {
    var t := LowerAll(s);
    assert |t| == 3 && forall i :: 0 <= i < 3 ==> 'a' <= t[i] <= 'z';
    assert forall i :: 0 <= i < 3 ==> t[i] == Lower(s[i]);
    AsciiOctets(s);
  }

  // Columns

  predicate AreWords(columns: seq<string>) {
    forall i :: 0 <= i < |columns| ==> IsWord(columns[i])
  }

  predicate AreGaps(gaps: seq<string>) {
    forall i :: 0 <= i < |gaps| ==> IsGap(gaps[i])
  }

  lemma {:induction false} BehindGap(gap: string, s: string, index: nat)
    requires forall i :: 0 <= i < |gap| ==> IsSpace(gap[i])
    ensures Tokens(gap + s) == Tokens(s)
    ensures AfterToken(gap + s, index) == AfterToken(s, index)
  {
    hide IsSpace;
    if gap == "" {
      assert gap + s == s;
    } else {
      BehindGap(gap[1..], s, index);
      assert (gap + s)[1..] == gap[1..] + s;
    }
  }

  lemma FirstColumn(word: string, gap: string, s: string)
    requires IsWord(word) && IsGap(gap)
    ensures Tokens(word + (gap + s)) == [word] + Tokens(s)
    ensures AfterToken(word + (gap + s), 0) == Some(gap + s)
    ensures forall index: nat :: index > 0 ==>
              AfterToken(word + (gap + s), index) == AfterToken(s, index - 1)
  {
    hide IsSpace;
    var line := word + (gap + s);
    TokenLengthOf(word, gap + s);
    var n := |word|;
    assert line[0] == word[0];
    assert line[..n] == word && line[n..] == gap + s;
    BehindGap(gap, s, 0);
    forall index: nat | index > 0
      ensures AfterToken(line, index) == AfterToken(s, index - 1)
    {
      assert line[n + 1..] == gap[1..] + s;
      BehindGap(gap[1..], s, index - 1);
    }
  }

  lemma FirstAndRest(columns: seq<string>)
    requires columns != []
    ensures [columns[0]] + columns[1..] == columns
  {
  }

  /** A printed row has its columns as tokens, and what follows the last gap is found again. */
  lemma {:induction false} RowTokens(columns: seq<string>, gaps: seq<string>, tail: string)
    requires |columns| == |gaps| && AreWords(columns) && AreGaps(gaps)
    ensures Tokens(Row(columns, gaps, tail)) == columns + Tokens(tail)
    ensures columns != [] ==>
              AfterToken(Row(columns, gaps, tail), |columns| - 1) == Some(gaps[|gaps| - 1] + tail)
  {
    hide IsWord, IsGap, Tokens, AfterToken;
    if columns != [] {
      var rest := Row(columns[1..], gaps[1..], tail);
      RowTokens(columns[1..], gaps[1..], tail);
      FirstColumn(columns[0], gaps[0], rest);
      Regroup(columns[0], columns[1..], Tokens(tail), columns[1..] + Tokens(tail));
      FirstAndRest(columns);
    }
  }

  // Cutting agrees with the tokens

  /** The line is cut behind token number `index`: in front are the first `index + 1` tokens,
      the last of them complete, and behind are the others. */
  ghost predicate CutBehind(s: string, index: nat, head: string, rest: string) {
    && s == head + rest
    && rest != "" && IsSpace(rest[0]) && head != "" && !IsSpace(head[|head| - 1])
    && Tokens(head) + Tokens(rest) == Tokens(s)
    && |Tokens(head)| == index + 1
  }

  lemma CutBehindSpace(c: char, s: string, index: nat, head: string, rest: string)
    requires IsSpace(c) && CutBehind(s, index, head, rest)
    ensures CutBehind([c] + s, index, [c] + head, rest)
  {
    hide IsSpace, Tokens;
    BehindGap([c], s, index);
    BehindGap([c], head, index);
    assert [c] + head + rest == [c] + s;
  }

  lemma CutBehindColumn(word: string, c: char, s: string, index: nat, head: string, rest: string)
    requires IsWord(word) && IsSpace(c) && CutBehind(s, index, head, rest)
    ensures CutBehind(word + ([c] + s), index + 1, word + ([c] + head), rest)
  {
    hide IsSpace, IsWord, Tokens;
    FirstColumn(word, [c], s);
    FirstColumn(word, [c], head);
    Regroup(word, Tokens(head), Tokens(rest), Tokens(s));
    Behind(word, [c], head, rest);
  }

  lemma Behind(word: string, gap: string, head: string, rest: string)
    requires head != ""
    ensures word + (gap + head) + rest == word + (gap + (head + rest))
    ensures var all := word + (gap + head); all != "" && all[|all| - 1] == head[|head| - 1]
  {
  }

  lemma CutBehindWord(word: string, c: char, s: string)
    requires IsWord(word) && IsSpace(c)
    ensures CutBehind(word + ([c] + s), 0, word, [c] + s)
  {
    hide IsSpace, Tokens;
    FirstColumn(word, [c], s);
    BehindGap([c], s, 0);
    OnlyToken(word);
  }

  /** A line in which a token ends before the line does. */
  lemma FirstTokenOf(s: string) returns (word: string, c: char, rest: string)
    requires s != "" && !IsSpace(s[0]) && TokenLength(s) < |s|
    ensures IsWord(word) && IsSpace(c) && s == word + ([c] + rest)
  {
    hide IsSpace;
    var n := TokenLength(s);
    word, c, rest := s[..n], s[n], s[n + 1..];
  }

  /** Nothing is found behind a token that does not exist or that ends the line. */
  lemma {:induction false} NothingBehind(s: string, index: nat)
    ensures AfterToken(s, index).None? <==>
              index >= |Tokens(s)| || (index == |Tokens(s)| - 1 && !IsSpace(s[|s| - 1]))
    decreases |s|
  {
    hide IsSpace, TokenLength;
    if s == "" {
    } else if IsSpace(s[0]) {
      NothingBehind(s[1..], index);
    } else if TokenLength(s) == |s| {
      OnlyToken(s);
    } else {
      var word, c, rest := FirstTokenOf(s);
      FirstColumn(word, [c], rest);
      if index > 0 {
        NothingBehind(rest, index - 1);
      } else {
        LastOfSpaces(rest);
      }
    }
  }

  /** Anything else that is found is the end of the line, cut off behind the token. */
  lemma {:induction false} CutsBehindToken(s: string, index: nat)
    requires AfterToken(s, index).Some?
    ensures exists head :: CutBehind(s, index, head, AfterToken(s, index).value)
    decreases |s|
  {
    hide IsSpace, TokenLength, CutBehind, Tokens;
    var end := AfterToken(s, index).value;
    if IsSpace(s[0]) {
      CutsBehindToken(s[1..], index);
      var head :| CutBehind(s[1..], index, head, end);
      CutBehindSpace(s[0], s[1..], index, head, end);
      assert [s[0]] + s[1..] == s;
    } else {
      var word, c, rest := FirstTokenOf(s);
      FirstColumn(word, [c], rest);
      if index == 0 {
        CutBehindWord(word, c, rest);
      } else {
        CutsBehindToken(rest, index - 1);
        var head :| CutBehind(rest, index - 1, head, end);
        CutBehindColumn(word, c, rest, index - 1, head, end);
      }
    }
  }

  lemma Regroup(token: string, a: seq<string>, b: seq<string>, all: seq<string>)
    requires a + b == all
    ensures [token] + a + b == [token] + all
  {
    assert [token] + a + b == [token] + (a + b);
  }

  // Links

  lemma {:induction false} SplitsAtFirst(s: string, at: nat)
    requires ArrowAt(s, at) && forall i: nat :: i < at ==> !ArrowAt(s, i)
    ensures SplitArrow(s) == Some((s[..at], s[at + 4..]))
  {
    if at > 0 {
      assert !ArrowAt(s, 0);
      forall i: nat | i < at - 1 ensures !ArrowAt(s[1..], i) {
        assert !ArrowAt(s, i + 1);
      }
      SplitsAtFirst(s[1..], at - 1);
      assert [s[0]] + s[1..][..at - 1] == s[..at];
    }
  }

  lemma {:induction false} NoArrowNoSplit(s: string)
    requires !HasArrow(s)
    ensures SplitArrow(s) == None
  {
    if s != "" {
      assert !ArrowAt(s, 0);
      forall i: nat ensures !ArrowAt(s[1..], i) {
        assert !ArrowAt(s, i + 1);
      }
      NoArrowNoSplit(s[1..]);
    }
  }

  lemma {:induction false} FirstArrow(s: string, i: nat) returns (first: nat)
    requires ArrowAt(s, i)
    ensures first <= i && ArrowAt(s, first) && forall j: nat :: j < first ==> !ArrowAt(s, j)
  {
    first := i;
    if j: nat :| j < i && ArrowAt(s, j) {
      first := FirstArrow(s, j);
    }
  }

  /** The name and the target of a link are told apart if and only if the name, with the space
      behind it, has no arrow of its own. A name that ends in " ->" has one. */
  lemma LinkSplit(name: string, target: string)
    ensures SplitArrow(name + " -> " + target) == Some((name, target)) <==> !HasArrow(name + " ")
    ensures var split := SplitArrow(name + " -> " + target);
            HasArrow(name + " ") ==> split.Some? && |split.value.0| < |name|
  {
    hide SplitArrow;
    var s, n, spaced := name + " -> " + target, |name|, name + " ";
    assert forall i :: 0 <= i <= n ==> s[i] == spaced[i];
    assert s[n + 1] == '-' && s[n + 2] == '>' && s[n + 3] == ' ';
    assert s[..n] == name && s[n + 4..] == target;
    if HasArrow(spaced) {
      var i: nat :| ArrowAt(spaced, i);
      var first := FirstArrow(s, i);
      SplitsAtFirst(s, first);
    } else {
      forall i: nat | i < n ensures !ArrowAt(s, i) {
        assert !ArrowAt(spaced, i);
      }
      SplitsAtFirst(s, n);
    }
  }

  // The whole line

  /** The month is found in its own column, even if the owner or the group is named like one. */
  lemma FindsTheMonth(p: Printed, more: seq<string>)
    requires Printable(p)
    ensures MonthIndex(ColumnsOf(p) + more, 3) == Some(3 + |OwnerColumns(p)|)
    ensures AreWords(ColumnsOf(p))
  {
    hide Tokens, IsSpace, ModeLetters, LowerAll, Octets, Unsigned, NumberOf, Conflict.Decimal;
    var tokens, n := ColumnsOf(p) + more, |OwnerColumns(p)|;
    assert forall i :: 0 <= i < 6 + n ==> tokens[i] == ColumnsOf(p)[i];
    DecimalReads(p.size);
    DecimalReads(p.day);
    DigitsAreWord(Conflict.Decimal(p.size));
    DigitsAreWord(Conflict.Decimal(p.day));
    UnsignedDecimal(p.day, U32);
    MonthIsWord(p.month);
    ModeIsWord(p.letter, p.mode, p.mark);
    assert IsMonthAt(tokens, 3 + n);
    assert MonthIndex(tokens, 3 + n) == Some(3 + n);
    if n >= 1 {
      assert !IsMonthAt(tokens, 2 + n);
      assert MonthIndex(tokens, 2 + n) == Some(3 + n);
    }
    if n == 2 {
      assert !IsMonthAt(tokens, 3);
    }
  }

  lemma ModeIsWord(letter: char, mode: Mode, mark: string)
    requires letter in "-dlcbps" && (mark != "" ==> IsWord(mark))
    ensures IsWord([letter] + ModeLetters(mode) + mark)
  {
    hide Has;
    var letters := ModeLetters(mode);
    assert forall i :: 0 <= i < 9 ==> letters[i] in "-rwxsStT";
    assert forall c :: c in "-rwxsStTdlcbp" ==> !IsSpace(c);
  }

  lemma NameIsRead(p: Printed)
    requires Printable(p)
    ensures var split := SplitArrow(NamePart(p));
            var read := if split.Some? && p.letter == 'l' then (split.value.0, Some(split.value.1))
                        else (NamePart(p), None);
            read == (p.name, p.target) <==> ArrowIsPlain(p)
  {
    hide SplitArrow, IsSpace;
    match p.target
    case Some(target) => LinkSplit(p.name, target);
    case None =>
      if HasArrow(p.name) {
        var i: nat :| ArrowAt(p.name, i);
        var first := FirstArrow(p.name, i);
        SplitsAtFirst(p.name, first);
      } else {
        NoArrowNoSplit(p.name);
      }
  }

  /** Parsing a printed line recovers everything on it, inner spaces of the name and all twelve
      mode bits included, if and only if the arrow of a link is the first one, the name is a proper
      one and there are enough tokens. */
  lemma LineRoundTrip(p: Printed)
    requires Printable(p)
    ensures UnixLine(PrintedLine(p)) == Some(Meaning(p)) <==>
            ArrowIsPlain(p) && p.name !in {"", ".", ".."} && EnoughTokens(p)
  {
    hide Tokens, AfterToken, IsSpace, ModeLetters, Octets, Unsigned, NumberOf, Conflict.Decimal, LowerAll,
      SplitArrow, MonthIndex, ArrowIsPlain, Permissions, NamePart;
    var line, columns, part := PrintedLine(p), ColumnsOf(p), NamePart(p);
    FindsTheMonth(p, Tokens(part));
    RowTokens(columns, p.gaps, part);
    UnsignedDecimal(p.size, U64);
    ModeRoundTrip(p.letter, p.mode, p.mark);
    NameIsRead(p);
    StartsWithLetter(p);
    assert WithoutSpace(" " + part) == part;
  }

  lemma {:induction false} RowEnds(columns: seq<string>, gaps: seq<string>, tail: string)
    requires |columns| == |gaps| && tail != ""
    ensures var line := Row(columns, gaps, tail);
            line != "" && line[|line| - 1] == tail[|tail| - 1]
  {
    if columns != [] {
      RowEnds(columns[1..], gaps[1..], tail);
    }
  }

  lemma TrimsTheEnd(line: string, end: string)
    requires line != "" && line[|line| - 1] != '\r' && line[|line| - 1] != '\n'
    requires end == "" || end == "\n" || end == "\r\n"
    ensures FtpReplies.TrimEnd(line + end) == line
  {
    var whole := line + end;
    if end == "" {
      assert whole == line;
    } else if end == "\n" {
      assert whole[..|whole| - 1] == line;
    } else {
      var shorter := whole[..|whole| - 1];
      assert shorter == line + "\r" && shorter[..|shorter| - 1] == line;
      assert FtpReplies.TrimEnd(whole) == FtpReplies.TrimEnd(shorter) == FtpReplies.TrimEnd(line) == line;
    }
  }

  /** The whole listing line, with its end, when what it shows does not end in one. */
  lemma ListLineRoundTrip(p: Printed, end: string)
    requires Printable(p) && ArrowIsPlain(p) && p.name !in {"", ".", ".."} && EnoughTokens(p)
    requires var part := NamePart(p); part == "" || part[|part| - 1] !in "\r\n"
    requires end == "" || end == "\n" || end == "\r\n"
    ensures ListLine(PrintedLine(p) + end) == Some(Meaning(p))
  {
    hide UnixLine, ArrowIsPlain, Row, IsSpace, ModeLetters, Conflict.Decimal, FtpReplies.TrimEnd;
    var line := PrintedLine(p);
    LineRoundTrip(p);
    RowEnds(ColumnsOf(p), p.gaps, NamePart(p));
    TrimsTheEnd(line, end);
    StartsWithLetter(p);
  }

  lemma StartsWithLetter(p: Printed)
    requires |p.gaps| == |ColumnsOf(p)|
    ensures var line := PrintedLine(p); line != "" && line[0] == p.letter
  {
  }

  // Examples

  lemma MonthsAreKnown()
    ensures forall m :: m in {"Jan", "Feb", "Mar", "Apr", "May", "Jun", "Jul", "Aug", "Sep", "Oct", "Nov", "Dec"} ==>
              IsMonth(m)
    ensures IsTimeOrYear("12:34") && IsTimeOrYear("2021")
  {
    forall m | m in {"Jan", "Feb", "Mar", "Apr", "May", "Jun", "Jul", "Aug", "Sep", "Oct", "Nov", "Dec"}
      ensures IsMonth(m)
    {
      assert LowerAll(m) == [Lower(m[0]), Lower(m[1]), Lower(m[2])];
    }
    AsciiOctets("2021");
    assert "12:34"[2] == ':';
  }

  /** What servers print can be printed: -rw-r--r-- 1 pedro users 1234 Jan 15 12:34 my file.txt */
  lemma OrdinaryIsPrintable()
    ensures Printable(Printed('-', 0x1A4, "", "1", Some("pedro"), Some("users"), 1234, "Jan", 15, "12:34",
                              [" ", " ", " ", " ", " ", " ", " ", " "], "my file.txt", None))
    ensures ModeLetters(0x1A4) == "rw-r--r--" && IsSpace(' ') && IsSpace('\t')
  {
    hide LowerAll, Octets;
    MonthsAreKnown();
    assert IsWord("1") && IsWord("pedro") && IsWord("users") && IsWord("12:34") && IsGap(" ");
  }
}
