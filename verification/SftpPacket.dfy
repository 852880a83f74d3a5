/** The wire format of src-tauri/src/protocol/sftp/packet.rs (sections 3 and 5 of
    draft-ietf-secsh-filexfer-02) and the framing done by the read loop of client.rs. */
module SftpPacket {
  import opened Wrappers

  type Octet = n: nat | n < 256

  type Buffer = seq<Octet>

  const U32_RANGE := 0x1_0000_0000
  const U64_RANGE := 0x1_0000_0000_0000_0000
  const MAX_PACKET_SIZE := 525312  // 512 * 1024 + 1024

  datatype PacketError = Truncated

  // Writing

  function PutU32(v: nat): (b: Buffer)
    ensures |b| == 4
  {
    [v / 0x100_0000 % 256, v / 0x1_0000 % 256, v / 0x100 % 256, v % 256]
  }

  function PutU64(v: nat): Buffer {
    PutU32(v / U32_RANGE) + PutU32(v % U32_RANGE)
  }

  /** A length, cut to 32 bits, and the bytes. */
  function PutBytes(bytes: Buffer): Buffer {
    PutU32(|bytes| % U32_RANGE) + bytes
  }

  // Reading: the value and the rest of the buffer

  /** The 32-bit number at the head of a buffer, most significant octet first. */
  function Word(buf: Buffer): nat
    requires |buf| >= 4
  {
    0x100_0000 * (buf[0] as int) + 0x1_0000 * (buf[1] as int) + 0x100 * (buf[2] as int) + buf[3] as int
  }

  function GetU32(buf: Buffer): Result<(nat, Buffer), PacketError> {
    if |buf| < 4 then Failure(Truncated) else Success((Word(buf), buf[4..]))
  }

  function GetU64(buf: Buffer): Result<(nat, Buffer), PacketError> {
    if |buf| < 8 then Failure(Truncated) else Success((Word(buf) * U32_RANGE + Word(buf[4..]), buf[8..]))
  }

  function GetBytes(buf: Buffer): Result<(Buffer, Buffer), PacketError> {
    var (n, rest) :- GetU32(buf);
    if |rest| < n then Failure(Truncated) else Success((rest[..n], rest[n..]))
  }

  lemma DigitsOf(v: nat)
    requires v < U32_RANGE
    ensures v / 0x100_0000 % 256 == v / 0x100_0000
    ensures v == 0x100_0000 * (v / 0x100_0000) + 0x1_0000 * (v / 0x1_0000 % 256) + 0x100 * (v / 0x100 % 256) + v % 256
  {
    assert v / 0x1_0000 == 256 * (v / 0x100_0000) + v / 0x1_0000 % 256;
    assert v / 0x100 == 256 * (v / 0x1_0000) + v / 0x100 % 256;
  }

  lemma WordRoundTrip(v: nat, rest: Buffer)
    requires v < U32_RANGE
    ensures Word(PutU32(v) + rest) == v
  {
    DigitsOf(v);
  }

  lemma U32RoundTrip(v: nat, rest: Buffer)
    requires v < U32_RANGE
    ensures GetU32(PutU32(v) + rest) == Success((v, rest))
  {
    hide PutU32, Word;
    WordRoundTrip(v, rest);
    assert (PutU32(v) + rest)[4..] == rest;
  }

  lemma U64RoundTrip(v: nat, rest: Buffer)
    requires v < U64_RANGE
    ensures GetU64(PutU64(v) + rest) == Success((v, rest))
  {
    hide PutU32, Word;
    var low := PutU32(v % U32_RANGE) + rest;
    assert PutU64(v) + rest == PutU32(v / U32_RANGE) + low;
    WordRoundTrip(v / U32_RANGE, low);
    WordRoundTrip(v % U32_RANGE, rest);
    assert (PutU32(v / U32_RANGE) + low)[4..] == low;
    assert (PutU32(v / U32_RANGE) + low)[8..] == rest;
  }

  lemma BytesRoundTrip(bytes: Buffer, rest: Buffer)
    requires |bytes| < U32_RANGE
    ensures GetBytes(PutBytes(bytes) + rest) == Success((bytes, rest))
  {
    hide PutU32, GetU32;
    assert PutBytes(bytes) + rest == PutU32(|bytes|) + (bytes + rest);
    U32RoundTrip(|bytes|, bytes + rest);
  }

  // File attributes

  datatype Attrs = Attrs(
    size: Option<nat>,
    uid: Option<nat>,
    gid: Option<nat>,
    permissions: Option<nat>,
    atime: Option<nat>,
    mtime: Option<nat>)

  const NO_ATTRS := Attrs(None, None, None, None, None, None)

  predicate Fits(v: Option<nat>, bound: nat) {
    v.Some? ==> v.value < bound
  }

  /** The values have the width of their fields. */
  predicate InRange(a: Attrs) {
    && Fits(a.size, U64_RANGE) && Fits(a.uid, U32_RANGE) && Fits(a.gid, U32_RANGE)
    && Fits(a.permissions, U32_RANGE) && Fits(a.atime, U32_RANGE) && Fits(a.mtime, U32_RANGE)
  }

  function Flag(present: bool, bit: nat): nat {
    if present then bit else 0
  }

  /** Bit k of the flags word. */
  predicate Has(flags: nat, bit: nat)
    requires bit > 0
  {
    flags / bit % 2 == 1
  }

  const ATTR_SIZE := 1
  const ATTR_UIDGID := 2
  const ATTR_PERMISSIONS := 4
  const ATTR_ACMODTIME := 8
  const ATTR_EXTENDED := 0x8000_0000

  function FlagsOf(a: Attrs): nat {
    Flag(a.size.Some?, ATTR_SIZE)
    + Flag(a.uid.Some? && a.gid.Some?, ATTR_UIDGID)
    + Flag(a.permissions.Some?, ATTR_PERMISSIONS)
    + Flag(a.atime.Some? && a.mtime.Some?, ATTR_ACMODTIME)
  }

  function PutPair(first: Option<nat>, second: Option<nat>): Buffer {
    if first.Some? && second.Some? then PutU32(first.value) + PutU32(second.value) else []
  }

  function EncodeAttrs(a: Attrs): Buffer {
    PutU32(FlagsOf(a))
    + ((if a.size.Some? then PutU64(a.size.value) else [])
       + (PutPair(a.uid, a.gid)
          + ((if a.permissions.Some? then PutU32(a.permissions.value) else [])
             + PutPair(a.atime, a.mtime))))
  }

  function GetOptional(present: bool, buf: Buffer): Result<(Option<nat>, Buffer), PacketError> {
    if !present then Success((None, buf))
    else
      var (v, rest) :- GetU32(buf);
      Success((Some(v), rest))
  }

  function GetPair(present: bool, buf: Buffer): Result<(Option<nat>, Option<nat>, Buffer), PacketError> {
    var (first, rest) :- GetOptional(present, buf);
    var (second, rest') :- GetOptional(present, rest);
    Success((first, second, rest'))
  }

  function GetSize(present: bool, buf: Buffer): Result<(Option<nat>, Buffer), PacketError> {
    if !present then Success((None, buf))
    else
      var (v, rest) :- GetU64(buf);
      Success((Some(v), rest))
  }

  /** Skips extended attributes: `count` pairs of strings. */
  function SkipPairs(count: nat, buf: Buffer): Result<Buffer, PacketError> {
    if count == 0 then Success(buf)
    else
      var (_, rest) :- GetBytes(buf);
      var (_, rest') :- GetBytes(rest);
      SkipPairs(count - 1, rest')
  }

  function SkipExtended(present: bool, buf: Buffer): Result<Buffer, PacketError> {
    if !present then Success(buf)
    else
      var (count, rest) :- GetU32(buf);
      SkipPairs(count, rest)
  }

  function DecodeAttrs(buf: Buffer): Result<(Attrs, Buffer), PacketError> {
    var (flags, b0) :- GetU32(buf);
    var (size, b1) :- GetSize(Has(flags, ATTR_SIZE), b0);
    var (uid, gid, b2) :- GetPair(Has(flags, ATTR_UIDGID), b1);
    var (permissions, b3) :- GetOptional(Has(flags, ATTR_PERMISSIONS), b2);
    var (atime, mtime, b4) :- GetPair(Has(flags, ATTR_ACMODTIME), b3);
    var rest :- SkipExtended(Has(flags, ATTR_EXTENDED), b4);
    Success((Attrs(size, uid, gid, permissions, atime, mtime), rest))
  }

  /** What survives the wire: owner and group, and the two times, only as pairs. */
  function Normalised(a: Attrs): Attrs {
    var owned := a.uid.Some? && a.gid.Some?;
    var timed := a.atime.Some? && a.mtime.Some?;
    a.(uid := if owned then a.uid else None, gid := if owned then a.gid else None,
       atime := if timed then a.atime else None, mtime := if timed then a.mtime else None)
  }

  lemma FlagsRoundTrip(a: Attrs)
    ensures FlagsOf(a) < 16
    ensures Has(FlagsOf(a), ATTR_SIZE) == a.size.Some?
    ensures Has(FlagsOf(a), ATTR_UIDGID) == (a.uid.Some? && a.gid.Some?)
    ensures Has(FlagsOf(a), ATTR_PERMISSIONS) == a.permissions.Some?
    ensures Has(FlagsOf(a), ATTR_ACMODTIME) == (a.atime.Some? && a.mtime.Some?)
    ensures !Has(FlagsOf(a), ATTR_EXTENDED)
  {
  }

  lemma PairRoundTrip(first: Option<nat>, second: Option<nat>, rest: Buffer)
    requires Fits(first, U32_RANGE) && Fits(second, U32_RANGE)
    ensures var both := first.Some? && second.Some?;
            GetPair(both, PutPair(first, second) + rest)
            == Success((if both then first else None, if both then second else None, rest))
  {
    hide PutU32, GetU32;
    if first.Some? && second.Some? {
      assert PutPair(first, second) + rest == PutU32(first.value) + (PutU32(second.value) + rest);
      U32RoundTrip(first.value, PutU32(second.value) + rest);
      U32RoundTrip(second.value, rest);
    } else {
      assert PutPair(first, second) + rest == rest;
    }
  }

  /** Decoding what was encoded gives the normalised attributes and leaves what follows alone. */
  lemma AttrsRoundTrip(a: Attrs, rest: Buffer)
    requires InRange(a)
    ensures DecodeAttrs(EncodeAttrs(a) + rest) == Success((Normalised(a), rest))
  {
    hide PutU32, GetU32, PutU64, GetU64, PutPair, GetPair, FlagsOf, Has, SkipPairs;
    FlagsRoundTrip(a);
    var b4 := rest;
    var b3 := PutPair(a.atime, a.mtime) + b4;
    var b2 := (if a.permissions.Some? then PutU32(a.permissions.value) else []) + b3;
    var b1 := PutPair(a.uid, a.gid) + b2;
    var b0 := (if a.size.Some? then PutU64(a.size.value) else []) + b1;
    assert EncodeAttrs(a) + rest == PutU32(FlagsOf(a)) + b0;
    U32RoundTrip(FlagsOf(a), b0);
    if a.size.Some? {
      U64RoundTrip(a.size.value, b1);
    } else {
      assert b0 == b1;
    }
    PairRoundTrip(a.uid, a.gid, b2);
    if a.permissions.Some? {
      U32RoundTrip(a.permissions.value, b3);
    } else {
      assert b2 == b3;
    }
    PairRoundTrip(a.atime, a.mtime, b4);
  }

  // The octets themselves

  /** Numbers go most significant octet first, the fields in their order behind the flags. */
  lemma AttrsAsOctets()
    ensures EncodeAttrs(Attrs(Some(0x0102_0304_0506_0708), Some(0x1112_1314), Some(0x2122_2324), Some(0x3132_3334),
                              Some(0x4142_4344), Some(0x5152_5354)))
         == [0, 0, 0, 15] + ([1, 2, 3, 4, 5, 6, 7, 8]
            + ([0x11, 0x12, 0x13, 0x14] + [0x21, 0x22, 0x23, 0x24] + ([0x31, 0x32, 0x33, 0x34]
            + ([0x41, 0x42, 0x43, 0x44] + [0x51, 0x52, 0x53, 0x54]))))
  {
    hide PutU32;
    U32AsOctets(0, 0, 0, 15);
    U32AsOctets(1, 2, 3, 4);
    U32AsOctets(5, 6, 7, 8);
    U32AsOctets(0x11, 0x12, 0x13, 0x14);
    U32AsOctets(0x21, 0x22, 0x23, 0x24);
    U32AsOctets(0x31, 0x32, 0x33, 0x34);
    U32AsOctets(0x41, 0x42, 0x43, 0x44);
    U32AsOctets(0x51, 0x52, 0x53, 0x54);
    assert 0x0102_0304_0506_0708 / U32_RANGE == 0x0102_0304 && 0x0102_0304_0506_0708 % U32_RANGE == 0x0506_0708;
  }

  lemma U32AsOctets(a: Octet, b: Octet, c: Octet, d: Octet)
    ensures PutU32(0x100_0000 * (a as int) + 0x1_0000 * (b as int) + 0x100 * (c as int) + d as int) == [a, b, c, d]
  {
    DivideBy8Bits(0x1_0000 * (a as int) + 0x100 * (b as int) + c as int, d);
    DivideBy16Bits(0x100 * (a as int) + b as int, 0x100 * (c as int) + d as int);
    DivideBy24Bits(a, 0x1_0000 * (b as int) + 0x100 * (c as int) + d as int);
    DivideBy8Bits(0x100 * (a as int) + b as int, c);
    DivideBy8Bits(a, b);
  }

  lemma DivideBy8Bits(q: nat, r: nat)
    requires r < 0x100
    ensures (0x100 * q + r) / 0x100 == q && (0x100 * q + r) % 256 == r
  {
  }

  lemma DivideBy16Bits(q: nat, r: nat)
    requires r < 0x1_0000
    ensures (0x1_0000 * q + r) / 0x1_0000 == q
  {
  }

  lemma DivideBy24Bits(q: nat, r: nat)
    requires r < 0x100_0000
    ensures (0x100_0000 * q + r) / 0x100_0000 == q
  {
  }

  /** Each field has its own flag, and without it takes no room. */
  lemma FlagsAsOctets(v: nat, w: nat)
    ensures EncodeAttrs(Attrs(Some(v), None, None, None, None, None)) == [0, 0, 0, 1] + PutU64(v)
    ensures EncodeAttrs(Attrs(None, Some(v), Some(w), None, None, None)) == [0, 0, 0, 2] + PutU32(v) + PutU32(w)
    ensures EncodeAttrs(Attrs(None, None, None, Some(v), None, None)) == [0, 0, 0, 4] + PutU32(v)
    ensures EncodeAttrs(Attrs(None, None, None, None, Some(v), Some(w))) == [0, 0, 0, 8] + PutU32(v) + PutU32(w)
    ensures EncodeAttrs(NO_ATTRS) == [0, 0, 0, 0]
  {
    hide PutU32, PutU64;
    U32AsOctets(0, 0, 0, 0);
    U32AsOctets(0, 0, 0, 1);
    U32AsOctets(0, 0, 0, 2);
    U32AsOctets(0, 0, 0, 4);
    U32AsOctets(0, 0, 0, 8);
  }

  /** A packet is its length, which does not count itself, its type, its id and its payload. */
  lemma PacketAsOctets()
    ensures Build(Packet(5, 0x0102_0304, [9])) == [0, 0, 0, 6, 5, 1, 2, 3, 4, 9]
  {
    hide PutU32;
    U32AsOctets(0, 0, 0, 6);
    U32AsOctets(1, 2, 3, 4);
  }

  // Extended attributes

  /** What a server may send behind the attributes: pairs of strings, announced by a flag. */
  function PutPairs(pairs: seq<(Buffer, Buffer)>): Buffer {
    if pairs == [] then [] else PutBytes(pairs[0].0) + (PutBytes(pairs[0].1) + PutPairs(pairs[1..]))
  }

  function EncodeExtended(a: Attrs, pairs: seq<(Buffer, Buffer)>): Buffer {
    PutU32(FlagsOf(a) + 0x8000_0000)
    + (EncodeAttrs(a)[4..] + (PutU32(|pairs|) + PutPairs(pairs)))
  }

  predicate PairsInRange(pairs: seq<(Buffer, Buffer)>) {
    |pairs| < U32_RANGE && forall i :: 0 <= i < |pairs| ==> |pairs[i].0| < U32_RANGE && |pairs[i].1| < U32_RANGE
  }

  lemma {:induction false} SkipsPairs(pairs: seq<(Buffer, Buffer)>, rest: Buffer)
    requires PairsInRange(pairs)
    ensures SkipPairs(|pairs|, PutPairs(pairs) + rest) == Success(rest)
  {
    hide GetBytes, PutBytes;
    if pairs == [] {
      assert PutPairs(pairs) + rest == rest;
    } else {
      var more := PutPairs(pairs[1..]) + rest;
      assert PutPairs(pairs) + rest == PutBytes(pairs[0].0) + (PutBytes(pairs[0].1) + more);
      BytesRoundTrip(pairs[0].0, PutBytes(pairs[0].1) + more);
      BytesRoundTrip(pairs[0].1, more);
      SkipsPairs(pairs[1..], rest);
    }
  }

  lemma ExtendedFlags(a: Attrs)
    ensures var flags := FlagsOf(a) + 0x8000_0000;
            && flags < U32_RANGE
            && Has(flags, ATTR_SIZE) == a.size.Some?
            && Has(flags, ATTR_UIDGID) == (a.uid.Some? && a.gid.Some?)
            && Has(flags, ATTR_PERMISSIONS) == a.permissions.Some?
            && Has(flags, ATTR_ACMODTIME) == (a.atime.Some? && a.mtime.Some?)
            && Has(flags, ATTR_EXTENDED)
  {
  }

  /** Extended attributes are skipped, however many there are: the others are read as if they were
      not there, and what follows is left alone. */
  lemma ExtendedAreSkipped(a: Attrs, pairs: seq<(Buffer, Buffer)>, rest: Buffer)
    requires InRange(a) && PairsInRange(pairs)
    ensures DecodeAttrs(EncodeExtended(a, pairs) + rest) == Success((Normalised(a), rest))
  {
    hide PutU32, GetU32, PutU64, GetU64, PutPair, GetPair, FlagsOf, Has, SkipPairs, PutPairs, EncodeExtended,
      EncodeAttrs;
    ExtendedFlags(a);
    var b5 := PutPairs(pairs) + rest;
    var b4 := PutU32(|pairs|) + b5;
    var b3 := PutPair(a.atime, a.mtime) + b4;
    var b2 := (if a.permissions.Some? then PutU32(a.permissions.value) else []) + b3;
    var b1 := PutPair(a.uid, a.gid) + b2;
    var b0 := (if a.size.Some? then PutU64(a.size.value) else []) + b1;
    ExtendedParts(a, pairs, rest);
    U32RoundTrip(FlagsOf(a) + 0x8000_0000, b0);
    if a.size.Some? {
      U64RoundTrip(a.size.value, b1);
    } else {
      NothingInFront(b1);
    }
    PairRoundTrip(a.uid, a.gid, b2);
    if a.permissions.Some? {
      U32RoundTrip(a.permissions.value, b3);
    } else {
      NothingInFront(b3);
    }
    PairRoundTrip(a.atime, a.mtime, b4);
    U32RoundTrip(|pairs|, b5);
    SkipsPairs(pairs, rest);
  }

  lemma NothingInFront(b: Buffer)
    ensures [] + b == b
  {
  }

  lemma ExtendedParts(a: Attrs, pairs: seq<(Buffer, Buffer)>, rest: Buffer)
    ensures EncodeExtended(a, pairs) + rest
         == PutU32(FlagsOf(a) + 0x8000_0000)
            + ((if a.size.Some? then PutU64(a.size.value) else [])
               + (PutPair(a.uid, a.gid)
                  + ((if a.permissions.Some? then PutU32(a.permissions.value) else [])
                     + (PutPair(a.atime, a.mtime) + (PutU32(|pairs|) + (PutPairs(pairs) + rest))))))
  {
    hide PutU32, PutU64, PutPair, FlagsOf, PutPairs;
    var f, h := PutU32(FlagsOf(a) + 0x8000_0000), PutU32(FlagsOf(a));
    var q := if a.size.Some? then PutU64(a.size.value) else [];
    var r, t := PutPair(a.uid, a.gid), PutPair(a.atime, a.mtime);
    var s := if a.permissions.Some? then PutU32(a.permissions.value) else [];
    var u, v := PutU32(|pairs|), PutPairs(pairs);
    var w := u + v;
    BehindFour(h, q + (r + (s + t)));
    Assoc(f, q + (r + (s + t)) + w, rest);
    Assoc(q + (r + (s + t)), w, rest);
    Assoc(u, v, rest);
    Assoc(q, r + (s + t), w + rest);
    Assoc(r, s + t, w + rest);
    Assoc(s, t, w + rest);
  }

  lemma BehindFour(head: Buffer, rest: Buffer)
    requires |head| == 4
    ensures (head + rest)[4..] == rest
  {
  }

  lemma Assoc(a: Buffer, b: Buffer, c: Buffer)
    ensures a + b + c == a + (b + c)
  {
  }

  // Nothing is made up when octets are missing

  lemma MoreU32(buf: Buffer, more: Buffer)
    requires GetU32(buf).Success?
    ensures GetU32(buf + more) == Success((GetU32(buf).value.0, GetU32(buf).value.1 + more))
  {
    assert (buf + more)[4..] == buf[4..] + more;
  }

  lemma MoreSize(present: bool, buf: Buffer, more: Buffer)
    requires GetSize(present, buf).Success?
    ensures GetSize(present, buf + more)
         == Success((GetSize(present, buf).value.0, GetSize(present, buf).value.1 + more))
  {
    if present {
      assert (buf + more)[4..] == buf[4..] + more && (buf + more)[8..] == buf[8..] + more;
    }
  }

  lemma MoreOptional(present: bool, buf: Buffer, more: Buffer)
    requires GetOptional(present, buf).Success?
    ensures GetOptional(present, buf + more)
         == Success((GetOptional(present, buf).value.0, GetOptional(present, buf).value.1 + more))
  {
    hide GetU32;
    if present {
      MoreU32(buf, more);
    }
  }

  lemma MorePair(present: bool, buf: Buffer, more: Buffer)
    requires GetPair(present, buf).Success?
    ensures var (first, second, rest) := GetPair(present, buf).value;
            GetPair(present, buf + more) == Success((first, second, rest + more))
  {
    hide GetOptional;
    MoreOptional(present, buf, more);
    MoreOptional(present, GetOptional(present, buf).value.1, more);
  }

  lemma MoreBytes(buf: Buffer, more: Buffer)
    requires GetBytes(buf).Success?
    ensures GetBytes(buf + more) == Success((GetBytes(buf).value.0, GetBytes(buf).value.1 + more))
  {
    hide GetU32;
    MoreU32(buf, more);
    var (n, rest) := GetU32(buf).value;
    assert (rest + more)[..n] == rest[..n] && (rest + more)[n..] == rest[n..] + more;
  }

  lemma {:induction false} MoreSkipped(count: nat, buf: Buffer, more: Buffer)
    requires SkipPairs(count, buf).Success?
    ensures SkipPairs(count, buf + more) == Success(SkipPairs(count, buf).value + more)
  {
    hide GetBytes;
    if count > 0 {
      MoreBytes(buf, more);
      var rest := GetBytes(buf).value.1;
      MoreBytes(rest, more);
      MoreSkipped(count - 1, GetBytes(rest).value.1, more);
    }
  }

  lemma MoreExtended(present: bool, buf: Buffer, more: Buffer)
    requires SkipExtended(present, buf).Success?
    ensures SkipExtended(present, buf + more) == Success(SkipExtended(present, buf).value + more)
  {
    hide GetU32, SkipPairs;
    if present {
      MoreU32(buf, more);
      MoreSkipped(GetU32(buf).value.0, GetU32(buf).value.1, more);
    }
  }

  /** Decoding depends on nothing but the octets it consumes. */
  lemma MoreAttrs(buf: Buffer, more: Buffer)
    requires DecodeAttrs(buf).Success?
    ensures DecodeAttrs(buf + more) == Success((DecodeAttrs(buf).value.0, DecodeAttrs(buf).value.1 + more))
  {
    hide GetU32, GetSize, GetPair, GetOptional, SkipExtended, Has;
    var (flags, b0) := GetU32(buf).value;
    MoreU32(buf, more);
    MoreSize(Has(flags, ATTR_SIZE), b0, more);
    var (size, b1) := GetSize(Has(flags, ATTR_SIZE), b0).value;
    MorePair(Has(flags, ATTR_UIDGID), b1, more);
    var (uid, gid, b2) := GetPair(Has(flags, ATTR_UIDGID), b1).value;
    MoreOptional(Has(flags, ATTR_PERMISSIONS), b2, more);
    var (permissions, b3) := GetOptional(Has(flags, ATTR_PERMISSIONS), b2).value;
    MorePair(Has(flags, ATTR_ACMODTIME), b3, more);
    var (atime, mtime, b4) := GetPair(Has(flags, ATTR_ACMODTIME), b3).value;
    MoreExtended(Has(flags, ATTR_EXTENDED), b4, more);
  }

  /** Attributes that were cut short, wherever, are an error. */
  lemma CutShortFails(a: Attrs, n: nat)
    requires InRange(a) && n < |EncodeAttrs(a)|
    ensures DecodeAttrs(EncodeAttrs(a)[..n]) == Failure(Truncated)
  {
    hide DecodeAttrs, EncodeAttrs;
    var whole := EncodeAttrs(a);
    AttrsRoundTrip(a, []);
    assert whole + [] == whole && whole[..n] + whole[n..] == whole;
    OnlyTruncated(DecodeAttrs(whole[..n]));
    NeverEmpty(whole[n..]);
    if DecodeAttrs(whole[..n]).Success? {
      MoreAttrs(whole[..n], whole[n..]);
    }
  }

  lemma NeverEmpty(b: Buffer)
    requires b != []
    ensures forall a: Buffer :: a + b != []
  {
  }

  lemma OnlyTruncated<T>(r: Result<T, PacketError>)
    ensures r.Failure? ==> r == Failure(Truncated)
  {
    if r.Failure? {
      assert r.error.Truncated?;
    }
  }

  // Reading never runs past the end

  /** What a successful read leaves is a suffix of what it was given. */
  ghost predicate Suffix(rest: Buffer, buf: Buffer) {
    |rest| <= |buf| && rest == buf[|buf| - |rest|..]
  }

  lemma SuffixTransitive(a: Buffer, b: Buffer, c: Buffer)
    requires Suffix(a, b) && Suffix(b, c)
    ensures Suffix(a, c)
  {
  }

  lemma GetBytesInside(buf: Buffer)
    ensures GetBytes(buf).Success? ==>
              var (bytes, rest) := GetBytes(buf).value;
              && Suffix(rest, buf) && |buf| == 4 + |bytes| + |rest| && bytes == buf[4..4 + |bytes|]
  {
  }

  lemma {:induction false} SkipPairsInside(count: nat, buf: Buffer)
    ensures SkipPairs(count, buf).Success? ==> Suffix(SkipPairs(count, buf).value, buf)
  {
    hide GetBytes;
    if count > 0 && GetBytes(buf).Success? {
      var rest := GetBytes(buf).value.1;
      GetBytesInside(buf);
      if GetBytes(rest).Success? {
        var rest' := GetBytes(rest).value.1;
        GetBytesInside(rest);
        SkipPairsInside(count - 1, rest');
        SuffixTransitive(rest', rest, buf);
        if SkipPairs(count - 1, rest').Success? {
          SuffixTransitive(SkipPairs(count - 1, rest').value, rest', buf);
        }
      }
    }
  }

  lemma GetPairInside(present: bool, buf: Buffer)
    ensures GetPair(present, buf).Success? ==> Suffix(GetPair(present, buf).value.2, buf)
  {
    hide Word;
  }

  /** Decoding arbitrary bytes either fails or leaves a suffix of them. */
  lemma DecodeInside(buf: Buffer)
    ensures DecodeAttrs(buf).Success? ==> Suffix(DecodeAttrs(buf).value.1, buf)
  {
    hide Word, GetPair, Has, SkipPairs, Suffix;
    if DecodeAttrs(buf).Success? {
      var (flags, b0) := GetU32(buf).value;
      var (size, b1) := GetSize(Has(flags, ATTR_SIZE), b0).value;
      var (uid, gid, b2) := GetPair(Has(flags, ATTR_UIDGID), b1).value;
      var (permissions, b3) := GetOptional(Has(flags, ATTR_PERMISSIONS), b2).value;
      var (atime, mtime, b4) := GetPair(Has(flags, ATTR_ACMODTIME), b3).value;
      HeadInside(buf, b0);
      SizeInside(Has(flags, ATTR_SIZE), b0);
      GetPairInside(Has(flags, ATTR_UIDGID), b1);
      OptionalInside(Has(flags, ATTR_PERMISSIONS), b2);
      GetPairInside(Has(flags, ATTR_ACMODTIME), b3);
      ExtendedInside(Has(flags, ATTR_EXTENDED), b4);
      SuffixTransitive(b1, b0, buf);
      SuffixTransitive(b2, b1, buf);
      SuffixTransitive(b3, b2, buf);
      SuffixTransitive(b4, b3, buf);
      SuffixTransitive(DecodeAttrs(buf).value.1, b4, buf);
    }
  }

  lemma HeadInside(buf: Buffer, rest: Buffer)
    requires GetU32(buf).Success? && rest == GetU32(buf).value.1
    ensures Suffix(rest, buf)
  {
  }

  lemma SizeInside(present: bool, buf: Buffer)
    requires GetSize(present, buf).Success?
    ensures Suffix(GetSize(present, buf).value.1, buf)
  {
  }

  lemma OptionalInside(present: bool, buf: Buffer)
    requires GetOptional(present, buf).Success?
    ensures Suffix(GetOptional(present, buf).value.1, buf)
  {
  }

  lemma ExtendedInside(present: bool, buf: Buffer)
    requires SkipExtended(present, buf).Success?
    ensures Suffix(SkipExtended(present, buf).value, buf)
  {
    if present {
      HeadInside(buf, GetU32(buf).value.1);
      SkipPairsInside(GetU32(buf).value.0, GetU32(buf).value.1);
      SuffixTransitive(SkipExtended(present, buf).value, GetU32(buf).value.1, buf);
    }
  }

  // Directory listings

  datatype Name = Name(name: Buffer, longname: Buffer, attrs: Attrs)

  function EncodeNames(names: seq<Name>): Buffer {
    if names == [] then []
    else
      PutBytes(names[0].name)
      + (PutBytes(names[0].longname) + (EncodeAttrs(names[0].attrs) + EncodeNames(names[1..])))
  }

  /** The entries of a NAME reply, as `collect_directory` reads them. */
  function DecodeNames(count: nat, buf: Buffer): Result<seq<Name>, PacketError> {
    if count == 0 then Success([])
    else
      var (name, b1) :- GetBytes(buf);
      var (longname, b2) :- GetBytes(b1);
      var (attrs, b3) :- DecodeAttrs(b2);
      var more :- DecodeNames(count - 1, b3);
      Success([Name(name, longname, attrs)] + more)
  }

  predicate NameInRange(n: Name) {
    |n.name| < U32_RANGE && |n.longname| < U32_RANGE && InRange(n.attrs)
  }

  function NormalisedNames(names: seq<Name>): seq<Name> {
    if names == [] then []
    else [names[0].(attrs := Normalised(names[0].attrs))] + NormalisedNames(names[1..])
  }

  /** A listing is read back entry by entry; this needs each entry's attributes to leave the
      next entry alone. */
  lemma {:induction false} NamesRoundTrip(names: seq<Name>)
    requires forall i :: 0 <= i < |names| ==> NameInRange(names[i])
    ensures DecodeNames(|names|, EncodeNames(names)) ==
            Success(NormalisedNames(names))
  {
    hide GetBytes, DecodeAttrs, PutBytes, EncodeAttrs;
    if names != [] {
      var n := names[0];
      assert NameInRange(n);
      var b3 := EncodeNames(names[1..]);
      var b2 := EncodeAttrs(n.attrs) + b3;
      var b1 := PutBytes(n.longname) + b2;
      BytesRoundTrip(n.name, b1);
      BytesRoundTrip(n.longname, b2);
      AttrsRoundTrip(n.attrs, b3);
      NamesRoundTrip(names[1..]);
    }
  }

  // Packets

  datatype Packet = Packet(kind: Octet, id: nat, payload: Buffer)

  /** A finished packet: its length, type, id and payload. */
  function Build(p: Packet): Buffer {
    PutU32((5 + |p.payload|) % U32_RANGE) + ([p.kind] + (PutU32(p.id) + p.payload))
  }

  /** Why the read loop stops. */
  datatype End = OutOfData | BadLength

  /** The read loop: how a byte stream is cut into packets, and why that ends. */
  function Frames(stream: Buffer): (seq<Packet>, End)
    decreases |stream|
  {
    if |stream| < 4 then ([], OutOfData)
    else
      var len := Word(stream);
      if !(5 <= len <= MAX_PACKET_SIZE) then ([], BadLength)
      else if |stream| < 4 + len then ([], OutOfData)
      else
        var body := stream[4..4 + len];
        var (more, end) := Frames(stream[4 + len..]);
        ([Packet(body[0], Word(body[1..]), body[5..])] + more, end)
  }

  /** The loop stops at once at a length that no packet can have: it needs a type and an id, and must
      not be longer than half a megabyte and a kilobyte. */
  lemma BadLengthStops(len: nat, rest: Buffer)
    requires len < U32_RANGE
    ensures Frames(PutU32(len) + rest) == ([], BadLength) <==> !(5 <= len <= 525312)
  {
    hide PutU32, Word;
    WordRoundTrip(len, rest);
  }

  /** A packet that is not there in full is not delivered. */
  lemma IncompleteIsNotDelivered(p: Packet, n: nat)
    requires Sendable(p) && n < |Build(p)|
    ensures Frames(Build(p)[..n]) == ([], OutOfData)
  {
    hide PutU32, Word;
    var len := 5 + |p.payload|;
    var body := [p.kind] + (PutU32(p.id) + p.payload);
    if n >= 4 {
      assert Build(p)[..n] == PutU32(len) + body[..n - 4];
      WordRoundTrip(len, body[..n - 4]);
    }
  }

  function BuildAll(packets: seq<Packet>): Buffer {
    if packets == [] then [] else Build(packets[0]) + BuildAll(packets[1..])
  }

  predicate Sendable(p: Packet) {
    p.id < U32_RANGE && 5 + |p.payload| <= MAX_PACKET_SIZE
  }

  lemma FrameRoundTrip(p: Packet, rest: Buffer)
    requires Sendable(p)
    ensures var (packets, end) := Frames(rest);
            Frames(Build(p) + rest) == ([p] + packets, end)
  {
    hide PutU32, Word;
    var len := 5 + |p.payload|;
    var body := [p.kind] + (PutU32(p.id) + p.payload);
    var stream := Build(p) + rest;
    assert stream == PutU32(len) + (body + rest);
    WordRoundTrip(len, body + rest);
    assert stream[4..4 + len] == body;
    assert stream[4 + len..] == rest;
    WordRoundTrip(p.id, p.payload);
    assert body[1..] == PutU32(p.id) + p.payload;
    assert body[5..] == p.payload;
  }

  /** A stream of packets within the size limits is cut into exactly these packets, whatever
      follows them. */
  lemma {:induction false} FramingRoundTrip(packets: seq<Packet>, rest: Buffer)
    requires forall i :: 0 <= i < |packets| ==> Sendable(packets[i])
    ensures var (more, end) := Frames(rest);
            Frames(BuildAll(packets) + rest) == (packets + more, end)
  {
    hide Frames, Build;
    if packets == [] {
      assert BuildAll(packets) + rest == rest;
      assert packets + Frames(rest).0 == Frames(rest).0;
    } else {
      assert BuildAll(packets) + rest == Build(packets[0]) + (BuildAll(packets[1..]) + rest);
      FrameRoundTrip(packets[0], BuildAll(packets[1..]) + rest);
      FramingRoundTrip(packets[1..], rest);
      var more := Frames(rest).0;
      assert packets + more == [packets[0]] + (packets[1..] + more);
    }
  }

  // The same in place

  class Reader {
    var buf: Buffer

    constructor (buf: Buffer)
      ensures this.buf == buf
    {
      this.buf := buf;
    }

    method U32() returns (r: Result<nat, PacketError>)
      modifies this
      ensures match GetU32(old(buf))
              case Success((v, rest)) => r == Success(v) && buf == rest
              case Failure(e) => r == Failure(e) && buf == old(buf)
    {
      if |buf| < 4 {
        return Failure(Truncated);
      }
      r := Success(Word(buf));
      buf := buf[4..];
    }

    method U64() returns (r: Result<nat, PacketError>)
      modifies this
      ensures match GetU64(old(buf))
              case Success((v, rest)) => r == Success(v) && buf == rest
              case Failure(e) => r == Failure(e) && buf == old(buf)
    {
      if |buf| < 8 {
        return Failure(Truncated);
      }
      r := Success(Word(buf) * U32_RANGE + Word(buf[4..]));
      buf := buf[8..];
    }

    method Bytes() returns (r: Result<Buffer, PacketError>)
      modifies this
      ensures match GetBytes(old(buf))
              case Success((v, rest)) => r == Success(v) && buf == rest
              case Failure(e) => r == Failure(e)
    {
      hide Word;
      var n :- U32();
      if |buf| < n {
        return Failure(Truncated);
      }
      r := Success(buf[..n]);
      buf := buf[n..];
    }

    /** The parts of `Attrs::decode` that depend on one flag each. */
    method Optional(present: bool) returns (r: Result<Option<nat>, PacketError>)
      modifies this
      ensures match GetOptional(present, old(buf))
              case Success((v, rest)) => r == Success(v) && buf == rest
              case Failure(e) => r == Failure(e)
    {
      hide Word;
      if !present {
        return Success(None);
      }
      var v :- U32();
      r := Success(Some(v));
    }

    method Size(present: bool) returns (r: Result<Option<nat>, PacketError>)
      modifies this
      ensures match GetSize(present, old(buf))
              case Success((v, rest)) => r == Success(v) && buf == rest
              case Failure(e) => r == Failure(e)
    {
      hide Word;
      if !present {
        return Success(None);
      }
      var v :- U64();
      r := Success(Some(v));
    }

    method Extended(present: bool) returns (r: Result<(), PacketError>)
      modifies this
      ensures match SkipExtended(present, old(buf))
              case Success(rest) => r == Success(()) && buf == rest
              case Failure(e) => r == Failure(e)
    {
      hide Word, GetBytes;
      if !present {
        return Success(());
      }
      var count :- U32();
      ghost var start := buf;
      var left := count;
      while left > 0
        invariant SkipPairs(count, start) == SkipPairs(left, buf)
      {
        var _ :- Bytes();
        var _ :- Bytes();
        left := left - 1;
      }
      r := Success(());
    }

    /** `Attrs::decode`. */
    method Attributes() returns (r: Result<Attrs, PacketError>)
      modifies this
      ensures match DecodeAttrs(old(buf))
              case Success((v, rest)) => r == Success(v) && buf == rest
              case Failure(e) => r == Failure(e)
    {
      hide Word, GetOptional, GetSize, SkipExtended, Has;
      var flags :- U32();
      var attrs := NO_ATTRS;
      var size :- Size(Has(flags, ATTR_SIZE));
      attrs := attrs.(size := size);
      var uid :- Optional(Has(flags, ATTR_UIDGID));
      var gid :- Optional(Has(flags, ATTR_UIDGID));
      attrs := attrs.(uid := uid, gid := gid);
      var permissions :- Optional(Has(flags, ATTR_PERMISSIONS));
      attrs := attrs.(permissions := permissions);
      var atime :- Optional(Has(flags, ATTR_ACMODTIME));
      var mtime :- Optional(Has(flags, ATTR_ACMODTIME));
      attrs := attrs.(atime := atime, mtime := mtime);
      var _ :- Extended(Has(flags, ATTR_EXTENDED));
      r := Success(attrs);
    }
  }

  /** The builder a request is put together with; four octets are kept for the length. */
  class PacketBuilder {
    var buf: Buffer

    constructor (kind: Octet, id: nat)
      ensures buf == PutU32(0) + ([kind] + PutU32(id))
    {
      buf := PutU32(0) + ([kind] + PutU32(id));
    }

    method Append(bytes: Buffer)
      modifies this
      ensures buf == old(buf) + bytes
    {
      buf := buf + bytes;
    }

    method AppendPair(first: Option<nat>, second: Option<nat>)
      modifies this
      ensures buf == old(buf) + PutPair(first, second)
    {
      hide PutU32;
      if first.Some? && second.Some? {
        Append(PutU32(first.value));
        Append(PutU32(second.value));
      }
    }

    /** `Attrs::encode`: the flags first, then what they announce. */
    method Attributes(a: Attrs)
      modifies this
      ensures buf == old(buf) + EncodeAttrs(a)
    {
      hide PutU32, PutU64, FlagsOf, PutPair;
      Append(PutU32(FlagsOf(a)));
      if a.size.Some? {
        Append(PutU64(a.size.value));
      }
      ghost var size := if a.size.Some? then PutU64(a.size.value) else [];
      assert buf == old(buf) + (PutU32(FlagsOf(a)) + size);
      AppendPair(a.uid, a.gid);
      if a.permissions.Some? {
        Append(PutU32(a.permissions.value));
      }
      ghost var permissions := if a.permissions.Some? then PutU32(a.permissions.value) else [];
      assert buf == old(buf) + (PutU32(FlagsOf(a)) + size) + (PutPair(a.uid, a.gid) + permissions);
      AppendPair(a.atime, a.mtime);
      assert EncodeAttrs(a)
          == (PutU32(FlagsOf(a)) + size) + (PutPair(a.uid, a.gid) + permissions) + PutPair(a.atime, a.mtime);
    }

    /** Fills in the length: the result is the packet with everything appended as its payload. */
    method Finish(ghost p: Packet) returns (bytes: Buffer)
      requires buf == PutU32(0) + ([p.kind] + (PutU32(p.id) + p.payload))
      ensures bytes == Build(p)
    {
      bytes := PutU32((|buf| - 4) % U32_RANGE) + buf[4..];
    }
  }

  /** The read loop over a stream that has ended. */
  method ReadLoop(stream: Buffer) returns (packets: seq<Packet>, end: End)
    ensures (packets, end) == Frames(stream)
  {
    hide Word;
    packets := [];
    var rest := stream;
    while true
      invariant Frames(stream).0 == packets + Frames(rest).0 && Frames(stream).1 == Frames(rest).1
      decreases |rest|
    {
      if |rest| < 4 {
        assert packets + [] == packets;
        return packets, OutOfData;
      }
      var len := Word(rest);
      if len < 5 || len > MAX_PACKET_SIZE {
        assert packets + [] == packets;
        return packets, BadLength;
      }
      if |rest| < 4 + len {
        assert packets + [] == packets;
        return packets, OutOfData;
      }
      var body := rest[4..4 + len];
      var packet := Packet(body[0], Word(body[1..]), body[5..]);
      ghost var more := Frames(rest[4 + len..]).0;
      assert packets + ([packet] + more) == packets + [packet] + more;
      packets := packets + [packet];
      rest := rest[4 + len..];
    }
  }
}
