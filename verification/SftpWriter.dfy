/** The windowed SFTP writer of src-tauri/src/protocol/sftp/client.rs. At most 64 WRITE
    requests are outstanding; their statuses are awaited in request order. */
module SftpWrite {
  import opened Wrappers
  import opened SftpLimits

  datatype WriteRequest = WriteRequest(offset: nat, data: Bytes)

  /** What the server did with a WRITE: all of it, or a failure after the first `partial` bytes. */
  datatype Effect = Applied | Failed(partial: nat)

  datatype WriteError = ServerError | ConnectionLost

  /** Writing past the end of a file fills the gap with zeros. */
  function WriteAt(file: Bytes, offset: nat, data: Bytes): Bytes {
    if offset > |file| then file + seq(offset - |file|, i => 0 as Byte) + data
    else if offset + |data| >= |file| then file[..offset] + data
    else file[..offset] + data + file[offset + |data|..]
  }

  function ApplyOne(file: Bytes, request: WriteRequest, effect: Effect): Bytes {
    match effect
    case Applied => WriteAt(file, request.offset, request.data)
    case Failed(partial) =>
      if partial == 0 then file
      else WriteAt(file, request.offset, request.data[..Min(partial, |request.data|)])
  }

  /** The remote file after the server has processed the requests in order, as section 6.1 of
      draft-ietf-secsh-filexfer-02 demands for one file. */
  function Replay(base: Bytes, sent: seq<WriteRequest>, effects: seq<Effect>): Bytes
    requires |effects| <= |sent|
  {
    if effects == [] then base
    else
      var n := |effects| - 1;
      ApplyOne(Replay(base, sent, effects[..n]), sent[n], effects[n])
  }

  /** The bytes the requests carry, in order. */
  function Carried(sent: seq<WriteRequest>): Bytes {
    if sent == [] then [] else Carried(sent[..|sent| - 1]) + sent[|sent| - 1].data
  }

  /** Requests that continue one another, the first at `start`. */
  ghost predicate Contiguous(start: nat, sent: seq<WriteRequest>) {
    sent == [] ||
    var n := |sent| - 1;
    && Contiguous(start, sent[..n])
    && sent[n].offset == start + |Carried(sent[..n])|
    && 0 < |sent[n].data| <= CHUNK_SIZE
  }

  predicate AllApplied(effects: seq<Effect>) {
    forall i :: 0 <= i < |effects| ==> effects[i].Applied?
  }

  /** A server that changes nothing more once a WRITE on the handle has failed. */
  predicate FailStop(effects: seq<Effect>) {
    forall i, j :: 0 <= i < j < |effects| && effects[i].Failed? ==> effects[j] == Failed(0)
  }

  lemma CarriedPrefix(sent: seq<WriteRequest>, n: nat)
    requires n <= |sent|
    ensures Carried(sent[..n]) <= Carried(sent)
  {
    if n < |sent| {
      CarriedPrefix(sent[..|sent| - 1], n);
      assert sent[..|sent| - 1][..n] == sent[..n];
    } else {
      assert sent[..n] == sent;
    }
  }

  lemma ContiguousPrefix(start: nat, sent: seq<WriteRequest>, n: nat)
    requires n <= |sent| && Contiguous(start, sent)
    ensures Contiguous(start, sent[..n])
  {
    if n < |sent| {
      ContiguousPrefix(start, sent[..|sent| - 1], n);
      assert sent[..|sent| - 1][..n] == sent[..n];
    } else {
      assert sent[..n] == sent;
    }
  }

  lemma ContiguousExtend(start: nat, sent: seq<WriteRequest>, request: WriteRequest)
    requires Contiguous(start, sent)
    requires request.offset == start + |Carried(sent)| && 0 < |request.data| <= CHUNK_SIZE
    ensures Contiguous(start, sent + [request])
    ensures Carried(sent + [request]) == Carried(sent) + request.data
  {
    assert (sent + [request])[..|sent|] == sent;
  }

  /** Sending more changes nothing about what has been processed. */
  lemma {:induction false} ReplayIgnoresLater(base: Bytes, sent: seq<WriteRequest>, more: seq<WriteRequest>,
                                              effects: seq<Effect>)
    requires |effects| <= |sent|
    ensures Replay(base, sent + more, effects) == Replay(base, sent, effects)
  {
    if effects != [] {
      ReplayIgnoresLater(base, sent, more, effects[..|effects| - 1]);
    }
  }

  /** One more write at the end of the file appends to it. */
  lemma Appends(file: Bytes, data: Bytes)
    ensures WriteAt(file, |file|, data) == file + data
  {
  }

  /** When every processed WRITE succeeded, the remote file is the old one followed by exactly
      what those requests carried. */
  lemma {:induction false} ReplayAllApplied(base: Bytes, sent: seq<WriteRequest>, effects: seq<Effect>)
    requires |effects| <= |sent|
    requires Contiguous(|base|, sent) && AllApplied(effects)
    ensures Replay(base, sent, effects) == base + Carried(sent[..|effects|])
  {
    hide Contiguous, WriteAt;
    if effects != [] {
      var n := |effects| - 1;
      ReplayAllApplied(base, sent, effects[..n]);
      CarriedStep(|base|, sent, n);
      Appends(base + Carried(sent[..n]), sent[n].data);
      assert base + Carried(sent[..n]) + sent[n].data == base + (Carried(sent[..n]) + sent[n].data);
    }
  }

  /** How much of its data a request leaves in the file. */
  function Stored(effect: Effect, length: nat): nat {
    if effect.Applied? then length else Min(effect.partial, length)
  }

  /** No request that stored something comes after one that stored less than all of its data.
      This depends on the outcomes and the lengths of the requests alone. */
  predicate NothingBehindGap(lengths: seq<nat>, effects: seq<Effect>)
    requires |effects| <= |lengths|
  {
    forall i, j :: 0 <= i < j < |effects| ==>
      Stored(effects[i], lengths[i]) == lengths[i] || Stored(effects[j], lengths[j]) == 0
  }

  predicate AllStored(lengths: seq<nat>, effects: seq<Effect>)
    requires |effects| <= |lengths|
  {
    forall i :: 0 <= i < |effects| ==> Stored(effects[i], lengths[i]) == lengths[i]
  }

  function Lengths(sent: seq<WriteRequest>): seq<nat> {
    seq(|sent|, i requires 0 <= i < |sent| => |sent[i].data|)
  }

  /** One more outcome at the end of the file appends what it stored. */
  lemma StoredAppends(file: Bytes, request: WriteRequest, effect: Effect)
    requires request.offset == |file|
    ensures ApplyOne(file, request, effect) == file + request.data[..Stored(effect, |request.data|)]
  {
    var part := request.data[..Stored(effect, |request.data|)];
    Appends(file, part);
    assert request.data[..|request.data|] == request.data;
  }

  lemma PartFits(base: Bytes, front: Bytes, data: Bytes, part: Bytes)
    requires part <= data
    ensures base <= base + front + part <= base + (front + data)
    ensures part == data ==> base + front + part == base + (front + data)
  {
    assert base + front + part == base + (front + part);
    assert base + (front + data) == base + (front + part) + data[|part|..];
  }

  /** Nothing that was stored is behind a gap: then the remote file is the old one followed by a
      prefix of what the requests carried, and by all of it if all of it was stored. */
  lemma {:induction false} ReplayWithoutGap(base: Bytes, sent: seq<WriteRequest>, effects: seq<Effect>)
    requires |effects| <= |sent|
    requires Contiguous(|base|, sent) && NothingBehindGap(Lengths(sent), effects)
    ensures base <= Replay(base, sent, effects) <= base + Carried(sent[..|effects|])
    ensures AllStored(Lengths(sent), effects) ==> Replay(base, sent, effects) == base + Carried(sent[..|effects|])
  {
    hide Contiguous, Carried, ApplyOne, WriteAt;
    if effects == [] {
      NothingCarried(sent);
    } else {
      var n := |effects| - 1;
      var file, lengths := Replay(base, sent, effects[..n]), Lengths(sent);
      ReplayWithoutGap(base, sent, effects[..n]);
      CarriedStep(|base|, sent, n);
      var data, stored := sent[n].data, Stored(effects[n], lengths[n]);
      PartFits(base, Carried(sent[..n]), data, data[..stored]);
      if AllStored(lengths, effects[..n]) {
        StoredAppends(file, sent[n], effects[n]);
        if AllStored(lengths, effects) {
          assert stored == |data| && data[..|data|] == data;
        }
      } else {
        NothingStored(file, sent[n], effects[n]);
        PartFits(base, Carried(sent[..n]), data, []);
        assert base + Carried(sent[..n]) + [] == base + Carried(sent[..n]);
      }
    }
  }

  lemma NothingCarried(sent: seq<WriteRequest>)
    ensures Carried(sent[..0]) == []
  {
  }

  lemma NothingStored(file: Bytes, request: WriteRequest, effect: Effect)
    requires 0 < |request.data| && Stored(effect, |request.data|) == 0
    ensures ApplyOne(file, request, effect) == file
  {
  }

  /** When the server is fail-stop, the remote file is at every moment the old one followed by
      a prefix of what was sent. */
  lemma ReplayFailStop(base: Bytes, sent: seq<WriteRequest>, effects: seq<Effect>)
    requires |effects| <= |sent|
    requires Contiguous(|base|, sent) && FailStop(effects)
    ensures base <= Replay(base, sent, effects) <= base + Carried(sent[..|effects|])
    ensures AllApplied(effects) ==> Replay(base, sent, effects) == base + Carried(sent[..|effects|])
  {
    hide Contiguous, Carried, Replay;
    ReplayWithoutGap(base, sent, effects);
  }

  /** The first WRITE to fail leaves a prefix behind, whatever part of it was stored. */
  lemma FirstFailure(base: Bytes, sent: seq<WriteRequest>, effects: seq<Effect>)
    requires 0 < |effects| <= |sent|
    requires Contiguous(|base|, sent)
    requires AllApplied(effects[..|effects| - 1]) && effects[|effects| - 1].Failed?
    ensures base <= Replay(base, sent, effects) <= base + Carried(sent[..|effects|])
  {
    hide Contiguous, Carried, Replay;
    assert forall i :: 0 <= i < |effects| - 1 ==> effects[i] == effects[..|effects| - 1][i];
    ReplayWithoutGap(base, sent, effects);
  }

  // The condition is exact

  /** Requests of the given lengths, one behind the other, that carry nothing but ones. */
  function Ones(start: nat, lengths: seq<nat>): (sent: seq<WriteRequest>)
    ensures |sent| == |lengths|
  {
    if lengths == [] then []
    else
      var n := |lengths| - 1;
      Ones(start, lengths[..n]) + [WriteRequest(start + Sum(lengths[..n]), AllOnes(lengths[n]))]
  }

  function AllOnes(n: nat): Bytes {
    seq(n, i => 1)
  }

  predicate IsOnes(data: Bytes, n: nat) {
    |data| == n && forall k :: 0 <= k < n ==> data[k] == 1
  }

  function Sum(lengths: seq<nat>): nat {
    if lengths == [] then 0 else Sum(lengths[..|lengths| - 1]) + lengths[|lengths| - 1]
  }

  predicate ChunkLengths(lengths: seq<nat>) {
    forall i :: 0 <= i < |lengths| ==> 0 < lengths[i] <= CHUNK_SIZE
  }

  lemma {:induction false} OnesAt(start: nat, lengths: seq<nat>, i: nat)
    requires i < |lengths|
    ensures Ones(start, lengths)[i] == WriteRequest(start + Sum(lengths[..i]), AllOnes(lengths[i]))
  {
    hide AllOnes;
    var n := |lengths| - 1;
    if i < n {
      OnesAt(start, lengths[..n], i);
      assert lengths[..n][..i] == lengths[..i];
    }
  }

  lemma OnesHaveLengths(start: nat, lengths: seq<nat>)
    ensures Lengths(Ones(start, lengths)) == lengths
  {
    forall i | 0 <= i < |lengths| ensures |Ones(start, lengths)[i].data| == lengths[i] {
      OnesAt(start, lengths, i);
    }
  }

  lemma {:induction false} OnesAreRequests(start: nat, lengths: seq<nat>)
    requires ChunkLengths(lengths)
    ensures Contiguous(start, Ones(start, lengths)) && IsOnes(Carried(Ones(start, lengths)), Sum(lengths))
  {
    hide Contiguous, Carried;
    if lengths == [] {
      NoRequests(start);
    } else {
      var n := |lengths| - 1;
      OnesAreRequests(start, lengths[..n]);
      ContiguousExtend(start, Ones(start, lengths[..n]), Ones(start, lengths)[n]);
    }
  }

  lemma NoRequests(start: nat)
    ensures Contiguous(start, []) && Carried([]) == []
  {
  }

  lemma {:induction false} SumGrows(lengths: seq<nat>, i: nat, j: nat)
    requires i < j <= |lengths|
    ensures Sum(lengths[..i]) + lengths[i] <= Sum(lengths[..j])
  {
    assert lengths[..j][..j - 1] == lengths[..j - 1];
    if i < j - 1 {
      SumGrows(lengths, i, j - 1);
    }
  }

  /** A zero in the file, in front of a position. */
  predicate HasZeroBefore(file: Bytes, base: nat, end: nat) {
    exists z :: base <= z < |file| && z < end && file[z] == 0
  }

  lemma LaterKeepsZero(file: Bytes, request: WriteRequest, effect: Effect, base: nat, end: nat)
    requires HasZeroBefore(file, base, end) && end <= request.offset
    ensures HasZeroBefore(ApplyOne(file, request, effect), base, end)
  {
    var z :| base <= z < |file| && z < end && file[z] == 0;
    var file' := ApplyOne(file, request, effect);
    assert z < |file'| && file'[z] == 0;
  }

  lemma GapMakesZero(file: Bytes, request: WriteRequest, effect: Effect, base: nat)
    requires base <= |file| < request.offset && Stored(effect, |request.data|) > 0
    ensures HasZeroBefore(ApplyOne(file, request, effect), base, request.offset)
  {
    var file' := ApplyOne(file, request, effect);
    assert |file| < |file'| && file'[|file|] == 0;
  }

  /** With ones as data, a request that stores something behind a gap leaves a zero in the file. */
  lemma {:induction false} GapShows(base: Bytes, lengths: seq<nat>, effects: seq<Effect>)
    requires ChunkLengths(lengths) && |effects| <= |lengths| && !NothingBehindGap(lengths, effects)
    ensures HasZeroBefore(Replay(base, Ones(|base|, lengths), effects), |base|, |base| + Sum(lengths[..|effects|]))
  {
    hide ApplyOne, Ones, HasZeroBefore, Sum, AllOnes, Stored;
    var n, sent := |effects| - 1, Ones(|base|, lengths);
    var file, front := Replay(base, sent, effects[..n]), effects[..n];
    var end := |base| + Sum(lengths[..n]);
    OnesAt(|base|, lengths, n);
    SumGrows(lengths, n, n + 1);
    if !NothingBehindGap(lengths, front) {
      GapShows(base, lengths, front);
      LaterKeepsZero(file, sent[n], effects[n], |base|, end);
    } else {
      var i :| 0 <= i < n && Stored(effects[i], lengths[i]) != lengths[i] && Stored(effects[n], lengths[n]) != 0;
      ShortFile(base, lengths, front, i);
      OnesHaveLength(lengths[n]);
      GapMakesZero(file, sent[n], effects[n], |base|);
    }
    ZeroStaysBefore(Replay(base, sent, effects), |base|, end, |base| + Sum(lengths[..n + 1]));
  }

  lemma OnesHaveLength(n: nat)
    ensures |AllOnes(n)| == n
  {
  }

  lemma ZeroStaysBefore(file: Bytes, base: nat, end: nat, end': nat)
    requires HasZeroBefore(file, base, end) && end <= end'
    ensures HasZeroBefore(file, base, end')
  {
  }

  /** As long as nothing is behind a gap, the file ends where the gap starts. */
  lemma {:induction false} ShortFile(base: Bytes, lengths: seq<nat>, effects: seq<Effect>, i: nat)
    requires ChunkLengths(lengths) && |effects| <= |lengths| && NothingBehindGap(lengths, effects)
    requires i < |effects| && Stored(effects[i], lengths[i]) != lengths[i]
    ensures |base| <= |Replay(base, Ones(|base|, lengths), effects)| < |base| + Sum(lengths[..|effects|])
  {
    hide ApplyOne, Ones, Sum, AllOnes, Stored;
    var n, sent, front := |effects| - 1, Ones(|base|, lengths), effects[..|effects| - 1];
    var file := Replay(base, sent, front);
    OnesAt(|base|, lengths, n);
    OnesHaveLength(lengths[n]);
    StoredFits(effects[n], lengths[n]);
    SumGrows(lengths, n, n + 1);
    if AllStored(lengths, front) {
      FullFile(base, lengths, front);
      StoredAppends(file, sent[n], effects[n]);
    } else {
      var k :| 0 <= k < n && Stored(front[k], lengths[k]) != lengths[k];
      ShortFile(base, lengths, front, k);
      NothingStored(file, sent[n], effects[n]);
    }
  }

  lemma StoredFits(effect: Effect, length: nat)
    ensures Stored(effect, length) <= length
  {
  }

  lemma FullFile(base: Bytes, lengths: seq<nat>, effects: seq<Effect>)
    requires ChunkLengths(lengths) && |effects| <= |lengths| && AllStored(lengths, effects)
    ensures |Replay(base, Ones(|base|, lengths), effects)| == |base| + Sum(lengths[..|effects|])
  {
    hide Contiguous, Carried, Replay, Ones, Lengths, IsOnes;
    OnesAreRequests(|base|, lengths);
    OnesHaveLengths(|base|, lengths);
    ReplayWithoutGap(base, Ones(|base|, lengths), effects);
    CarriedOnes(|base|, lengths, |effects|);
  }

  lemma {:induction false} CarriedOnes(start: nat, lengths: seq<nat>, n: nat)
    requires ChunkLengths(lengths) && n <= |lengths|
    ensures IsOnes(Carried(Ones(start, lengths)[..n]), Sum(lengths[..n]))
    ensures |Carried(Ones(start, lengths)[..n])| == Sum(lengths[..n])
  {
    hide Contiguous, Carried;
    if n < |lengths| {
      CarriedOnes(start, lengths[..|lengths| - 1], n);
      assert lengths[..|lengths| - 1][..n] == lengths[..n];
      assert Ones(start, lengths)[..n] == Ones(start, lengths[..|lengths| - 1])[..n];
    } else {
      OnesAreRequests(start, lengths);
      assert lengths[..n] == lengths && Ones(start, lengths)[..n] == Ones(start, lengths);
    }
  }

  /** Requests of the given lengths that follow one another from the end of the old file. */
  ghost predicate Carrying(base: Bytes, lengths: seq<nat>, sent: seq<WriteRequest>) {
    Lengths(sent) == lengths && Contiguous(|base|, sent)
  }

  /** Whatever the data, the remote file is the old one followed by a prefix of what was sent, if
      and only if no request that stored something comes after one that did not store all. */
  lemma PrefixIffNothingBehindGap(base: Bytes, lengths: seq<nat>, effects: seq<Effect>)
    requires ChunkLengths(lengths) && |effects| <= |lengths|
    ensures (forall sent :: Carrying(base, lengths, sent) ==>
               |effects| <= |sent| && base <= Replay(base, sent, effects) <= base + Carried(sent[..|effects|]))
            <==> NothingBehindGap(lengths, effects)
  {
    hide Contiguous, Carried, Replay, NothingBehindGap, Ones, HasZeroBefore, Lengths, IsOnes;
    if NothingBehindGap(lengths, effects) {
      forall sent | Carrying(base, lengths, sent)
        ensures |effects| <= |sent| && base <= Replay(base, sent, effects) <= base + Carried(sent[..|effects|])
      {
        LengthsAreMany(sent);
        ReplayWithoutGap(base, sent, effects);
      }
    } else {
      var sent := Ones(|base|, lengths);
      OnesAreRequests(|base|, lengths);
      OnesHaveLengths(|base|, lengths);
      GapShows(base, lengths, effects);
      CarriedOnes(|base|, lengths, |effects|);
      ZeroIsNoOne(Replay(base, sent, effects), base, Carried(sent[..|effects|]), |base| + Sum(lengths[..|effects|]));
      assert Carrying(base, lengths, sent);
    }
  }

  lemma LengthsAreMany(sent: seq<WriteRequest>)
    ensures |Lengths(sent)| == |sent|
  {
  }

  lemma ZeroIsNoOne(file: Bytes, base: Bytes, ones: Bytes, end: nat)
    requires HasZeroBefore(file, |base|, end) && IsOnes(ones, |ones|)
    ensures !(file <= base + ones)
  {
    var z :| |base| <= z < |file| && z < end && file[z] == 0;
    if z < |base + ones| {
      assert (base + ones)[z] == ones[z - |base|];
    }
  }

  lemma CarriedStep(start: nat, sent: seq<WriteRequest>, n: nat)
    requires n < |sent| && Contiguous(start, sent)
    ensures Carried(sent[..n + 1]) == Carried(sent[..n]) + sent[n].data
    ensures sent[n].offset == start + |Carried(sent[..n])|
    ensures 0 < |sent[n].data| <= CHUNK_SIZE
    ensures sent[..n + 1][..n] == sent[..n]
    ensures Contiguous(start, sent[..n])
  {
    ContiguousPrefix(start, sent, n);
    ContiguousPrefix(start, sent, n + 1);
    assert sent[..n + 1][..n] == sent[..n];
  }

  /** Why fail-stop matters for resuming: when a later WRITE still succeeds after a failed one,
      the file has a hole, so its length says nothing about its content. */
  lemma FailureWithoutStopLeavesHole()
    ensures exists sent: seq<WriteRequest>, effects: seq<Effect> ::
              && |effects| == |sent| && Contiguous(0, sent)
              && |Replay([], sent, effects)| == |Carried(sent)|
              && Replay([], sent, effects) != Carried(sent)
  {
    var sent := [WriteRequest(0, [1]), WriteRequest(1, [2])];
    var effects := [Failed(0), Applied];
    assert sent[..1] == [sent[0]] && sent[..1][..0] == [];
    assert Carried(sent[..1]) == [1];
    assert Carried(sent) == [1, 2];
    assert effects[..1] == [effects[0]] && effects[..1][..0] == [];
    assert Replay([], sent, effects[..1]) == [];
    assert Replay([], sent, effects) == WriteAt([], 1, [2]) == [0, 2];
    assert Contiguous(0, sent[..1]);
    assert Contiguous(0, sent);
  }

  /** The server's side of one open handle. `remote` is the file, `effects` what has happened
      to the requests processed so far. */
  class WriteChannel {
    const base: Bytes  // the file when the handle was opened
    const failStop: bool
    var sent: seq<WriteRequest>
    var remote: Bytes
    var effects: seq<Effect>
    ghost var errors: seq<WriteError>  // what has gone wrong, as the writer was told

    ghost predicate Valid()
      reads this`sent, this`remote, this`effects
    {
      && |effects| <= |sent|
      && remote == Replay(base, sent, effects)
      && (failStop ==> FailStop(effects))
    }

    constructor (base: Bytes, failStop: bool)
      ensures Valid() && this.base == base && this.failStop == failStop
      ensures sent == [] && effects == [] && errors == []
    {
      this.base, this.failStop := base, failStop;
      sent, remote, effects, errors := [], base, [], [];
    }

    method Send(request: WriteRequest) returns (r: Result<nat, WriteError>)
      requires Valid()
      modifies this`sent, this`errors
      ensures Valid()
      ensures r.Success? ==> r.value == |old(sent)| && sent == old(sent) + [request] && errors == old(errors)
      ensures r.Failure? ==> sent == old(sent) && errors == old(errors) + [r.error]
    {
      if * {
        errors := errors + [ConnectionLost];
        return Failure(ConnectionLost);
      }
      ReplayIgnoresLater(base, sent, [request], effects);
      sent := sent + [request];
      r := Success(|sent| - 1);
    }

    /** The server takes the next request, with an outcome of its choice. */
    method Process()
      requires Valid() && |effects| < |sent|
      modifies this`remote, this`effects
      ensures Valid()
      ensures |effects| == |old(effects)| + 1 && old(effects) <= effects
    {
      var effect := Applied;
      if failStop && !AllApplied(effects) {
        effect := Failed(0);
      } else if * {
        var partial: nat :| partial <= CHUNK_SIZE;
        effect := Failed(partial);
      }
      remote := ApplyOne(remote, sent[|effects|], effect);
      effects := effects + [effect];
      assert effects[..|effects| - 1] == old(effects);
    }

    /** Waits for the status of one request. The reply may be lost with the connection. */
    method Await(k: nat) returns (r: Result<(), WriteError>)
      requires Valid() && k < |sent|
      modifies this`remote, this`effects, this`errors
      ensures Valid()
      ensures old(effects) <= effects
      ensures r.Success? ==> k < |effects| && effects[k].Applied? && errors == old(errors)
      ensures r.Failure? ==> errors == old(errors) + [r.error]
      ensures r == Failure(ServerError) ==> k < |effects| && effects[k].Failed?
    {
      if * {
        errors := errors + [ConnectionLost];
        return Failure(ConnectionLost);
      }
      while |effects| <= k
        invariant Valid() && old(effects) <= effects && errors == old(errors)
        decreases |sent| - |effects|
      {
        Process();
      }
      if effects[k].Applied? {
        return Success(());
      }
      // Some status codes say that the server has lost its connection.
      var error := ServerError;
      if * {
        error := ConnectionLost;
      }
      errors := errors + [error];
      r := Failure(error);
    }

    /** `close_handle`. */
    method Close() returns (r: Result<(), WriteError>)
      modifies this`errors
      ensures errors == if r.Success? then old(errors) else old(errors) + [r.error]
    {
      if * {
        return Success(());
      }
      var error := ServerError;
      if * {
        error := ConnectionLost;
      }
      errors := errors + [error];
      r := Failure(error);
    }

    /** Requests still outstanding when the writer gives up may or may not be processed. */
    method Settle()
      requires Valid()
      modifies this`remote, this`effects
      ensures Valid() && old(effects) <= effects
      ensures old(|effects| == |sent|) ==> remote == old(remote)
    {
      while |effects| < |sent|
        invariant Valid() && old(effects) <= effects
        invariant old(|effects| == |sent|) ==> remote == old(remote) && effects == old(effects)
        decreases |sent| - |effects|
      {
        if * {
          break;
        }
        Process();
      }
    }
  }

  predicate Numbered(first: nat, numbers: seq<nat>) {
    forall i :: 0 <= i < |numbers| ==> numbers[i] == first + i
  }

  class SftpWriter {
    const channel: WriteChannel
    const start: nat
    var offset: nat
    var inFlight: seq<nat>
    ghost var accepted: Bytes  // what has gone into requests so far

    /** The requests carry what was accepted, gaplessly from `start`; the last are in flight. */
    ghost predicate Wire()
      reads this, channel`sent, channel`remote, channel`effects
    {
      && channel.Valid()
      && Contiguous(start, channel.sent)
      && Carried(channel.sent) == accepted
      && offset == start + |accepted|
      && |inFlight| <= MAX_IN_FLIGHT
      && |inFlight| <= |channel.sent|
      && Numbered(|channel.sent| - |inFlight|, inFlight)
    }

    /** Moreover, every request that left the window was reported as successful. */
    ghost predicate Valid()
      reads this, channel`sent, channel`remote, channel`effects
    {
      && Wire()
      && |channel.sent| - |inFlight| <= |channel.effects|
      && AllApplied(channel.effects[..|channel.sent| - |inFlight|])
    }

    constructor (channel: WriteChannel, start: nat)
      requires channel.Valid() && channel.sent == [] && channel.effects == []
      ensures Valid() && fresh(this) && this.channel == channel && this.start == start && accepted == []
    {
      this.channel, this.start := channel, start;
      offset, inFlight, accepted := start, [], [];
    }

    method AwaitOldest() returns (r: Result<(), WriteError>)
      requires Wire()
      modifies this`inFlight, channel`remote, channel`effects, channel`errors
      ensures Wire()
      ensures r.Success? && old(Valid()) ==> Valid()
      ensures old(inFlight) != [] ==> inFlight == old(inFlight)[1..]
      ensures old(inFlight) == [] ==> r.Success? && inFlight == []
      ensures channel.errors == if r.Success? then old(channel.errors) else old(channel.errors) + [r.error]
    {
      hide Replay, Contiguous, Carried, FailStop;
      if inFlight == [] {
        return Success(());
      }
      var k := inFlight[0];
      inFlight := inFlight[1..];
      r := channel.Await(k);
    }

    /** Adds one request for the next chunk. */
    method SendChunk(chunk: Bytes) returns (r: Result<(), WriteError>)
      requires Wire() && |inFlight| < MAX_IN_FLIGHT
      requires 0 < |chunk| <= CHUNK_SIZE
      modifies this, channel`sent, channel`errors
      ensures Wire()
      ensures old(Valid()) ==> Valid()
      ensures accepted == if r.Success? then old(accepted) + chunk else old(accepted)
      ensures channel.errors == if r.Success? then old(channel.errors) else old(channel.errors) + [r.error]
    {
      hide Replay, Contiguous, Carried, FailStop;
      ContiguousExtend(start, channel.sent, WriteRequest(offset, chunk));
      var id :- channel.Send(WriteRequest(offset, chunk));
      inFlight := inFlight + [id];
      offset := offset + |chunk|;
      accepted := accepted + chunk;
      r := Success(());
    }

    /** One `write` call: on success all of `buf` is in requests; on failure some prefix is. It fails
        if and only if something goes wrong, at once and with that error. */
    method Write(buf: Bytes) returns (r: Result<(), WriteError>)
      requires Wire()
      modifies this, channel`sent, channel`remote, channel`effects, channel`errors
      ensures Wire()
      ensures r.Success? ==> accepted == old(accepted) + buf
      ensures r.Success? && old(Valid()) ==> Valid()
      ensures old(accepted) <= accepted <= old(accepted) + buf
      ensures channel.errors == if r.Success? then old(channel.errors) else old(channel.errors) + [r.error]
    {
      hide Replay, Contiguous, Carried, FailStop;
      var pos := 0;
      while pos < |buf|
        invariant 0 <= pos <= |buf|
        invariant Wire()
        invariant old(Valid()) ==> Valid()
        invariant accepted == old(accepted) + buf[..pos] && channel.errors == old(channel.errors)
      {
        var end := Min(pos + CHUNK_SIZE, |buf|);
        while |inFlight| >= MAX_IN_FLIGHT
          invariant Wire()
          invariant old(Valid()) ==> Valid()
          invariant accepted == old(accepted) + buf[..pos] && channel.errors == old(channel.errors)
          decreases |inFlight|
        {
          var _ :- AwaitOldest();
        }
        var _ :- SendChunk(buf[pos..end]);
        assert buf[..pos] + buf[pos..end] == buf[..end];
        pos := end;
      }
      r := Success(());
    }

    /** `finish`: waits for everything, keeps the first error, and closes the handle. If it and
        all writes succeed, the server applied every request, and the file is the one that was
        opened followed by all that was written. It fails if and only if something goes wrong, with
        the first error there is. */
    method Finish() returns (r: Result<(), WriteError>)
      requires Wire()
      modifies this`inFlight, channel`remote, channel`effects, channel`errors
      ensures Wire() && inFlight == []
      ensures r.Success? && old(Valid()) ==> AllApplied(channel.effects) && |channel.effects| == |channel.sent|
      ensures r.Success? && old(Valid()) && |channel.base| == start ==>
                channel.remote == channel.base + accepted
      ensures old(channel.errors) <= channel.errors
      ensures r.Success? <==> channel.errors == old(channel.errors)
      ensures r.Failure? ==> r.error == channel.errors[|old(channel.errors)|]
    {
      hide Replay, Contiguous, Carried, FailStop;
      var firstError: Option<WriteError> := None;
      while inFlight != []
        invariant Wire()
        invariant old(Valid()) && firstError.None? ==> Valid()
        invariant old(channel.errors) <= channel.errors
        invariant firstError.None? ==> channel.errors == old(channel.errors)
        invariant firstError.Some? ==>
                    |channel.errors| > |old(channel.errors)|
                    && firstError.value == channel.errors[|old(channel.errors)|]
        decreases |inFlight|
      {
        var one := AwaitOldest();
        if one.Failure? && firstError.None? {
          firstError := Some(one.error);
        }
      }
      var closed := channel.Close();
      if firstError.Some? {
        return Failure(firstError.value);
      }
      if closed.Failure? {
        return Failure(closed.error);
      }
      if old(Valid()) && |channel.base| == start {
        AllWritten();
      }
      r := Success(());
    }

    lemma AllWritten()
      requires Valid() && inFlight == [] && |channel.base| == start
      ensures channel.remote == channel.base + accepted
    {
      assert channel.effects[..|channel.sent|] == channel.effects;
      assert channel.sent[..|channel.effects|] == channel.sent;
      ReplayAllApplied(channel.base, channel.sent, channel.effects);
    }

    /** On a fail-stop server the file is at every moment the opened one followed by a prefix of
        what was accepted, whatever has failed. */
    lemma RemoteIsPrefix()
      requires Wire() && channel.failStop && |channel.base| == start
      ensures channel.base <= channel.remote <= channel.base + accepted
    {
      ReplayFailStop(channel.base, channel.sent, channel.effects);
      CarriedPrefix(channel.sent, |channel.effects|);
    }
  }
}
