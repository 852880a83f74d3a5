/** The pipelined SFTP reader of src-tauri/src/protocol/sftp/client.rs. Up to 64 READ
    requests are outstanding at once; their replies are consumed in request order and
    reassembled into a byte stream. */
module SftpRead {
  import opened Wrappers
  import opened SftpLimits

  const STATUS_OK := 0
  const STATUS_EOF := 1
  const STATUS_NO_CONNECTION := 6
  const STATUS_CONNECTION_LOST := 7

  datatype ReadRequest = ReadRequest(offset: nat, length: nat)

  /** What a pending READ can be resolved with. `Other` covers undecodable DATA packets and
      unexpected packet types, `Lost` a closed connection. */
  datatype Reply = Data(bytes: Bytes) | Status(code: nat) | Other | Lost

  datatype ReadError = ServerError | ConnectionLost

  /** The number of bytes of the requested range that the file has. */
  function Available(file: Bytes, request: ReadRequest): nat {
    if request.offset >= |file| then 0 else Min(request.length, |file| - request.offset)
  }

  /** `bytes` is what the file holds from `offset` on. */
  ghost predicate HasAt(file: Bytes, offset: nat, bytes: Bytes) {
    && offset + |bytes| <= |file|
    && forall i :: 0 <= i < |bytes| ==> bytes[i] == file[offset + i]
  }

  /** A server may answer a READ with any prefix of the requested range. With `regular`, it
      keeps the guarantee that section 6.4 of draft-ietf-secsh-filexfer-02 gives for regular
      files: DATA is short only at the end of the file, and EOF is reported only there.
      Failures may happen at any time. */
  ghost predicate Answers(file: Bytes, regular: bool, request: ReadRequest, reply: Reply) {
    match reply
    case Data(bytes) =>
      && |bytes| <= Available(file, request)
      && (|bytes| > 0 ==> HasAt(file, request.offset, bytes))
      && (regular ==> |bytes| == Available(file, request))
    case Status(code) => regular && code == STATUS_EOF ==> Available(file, request) == 0
    case Other => true
    case Lost => true
  }

  predicate Accepted(reply: Reply) {
    reply.Data? || (reply.Status? && reply.code == STATUS_EOF)
  }

  function Payload(reply: Reply): Bytes {
    if reply.Data? then reply.bytes else []
  }

  /** The byte stream that a log of replies adds up to. */
  function Assembled(replies: seq<Reply>): Bytes {
    if replies == [] then [] else Assembled(replies[..|replies| - 1]) + Payload(replies[|replies| - 1])
  }

  /** The n-th READ a reader opened at `start` sends. */
  function Request(start: nat, n: nat): ReadRequest {
    ReadRequest(start + n * CHUNK_SIZE, CHUNK_SIZE)
  }

  /** The replies consumed so far, in request order, all accepted by the reader. */
  ghost predicate ReplyLog(file: Bytes, regular: bool, start: nat, replies: seq<Reply>) {
    replies == [] ||
    var n := |replies| - 1;
    && ReplyLog(file, regular, start, replies[..n])
    && Accepted(replies[n])
    && Answers(file, regular, Request(start, n), replies[n])
  }

  /** How much of the file from `start` on the first n requests cover. */
  function Covered(file: Bytes, start: nat, n: nat): nat {
    if start >= |file| then 0 else Min(n * CHUNK_SIZE, |file| - start)
  }

  /** One more request covers exactly the range available to it. */
  lemma CoveredStep(file: Bytes, start: nat, n: nat)
    ensures Covered(file, start, n + 1) == Covered(file, start, n) + Available(file, Request(start, n))
    ensures 0 < Available(file, Request(start, n)) ==>
              Request(start, n).offset == start + Covered(file, start, n)
    ensures start <= |file| ==> start + Covered(file, start, n + 1) <= |file|
  {
  }

  /** For every server that answers with prefixes: the reader never produces more than its
      requests cover, and producing that many bytes means producing exactly the right ones. */
  lemma {:induction false} AssembledWithinFile(file: Bytes, regular: bool, start: nat, replies: seq<Reply>)
    requires start <= |file|
    requires ReplyLog(file, regular, start, replies)
    ensures |Assembled(replies)| <= Covered(file, start, |replies|)
    ensures |Assembled(replies)| == Covered(file, start, |replies|) ==>
              Assembled(replies) == file[start..start + Covered(file, start, |replies|)]
  {
    hide Available, Covered, Payload, Answers, HasAt;
    if replies != [] {
      var n := |replies| - 1;
      AssembledWithinFile(file, regular, start, replies[..n]);
      CoveredStep(file, start, n);
      PayloadFits(file, regular, Request(start, n), replies[n]);
      WithinStep(file, start, Covered(file, start, n), Assembled(replies[..n]),
                 Available(file, Request(start, n)), Payload(replies[n]));
    }
  }

  lemma PayloadFits(file: Bytes, regular: bool, request: ReadRequest, reply: Reply)
    requires Answers(file, regular, request, reply)
    ensures |Payload(reply)| <= Available(file, request)
    ensures |Payload(reply)| > 0 ==> HasAt(file, request.offset, Payload(reply))
    ensures |Payload(reply)| > 0 ==> Available(file, request) > 0
  {
  }

  lemma WithinStep(file: Bytes, start: nat, covered: nat, front: Bytes, available: nat, more: Bytes)
    requires start + covered + available <= |file|
    requires |front| <= covered && |more| <= available
    requires |front| == covered ==> front == file[start..start + covered]
    requires |more| > 0 ==> HasAt(file, start + covered, more)
    ensures |front + more| == covered + available ==> front + more == file[start..start + covered + available]
  {
    if |front + more| == covered + available {
      SliceStep(file, start, covered, more);
    }
  }

  lemma SliceStep(file: Bytes, start: nat, n: nat, more: Bytes)
    requires start + n + |more| <= |file|
    requires |more| > 0 ==> HasAt(file, start + n, more)
    ensures file[start..start + n] + more == file[start..start + n + |more|]
  {
  }

  lemma {:induction false} RegularLength(file: Bytes, start: nat, replies: seq<Reply>)
    requires start <= |file|
    requires ReplyLog(file, true, start, replies)
    ensures |Assembled(replies)| == Covered(file, start, |replies|)
  {
    if replies != [] {
      var n := |replies| - 1;
      RegularLength(file, start, replies[..n]);
      CoveredStep(file, start, n);
      assert |Payload(replies[n])| == Available(file, Request(start, n));
    }
  }

  /** Under the regular-file guarantee the stream is exact after every reply. */
  lemma {:induction false} AssembledRegular(file: Bytes, start: nat, replies: seq<Reply>)
    requires start <= |file|
    requires ReplyLog(file, true, start, replies)
    ensures Assembled(replies) == file[start..start + Covered(file, start, |replies|)]
  {
    RegularLength(file, start, replies);
    AssembledWithinFile(file, true, start, replies);
  }

  /** Every reply brings all that the file has of its range. */
  ghost predicate AllFull(file: Bytes, start: nat, replies: seq<Reply>) {
    forall i :: 0 <= i < |replies| ==> |Payload(replies[i])| == Available(file, Request(start, i))
  }

  lemma {:induction false} FullIffLong(file: Bytes, regular: bool, start: nat, replies: seq<Reply>)
    requires start <= |file|
    requires ReplyLog(file, regular, start, replies)
    ensures |Assembled(replies)| <= Covered(file, start, |replies|)
    ensures |Assembled(replies)| == Covered(file, start, |replies|) <==> AllFull(file, start, replies)
  {
    hide Answers, HasAt, Payload, Available, Covered;
    if replies == [] {
      NothingCovered(file, start);
    } else {
      var n := |replies| - 1;
      FullIffLong(file, regular, start, replies[..n]);
      CoveredStep(file, start, n);
      PayloadFits(file, regular, Request(start, n), replies[n]);
    }
  }

  lemma NothingCovered(file: Bytes, start: nat)
    ensures Covered(file, start, 0) == 0
  {
  }

  /** For a server that may answer short, the stream is exact if and only if it never did. */
  lemma ExactIffNeverShort(file: Bytes, regular: bool, start: nat, replies: seq<Reply>)
    requires start <= |file|
    requires ReplyLog(file, regular, start, replies)
    ensures start + Covered(file, start, |replies|) <= |file|
    ensures Assembled(replies) == file[start..start + Covered(file, start, |replies|)] <==>
            AllFull(file, start, replies)
  {
    hide ReplyLog, AllFull, Assembled;
    FullIffLong(file, regular, start, replies);
    AssembledWithinFile(file, regular, start, replies);
  }

  /** What holds of any part of the stream that has been handed on. */
  lemma PrefixOfLogIsRight(file: Bytes, regular: bool, start: nat, replies: seq<Reply>, out: Bytes, rest: Bytes)
    requires start <= |file|
    requires ReplyLog(file, regular, start, replies)
    requires out + rest == Assembled(replies)
    ensures |out| <= |file| - start
    ensures |out| == |file| - start ==> out == file[start..]
    ensures regular ==> out <= file[start..]
    ensures regular && rest == [] && Covered(file, start, |replies|) == |file| - start ==> out == file[start..]
  {
    AssembledWithinFile(file, regular, start, replies);
    if |out| == |file| - start {
      SliceParts(file, start, Covered(file, start, |replies|), out, rest);
    }
    if regular {
      AssembledRegular(file, start, replies);
      SliceParts(file, start, Covered(file, start, |replies|), out, rest);
    }
  }

  lemma SliceParts(file: Bytes, start: nat, n: nat, out: Bytes, rest: Bytes)
    requires start + n <= |file|
    requires out + rest == file[start..start + n]
    ensures out <= file[start..]
    ensures |out| == |file| - start ==> out == file[start..]
  {
    assert out == file[start..start + |out|] by {
      assert out == (out + rest)[..|out|];
    }
  }

  /** A short reply from a regular file means that the file is covered. */
  lemma {:induction false} ShortReplyCoversFile(file: Bytes, start: nat, replies: seq<Reply>, i: nat)
    requires start <= |file|
    requires ReplyLog(file, true, start, replies)
    requires i < |replies| && |Payload(replies[i])| < CHUNK_SIZE
    ensures Covered(file, start, |replies|) == |file| - start
  {
    if i < |replies| - 1 {
      ShortReplyCoversFile(file, start, replies[..|replies| - 1], i);
    }
  }

  predicate FullUntil(replies: seq<Reply>, n: nat) {
    n <= |replies| && forall i :: 0 <= i < n ==> |Payload(replies[i])| >= CHUNK_SIZE
  }

  /** Replies that were full came from ranges inside the file. */
  lemma {:induction false} FullRepliesFit(file: Bytes, start: nat, replies: seq<Reply>, n: nat)
    requires start <= |file|
    requires ReplyLog(file, true, start, replies)
    requires FullUntil(replies, n)
    ensures start + n * CHUNK_SIZE <= |file|
  {
    if n < |replies| {
      FullRepliesFit(file, start, replies[..|replies| - 1], n);
    }
  }

  /** How a reader's fields relate to the replies it has consumed: what was delivered and what
      is buffered add up to them, all before the first short one were full, and nothing has
      been sent since that one was seen. */
  ghost predicate InStep(file: Bytes, regular: bool, start: nat, sent: nat, replies: seq<Reply>,
                         eof: bool, shortAt: nat, delivered: Bytes, buffer: Bytes, bufferPos: nat)
  {
    && ReplyLog(file, regular, start, replies)
    && FullUntil(replies, if eof then shortAt else |replies|)
    && (eof ==>
         && shortAt < |replies| && |Payload(replies[shortAt])| < CHUNK_SIZE
         && sent <= shortAt + MAX_IN_FLIGHT)
    && bufferPos <= |buffer|
    && delivered + buffer[bufferPos..] == Assembled(replies)
  }

  /** The next accepted reply keeps a reader in step. */
  lemma InStepReply(file: Bytes, regular: bool, start: nat, sent: nat, replies: seq<Reply>,
                    eof: bool, shortAt: nat, delivered: Bytes, buffer: Bytes, reply: Reply)
    requires InStep(file, regular, start, sent, replies, eof, shortAt, delivered, buffer, |buffer|)
    requires Accepted(reply) && Answers(file, regular, Request(start, |replies|), reply)
    requires !eof ==> sent <= |replies| + MAX_IN_FLIGHT
    ensures var short := |Payload(reply)| < CHUNK_SIZE;
            var (buffer', bufferPos') := if Payload(reply) != [] then (Payload(reply), 0) else (buffer, |buffer|);
            InStep(file, regular, start, sent, replies + [reply], eof || short,
                   if short && !eof then |replies| else shortAt, delivered, buffer', bufferPos')
  {
    assert (replies + [reply])[..|replies|] == replies;
    assert delivered == Assembled(replies) by {
      assert delivered + buffer[|buffer|..] == delivered;
    }
    assert Payload(reply)[0..] == Payload(reply);
  }

  /** Why the regular-file guarantee matters: a server that answers the first READ one byte
      short, and the second in full, makes the reader skip that byte. The result is no prefix
      of the file, although every reply is a prefix of the range that was asked for. */
  lemma ShortReadLeavesHole()
    ensures exists file: Bytes, replies: seq<Reply> ::
              ReplyLog(file, false, 0, replies) && !(Assembled(replies) <= file)
  {
    var file: Bytes := seq(CHUNK_SIZE + 1, i => if i < CHUNK_SIZE then 0 else 1);
    var replies := [Data(file[..CHUNK_SIZE - 1]), Data(file[CHUNK_SIZE..])];
    assert Answers(file, false, Request(0, 0), replies[0]);
    assert Answers(file, false, Request(0, 1), replies[1]);
    assert replies[..1] == [replies[0]] && replies[..1][..0] == [];
    assert Assembled(replies[..1]) == Payload(replies[0]);
    assert Assembled(replies) == file[..CHUNK_SIZE - 1] + file[CHUNK_SIZE..];
    assert Assembled(replies)[CHUNK_SIZE - 1] == 1 && file[CHUNK_SIZE - 1] == 0;
    assert ReplyLog(file, false, 0, replies);
  }

  /** What a reader has met with: a READ that could not be sent, the reply to one that was, or the
      reply to the final CLOSE. */
  datatype Event = SendRefused | Awaited(k: nat, reply: Reply) | Closed(reply: Reply)

  /** Nothing can be read any more: the transport refused a READ, the connection went down, the reply
      could not be made sense of, or it was a status other than the end of the file (code 1). */
  predicate IsTrouble(e: Event) {
    match e
    case SendRefused => true
    case Awaited(_, Data(_)) => false
    case Awaited(_, Status(code)) => code != 1
    case Awaited(_, _) => true
    case Closed(_) => false
  }

  /** It is reported as a lost connection: also the status codes 6 and 7, which say so. */
  predicate SaysLost(e: Event) {
    e == SendRefused || (e.Awaited? && (e.reply == Lost || e.reply == Status(6) || e.reply == Status(7)))
  }

  /** `unexpected` and `status_to_result`, as far as retries tell errors apart. */
  function ErrorOf(reply: Reply): ReadError {
    if reply.Lost? || (reply.Status? && reply.code in {STATUS_NO_CONNECTION, STATUS_CONNECTION_LOST})
    then ConnectionLost
    else ServerError
  }

  /** The reader's side of one open handle: the requests sent on it and the server behind it. */
  class ReadChannel {
    const file: Bytes
    const regular: bool
    var sent: seq<ReadRequest>
    ghost var events: seq<Event>

    constructor (file: Bytes, regular: bool)
      ensures this.file == file && this.regular == regular && sent == []
    {
      this.file := file;
      this.regular := regular;
      sent, events := [], [];
    }

    /** Fails when the transport is down; otherwise returns the number of the request. */
    method Send(request: ReadRequest) returns (r: Result<nat, ReadError>)
      modifies this`sent, this`events
      ensures r.Success? ==> r.value == |old(sent)| && sent == old(sent) + [request] && events == old(events)
      ensures r.Failure? ==>
                r.error == ConnectionLost && sent == old(sent) && events == old(events) + [SendRefused]
    {
      if * {
        events := events + [SendRefused];
        return Failure(ConnectionLost);
      }
      sent := sent + [request];
      r := Success(|sent| - 1);
    }

    /** Waits for the reply to one request. Replies reach the client in any order; waiting on
        one receiver sees only its own. */
    method Await(k: nat) returns (reply: Reply)
      requires k < |sent|
      modifies this`events
      ensures Answers(file, regular, sent[k], reply)
      ensures events == old(events) + [Awaited(k, reply)]
    {
      var available := Available(file, sent[k]);
      if * {
        reply := Lost;
      } else if * {
        reply := Other;
      } else if * {
        var code: nat :| code < 9 && code != STATUS_EOF;
        reply := Status(code);
      } else if regular {
        reply := if available == 0 then Status(STATUS_EOF)
                 else Data(file[sent[k].offset..sent[k].offset + available]);
      } else if * {
        reply := Status(STATUS_EOF);
      } else {
        var n: nat :| n <= available;
        reply := Data(if n == 0 then [] else file[sent[k].offset..sent[k].offset + n]);
      }
      events := events + [Awaited(k, reply)];
    }

    /** `close_handle`: succeeds if the server says so. */
    method Close() returns (r: Result<(), ReadError>)
      modifies this`events
      ensures exists reply :: events == old(events) + [Closed(reply)] && (r.Success? <==> reply == Status(STATUS_OK))
    {
      var reply := Lost;
      if * {
        var code: nat :| code < 9;
        reply := Status(code);
      } else if * {
        reply := Other;
      }
      events := events + [Closed(reply)];
      r := if reply == Status(STATUS_OK) then Success(()) else Failure(ErrorOf(reply));
    }
  }

  class SftpReader {
    const channel: ReadChannel
    const start: nat
    var nextOffset: nat
    var inFlight: seq<nat>
    var eof: bool
    var buffer: Bytes
    var bufferPos: nat
    ghost var replies: seq<Reply>  // consumed so far
    ghost var delivered: Bytes  // handed to the caller so far
    ghost var shortAt: nat  // the first short reply, once `eof` is set

    /** Every request sent is the next chunk of the file; the last ones are in flight. */
    ghost predicate Wire(taken: nat)
      reads this`nextOffset, this`inFlight, channel`sent
    {
      && |channel.sent| == taken + |inFlight|
      && (forall i :: 0 <= i < |channel.sent| ==> channel.sent[i] == Request(start, i))
      && nextOffset == start + |channel.sent| * CHUNK_SIZE
      && (forall i :: 0 <= i < |inFlight| ==> inFlight[i] == taken + i)
      && |inFlight| <= MAX_IN_FLIGHT
    }

    ghost predicate Stream()
      reads this, channel
    {
      InStep(channel.file, channel.regular, start, |channel.sent|, replies, eof, shortAt,
             delivered, buffer, bufferPos)
    }

    ghost predicate Valid()
      reads this, channel
    {
      Wire(|replies|) && Stream()
    }

    constructor (channel: ReadChannel, start: nat)
      requires channel.sent == []
      ensures Valid() && this.channel == channel && this.start == start
      ensures delivered == []
    {
      this.channel := channel;
      this.start := start;
      nextOffset := start;
      inFlight, eof, buffer, bufferPos := [], false, [], 0;
      replies, delivered := [], [];
    }

    method FillPipeline() returns (r: Result<(), ReadError>)
      requires Valid()
      modifies this`nextOffset, this`inFlight, channel
      ensures Valid()
      ensures r.Success? && !eof ==> |inFlight| == MAX_IN_FLIGHT
      ensures eof ==> r.Success? && inFlight == old(inFlight)
      ensures if r.Success? then channel.events == old(channel.events)
              else r.error == ConnectionLost && channel.events == old(channel.events) + [SendRefused]
    {
      hide ReplyLog, Assembled;
      while !eof && |inFlight| < MAX_IN_FLIGHT
        invariant Valid()
        invariant eof ==> inFlight == old(inFlight)
        invariant channel.events == old(channel.events)
        decreases MAX_IN_FLIGHT - |inFlight|
      {
        var id :- channel.Send(ReadRequest(nextOffset, CHUNK_SIZE));
        inFlight := inFlight + [id];
        nextOffset := nextOffset + CHUNK_SIZE;
      }
      r := Success(());
    }

    method DrainBuffer(max: nat) returns (out: Bytes)
      requires Valid()
      modifies this`bufferPos, this`delivered
      ensures Valid()
      ensures delivered == old(delivered) + out
      ensures |out| == Min(|buffer| - old(bufferPos), max)
    {
      var n := Min(|buffer| - bufferPos, max);
      out := buffer[bufferPos..bufferPos + n];
      delivered := delivered + out;
      assert old(buffer[bufferPos..]) == out + buffer[bufferPos + n..];
      bufferPos := bufferPos + n;
    }

    /** Takes the oldest request off the pipeline and waits for its reply. */
    method NextReply() returns (reply: Reply)
      requires Wire(|replies|) && inFlight != []
      modifies this`inFlight, channel`events
      ensures inFlight == old(inFlight)[1..] && Wire(|replies| + 1)
      ensures Answers(channel.file, channel.regular, Request(start, |replies|), reply)
      ensures channel.events == old(channel.events) + [Awaited(old(inFlight)[0], reply)]
    {
      reply := channel.Await(inFlight[0]);
      inFlight := inFlight[1..];
    }

    /** The arms of `read` that take in DATA or EOF. */
    method Consume(reply: Reply)
      requires Stream() && bufferPos == |buffer|
      requires Accepted(reply) && Answers(channel.file, channel.regular, Request(start, |replies|), reply)
      requires !eof ==> |channel.sent| <= |replies| + MAX_IN_FLIGHT
      modifies this`eof, this`buffer, this`bufferPos, this`replies, this`shortAt
      ensures Stream() && replies == old(replies) + [reply]
      ensures eof == (old(eof) || |Payload(reply)| < CHUNK_SIZE)
      ensures buffer[bufferPos..] == Payload(reply)
    {
      hide InStep, Answers, ReplyLog, Assembled;
      InStepReply(channel.file, channel.regular, start, |channel.sent|, replies, eof, shortAt,
                  delivered, buffer, reply);
      if |Payload(reply)| < CHUNK_SIZE {
        shortAt := if eof then shortAt else |replies|;
        eof := true;
      }
      replies := replies + [reply];
      if Payload(reply) != [] {
        buffer, bufferPos := Payload(reply), 0;
      }
    }

    /** One `read` call. It terminates for every server. What has been delivered never exceeds
        the file, and is exactly the file once it is as long; for a regular file it is a
        prefix at every call, and an empty result means that all of it has been delivered. It
        fails if and only if it meets with trouble, at once. */
    method Read(max: nat) returns (r: Result<Bytes, ReadError>)
      requires Valid()
      modifies this, channel
      ensures old(channel.events) <= channel.events
      ensures forall i :: |old(channel.events)| <= i < |channel.events| - 1 ==> !IsTrouble(channel.events[i])
      ensures r.Failure? <==>
                |channel.events| > |old(channel.events)| && IsTrouble(channel.events[|channel.events| - 1])
      ensures r.Failure? ==> (r.error == ConnectionLost <==> SaysLost(channel.events[|channel.events| - 1]))
      ensures r.Failure? ==> delivered == old(delivered)
      ensures r.Success? ==> Valid() && delivered == old(delivered) + r.value && |r.value| <= max
      ensures r.Success? && max > 0 && r.value == [] ==>
                eof && inFlight == [] && delivered == Assembled(replies)
      ensures r.Success? && start <= |channel.file| ==>
                && |delivered| <= |channel.file| - start
                && (|delivered| == |channel.file| - start ==> delivered == channel.file[start..])
      ensures r.Success? && start <= |channel.file| && channel.regular ==>
                && delivered <= channel.file[start..]
                && (max > 0 && r.value == [] ==> delivered == channel.file[start..])
                && nextOffset <= |channel.file| + MAX_IN_FLIGHT * CHUNK_SIZE
    {
      hide InStep, Answers, ReplyLog, Assembled, Wire;
      while true
        invariant Valid() && delivered == old(delivered)
        invariant old(channel.events) <= channel.events
        invariant forall i :: |old(channel.events)| <= i < |channel.events| ==> !IsTrouble(channel.events[i])
        decreases bufferPos == |buffer|, !eof, |inFlight|
      {
        DeliveredIsRight();
        if bufferPos < |buffer| {
          var out := DrainBuffer(max);
          DeliveredIsRight();
          return Success(out);
        }
        if eof && inFlight == [] {
          return Success([]);
        }
        var _ :- FillPipeline();
        var reply := NextReply();
        if !Accepted(reply) {
          return Failure(ErrorOf(reply));
        }
        Consume(reply);
      }
    }

    lemma DeliveredIsRight()
      requires Stream()
      ensures bufferPos <= |buffer|
      ensures bufferPos == |buffer| ==> delivered == Assembled(replies)
      ensures start <= |channel.file| ==>
                && |delivered| <= |channel.file| - start
                && (|delivered| == |channel.file| - start ==> delivered == channel.file[start..])
      ensures start <= |channel.file| && channel.regular ==>
                && delivered <= channel.file[start..]
                && (eof && bufferPos == |buffer| ==> delivered == channel.file[start..])
                && (Wire(|replies|) ==> nextOffset <= |channel.file| + MAX_IN_FLIGHT * CHUNK_SIZE)
    {
      if bufferPos == |buffer| {
        assert delivered + buffer[bufferPos..] == delivered;
      }
      if start <= |channel.file| {
        PrefixOfLogIsRight(channel.file, channel.regular, start, replies, delivered, buffer[bufferPos..]);
        if channel.regular {
          FullRepliesFit(channel.file, start, replies, if eof then shortAt else |replies|);
          if eof {
            ShortReplyCoversFile(channel.file, start, replies, shortAt);
          }
        }
      }
    }

    /** `finish`: waits for every outstanding reply, oldest first, whatever it is, and then closes
        the handle. It succeeds if and only if the server confirms that. */
    method Finish() returns (r: Result<(), ReadError>)
      requires Valid()
      modifies this`inFlight, channel`events
      ensures inFlight == []
      ensures var met := |old(channel.events)|;
              && |channel.events| == met + |old(inFlight)| + 1 && old(channel.events) <= channel.events
              && (forall i :: met <= i < |channel.events| - 1 ==>
                    channel.events[i].Awaited? && channel.events[i].k == old(inFlight)[i - met])
              && channel.events[met + |old(inFlight)|].Closed?
              && (r.Success? <==> channel.events[met + |old(inFlight)|].reply == Status(0))
    {
      ghost var before, outstanding, n := channel.events, inFlight, 0;
      while inFlight != []
        invariant n <= |outstanding| && inFlight == outstanding[n..]
        invariant before <= channel.events && |channel.events| == |before| + n
        invariant forall i :: |before| <= i < |channel.events| ==>
                    channel.events[i].Awaited? && channel.events[i].k == outstanding[i - |before|]
        invariant forall i :: 0 <= i < |inFlight| ==> inFlight[i] < |channel.sent|
        decreases |inFlight|
      {
        var _ := channel.Await(inFlight[0]);
        inFlight := inFlight[1..];
        n := n + 1;
      }
      r := channel.Close();
    }
  }
}
