/** The shared transport of src-tauri/src/protocol/sftp/client.rs: any number of tasks send
    requests over one byte stream, a writer task and a reader task serve the stream, and a map
    from request id to receiver routes the replies. One step of the state machine is one
    atomic action of one of these tasks or of the server. */
module SftpTransport {

  const IDS := 0x1_0000_0000
  const QUEUE_CAPACITY := 256

  /** A request, numbered in the order in which ids were drawn. The number is not part of the
      protocol; the id, a 32-bit counter that starts at 1 and wraps around, is. */
  type Ticket = nat

  function IdOf(t: Ticket): nat {
    (t + 1) % IDS
  }

  /** How far `send` has come: its id is drawn; it has found the connection alive; its receiver
      is in the map; its packet is with the writer task. `Refused` means it returned an error. */
  datatype Phase = Drawn | Checked | Registered | Sent | Refused

  datatype Answer = Reply(to: Ticket) | ConnectionLost

  datatype State = State(
    phases: seq<Phase>,  // by ticket
    answers: map<Ticket, Answer>,  // receivers that have been resolved
    pending: map<nat, Ticket>,  // the map from id to receiver
    queue: seq<Ticket>,  // packets between the senders and the writer task
    wire: set<Ticket>,  // packets the server has received and not answered
    replies: seq<Ticket>,  // replies on their way back, each carrying the id of its request
    alive: bool,
    writerOpen: bool,
    readerOpen: bool,
    drained: bool
  )

  const START := State([], map[], map[], [], {}, [], true, true, true, false)

  datatype Step =
    | DrawId
    | CheckAlive(t: Ticket)
    | Register(t: Ticket)
    | Enqueue(t: Ticket)
    | Withdraw(t: Ticket)
    | WritePacket
    | CloseWriter
    | ServerReply(t: Ticket)
    | Deliver
    | CloseReader
    | Drain
    | Disconnect

  predicate In(s: State, t: Ticket, phase: Phase) {
    t < |s.phases| && s.phases[t] == phase
  }

  predicate Enabled(s: State, step: Step) {
    match step
    case DrawId => true
    case CheckAlive(t) => In(s, t, Drawn)
    case Register(t) => In(s, t, Checked)
    case Enqueue(t) => In(s, t, Registered) && s.writerOpen && |s.queue| < QUEUE_CAPACITY
    case Withdraw(t) => In(s, t, Registered) && !s.writerOpen
    case WritePacket => s.writerOpen && s.queue != []
    case CloseWriter => s.writerOpen
    case ServerReply(t) => t in s.wire
    case Deliver => s.readerOpen && s.replies != []
    case CloseReader => s.readerOpen
    case Drain => !s.readerOpen && !s.drained
    case Disconnect => true
  }

  /** Dropping a sender resolves its receiver as a lost connection. */
  function Dropped(s: State, id: nat): map<Ticket, Answer> {
    if id in s.pending then s.answers[s.pending[id] := ConnectionLost] else s.answers
  }

  function Next(s: State, step: Step): State
    requires Enabled(s, step)
  {
    match step
    case DrawId => s.(phases := s.phases + [Drawn])
    case CheckAlive(t) => s.(phases := s.phases[t := if s.alive then Checked else Refused])
    case Register(t) =>
      s.(phases := s.phases[t := Registered],
         answers := Dropped(s, IdOf(t)),
         pending := s.pending[IdOf(t) := t])
    case Enqueue(t) => s.(phases := s.phases[t := Sent], queue := s.queue + [t])
    case Withdraw(t) =>
      s.(phases := s.phases[t := Refused],
         answers := Dropped(s, IdOf(t)),
         pending := s.pending - {IdOf(t)})
    case WritePacket => s.(queue := s.queue[1..], wire := s.wire + {s.queue[0]})
    case CloseWriter => s.(writerOpen := false, queue := [], alive := false)
    case ServerReply(t) => s.(wire := s.wire - {t}, replies := s.replies + [t])
    case Deliver =>
      var reply := s.replies[0];
      var id := IdOf(reply);
      if id in s.pending then
        s.(replies := s.replies[1..],
           answers := s.answers[s.pending[id] := Reply(reply)],
           pending := s.pending - {id})
      else s.(replies := s.replies[1..])
    case CloseReader => s.(readerOpen := false, alive := false)
    case Drain =>
      s.(drained := true,
         answers := s.answers + (map t | t in s.pending.Values :: ConnectionLost),
         pending := map[])
    case Disconnect => s.(alive := false)
  }

  /** The receiver of t exists and has not been resolved. */
  predicate Waiting(s: State, t: Ticket) {
    (In(s, t, Registered) || In(s, t, Sent)) && t !in s.answers
  }

  /** The packet or the reply of t is on its way. */
  predicate Travelling(s: State, t: Ticket) {
    t in s.queue || t in s.wire || t in s.replies
  }

  predicate Distinct(tickets: seq<Ticket>) {
    forall i, j :: 0 <= i < j < |tickets| ==> tickets[i] != tickets[j]
  }

  /** The map holds exactly the receivers that are waiting, each under its own id. */
  ghost predicate Routed(s: State) {
    && (forall t :: Waiting(s, t) ==> IdOf(t) in s.pending && s.pending[IdOf(t)] == t)
    && (forall id :: id in s.pending ==> Waiting(s, s.pending[id]) && IdOf(s.pending[id]) == id)
  }

  /** Every request is in at most one place, and there only once it was registered and sent. */
  ghost predicate Placed(s: State) {
    && (forall t :: Travelling(s, t) ==> In(s, t, Sent))
    && Distinct(s.queue) && Distinct(s.replies)
    && (forall t :: t in s.queue ==> t !in s.wire && t !in s.replies)
    && (forall t :: t in s.wire ==> t !in s.replies)
  }

  /** A receiver is resolved with the reply to its own request or, once the reader has drained
      the map, as lost. A request whose reply was delivered is nowhere any more. */
  ghost predicate Answered(s: State) {
    && (forall t :: t in s.answers ==>
          && (In(s, t, Registered) || In(s, t, Sent) || In(s, t, Refused))
          && (|| (s.answers[t] == Reply(t) && In(s, t, Sent) && !Travelling(s, t))
              || (s.answers[t] == ConnectionLost && (s.drained || In(s, t, Refused)))))
    && (s.drained ==> !s.readerOpen)
  }

  ghost predicate Inv(s: State) {
    Routed(s) && Placed(s) && Answered(s)
  }

  /** No receiver is waiting under the id that a request is about to use. */
  predicate Fresh(s: State, step: Step) {
    step.Register? ==> IdOf(step.t) !in s.pending
  }

  /** A request on its way to the map or waiting under its id. */
  predicate Unfinished(s: State, t: Ticket) {
    In(s, t, Drawn) || In(s, t, Checked) || Waiting(s, t)
  }

  /** At most 2^32 ids have been drawn since that of the oldest request that is unfinished. */
  ghost predicate IdsFit(s: State) {
    forall t: Ticket :: Unfinished(s, t) ==> |s.phases| <= t + IDS
  }

  /** As long as the ids fit, none is drawn that is in use. */
  lemma WindowKeepsIdsFresh(s: State, step: Step)
    requires Enabled(s, step) && Inv(s) && IdsFit(s)
    ensures Fresh(s, step)
  {
    if step.Register? && IdOf(step.t) in s.pending {
      var older := s.pending[IdOf(step.t)];
      assert Waiting(s, older) && Unfinished(s, older) && Unfinished(s, step.t);
      SameId(older, step.t);
    }
  }

  lemma SameId(a: Ticket, b: Ticket)
    requires IdOf(a) == IdOf(b) && a != b
    ensures a >= b + IDS || b >= a + IDS
  {
  }

  /** Without freshness the claim is false: registering a request under an id that is in use
      resolves the older receiver as lost, although the connection may be in order. With it,
      nobody's receiver is touched. */
  lemma RegisterIsHarmlessIffFresh(s: State, t: Ticket)
    requires Inv(s) && Enabled(s, Register(t))
    ensures Fresh(s, Register(t)) <==>
              forall older :: Waiting(s, older) ==> Waiting(Next(s, Register(t)), older)
  {
    var s' := Next(s, Register(t));
    if !Fresh(s, Register(t)) {
      var older := s.pending[IdOf(t)];
      assert Waiting(s, older) && !Waiting(s', older);
    }
  }

  lemma SendKeepsInv(s: State, step: Step)
    requires Inv(s) && Enabled(s, step) && Fresh(s, step)
    requires step.DrawId? || step.CheckAlive? || step.Enqueue? || step.Disconnect?
    ensures Inv(Next(s, step))
  {
    var s' := Next(s, step);
    if step.Enqueue? {
      assert !Travelling(s, step.t);
      assert forall u :: Travelling(s', u) <==> Travelling(s, u) || u == step.t;
    } else {
      assert forall u :: Travelling(s', u) <==> Travelling(s, u);
    }
    assert forall t :: Waiting(s', t) <==> Waiting(s, t);
  }

  lemma RegisterKeepsInv(s: State, t: Ticket)
    requires Inv(s) && Enabled(s, Register(t)) && Fresh(s, Register(t))
    ensures Inv(Next(s, Register(t)))
  {
    var s' := Next(s, Register(t));
    assert t !in s.answers;
    assert forall u :: Waiting(s', u) <==> Waiting(s, u) || u == t;
    assert forall u :: Travelling(s', u) <==> Travelling(s, u);
  }

  lemma WithdrawKeepsInv(s: State, t: Ticket)
    requires Inv(s) && Enabled(s, Withdraw(t))
    ensures Inv(Next(s, Withdraw(t)))
  {
    var s' := Next(s, Withdraw(t));
    assert !Travelling(s, t);
    assert forall u :: Travelling(s', u) <==> Travelling(s, u);
  }

  lemma ServeKeepsInv(s: State, step: Step)
    requires Inv(s) && Enabled(s, step)
    requires step.WritePacket? || step.CloseWriter?
    ensures Inv(Next(s, step))
  {
    var s' := Next(s, step);
    assert forall u :: Travelling(s', u) ==> Travelling(s, u);
    assert forall u :: Waiting(s', u) <==> Waiting(s, u);
  }

  lemma ServerReplyKeepsInv(s: State, t: Ticket)
    requires Inv(s) && Enabled(s, ServerReply(t))
    ensures Inv(Next(s, ServerReply(t)))
  {
    var s' := Next(s, ServerReply(t));
    assert forall u :: Travelling(s', u) <==> Travelling(s, u);
    assert forall u :: Waiting(s', u) <==> Waiting(s, u);
  }

  /** While the reader is open, the reply it delivers finds the receiver of its own request. */
  lemma ReplyFindsItsReceiver(s: State)
    requires Inv(s) && Enabled(s, Deliver)
    ensures IdOf(s.replies[0]) in s.pending && s.pending[IdOf(s.replies[0])] == s.replies[0]
  {
    assert Travelling(s, s.replies[0]);
    assert Waiting(s, s.replies[0]);
  }

  /** Delivering it resolves exactly that receiver, with its reply, and clears the entry. */
  lemma DeliverAnswers(s: State)
    requires Inv(s) && Enabled(s, Deliver)
    ensures var t, s' := s.replies[0], Next(s, Deliver);
            && t !in s.answers && s'.answers == s.answers[t := Reply(t)]
            && IdOf(t) !in s'.pending && s'.pending == s.pending - {IdOf(t)}
            && s'.replies == s.replies[1..]
  {
    ReplyFindsItsReceiver(s);
    assert Waiting(s, s.replies[0]);
  }

  /** When the reader has closed, draining the map resolves every receiver that still waits as lost,
      and nobody else's answer changes. */
  lemma DrainResolvesAll(s: State)
    requires Inv(s) && Enabled(s, Drain)
    ensures var s' := Next(s, Drain);
            && s'.pending == map[] && (forall t :: !Waiting(s', t))
            && (forall t :: Waiting(s, t) ==> t in s'.answers && s'.answers[t] == ConnectionLost)
            && (forall t :: t in s.answers ==> t in s'.answers && s'.answers[t] == s.answers[t])
  {
    var s' := Next(s, Drain);
    forall t | Waiting(s, t)
      ensures t in s'.answers && s'.answers[t] == ConnectionLost
    {
      assert IdOf(t) in s.pending.Keys && t in s.pending.Values;
    }
    forall t ensures !Waiting(s', t) {
      assert Waiting(s, t) ==> t in s'.answers;
    }
  }

  /** A sender is refused if and only if the connection was found dead, or its packet could not be
      handed over; then it leaves no entry behind. */
  lemma RefusedLeavesNothing(s: State, t: Ticket)
    requires Inv(s)
    ensures Enabled(s, CheckAlive(t)) ==>
              var s' := Next(s, CheckAlive(t));
              (In(s', t, Refused) <==> !s.alive) && s'.pending == s.pending && s'.answers == s.answers
    ensures Enabled(s, Withdraw(t)) ==>
              var s' := Next(s, Withdraw(t));
              In(s', t, Refused) && IdOf(t) !in s'.pending && t !in s'.queue
  {
    if Enabled(s, Withdraw(t)) {
      assert !Travelling(s, t);
    }
  }

  lemma DeliverKeepsInv(s: State)
    requires Inv(s) && Enabled(s, Deliver)
    ensures Inv(Next(s, Deliver))
  {
    ReplyFindsItsReceiver(s);
    var s', t := Next(s, Deliver), s.replies[0];
    assert forall u :: Travelling(s', u) <==> Travelling(s, u) && u != t;
    assert forall u :: Waiting(s', u) <==> Waiting(s, u) && u != t;
    assert Travelling(s, t) && !Travelling(s', t);
  }

  lemma CloseKeepsInv(s: State, step: Step)
    requires Inv(s) && Enabled(s, step)
    requires step.CloseReader? || step.Drain?
    ensures Inv(Next(s, step))
  {
    var s' := Next(s, step);
    assert forall u :: Travelling(s', u) <==> Travelling(s, u);
    if step.Drain? {
      forall u | Waiting(s, u)
        ensures u in s.pending.Values
      {
        assert IdOf(u) in s.pending.Keys;
      }
    }
  }

  lemma StepKeepsInv(s: State, step: Step)
    requires Inv(s) && Enabled(s, step) && Fresh(s, step)
    ensures Inv(Next(s, step))
  {
    hide Inv, Next;
    match step
    case Register(t) => RegisterKeepsInv(s, t);
    case Withdraw(t) => WithdrawKeepsInv(s, t);
    case WritePacket => ServeKeepsInv(s, step);
    case CloseWriter => ServeKeepsInv(s, step);
    case ServerReply(t) => ServerReplyKeepsInv(s, t);
    case Deliver => DeliverKeepsInv(s);
    case CloseReader => CloseKeepsInv(s, step);
    case Drain => CloseKeepsInv(s, step);
    case _ => SendKeepsInv(s, step);
  }

  /** An interleaving: steps of any task in any order, each enabled where it happens. */
  ghost predicate Interleaving(states: seq<State>, steps: seq<Step>) {
    && |states| == |steps| + 1
    && states[0] == START
    && forall i :: 0 <= i < |steps| ==> Enabled(states[i], steps[i]) && states[i + 1] == Next(states[i], steps[i])
  }

  /** The ids fit wherever a request is registered. */
  ghost predicate IdsAlwaysFit(states: seq<State>, steps: seq<Step>)
    requires |states| == |steps| + 1
  {
    forall i :: 0 <= i < |steps| && steps[i].Register? ==> IdsFit(states[i])
  }

  lemma {:induction false} InterleavingKeepsInv(states: seq<State>, steps: seq<Step>, i: nat)
    requires Interleaving(states, steps) && IdsAlwaysFit(states, steps) && i < |states|
    ensures Inv(states[i])
    ensures i < |steps| ==> Fresh(states[i], steps[i])
  {
    hide Next, Inv, IdsFit;
    if i == 0 {
      StartIsFine();
    } else {
      InterleavingKeepsInv(states, steps, i - 1);
      StepKeepsInv(states[i - 1], steps[i - 1]);
    }
    if i < |steps| && steps[i].Register? {
      WindowKeepsIdsFresh(states[i], steps[i]);
    }
  }

  lemma StartIsFine()
    ensures Inv(START)
  {
  }

  /** Once resolved, a receiver keeps its answer through any step. */
  lemma StepKeepsAnswers(s: State, step: Step)
    requires Inv(s) && Enabled(s, step) && Fresh(s, step)
    ensures forall t :: t in s.answers ==> t in Next(s, step).answers && Next(s, step).answers[t] == s.answers[t]
  {
    match step
    case Deliver => ReplyFindsItsReceiver(s);
    case _ =>
  }

  lemma {:induction false} AnswersAreFinal(states: seq<State>, steps: seq<Step>, i: nat, j: nat, t: Ticket)
    requires Interleaving(states, steps) && IdsAlwaysFit(states, steps) && i <= j < |states|
    requires t in states[i].answers
    ensures t in states[j].answers && states[j].answers[t] == states[i].answers[t]
  {
    hide Next, Inv, Enabled, IdsAlwaysFit;
    if i < j {
      AnswersAreFinal(states, steps, i, j - 1, t);
      InterleavingKeepsInv(states, steps, j - 1);
      StepKeepsAnswers(states[j - 1], steps[j - 1]);
    }
  }

  /** A receiver's answer: the reply to its own request, or connection-lost. The latter comes only
      to a request that was refused, or after the reader has closed. */
  predicate IsOwnAnswer(s: State, t: Ticket)
    requires t in s.answers
  {
    || s.answers[t] == Reply(t)
    || (s.answers[t] == ConnectionLost && (!s.readerOpen || In(s, t, Refused)))
  }

  /** Reply routing is safe under every interleaving in which the ids fit: a receiver is resolved
      once and for all, with its own answer, and as long as the reader is open, a reply on its way
      has its receiver waiting in the map. */
  lemma RoutingIsSafe(states: seq<State>, steps: seq<Step>, i: nat, j: nat, t: Ticket)
    requires Interleaving(states, steps) && IdsAlwaysFit(states, steps) && i <= j < |states|
    ensures t in states[i].answers ==>
              t in states[j].answers && states[j].answers[t] == states[i].answers[t] && IsOwnAnswer(states[i], t)
    ensures states[i].readerOpen && Travelling(states[i], t) ==>
              IdOf(t) in states[i].pending && states[i].pending[IdOf(t)] == t
  {
    hide Next, IdsAlwaysFit;
    InterleavingKeepsInv(states, steps, i);
    if t in states[i].answers {
      AnswersAreFinal(states, steps, i, j, t);
    }
    if states[i].readerOpen && Travelling(states[i], t) {
      assert Waiting(states[i], t);
    }
  }

  /** The reader and the writer task take the connection down with them, for good: whoever looks
      afterwards is refused and leaves no receiver that nobody would resolve. */
  lemma {:induction false} DeadStaysDead(states: seq<State>, steps: seq<Step>, i: nat, j: nat)
    requires Interleaving(states, steps) && i < j < |states|
    requires steps[i].CloseReader? || steps[i].CloseWriter? || steps[i].Disconnect?
    ensures !states[j].alive
    ensures j < |steps| && steps[j].CheckAlive? ==>
              In(states[j + 1], steps[j].t, Refused) && states[j + 1].pending == states[j].pending
  {
    if i + 1 < j {
      DeadStaysDead(states, steps, i, j - 1);
    }
  }

  // The exact condition, over runs

  /** What holds once the reader has closed, whichever ids are drawn then: every answer is its own
      reply or connection-lost, and the map still holds unresolved receivers only. */
  ghost predicate Closed(s: State) {
    && !s.readerOpen
    && (forall t :: t in s.answers ==>
          && (In(s, t, Registered) || In(s, t, Sent) || In(s, t, Refused))
          && (s.answers[t] == Reply(t) || s.answers[t] == ConnectionLost))
    && (forall id :: id in s.pending ==>
          && IdOf(s.pending[id]) == id && s.pending[id] !in s.answers
          && (In(s, s.pending[id], Registered) || In(s, s.pending[id], Sent)))
  }

  ghost predicate Sound(s: State) {
    if s.readerOpen then Inv(s) else Closed(s)
  }

  predicate KeepsAnswers(s: State, s': State) {
    forall t :: t in s.answers ==> t in s'.answers && s'.answers[t] == s.answers[t]
  }

  lemma ClosedRegister(s: State, t: Ticket)
    requires Closed(s) && Enabled(s, Register(t))
    ensures Closed(Next(s, Register(t))) && KeepsAnswers(s, Next(s, Register(t)))
  {
    assert t !in s.answers;
  }

  lemma ClosedWithdraw(s: State, t: Ticket)
    requires Closed(s) && Enabled(s, Withdraw(t))
    ensures Closed(Next(s, Withdraw(t))) && KeepsAnswers(s, Next(s, Withdraw(t)))
  {
  }

  lemma ClosedDrain(s: State)
    requires Closed(s) && Enabled(s, Drain)
    ensures Closed(Next(s, Drain)) && KeepsAnswers(s, Next(s, Drain))
  {
  }

  /** A closed reader is never opened again, and no registration can do any harm then. */
  lemma ClosedStays(s: State, step: Step)
    requires Closed(s) && Enabled(s, step)
    ensures Closed(Next(s, step)) && KeepsAnswers(s, Next(s, step))
  {
    hide Closed, Next, Enabled, KeepsAnswers;
    match step
    case Register(t) => ClosedRegister(s, t);
    case Withdraw(t) => ClosedWithdraw(s, t);
    case Drain => ClosedDrain(s);
    case _ => ClosedOther(s, step);
  }

  lemma ClosedOther(s: State, step: Step)
    requires Closed(s) && Enabled(s, step) && !step.Register? && !step.Withdraw? && !step.Drain?
    ensures Closed(Next(s, step)) && KeepsAnswers(s, Next(s, step))
  {
    var s' := Next(s, step);
    assert s'.answers == s.answers && s'.pending == s.pending && !s'.readerOpen;
    forall t | In(s, t, Registered) || In(s, t, Sent) || In(s, t, Refused)
      ensures In(s', t, Registered) || In(s', t, Sent) || In(s', t, Refused)
      ensures In(s, t, Refused) ==> In(s', t, Refused)
    {
    }
  }

  lemma InvClosed(s: State)
    requires Inv(s) && !s.readerOpen
    ensures Closed(s)
  {
  }

  lemma StepKeepsSound(s: State, step: Step)
    requires Sound(s) && Enabled(s, step) && (s.readerOpen ==> Fresh(s, step))
    ensures Sound(Next(s, step)) && KeepsAnswers(s, Next(s, step))
  {
    hide Inv, Closed, Next, Enabled;
    if s.readerOpen {
      StepKeepsInv(s, step);
      StepKeepsAnswers(s, step);
      if !Next(s, step).readerOpen {
        InvClosed(Next(s, step));
      }
    } else {
      SoundIsClosed(s);
      ClosedStays(s, step);
      ClosedIsSound(Next(s, step));
    }
  }

  lemma ClosedIsSound(s: State)
    requires Closed(s)
    ensures Sound(s)
  {
  }

  lemma SoundIsClosed(s: State)
    requires Sound(s) && !s.readerOpen
    ensures Closed(s)
  {
  }

  lemma SoundIsOwn(s: State)
    requires Sound(s)
    ensures forall t :: t in s.answers ==> IsOwnAnswer(s, t)
  {
  }

  /** Up to a point of a run: whatever was registered while the reader was open took an id that was
      not in use. */
  ghost predicate FreshWhileOpen(states: seq<State>, steps: seq<Step>, n: nat)
    requires n <= |steps| && |states| == |steps| + 1
  {
    forall i :: 0 <= i < n && states[i].readerOpen ==> Fresh(states[i], steps[i])
  }

  ghost predicate AnswersAreOwn(states: seq<State>) {
    forall i, t :: 0 <= i < |states| && t in states[i].answers ==> IsOwnAnswer(states[i], t)
  }

  lemma {:induction false} FreshRunIsSound(states: seq<State>, steps: seq<Step>, i: nat)
    requires Interleaving(states, steps) && i < |states| && FreshWhileOpen(states, steps, i)
    ensures Sound(states[i])
  {
    hide Next, Inv, Sound, Fresh, Enabled;
    if i == 0 {
      StartIsSound();
    } else {
      FreshRunIsSound(states, steps, i - 1);
      StepKeepsSound(states[i - 1], steps[i - 1]);
    }
  }

  lemma StartIsSound()
    ensures Sound(START)
  {
    StartIsFine();
  }

  /** Registering under an id that is in use, while the reader is open, gives the receiver that waits
      there an answer that is not its own. */
  lemma UsedIdGivesForeignAnswer(s: State, step: Step)
    requires Inv(s) && s.readerOpen && Enabled(s, step) && !Fresh(s, step)
    ensures exists t :: t in Next(s, step).answers && !IsOwnAnswer(Next(s, step), t)
  {
    var older := s.pending[IdOf(step.t)];
    assert Waiting(s, older);
    assert older in Next(s, step).answers;
  }

  /** The first step of a run that takes an id in use. */
  lemma {:induction false} FirstUsedId(states: seq<State>, steps: seq<Step>, n: nat) returns (i: nat)
    requires n <= |steps| && |states| == |steps| + 1 && !FreshWhileOpen(states, steps, n)
    ensures i < n && FreshWhileOpen(states, steps, i) && states[i].readerOpen && !Fresh(states[i], steps[i])
  {
    hide Fresh;
    if FreshWhileOpen(states, steps, n - 1) {
      i := n - 1;
    } else {
      i := FirstUsedId(states, steps, n - 1);
    }
  }

  /** Routing is safe in a run, that is, all answers ever given are their receivers' own, if and only
      if no request that was registered while the reader was open took an id in use. */
  lemma RoutingIsSafeIff(states: seq<State>, steps: seq<Step>)
    requires Interleaving(states, steps)
    ensures AnswersAreOwn(states) <==> FreshWhileOpen(states, steps, |steps|)
  {
    hide Next, Inv, Sound, Fresh, Enabled, IsOwnAnswer;
    if FreshWhileOpen(states, steps, |steps|) {
      forall i, t | 0 <= i < |states| && t in states[i].answers ensures IsOwnAnswer(states[i], t) {
        FreshRunIsSound(states, steps, i);
        SoundIsOwn(states[i]);
      }
    } else {
      var i := FirstUsedId(states, steps, |steps|);
      FreshRunIsSound(states, steps, i);
      SoundWhileOpen(states[i]);
      UsedIdGivesForeignAnswer(states[i], steps[i]);
      var t :| t in states[i + 1].answers && !IsOwnAnswer(states[i + 1], t);
    }
  }

  lemma SoundWhileOpen(s: State)
    requires Sound(s) && s.readerOpen
    ensures Inv(s)
  {
  }

  // Why the ids have to fit: a run in which they do not

  /** Ticket 0 waits for its reply, which the server keeps back, and all tickets from 1 up to but
      not including n have been answered. */
  function OneWaits(n: nat): State
    requires n > 0
  {
    START.(phases := seq(n, i => Sent), answers := map t: Ticket | 1 <= t < n :: t := Reply(t),
           pending := map[1 := 0], wire := {0})
  }

  function Last(states: seq<State>): State
    requires states != []
  {
    states[|states| - 1]
  }

  ghost predicate AtMostTwoWait(states: seq<State>) {
    forall i :: 0 <= i < |states| ==> |states[i].pending| <= 2
  }

  lemma Append(states: seq<State>, steps: seq<Step>, step: Step) returns (states': seq<State>, steps': seq<Step>)
    requires Interleaving(states, steps) && Enabled(Last(states), step)
    ensures Interleaving(states', steps') && Last(states') == Next(Last(states), step)
    ensures AtMostTwoWait(states) && |Last(states').pending| <= 2 ==> AtMostTwoWait(states')
  {
    hide Next, Enabled;
    states', steps' := states + [Next(Last(states), step)], steps + [step];
    forall i | 0 <= i < |steps'|
      ensures Enabled(states'[i], steps'[i]) && states'[i + 1] == Next(states'[i], steps'[i])
    {
      if i < |steps| {
        assert states'[i] == states[i] && states'[i + 1] == states[i + 1];
      }
    }
  }

  /** The steps of one request up to the writer task. */
  lemma SendsOne(states: seq<State>, steps: seq<Step>) returns (states': seq<State>, steps': seq<Step>)
    requires Interleaving(states, steps)
    requires var s := Last(states); s.alive && s.writerOpen && s.queue == []
    ensures Interleaving(states', steps')
    ensures AtMostTwoWait(states) && |Last(states).pending| <= 1 ==> AtMostTwoWait(states')
    ensures var s, t := Last(states), |Last(states).phases|;
            Last(states') == s.(phases := s.phases + [Sent], answers := Dropped(s, IdOf(t)),
                                pending := s.pending[IdOf(t) := t], wire := s.wire + {t})
  {
    var s := Last(states);
    var t := |s.phases|;
    states', steps' := Append(states, steps, DrawId);
    states', steps' := Append(states', steps', CheckAlive(t));
    states', steps' := Append(states', steps', Register(t));
    states', steps' := Append(states', steps', Enqueue(t));
    states', steps' := Append(states', steps', WritePacket);
    assert Last(states').phases == s.phases + [Sent];
  }

  /** The server answers a request that waits under its id. */
  lemma AnswersOne(states: seq<State>, steps: seq<Step>, t: Ticket) returns (states': seq<State>, steps': seq<Step>)
    requires Interleaving(states, steps)
    requires var s := Last(states); s.readerOpen && s.replies == [] && t in s.wire
    requires var s := Last(states); IdOf(t) in s.pending && s.pending[IdOf(t)] == t
    ensures Interleaving(states', steps')
    ensures AtMostTwoWait(states) ==> AtMostTwoWait(states')
    ensures var s := Last(states);
            Last(states') == s.(answers := s.answers[t := Reply(t)],
                                pending := s.pending - {IdOf(t)}, wire := s.wire - {t})
  {
    states', steps' := Append(states, steps, ServerReply(t));
    states', steps' := Append(states', steps', Deliver);
  }

  lemma {:induction false} OneWaitsIsReached(n: nat) returns (states: seq<State>, steps: seq<Step>)
    requires 0 < n <= IDS
    ensures Interleaving(states, steps) && Last(states) == OneWaits(n) && AtMostTwoWait(states)
  {
    hide Interleaving, Next, Enabled, AtMostTwoWait;
    if n == 1 {
      StartIsAnInterleaving();
      states, steps := SendsOne([START], []);
      assert Last(states) == OneWaits(1);
    } else {
      states, steps := OneWaitsIsReached(n - 1);
      states, steps := SendsOne(states, steps);
      states, steps := AnswersOne(states, steps, n - 1);
      OneMoreAnswered(n);
    }
  }

  lemma StartIsAnInterleaving()
    ensures Interleaving([START], []) && AtMostTwoWait([START])
  {
  }

  lemma OneMoreAnswered(n: nat)
    requires 1 < n <= IDS
    ensures IdOf(n - 1) == n % IDS != 1
    ensures var s, t := OneWaits(n - 1), n - 1;
            OneWaits(n) == s.(phases := s.phases + [Sent], answers := s.answers[t := Reply(t)],
                              pending := s.pending[IdOf(t) := t] - {IdOf(t)}, wire := s.wire + {t} - {t})
  {
  }

  /** Without the window the claim is false, although never more than two requests are
      outstanding: when the counter has come round, the request that takes the id of the one that
      waits has it resolved as lost. Connection, reader and writer are all in order. */
  lemma WrappedIdLosesReply()
    ensures exists states: seq<State>, steps: seq<Step> ::
              && Interleaving(states, steps) && AtMostTwoWait(states)
              && (var s := Last(states);
                  && s.alive && s.readerOpen && s.writerOpen
                  && In(s, 0, Sent) && 0 in s.wire && |s.pending| == 1
                  && 0 in s.answers && s.answers[0] == ConnectionLost && !IsOwnAnswer(s, 0))
  {
    hide Interleaving, Next, Enabled, AtMostTwoWait;
    var states, steps := OneWaitsIsReached(IDS);
    states, steps := SendsOne(states, steps);
    assert IdOf(IDS) == 1;
    var s := Last(states);
    assert s.pending == map[1 := IDS];
  }
}
