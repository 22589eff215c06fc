/** Request correlation in the MCP client: concurrent calls, the read loop and Close
    share a table of pending channels.

    A call locks the mutex to register itself and to give up, the read loop to take a
    channel out and to shut down, Close to shut down. Each locked section and each
    channel operation is one atomic step; `Next` is any one of them, so `Execute` runs
    over every interleaving of any number of calls. */
module McpClient {
  import opened Wrappers

  type CallId = nat
  type ChannelRef = nat

  datatype Envelope = Envelope(id: Option<CallId>, body: string)

  /** A Go channel of capacity one, made by call `maker`, with the number of sends and
      closes it has seen. */
  datatype Channel = Channel(maker: CallId, buffer: seq<Envelope>, closed: bool, sends: nat, closes: nat)

  function NewChannel(maker: CallId): Channel {
    Channel(maker, [], false, 0, 0)
  }

  function Send(c: Channel, message: Envelope): Channel {
    c.(buffer := c.buffer + [message], sends := c.sends + 1)
  }

  function CloseChannel(c: Channel): Channel {
    c.(closed := true, closes := c.closes + 1)
  }

  datatype CallResult =
    ClientClosed | SendFailed | Cancelled | ConnectionClosed(cause: Option<string>) | Response(message: Envelope)

  /** Where a call has got to. `id` is taken before the mutex is locked. */
  datatype Call =
    | Numbered
    | Sending(channel: ChannelRef)
    | Waiting(channel: ChannelRef)
    | GivingUp(result: CallResult)
    | Returned(result: CallResult)

  /** Where the read loop has got to: between messages, about to send outside the
      mutex, or finished. */
  datatype Reader = Reading | Delivering(channel: ChannelRef, message: Envelope) | Finished

  datatype State = State(
    nextId: nat,
    pending: map<CallId, ChannelRef>,
    closed: bool,
    readErr: Option<string>,
    channels: seq<Channel>,
    calls: map<CallId, Call>,
    reader: Reader)

  const INITIAL := State(0, map[], false, None, [], map[], Reading)

  datatype Step =
    | TakeNumber
    | Register(id: CallId)
    | SendDone(id: CallId)
    | SendError(id: CallId)
    | ContextDone(id: CallId)
    | GiveUp(id: CallId)
    | Receive(id: CallId)
    | Take(message: Envelope)
    | Deliver
    | EndOfInput(error: Option<string>)
    | Close

  /** The channels of the given references, each closed once more. */
  function CloseAll(channels: seq<Channel>, refs: set<ChannelRef>): (closed: seq<Channel>)
  {
    seq(|channels|, i requires 0 <= i < |channels| => if i in refs then CloseChannel(channels[i]) else channels[i])
  }

  predicate CanReceive(c: Channel) {
    c.buffer != [] || c.closed
  }

  /** The step's goroutine is at that point of its code and the step does not block,
      apart from the send, whose blocking is `Blocks`. */
  predicate Enabled(s: State, step: Step) {
    match step
    case TakeNumber => true
    case Register(id) => id in s.calls && s.calls[id].Numbered?
    case SendDone(id) => id in s.calls && s.calls[id].Sending?
    case SendError(id) => id in s.calls && s.calls[id].Sending?
    case ContextDone(id) => id in s.calls && s.calls[id].Waiting?
    case GiveUp(id) => id in s.calls && s.calls[id].GivingUp?
    case Receive(id) =>
      && id in s.calls && s.calls[id].Waiting?
      && s.calls[id].channel < |s.channels| && CanReceive(s.channels[s.calls[id].channel])
    case Take(_) => s.reader.Reading?
    case Deliver => s.reader.Delivering? && s.reader.channel < |s.channels|
    case EndOfInput(_) => s.reader.Reading?
    case Close => true
  }

  function Shutdown(s: State): State {
    s.(channels := CloseAll(s.channels, s.pending.Values), pending := map[])
  }

  function Next(s: State, step: Step): State
    requires Enabled(s, step)
  {
    match step
    case TakeNumber =>
      s.(nextId := s.nextId + 1, calls := s.calls[s.nextId + 1 := Numbered])
    case Register(id) =>
      if s.closed then s.(calls := s.calls[id := Returned(ClientClosed)])
      else s.(channels := s.channels + [NewChannel(id)], pending := s.pending[id := |s.channels|],
              calls := s.calls[id := Sending(|s.channels|)])
    case SendDone(id) =>
      s.(calls := s.calls[id := Waiting(s.calls[id].channel)])
    case SendError(id) =>
      s.(calls := s.calls[id := GivingUp(SendFailed)])
    case ContextDone(id) =>
      s.(calls := s.calls[id := GivingUp(Cancelled)])
    case GiveUp(id) =>
      s.(pending := s.pending - {id}, calls := s.calls[id := Returned(s.calls[id].result)])
    case Receive(id) =>
      var c := s.channels[s.calls[id].channel];
      if c.buffer != [] then
        s.(channels := s.channels[s.calls[id].channel := c.(buffer := c.buffer[1..])],
           calls := s.calls[id := Returned(Response(c.buffer[0]))])
      else
        s.(calls := s.calls[id := Returned(ConnectionClosed(s.readErr))])
    case Take(message) =>
      if message.id.None? || message.id.value !in s.pending then s
      else s.(pending := s.pending - {message.id.value}, reader := Delivering(s.pending[message.id.value], message))
    case Deliver =>
      s.(channels := s.channels[s.reader.channel := Send(s.channels[s.reader.channel], s.reader.message)],
         reader := Reading)
    case EndOfInput(error) =>
      Shutdown(s.(readErr := if error.Some? then error else Some("closed pipe"), reader := Finished))
    case Close =>
      if s.closed then s else Shutdown(s.(closed := true))
  }

  // ---- What must not happen -------------------------------------------------

  /** The step would panic: a send on a closed channel, or a close of a closed one. */
  predicate Panics(s: State, step: Step) {
    match step
    case Deliver => s.reader.Delivering? && s.reader.channel < |s.channels| && s.channels[s.reader.channel].closed
    case EndOfInput(_) => exists id ::
      id in s.pending && s.pending[id] < |s.channels| && s.channels[s.pending[id]].closed
    case Close => !s.closed && exists id ::
      id in s.pending && s.pending[id] < |s.channels| && s.channels[s.pending[id]].closed
    case _ => false
  }

  /** The step would block on a full channel. */
  predicate Blocks(s: State, step: Step) {
    && step.Deliver? && s.reader.Delivering?
    && s.reader.channel < |s.channels| && s.channels[s.reader.channel].buffer != []
  }

  // ---- Invariant ------------------------------------------------------------

  /** The call has sent, or is sending, its request and will look into its channel. */
  predicate Open(call: Call) {
    call.Sending? || call.Waiting?
  }

  /** `c` is the channel call `id` made, and nothing was sent to it or closed it. */
  predicate Untouched(s: State, c: ChannelRef, id: CallId) {
    c < |s.channels| && s.channels[c] == NewChannel(id)
  }

  /** A pending entry leads to the untouched channel of its own call. */
  predicate PendingInv(s: State, id: CallId) {
    id in s.pending ==>
      && id in s.calls && (Open(s.calls[id]) || s.calls[id].GivingUp?)
      && Untouched(s, s.pending[id], id)
      && (Open(s.calls[id]) ==> s.calls[id].channel == s.pending[id])
  }

  /** A response a call returned carries its id. While the call is open its channel
      is still pending, about to be sent to, filled or closed. */
  predicate CallInv(s: State, id: CallId) {
    id in s.calls ==>
      && 1 <= id <= s.nextId
      && (s.calls[id].GivingUp? ==> !s.calls[id].result.Response?)
      && (s.calls[id].Returned? && s.calls[id].result.Response? ==> s.calls[id].result.message.id == Some(id))
      && (Open(s.calls[id]) ==>
            var c := s.calls[id].channel;
            && c < |s.channels| && s.channels[c].maker == id
            && (|| (id in s.pending && s.pending[id] == c)
                || (s.reader.Delivering? && s.reader.channel == c)
                || CanReceive(s.channels[c])))
  }

  /** The read loop about to send: the channel is untouched and no longer pending, and
      the message carries the id of the call that made the channel. */
  predicate ReaderInv(s: State) {
    s.reader.Delivering? ==>
      && s.reader.message.id.Some?
      && s.reader.message.id.value in s.calls && !s.calls[s.reader.message.id.value].Numbered?
      && s.reader.message.id.value !in s.pending
      && Untouched(s, s.reader.channel, s.reader.message.id.value)
  }

  /** A channel has seen at most one send, of an answer to its maker, and at most one
      close. */
  predicate ChannelInv(c: Channel) {
    && |c.buffer| <= c.sends <= 1 && c.closes <= 1
    && (c.closed <==> c.closes == 1)
    && (c.buffer != [] ==> c.buffer[0].id == Some(c.maker))
  }

  ghost predicate Inv(s: State) {
    && (s.closed ==> s.pending == map[])
    && (forall id :: PendingInv(s, id))
    && (forall id :: CallInv(s, id))
    && ReaderInv(s)
    && (forall c :: 0 <= c < |s.channels| ==> ChannelInv(s.channels[c]))
  }

  lemma InvInitially()
    ensures Inv(INITIAL)
  {
  }

  lemma CallStepKeepsInv(s: State, step: Step)
    requires Inv(s) && Enabled(s, step) && (step.TakeNumber? || step.SendDone? || step.SendError? || step.ContextDone?)
    ensures Inv(Next(s, step))
  {
    var t := Next(s, step);
    forall id ensures PendingInv(t, id) && CallInv(t, id) {
      assert PendingInv(s, id) && CallInv(s, id);
    }
    if s.reader.Delivering? {
      assert CallInv(s, s.reader.message.id.value);
    }
  }

  lemma RegisterKeepsInv(s: State, step: Step)
    requires Inv(s) && Enabled(s, step) && step.Register?
    ensures Inv(Next(s, step))
  {
    var t := Next(s, step);
    assert CallInv(s, step.id) && PendingInv(s, step.id);
    forall id ensures PendingInv(t, id) && CallInv(t, id) {
      assert PendingInv(s, id) && CallInv(s, id);
    }
  }

  lemma GiveUpKeepsInv(s: State, step: Step)
    requires Inv(s) && Enabled(s, step) && step.GiveUp?
    ensures Inv(Next(s, step))
  {
    var t := Next(s, step);
    forall id ensures PendingInv(t, id) && CallInv(t, id) {
      assert PendingInv(s, id) && CallInv(s, id);
    }
  }

  lemma ReceiveKeepsInv(s: State, step: Step)
    requires Inv(s) && Enabled(s, step) && step.Receive?
    ensures Inv(Next(s, step))
  {
    var t := Next(s, step);
    var c := s.calls[step.id].channel;
    assert CallInv(s, step.id) && PendingInv(s, step.id);
    assert ChannelInv(s.channels[c]);
    forall id ensures PendingInv(t, id) && CallInv(t, id) {
      OthersWhileReceiving(s, step, id);
    }
  }

  lemma OthersWhileReceiving(s: State, step: Step, id: CallId)
    requires Inv(s) && Enabled(s, step) && step.Receive?
    ensures PendingInv(Next(s, step), id) && CallInv(Next(s, step), id)
  {
    assert CallInv(s, step.id) && PendingInv(s, step.id);
    assert ChannelInv(s.channels[s.calls[step.id].channel]);
    assert PendingInv(s, id) && CallInv(s, id);
  }

  lemma TakeKeepsInv(s: State, step: Step)
    requires Inv(s) && Enabled(s, step) && step.Take?
    ensures Inv(Next(s, step))
  {
    var t := Next(s, step);
    forall id ensures PendingInv(t, id) && CallInv(t, id) {
      assert PendingInv(s, id) && CallInv(s, id);
    }
    if t.reader.Delivering? {
      assert PendingInv(s, step.message.id.value);
    }
  }

  lemma DeliverKeepsInv(s: State, step: Step)
    requires Inv(s) && Enabled(s, step) && step.Deliver?
    ensures Inv(Next(s, step))
  {
    var t := Next(s, step);
    forall id ensures PendingInv(t, id) && CallInv(t, id) {
      assert PendingInv(s, id) && CallInv(s, id);
    }
  }

  lemma ShutdownChannels(s: State, c: ChannelRef)
    requires Inv(s) && c < |s.channels|
    ensures c < |Shutdown(s).channels| && ChannelInv(Shutdown(s).channels[c])
    ensures Shutdown(s).channels[c].maker == s.channels[c].maker
    ensures CanReceive(s.channels[c]) ==> CanReceive(Shutdown(s).channels[c])
    ensures c in s.pending.Values ==> CanReceive(Shutdown(s).channels[c])
    ensures c !in s.pending.Values ==> Shutdown(s).channels[c] == s.channels[c]
  {
    assert ChannelInv(s.channels[c]);
    if c in s.pending.Values {
      var id :| id in s.pending && s.pending[id] == c;
      assert PendingInv(s, id);
    }
  }

  /** Shutting down, by Close or at the end of the input. */
  lemma ShutdownKeepsInv(s: State, t: State)
    requires Inv(s) && t == Shutdown(s).(closed := t.closed, readErr := t.readErr, reader := t.reader)
    requires t.reader == s.reader || (s.reader.Reading? && t.reader.Finished?)
    ensures Inv(t)
  {
    forall c: ChannelRef | c < |t.channels| ensures ChannelInv(t.channels[c]) {
      ShutdownChannels(s, c);
    }
    forall id ensures CallInv(t, id) {
      assert CallInv(s, id);
      if id in t.calls && Open(t.calls[id]) {
        ShutdownChannels(s, t.calls[id].channel);
        assert id in s.pending ==> s.pending[id] in s.pending.Values;
      }
    }
    if t.reader.Delivering? {
      ShutdownChannels(s, t.reader.channel);
      forall id | id in s.pending ensures s.pending[id] != t.reader.channel {
        assert PendingInv(s, id);
      }
    }
  }

  lemma StepKeepsInv(s: State, step: Step)
    requires Inv(s) && Enabled(s, step)
    ensures Inv(Next(s, step))
  {
    match step
    case Register(_) => RegisterKeepsInv(s, step);
    case GiveUp(_) => GiveUpKeepsInv(s, step);
    case Receive(_) => ReceiveKeepsInv(s, step);
    case Take(_) => TakeKeepsInv(s, step);
    case Deliver => DeliverKeepsInv(s, step);
    case EndOfInput(_) => ShutdownKeepsInv(s, Next(s, step));
    case Close => if !s.closed { ShutdownKeepsInv(s, Next(s, step)); }
    case _ => CallStepKeepsInv(s, step);
  }

  // ---- Every interleaving ---------------------------------------------------

  ghost predicate Possible(s: State, steps: seq<Step>)
    decreases |steps|
  {
    steps == [] || (Enabled(s, steps[0]) && Possible(Next(s, steps[0]), steps[1..]))
  }

  ghost function Execute(s: State, steps: seq<Step>): State
    requires Possible(s, steps)
    decreases |steps|
  {
    if steps == [] then s else Execute(Next(s, steps[0]), steps[1..])
  }

  lemma {:induction false} ExecuteKeepsInv(s: State, steps: seq<Step>)
    requires Inv(s) && Possible(s, steps)
    ensures Inv(Execute(s, steps))
    decreases |steps|
  {
    if steps != [] {
      StepKeepsInv(s, steps[0]);
      ExecuteKeepsInv(Next(s, steps[0]), steps[1..]);
    }
  }

  /** In every interleaving no channel is sent to after being closed, closed twice or
      sent a second value, and the read loop's send never blocks. */
  lemma NeverPanicsOrBlocks(steps: seq<Step>, step: Step)
    requires Possible(INITIAL, steps) && Enabled(Execute(INITIAL, steps), step)
    ensures !Panics(Execute(INITIAL, steps), step) && !Blocks(Execute(INITIAL, steps), step)
    ensures forall c :: 0 <= c < |Execute(INITIAL, steps).channels| ==>
      Execute(INITIAL, steps).channels[c].sends <= 1 && Execute(INITIAL, steps).channels[c].closes <= 1
  {
    InvInitially();
    ExecuteKeepsInv(INITIAL, steps);
    var s := Execute(INITIAL, steps);
    forall c | 0 <= c < |s.channels| ensures s.channels[c].sends <= 1 && s.channels[c].closes <= 1 {
      assert ChannelInv(s.channels[c]);
    }
    forall id | id in s.pending ensures s.pending[id] < |s.channels| && !s.channels[s.pending[id]].closed {
      assert PendingInv(s, id);
    }
  }

  /** A call that returns a response returns the one with its own id (section 5 of
      the JSON-RPC 2.0 specification). */
  lemma ResponseCarriesOwnId(steps: seq<Step>, id: CallId)
    requires Possible(INITIAL, steps)
    ensures var s := Execute(INITIAL, steps);
      id in s.calls && s.calls[id].Returned? && s.calls[id].result.Response? ==>
        s.calls[id].result.message.id == Some(id)
  {
    InvInitially();
    ExecuteKeepsInv(INITIAL, steps);
    assert CallInv(Execute(INITIAL, steps), id);
  }

  lemma {:induction false} ClosedForGood(s: State, steps: seq<Step>)
    requires Inv(s) && s.closed && Possible(s, steps)
    ensures Execute(s, steps).closed && Execute(s, steps).pending == map[]
    decreases |steps|
  {
    if steps != [] {
      StepKeepsInv(s, steps[0]);
      ClosedForGood(Next(s, steps[0]), steps[1..]);
    }
  }

  /** Once Close has run, the table of pending channels stays empty forever, and a
      call that registers later is refused. */
  lemma NothingPendingAfterClose(before: seq<Step>, after: seq<Step>)
    requires Possible(INITIAL, before) && Possible(Next(Execute(INITIAL, before), Close), after)
    ensures var s := Execute(Next(Execute(INITIAL, before), Close), after);
      && s.pending == map[]
      && forall id :: Enabled(s, Register(id)) ==> Next(s, Register(id)).calls[id] == Returned(ClientClosed)
  {
    InvInitially();
    ExecuteKeepsInv(INITIAL, before);
    StepKeepsInv(Execute(INITIAL, before), Close);
    ClosedForGood(Next(Execute(INITIAL, before), Close), after);
  }

  /** No wake-up is lost: once the client is closed, every call still waiting can
      return at once, except the one the read loop is just sending to. */
  lemma WaitingCallsReleased(steps: seq<Step>, id: CallId)
    requires Possible(INITIAL, steps)
    ensures var s := Execute(INITIAL, steps);
      s.closed && id in s.calls && s.calls[id].Waiting? ==>
        || Enabled(s, Receive(id))
        || (Enabled(s, Deliver) && Enabled(Next(s, Deliver), Receive(id)))
  {
    InvInitially();
    ExecuteKeepsInv(INITIAL, steps);
    var s := Execute(INITIAL, steps);
    assert CallInv(s, id) && ReaderInv(s);
  }

  // ---- Answers reach their calls --------------------------------------------

  /** An open client registers a call on an empty channel of its own; a closed one
      refuses it. */
  lemma RegisteredCallIsPending(s: State, id: CallId)
    requires Inv(s) && Enabled(s, Register(id))
    ensures var u := Next(s, Register(id));
      && (s.closed ==> u.calls[id] == Returned(ClientClosed) && u.pending == s.pending)
      && (!s.closed ==>
            && id in u.pending && u.calls[id] == Sending(u.pending[id])
            && u.pending[id] == |s.channels| < |u.channels| && u.channels[u.pending[id]].buffer == [])
  {
  }

  /** The step takes the call out of the table, or ends it. */
  predicate Unregisters(step: Step, id: CallId) {
    || step == SendError(id) || step == ContextDone(id) || step == GiveUp(id)
    || (step.Take? && step.message.id == Some(id)) || step.EndOfInput? || step.Close?
  }

  /** Until then a call that waits for its answer, or is about to, stays registered. */
  lemma {:induction false} CallStaysPending(s: State, steps: seq<Step>, id: CallId)
    requires Inv(s) && Possible(s, steps) && id in s.pending && id in s.calls && Open(s.calls[id])
    requires forall i :: 0 <= i < |steps| ==> !Unregisters(steps[i], id)
    ensures var u := Execute(s, steps);
      id in u.pending && u.pending[id] == s.pending[id] && id in u.calls && Open(u.calls[id])
    decreases |steps|
  {
    if steps != [] {
      StepKeepsInv(s, steps[0]);
      assert !Unregisters(steps[0], id);
      PendingKept(s, steps[0], id);
      CallStaysPending(Next(s, steps[0]), steps[1..], id);
    }
  }

  lemma PendingKept(s: State, step: Step, id: CallId)
    requires Inv(s) && Enabled(s, step) && id in s.pending && id in s.calls && Open(s.calls[id])
    requires !Unregisters(step, id)
    ensures var u := Next(s, step);
      id in u.pending && u.pending[id] == s.pending[id] && id in u.calls && Open(u.calls[id])
  {
    assert PendingInv(s, id) && CallInv(s, id);
  }

  /** The answer is on its way: the call is open, and the answer lies in its channel or
      is what the read loop is about to send there. */
  predicate OnTheWay(s: State, id: CallId, answer: Envelope) {
    && id in s.calls && Open(s.calls[id]) && s.calls[id].channel < |s.channels| && id !in s.pending
    && (|| s.channels[s.calls[id].channel].buffer == [answer]
        || (s.reader == Delivering(s.calls[id].channel, answer) && s.channels[s.calls[id].channel].buffer == []))
  }

  /** A message for a call that is pending is taken for it, and for no other call: the
      entry is gone and the answer is on its way. Any other message changes nothing. */
  lemma TakeExactly(s: State, message: Envelope)
    requires Inv(s) && Enabled(s, Take(message))
    ensures var u := Next(s, Take(message));
      if message.id.Some? && message.id.value in s.pending then
        && u.pending == s.pending - {message.id.value} && Enabled(u, Deliver)
        && u.reader == Delivering(s.pending[message.id.value], message)
        && message.id.value in s.calls
        && (Open(s.calls[message.id.value]) ==> OnTheWay(u, message.id.value, message))
      else u == s
  {
    if message.id.Some? {
      assert PendingInv(s, message.id.value);
    }
  }

  /** The call itself turns away from its answer, or takes it. */
  predicate TurnsAway(step: Step, id: CallId) {
    step == SendError(id) || step == ContextDone(id) || step == Receive(id)
  }

  lemma OnTheWayKept(s: State, step: Step, id: CallId, answer: Envelope)
    requires Inv(s) && Enabled(s, step) && OnTheWay(s, id, answer) && !TurnsAway(step, id)
    ensures OnTheWay(Next(s, step), id, answer)
  {
    assert CallInv(s, id);
    var c := s.calls[id].channel;
    assert ChannelInv(s.channels[c]);
    if step.Receive? {
      OthersReceive(s, step.id, id);
    }
  }

  lemma OthersReceive(s: State, other: CallId, id: CallId)
    requires Inv(s) && other != id && other in s.calls && id in s.calls && Open(s.calls[other]) && Open(s.calls[id])
    ensures s.calls[other].channel != s.calls[id].channel
  {
    assert CallInv(s, other) && CallInv(s, id);
  }

  lemma {:induction false} OnTheWayThroughout(s: State, steps: seq<Step>, id: CallId, answer: Envelope)
    requires Inv(s) && Possible(s, steps) && OnTheWay(s, id, answer)
    requires forall i :: 0 <= i < |steps| ==> !TurnsAway(steps[i], id)
    ensures OnTheWay(Execute(s, steps), id, answer) && Inv(Execute(s, steps))
    decreases |steps|
  {
    if steps != [] {
      StepKeepsInv(s, steps[0]);
      assert !TurnsAway(steps[0], id);
      OnTheWayKept(s, steps[0], id, answer);
      OnTheWayThroughout(Next(s, steps[0]), steps[1..], id, answer);
    }
  }

  /** The receive of the call is enabled and returns this answer. */
  predicate ReceivesNow(s: State, id: CallId, answer: Envelope) {
    Enabled(s, Receive(id)) && Next(s, Receive(id)).calls[id] == Returned(Response(answer))
  }

  lemma OnTheWayReceives(s: State, id: CallId, answer: Envelope)
    requires Inv(s) && OnTheWay(s, id, answer) && s.calls[id].Waiting?
    ensures ReceivesNow(s, id, answer) || (Enabled(s, Deliver) && ReceivesNow(Next(s, Deliver), id, answer))
  {
  }

  /** No answer is lost: in every interleaving, once the read loop has taken a message
      for an open call, the call returns that message whenever it receives, at the
      latest after the send in progress, whatever the other goroutines and Close do. */
  lemma AnswerReachesCall(before: seq<Step>, answer: Envelope, after: seq<Step>, id: CallId)
    requires Possible(INITIAL, before) && answer.id == Some(id)
    requires var s := Execute(INITIAL, before);
      && s.reader.Reading? && id in s.pending && id in s.calls && Open(s.calls[id])
      && Possible(Next(s, Take(answer)), after)
    requires forall i :: 0 <= i < |after| ==> !TurnsAway(after[i], id)
    ensures var u := Execute(Next(Execute(INITIAL, before), Take(answer)), after);
      && id in u.calls && Open(u.calls[id])
      && (u.calls[id].Waiting? ==>
            ReceivesNow(u, id, answer) || (Enabled(u, Deliver) && ReceivesNow(Next(u, Deliver), id, answer)))
  {
    InvInitially();
    ExecuteKeepsInv(INITIAL, before);
    var s := Execute(INITIAL, before);
    TakeExactly(s, answer);
    StepKeepsInv(s, Take(answer));
    OnTheWayThroughout(Next(s, Take(answer)), after, id, answer);
    var u := Execute(Next(s, Take(answer)), after);
    if u.calls[id].Waiting? {
      OnTheWayReceives(u, id, answer);
    }
  }

  /** A call that gives up returns why, and its entry goes. */
  lemma GivingUpReturns(s: State, id: CallId, step: Step)
    requires Inv(s) && (step == ContextDone(id) || step == SendError(id)) && Enabled(s, step)
    ensures var u := Next(s, step);
      && Enabled(u, GiveUp(id)) && id !in Next(u, GiveUp(id)).pending
      && Next(u, GiveUp(id)).calls[id] == Returned(if step.ContextDone? then Cancelled else SendFailed)
  {
  }

  /** The end of the input releases every call that waits: it receives its answer if it
      was sent, and otherwise that the connection is closed, and why. */
  lemma EndOfInputReleases(s: State, error: Option<string>, id: CallId)
    requires Inv(s) && Enabled(s, EndOfInput(error)) && id in s.calls && s.calls[id].Waiting?
    ensures var u := Next(s, EndOfInput(error));
      && u.pending == map[] && u.reader.Finished? && Enabled(u, Receive(id))
      && Next(u, Receive(id)).calls[id] == Returned(
           if s.channels[s.calls[id].channel].buffer != [] then Response(s.channels[s.calls[id].channel].buffer[0])
           else ConnectionClosed(Some(if error.Some? then error.value else "closed pipe")))
  {
    assert CallInv(s, id);
    ShutdownChannels(s, s.calls[id].channel);
    assert id in s.pending ==> s.pending[id] in s.pending.Values;
  }

  // ---- The client object ----------------------------------------------------

  /** The client's fields, with what its goroutines are at. Each method is one locked
      section or one channel operation and makes exactly that step. */
  class Client {
    var nextId: nat
    var pending: map<CallId, ChannelRef>
    var closed: bool
    var readErr: Option<string>
    var channels: seq<Channel>
    var calls: map<CallId, Call>
    var reader: Reader

    ghost function Contents(): State
      reads this
    {
      State(nextId, pending, closed, readErr, channels, calls, reader)
    }

    constructor ()
      ensures Contents() == INITIAL && Inv(Contents())
    {
      nextId, pending, closed, readErr, channels, calls, reader := 0, map[], false, None, [], map[], Reading;
      new;
      InvInitially();
    }

    /** atomic.AddInt64(&c.nextID, 1). */
    method NumberCall() returns (id: CallId)
      requires Inv(Contents())
      modifies this
      ensures Contents() == Next(old(Contents()), TakeNumber) && Inv(Contents())
      ensures id !in old(calls) && id in calls && calls[id] == Numbered
    {
      StepKeepsInv(Contents(), TakeNumber);
      assert CallInv(Contents(), nextId + 1);
      nextId := nextId + 1;
      id := nextId;
      calls := calls[id := Numbered];
    }

    /** Makes the call's channel and, unless the client is closed, registers it. */
    method RegisterCall(id: CallId) returns (accepted: bool)
      requires Inv(Contents()) && Enabled(Contents(), Register(id))
      modifies this
      ensures Contents() == Next(old(Contents()), Register(id)) && Inv(Contents())
      ensures accepted <==> !old(closed)
    {
      StepKeepsInv(Contents(), Register(id));
      if closed {
        calls := calls[id := Returned(ClientClosed)];
        return false;
      }
      var ch := |channels|;
      channels := channels + [NewChannel(id)];
      pending := pending[id := ch];
      calls := calls[id := Sending(ch)];
      return true;
    }

    /** After a failed send or a cancelled context. */
    method Abandon(id: CallId)
      requires Inv(Contents()) && Enabled(Contents(), GiveUp(id))
      modifies this
      ensures Contents() == Next(old(Contents()), GiveUp(id)) && Inv(Contents())
    {
      StepKeepsInv(Contents(), GiveUp(id));
      pending := pending - {id};
      calls := calls[id := Returned(calls[id].result)];
    }

    /** The receive of a waiting call. */
    method Await(id: CallId) returns (result: CallResult)
      requires Inv(Contents()) && Enabled(Contents(), Receive(id))
      modifies this
      ensures Contents() == Next(old(Contents()), Receive(id)) && Inv(Contents())
      ensures result.Response? ==> result.message.id == Some(id)
      ensures calls == old(calls)[id := Returned(result)] && pending == old(pending)
      ensures var c := old(channels)[old(calls)[id].channel];
        result == if c.buffer != [] then Response(c.buffer[0]) else ConnectionClosed(old(readErr))
    {
      StepKeepsInv(Contents(), Receive(id));
      assert CallInv(Contents(), id);
      var ch := calls[id].channel;
      assert ChannelInv(channels[ch]);
      if channels[ch].buffer != [] {
        result := Response(channels[ch].buffer[0]);
        channels := channels[ch := channels[ch].(buffer := channels[ch].buffer[1..])];
      } else {
        result := ConnectionClosed(readErr);
      }
      calls := calls[id := Returned(result)];
    }

    /** The locked part of dispatch: takes the channel out of the table. */
    method Dispatch(message: Envelope)
      requires Inv(Contents()) && Enabled(Contents(), Take(message))
      modifies this
      ensures Contents() == Next(old(Contents()), Take(message)) && Inv(Contents())
      ensures message.id.None? || message.id.value !in old(pending) ==> Contents() == old(Contents())
      ensures message.id.Some? && message.id.value in old(pending) ==>
        && pending == old(pending) - {message.id.value}
        && reader == Delivering(old(pending)[message.id.value], message)
        && Enabled(Contents(), Deliver)
    {
      StepKeepsInv(Contents(), Take(message));
      TakeExactly(Contents(), message);
      if message.id == None {
        return;
      }
      var id := message.id.value;
      if id in pending {
        reader := Delivering(pending[id], message);
        pending := pending - {id};
      }
    }

    /** The send of dispatch, outside the mutex: it neither panics nor blocks. */
    method SendTaken()
      requires Inv(Contents()) && Enabled(Contents(), Deliver)
      modifies this
      ensures !Panics(old(Contents()), Deliver) && !Blocks(old(Contents()), Deliver)
      ensures Contents() == Next(old(Contents()), Deliver) && Inv(Contents())
    {
      StepKeepsInv(Contents(), Deliver);
      channels := channels[reader.channel := Send(channels[reader.channel], reader.message)];
      reader := Reading;
    }

    /** Some of the channels pending in `was` are closed and forgotten already. */
    ghost predicate Closing(was: State)
      reads this
    {
      && nextId == was.nextId && closed == was.closed && readErr == was.readErr
      && calls == was.calls && reader == was.reader
      && (forall id :: id in pending ==> id in was.pending && pending[id] == was.pending[id])
      && channels == CloseAll(was.channels, was.pending.Values - pending.Values)
    }

    method CloseOne(ghost was: State, id: CallId)
      requires Closing(was) && id in pending && forall k :: PendingInv(was, k)
      modifies this
      ensures Closing(was) && pending == old(pending) - {id}
    {
      var ch := pending[id];
      assert PendingInv(was, id);
      forall other | other in pending && other != id ensures pending[other] != ch {
        assert PendingInv(was, other);
      }
      ValuesWithout(was.pending, pending, id);
      assert ch in pending.Values;
      channels := channels[ch := CloseChannel(channels[ch])];
      pending := pending - {id};
    }

    /** Closes and forgets every pending channel, one after the other. */
    method CloseChannels()
      requires forall id :: PendingInv(Contents(), id)
      modifies this
      ensures Contents() == Shutdown(old(Contents()))
    {
      ghost var was := Contents();
      assert was.pending.Values - pending.Values == {};
      assert channels == CloseAll(was.channels, {});
      while pending != map[]
        invariant Closing(was)
        decreases pending.Keys
      {
        var id :| id in pending;
        CloseOne(was, id);
      }
      assert was.pending.Values - pending.Values == was.pending.Values;
    }

    /** The end of the read loop. */
    method FinishReading(error: Option<string>)
      requires Inv(Contents()) && Enabled(Contents(), EndOfInput(error))
      modifies this
      ensures Contents() == Next(old(Contents()), EndOfInput(error)) && Inv(Contents())
    {
      StepKeepsInv(Contents(), EndOfInput(error));
      PendingIgnoresFlags(Contents());
      readErr := if error.Some? then error else Some("closed pipe");
      reader := Finished;
      CloseChannels();
    }

    /** Close; a second call changes nothing. */
    method CloseClient()
      requires Inv(Contents())
      modifies this
      ensures Contents() == Next(old(Contents()), Close) && Inv(Contents())
    {
      StepKeepsInv(Contents(), Close);
      if closed {
        return;
      }
      PendingIgnoresFlags(Contents());
      closed := true;
      CloseChannels();
    }
  }

  lemma PendingIgnoresFlags(s: State)
    requires Inv(s)
    ensures forall id, closed, readErr, reader ::
      PendingInv(State(s.nextId, s.pending, closed, readErr, s.channels, s.calls, reader), id)
  {
    forall id, closed, readErr, reader
      ensures PendingInv(State(s.nextId, s.pending, closed, readErr, s.channels, s.calls, reader), id)
    {
      assert PendingInv(s, id);
    }
  }

  /** Removing an entry whose value no other entry has removes that value. */
  lemma ValuesWithout(all: map<CallId, ChannelRef>, some: map<CallId, ChannelRef>, id: CallId)
    requires id in some && id in all && all[id] == some[id]
    requires forall other :: other in some && other != id ==> some[other] != some[id]
    ensures all.Values - (some - {id}).Values == (all.Values - some.Values) + {some[id]}
  {
    var left := some - {id};
    assert some.Values == left.Values + {some[id]} by {
      forall v | v in some.Values ensures v in left.Values + {some[id]} {
        var k :| k in some && some[k] == v;
        assert k != id ==> k in left && left[k] == v;
      }
      forall v | v in left.Values ensures v in some.Values {
        var k :| k in left && left[k] == v;
        assert k in some && some[k] == v;
      }
    }
    assert some[id] !in left.Values;
    assert some[id] in all.Values;
  }
}
