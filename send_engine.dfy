/** The engine's state as a value, and one iteration of its send loop as a
    function of that state, of what the socket layer answers and of the
    clock. The imperative class in module Sender is proved to follow these
    functions; the lemmas here state what the loop guarantees. */
module SendEngine {
  import opened NetTypes

  /** The stall timer: stopped, or running since `start` (milliseconds). */
  datatype Timer = Stopped | Running(start: int)

  datatype EngineState = EngineState(
    outQueue: seq<SendData>,        // normal queue, front first
    lowPrioQueue: seq<SendData>,    // low-priority queue, front first
    pending: seq<byte>,             // unsent bytes of the current packet
    curSession: Option<Session>,    // session the pending bytes go to
    lastInvalidSessionId: SessionId,
    timer: Timer,
    reported: seq<NetError>)        // error callback invocations so far

  /** Pending bytes fit the staging buffer, and while any remain they have a
      session to go to and the stall timer is running. */
  predicate Inv(s: EngineState, maxPacketSize: nat)
  {
    |s.pending| <= maxPacketSize && (s.pending != [] ==> s.curSession.Some? && s.timer.Running?)
  }

  predicate Draining(s: EngineState)
  {
    s.pending != []
  }

  // ---------------------------------------------------------------------
  // Idle phase: take at most one entry out of the queues.

  /** What the idle phase popped, and the queues afterwards. */
  datatype Fetch = Fetch(taken: Option<SendData>, isLowPrio: bool,
                         outQueue: seq<SendData>, lowPrioQueue: seq<SendData>)

  predicate HasPacket(t: Option<SendData>)
  {
    t.Some? && t.value.packet.Some?
  }

  /** Pop the normal queue; pop the low-priority queue only when that gave no packet. */
  function FetchNext(outQueue: seq<SendData>, lowPrioQueue: seq<SendData>): (f: Fetch)
    ensures outQueue != [] ==> f.outQueue == outQueue[1..]
    ensures outQueue != [] && !f.isLowPrio ==> f.taken == Some(outQueue[0])
    ensures outQueue == [] ==> f.outQueue == []
    ensures outQueue != [] && outQueue[0].packet.Some? ==>
              f.taken == Some(outQueue[0]) && !f.isLowPrio && f.lowPrioQueue == lowPrioQueue
    ensures f.isLowPrio <==> lowPrioQueue != [] && (outQueue == [] || outQueue[0].packet.None?)
    ensures f.isLowPrio ==> f.taken == Some(lowPrioQueue[0]) && f.lowPrioQueue == lowPrioQueue[1..]
    ensures !f.isLowPrio ==> f.lowPrioQueue == lowPrioQueue
    ensures f.taken.None? <==> outQueue == [] && lowPrioQueue == []
  {
    var taken := if outQueue != [] then Some(outQueue[0]) else None;
    var rest := if outQueue != [] then outQueue[1..] else outQueue;
    if !HasPacket(taken) && lowPrioQueue != [] then
      Fetch(Some(lowPrioQueue[0]), true, rest, lowPrioQueue[1..])
    else
      Fetch(taken, false, rest, lowPrioQueue)
  }

  /** A low-priority entry for the session that last timed out is dropped. */
  predicate Throttled(e: SendData, isLowPrio: bool, marker: SessionId)
  {
    isLowPrio && e.session.id == marker
  }

  /** An entry is copied to the staging buffer when it has a packet, is not
      throttled and its length fits the buffer. */
  predicate Admitted(f: Fetch, marker: SessionId, maxPacketSize: nat)
  {
    HasPacket(f.taken)
    && !Throttled(f.taken.value, f.isLowPrio, marker)
    && PacketLen(f.taken.value.packet.value) <= maxPacketSize
  }

  function IdlePhase(s: EngineState, now: int, maxPacketSize: nat): (r: EngineState)
    requires Inv(s, maxPacketSize)
    ensures Inv(r, maxPacketSize)
    ensures Draining(s) ==> r == s
    ensures r.lastInvalidSessionId == s.lastInvalidSessionId && r.reported == s.reported
    ensures r.outQueue == s.outQueue || (s.outQueue != [] && r.outQueue == s.outQueue[1..])
    ensures r.lowPrioQueue == s.lowPrioQueue || (s.lowPrioQueue != [] && r.lowPrioQueue == s.lowPrioQueue[1..])
    ensures !Draining(s) && (s.outQueue != [] || s.lowPrioQueue != []) ==>
              |r.outQueue| + |r.lowPrioQueue| < |s.outQueue| + |s.lowPrioQueue|
  {
    if Draining(s) then s
    else
      var f := FetchNext(s.outQueue, s.lowPrioQueue);
      var s1 := s.(outQueue := f.outQueue, lowPrioQueue := f.lowPrioQueue);
      if Admitted(f, s.lastInvalidSessionId, maxPacketSize) then
        var p := f.taken.value.packet.value;
        s1.(pending := p.data[..PacketLen(p)], curSession := Some(f.taken.value.session),
            timer := Running(now))
      else
        s1
  }

  /** What the idle phase does to an idle engine: it removes exactly what
      FetchNext took, admitted or not; an admitted entry, from either queue,
      has its bytes made pending, its session set and the timer restarted;
      otherwise the engine stays idle with session and timer as they were. */
  lemma IdlePhaseEffect(s: EngineState, now: int, maxPacketSize: nat)
    requires Inv(s, maxPacketSize) && !Draining(s)
    ensures var f := FetchNext(s.outQueue, s.lowPrioQueue);
      var r := IdlePhase(s, now, maxPacketSize);
      r.outQueue == f.outQueue && r.lowPrioQueue == f.lowPrioQueue
      && (Admitted(f, s.lastInvalidSessionId, maxPacketSize) ==>
            r.pending == f.taken.value.packet.value.data[..PacketLen(f.taken.value.packet.value)]
            && r.curSession == Some(f.taken.value.session) && r.timer == Running(now))
      && (!Admitted(f, s.lastInvalidSessionId, maxPacketSize) ==>
            r.pending == [] && r.curSession == s.curSession && r.timer == s.timer)
  {
  }

  // ---------------------------------------------------------------------
  // Draining phase: one non-blocking send of the pending bytes.

  /** Abandon the current packet; the timer is left as it is. */
  function RemoveCurSendData(s: EngineState): (r: EngineState)
    ensures r.pending == [] && r.curSession.None?
    ensures r.(pending := s.pending, curSession := s.curSession) == s
  {
    s.(pending := [], curSession := None)
  }

  /** Invoke the error callback unless the error is a benign disconnect. */
  function Report(s: EngineState, id: SessionId, kind: NetErrorKind, err: SocketError): (r: EngineState)
    ensures r.reported == if IsBenign(err) then s.reported else s.reported + [NetError(id, kind, err)]
    ensures r.(reported := s.reported) == s
  {
    if IsBenign(err) then s else s.(reported := s.reported + [NetError(id, kind, err)])
  }

  function DrainPhase(s: EngineState, sent: SendResult, selected: SelectResult, maxPacketSize: nat): (r: EngineState)
    requires Inv(s, maxPacketSize)
    ensures Inv(r, maxPacketSize)
    ensures !Draining(s) ==> r == s
    ensures r.outQueue == s.outQueue && r.lowPrioQueue == s.lowPrioQueue
    ensures r.lastInvalidSessionId == s.lastInvalidSessionId
  {
    if !Draining(s) then s
    else
      var id := s.curSession.value.id;
      match sent
      case Sent(n) =>
        if n < |s.pending| then
          if n > 0 then s.(pending := s.pending[n..]) else s
        else
          s.(pending := [], curSession := None, timer := Stopped)
      case SendFailed(err) =>
        if err == WouldBlock then
          if selected.SelectFailed? && selected.err != WouldBlock then
            Report(RemoveCurSendData(s), id, ErrSockSelectFailed, selected.err)
          else
            s
        else
          Report(RemoveCurSendData(s), id, ErrSockSendFailed, err)
  }

  /** The classification of one send: what each answer of `send` and of the
      writability wait does to the engine. */
  lemma DrainPhaseCases(s: EngineState, sent: SendResult, selected: SelectResult, maxPacketSize: nat)
    requires Inv(s, maxPacketSize)
    ensures var r := DrainPhase(s, sent, selected, maxPacketSize);
      // a partial write keeps the unsent tail, nothing else changes
      && (Draining(s) && sent.Sent? && 0 < sent.bytes < |s.pending| ==>
            r == s.(pending := s.pending[sent.bytes..]))
      // a zero-byte write changes nothing
      && (sent == Sent(0) ==> r == s)
      // a full write returns to idle and stops the timer
      && (Draining(s) && sent.Sent? && sent.bytes >= |s.pending| ==>
            r == s.(pending := [], curSession := None, timer := Stopped))
      // a send error other than would-block abandons the packet; reported unless benign
      && (Draining(s) && sent.SendFailed? && sent.err != WouldBlock ==>
            r == Report(RemoveCurSendData(s), s.curSession.value.id, ErrSockSendFailed, sent.err))
      // would-block: a failed wait (not itself would-block) abandons the packet
      && (Draining(s) && sent == SendFailed(WouldBlock) && selected.SelectFailed? && selected.err != WouldBlock ==>
            r == Report(RemoveCurSendData(s), s.curSession.value.id, ErrSockSelectFailed, selected.err))
      // would-block: a successful, timed-out or would-block wait changes nothing
      && (sent == SendFailed(WouldBlock) && (!selected.SelectFailed? || selected.err == WouldBlock) ==>
            r == s)
  {
  }

  // ---------------------------------------------------------------------
  // Timeout check, once per iteration.

  predicate Expired(t: Timer, now: int)
  {
    t.Running? && now - t.start > SEND_ERROR_TIMEOUT_MSEC
  }

  function TimeoutPhase(s: EngineState, now: int, maxPacketSize: nat): (r: EngineState)
    requires Inv(s, maxPacketSize)
    ensures Inv(r, maxPacketSize)
    ensures !Expired(s.timer, now) ==> r == s
    ensures Expired(s.timer, now) ==>
              r.pending == [] && r.curSession.None? && r.timer == Stopped
              && r.outQueue == s.outQueue && r.lowPrioQueue == s.lowPrioQueue
              && r.reported == s.reported
              && r.lastInvalidSessionId ==
                   (if s.curSession.Some? then s.curSession.value.id else s.lastInvalidSessionId)
  {
    if Expired(s.timer, now) then
      var marker := if s.curSession.Some? then s.curSession.value.id else s.lastInvalidSessionId;
      RemoveCurSendData(s).(lastInvalidSessionId := marker, timer := Stopped)
    else
      s
  }

  // ---------------------------------------------------------------------
  // One iteration of the loop, and runs of several.

  /** What the socket layer and the clock answer in one iteration. */
  datatype Input = Input(sent: SendResult, selected: SelectResult, now: int)

  function Step(s: EngineState, i: Input, maxPacketSize: nat): (r: EngineState)
    requires Inv(s, maxPacketSize)
    ensures Inv(r, maxPacketSize)
  {
    var s1 := IdlePhase(s, i.now, maxPacketSize);
    var s2 := DrainPhase(s1, i.sent, i.selected, maxPacketSize);
    TimeoutPhase(s2, i.now, maxPacketSize)
  }

  function Run(s: EngineState, inputs: seq<Input>, maxPacketSize: nat): (r: EngineState)
    requires Inv(s, maxPacketSize)
    ensures Inv(r, maxPacketSize)
    decreases |inputs|
  {
    if inputs == [] then s else Run(Step(s, inputs[0], maxPacketSize), inputs[1..], maxPacketSize)
  }

  /** The bytes one iteration hands to the socket: a prefix of the pending bytes. */
  function Written(s: EngineState, i: Input, maxPacketSize: nat): (w: seq<byte>)
    requires Inv(s, maxPacketSize)
    ensures |w| <= if i.sent.Sent? then i.sent.bytes else 0
  {
    var s1 := IdlePhase(s, i.now, maxPacketSize);
    if Draining(s1) && i.sent.Sent? then
      s1.pending[..if i.sent.bytes < |s1.pending| then i.sent.bytes else |s1.pending|]
    else
      []
  }

  /** The bytes a run hands to the socket, in call order. */
  function Transmitted(s: EngineState, inputs: seq<Input>, maxPacketSize: nat): (t: seq<byte>)
    requires Inv(s, maxPacketSize)
    ensures |t| <= SumSent(inputs)
    decreases |inputs|
  {
    if inputs == [] then []
    else Written(s, inputs[0], maxPacketSize)
         + Transmitted(Step(s, inputs[0], maxPacketSize), inputs[1..], maxPacketSize)
  }

  function SumSent(inputs: seq<Input>): nat
  {
    if inputs == [] then 0
    else (if inputs[0].sent.Sent? then inputs[0].sent.bytes else 0) + SumSent(inputs[1..])
  }

  // ---------------------------------------------------------------------
  // Properties.

  /** While draining, a run of non-empty writes inside the stall deadline
      hands the socket a prefix of the packet, keeps the rest pending, and
      returns to idle exactly when the chunks add up to the packet. */
  lemma PartialWrites(s: EngineState, inputs: seq<Input>, maxPacketSize: nat)
    requires Inv(s, maxPacketSize) && Draining(s)
    requires forall k :: 0 <= k < |inputs| ==>
               inputs[k].sent.Sent? && inputs[k].sent.bytes > 0
               && inputs[k].now - s.timer.start <= SEND_ERROR_TIMEOUT_MSEC
    requires SumSent(inputs) <= |s.pending|
    ensures var r := Run(s, inputs, maxPacketSize);
      Transmitted(s, inputs, maxPacketSize) + r.pending == s.pending
      && (Draining(r) <==> SumSent(inputs) < |s.pending|)
      && (Draining(r) ==> r.curSession == s.curSession && r.timer == s.timer)
      && (!Draining(r) ==> r.curSession.None? && r.timer == Stopped)
      && r.outQueue == s.outQueue && r.lowPrioQueue == s.lowPrioQueue
      && r.lastInvalidSessionId == s.lastInvalidSessionId && r.reported == s.reported
  {
    PartialWritesResult(s, inputs, maxPacketSize);
    var m := SumSent(inputs);
    assert s.pending[..m] + s.pending[m..] == s.pending;
  }

  /** The same run in closed form: the first `SumSent(inputs)` pending bytes
      go out in order, and the state is the draining one with the tail
      pending, or the idle one once nothing is left. */
  lemma {:induction false} PartialWritesResult(s: EngineState, inputs: seq<Input>, maxPacketSize: nat)
    requires Inv(s, maxPacketSize) && Draining(s)
    requires forall k :: 0 <= k < |inputs| ==>
               inputs[k].sent.Sent? && inputs[k].sent.bytes > 0
               && inputs[k].now - s.timer.start <= SEND_ERROR_TIMEOUT_MSEC
    requires SumSent(inputs) <= |s.pending|
    ensures Transmitted(s, inputs, maxPacketSize) == s.pending[..SumSent(inputs)]
    ensures Run(s, inputs, maxPacketSize)
            == if SumSent(inputs) < |s.pending| then s.(pending := s.pending[SumSent(inputs)..])
               else s.(pending := [], curSession := None, timer := Stopped)
    decreases |inputs|
  {
    if inputs != [] {
      var i := inputs[0];
      var rest := inputs[1..];
      var n := i.sent.bytes;
      assert SumSent(inputs) == n + SumSent(rest);
      PartialWriteStep(s, i, maxPacketSize);
      var s' := Step(s, i, maxPacketSize);
      if n < |s.pending| {
        assert s'.timer == s.timer;
        forall k | 0 <= k < |rest|
          ensures rest[k].sent.Sent? && rest[k].sent.bytes > 0
                  && rest[k].now - s'.timer.start <= SEND_ERROR_TIMEOUT_MSEC
        {
          assert rest[k] == inputs[k + 1];
        }
        PartialWritesResult(s', rest, maxPacketSize);
        assert s.pending[..SumSent(inputs)] == s.pending[..n] + s'.pending[..SumSent(rest)];
        assert s.pending[SumSent(inputs)..] == s'.pending[SumSent(rest)..];
      } else {
        assert rest == [] by {
          if rest != [] {
            assert false;
          }
        }
        assert s.pending[..n] == s.pending;
      }
    }
  }

  /** One non-empty write, no longer than the pending bytes, inside the deadline. */
  lemma PartialWriteStep(s: EngineState, i: Input, maxPacketSize: nat)
    requires Inv(s, maxPacketSize) && Draining(s)
    requires i.sent.Sent? && 0 < i.sent.bytes <= |s.pending|
    requires i.now - s.timer.start <= SEND_ERROR_TIMEOUT_MSEC
    ensures Written(s, i, maxPacketSize) == s.pending[..i.sent.bytes]
    ensures i.sent.bytes < |s.pending| ==>
              Step(s, i, maxPacketSize) == s.(pending := s.pending[i.sent.bytes..])
    ensures i.sent.bytes == |s.pending| ==>
              Step(s, i, maxPacketSize) == s.(pending := [], curSession := None, timer := Stopped)
  {
    assert IdlePhase(s, i.now, maxPacketSize) == s;
  }

  /** A zero-byte write inside the deadline changes nothing. */
  lemma ZeroByteWriteKeepsState(s: EngineState, selected: SelectResult, now: int, maxPacketSize: nat)
    requires Inv(s, maxPacketSize) && Draining(s) && !Expired(s.timer, now)
    ensures Step(s, Input(Sent(0), selected, now), maxPacketSize) == s
    ensures Written(s, Input(Sent(0), selected, now), maxPacketSize) == []
  {
  }

  /** Running an input sequence one after another: runs compose. */
  lemma {:induction false} RunAppend(s: EngineState, a: seq<Input>, b: seq<Input>, maxPacketSize: nat)
    requires Inv(s, maxPacketSize)
    ensures Run(s, a + b, maxPacketSize) == Run(Run(s, a, maxPacketSize), b, maxPacketSize)
    decreases |a|
  {
    if a == [] {
      assert a + b == b;
    } else {
      assert (a + b)[0] == a[0];
      assert (a + b)[1..] == a[1..] + b;
      RunAppend(Step(s, a[0], maxPacketSize), a[1..], b, maxPacketSize);
    }
  }

  /** An iteration in which the socket takes no bytes and reports nothing
      fatal: a zero-byte send, or a would-block send whose writability wait
      is ready, times out, or itself fails with would-block. */
  predicate NoProgress(i: Input)
  {
    i.sent == Sent(0)
    || (i.sent == SendFailed(WouldBlock) && (!i.selected.SelectFailed? || i.selected.err == WouldBlock))
  }

  /** A stalled socket inside the deadline changes nothing and gets no bytes. */
  lemma NoProgressKeepsState(s: EngineState, i: Input, maxPacketSize: nat)
    requires Inv(s, maxPacketSize) && Draining(s) && NoProgress(i) && !Expired(s.timer, i.now)
    ensures Step(s, i, maxPacketSize) == s
    ensures Written(s, i, maxPacketSize) == []
  {
  }

  /** A socket that accepts nothing: the packet stays pending, untouched,
      for as long as the deadline has not passed. */
  lemma {:induction false} StalledSendWaits(s: EngineState, inputs: seq<Input>, maxPacketSize: nat)
    requires Inv(s, maxPacketSize) && Draining(s)
    requires forall k :: 0 <= k < |inputs| ==>
               NoProgress(inputs[k]) && inputs[k].now - s.timer.start <= SEND_ERROR_TIMEOUT_MSEC
    ensures Run(s, inputs, maxPacketSize) == s
    ensures Transmitted(s, inputs, maxPacketSize) == []
    decreases |inputs|
  {
    if inputs != [] {
      NoProgressKeepsState(s, inputs[0], maxPacketSize);
      var rest := inputs[1..];
      forall k | 0 <= k < |rest|
        ensures NoProgress(rest[k]) && rest[k].now - s.timer.start <= SEND_ERROR_TIMEOUT_MSEC
      {
        assert rest[k] == inputs[k + 1];
      }
      StalledSendWaits(s, rest, maxPacketSize);
    }
  }

  /** ...and once the deadline has passed, the packet is abandoned without a
      report and its session becomes the last-invalid marker. */
  lemma {:induction false} StalledSendTimesOut(s: EngineState, inputs: seq<Input>, last: Input, maxPacketSize: nat)
    requires Inv(s, maxPacketSize) && Draining(s)
    requires forall k :: 0 <= k < |inputs| ==>
               NoProgress(inputs[k]) && inputs[k].now - s.timer.start <= SEND_ERROR_TIMEOUT_MSEC
    requires NoProgress(last) && last.now - s.timer.start > SEND_ERROR_TIMEOUT_MSEC
    ensures var r := Run(s, inputs + [last], maxPacketSize);
      r == s.(pending := [], curSession := None, timer := Stopped,
              lastInvalidSessionId := s.curSession.value.id)
  {
    StalledSendWaits(s, inputs, maxPacketSize);
    RunAppend(s, inputs, [last], maxPacketSize);
    assert Run(s, [last], maxPacketSize) == Step(s, last, maxPacketSize);
  }

  /** The marker changes only through the timeout check, and only to the id
      of the session whose packet was then pending. */
  lemma MarkerOnlyOnTimeout(s: EngineState, sent: SendResult, selected: SelectResult, now: int, maxPacketSize: nat)
    requires Inv(s, maxPacketSize)
    ensures var s2 := DrainPhase(IdlePhase(s, now, maxPacketSize), sent, selected, maxPacketSize);
      var r := Step(s, Input(sent, selected, now), maxPacketSize);
      r.lastInvalidSessionId != s.lastInvalidSessionId ==>
        Expired(s2.timer, now) && s2.curSession.Some?
        && r.lastInvalidSessionId == s2.curSession.value.id
  {
  }

  /** An idle engine starts the front of the normal queue when it is admitted:
      the pending bytes are its packet, the timer restarts at `now`, and the
      low-priority queue is not touched. */
  lemma NormalFrontStarts(s: EngineState, now: int, maxPacketSize: nat)
    requires Inv(s, maxPacketSize) && !Draining(s)
    requires s.outQueue != [] && s.outQueue[0].packet.Some?
    requires |s.outQueue[0].packet.value.data| <= maxPacketSize && |s.outQueue[0].packet.value.data| < 0x1_0000
    ensures var r := IdlePhase(s, now, maxPacketSize);
      r.pending == s.outQueue[0].packet.value.data
      && r.curSession == Some(s.outQueue[0].session)
      && r.timer == Running(now)
      && r.outQueue == s.outQueue[1..] && r.lowPrioQueue == s.lowPrioQueue
  {
  }

  /** Queue to socket: an idle engine whose admitted normal front then gets
      non-empty writes inside the deadline, adding up to its length, hands the
      socket exactly that packet and is idle again, with the front popped. */
  lemma NormalFrontSentWhole(s: EngineState, inputs: seq<Input>, maxPacketSize: nat)
    requires Inv(s, maxPacketSize) && !Draining(s)
    requires s.outQueue != [] && s.outQueue[0].packet.Some?
    requires |s.outQueue[0].packet.value.data| <= maxPacketSize && |s.outQueue[0].packet.value.data| < 0x1_0000
    requires inputs != []
    requires forall k :: 0 <= k < |inputs| ==>
               inputs[k].sent.Sent? && inputs[k].sent.bytes > 0
               && inputs[k].now - inputs[0].now <= SEND_ERROR_TIMEOUT_MSEC
    requires SumSent(inputs) == |s.outQueue[0].packet.value.data|
    ensures Transmitted(s, inputs, maxPacketSize) == s.outQueue[0].packet.value.data
    ensures Run(s, inputs, maxPacketSize)
            == s.(outQueue := s.outQueue[1..], curSession := None, timer := Stopped)
  {
    var i := inputs[0];
    var d := s.outQueue[0].packet.value.data;
    NormalFrontStarts(s, i.now, maxPacketSize);
    var s1 := IdlePhase(s, i.now, maxPacketSize);
    assert d != [] by {
      assert SumSent(inputs) == i.sent.bytes + SumSent(inputs[1..]);
    }
    assert IdlePhase(s1, i.now, maxPacketSize) == s1;
    assert Step(s1, i, maxPacketSize) == Step(s, i, maxPacketSize);
    assert Written(s1, i, maxPacketSize) == Written(s, i, maxPacketSize);
    assert Transmitted(s, inputs, maxPacketSize) == Transmitted(s1, inputs, maxPacketSize);
    assert Run(s, inputs, maxPacketSize) == Run(s1, inputs, maxPacketSize);
    PartialWritesResult(s1, inputs, maxPacketSize);
    assert d[..|d|] == d;
  }

  /** An idle engine with an empty normal queue starts the low-priority front
      when it is not for the marked session and fits: the pending bytes are
      its packet, the timer restarts at `now`. */
  lemma LowPrioFrontStarts(s: EngineState, now: int, maxPacketSize: nat)
    requires Inv(s, maxPacketSize) && !Draining(s)
    requires s.outQueue == [] && s.lowPrioQueue != [] && s.lowPrioQueue[0].packet.Some?
    requires s.lowPrioQueue[0].session.id != s.lastInvalidSessionId
    requires PacketLen(s.lowPrioQueue[0].packet.value) <= maxPacketSize
    ensures var r := IdlePhase(s, now, maxPacketSize);
      var p := s.lowPrioQueue[0].packet.value;
      r.pending == p.data[..PacketLen(p)]
      && r.curSession == Some(s.lowPrioQueue[0].session)
      && r.timer == Running(now)
      && r.lowPrioQueue == s.lowPrioQueue[1..] && r.outQueue == []
  {
  }

  /** The same when the normal front is a null packet: it is popped and the
      low-priority front is started in the same iteration. */
  lemma LowPrioFrontStartsAfterNullPacket(s: EngineState, now: int, maxPacketSize: nat)
    requires Inv(s, maxPacketSize) && !Draining(s)
    requires s.outQueue != [] && s.outQueue[0].packet.None?
    requires s.lowPrioQueue != [] && s.lowPrioQueue[0].packet.Some?
    requires s.lowPrioQueue[0].session.id != s.lastInvalidSessionId
    requires PacketLen(s.lowPrioQueue[0].packet.value) <= maxPacketSize
    ensures var r := IdlePhase(s, now, maxPacketSize);
      var p := s.lowPrioQueue[0].packet.value;
      r.pending == p.data[..PacketLen(p)]
      && r.curSession == Some(s.lowPrioQueue[0].session)
      && r.timer == Running(now)
      && r.lowPrioQueue == s.lowPrioQueue[1..] && r.outQueue == s.outQueue[1..]
  {
  }

  /** FIFO: appending at the back of a queue and popping its front commute,
      so entries leave each queue in the order they were stored. */
  lemma FifoAppend(outQueue: seq<SendData>, lowPrioQueue: seq<SendData>, e: SendData)
    requires outQueue != [] && outQueue[0].packet.Some?
    ensures FetchNext(outQueue + [e], lowPrioQueue).taken == Some(outQueue[0])
    ensures FetchNext(outQueue + [e], lowPrioQueue).outQueue == FetchNext(outQueue, lowPrioQueue).outQueue + [e]
  {
  }

  lemma FifoAppendLowPrio(lowPrioQueue: seq<SendData>, e: SendData)
    requires lowPrioQueue != []
    ensures FetchNext([], lowPrioQueue + [e]).taken == Some(lowPrioQueue[0])
    ensures FetchNext([], lowPrioQueue + [e]).lowPrioQueue == FetchNext([], lowPrioQueue).lowPrioQueue + [e]
  {
  }

  /** A low-priority entry for the marked session is popped and dropped:
      nothing is written, nothing is reported, the engine stays idle. */
  lemma ThrottledLowPrioDropped(s: EngineState, sent: SendResult, selected: SelectResult, now: int, maxPacketSize: nat)
    requires Inv(s, maxPacketSize) && !Draining(s) && !Expired(s.timer, now)
    requires s.outQueue == [] && s.lowPrioQueue != []
    requires s.lowPrioQueue[0].session.id == s.lastInvalidSessionId
    ensures var r := Step(s, Input(sent, selected, now), maxPacketSize);
      r == s.(lowPrioQueue := s.lowPrioQueue[1..])
    ensures Written(s, Input(sent, selected, now), maxPacketSize) == []
  {
  }

  /** The same session is not throttled on the normal queue. */
  lemma ThrottleSparesNormalQueue(s: EngineState, now: int, maxPacketSize: nat)
    requires Inv(s, maxPacketSize) && !Draining(s)
    requires s.outQueue != [] && s.outQueue[0].packet.Some?
    requires s.outQueue[0].session.id == s.lastInvalidSessionId
    requires PacketLen(s.outQueue[0].packet.value) > 0
    requires PacketLen(s.outQueue[0].packet.value) <= maxPacketSize
    ensures Draining(IdlePhase(s, now, maxPacketSize))
  {
  }

  /** A packet longer than the staging buffer, from either queue, is popped
      and dropped without reaching the socket or the callback. */
  lemma OversizedDropped(s: EngineState, i: Input, maxPacketSize: nat)
    requires Inv(s, maxPacketSize) && !Draining(s)
    requires HasPacket(FetchNext(s.outQueue, s.lowPrioQueue).taken)
    requires PacketLen(FetchNext(s.outQueue, s.lowPrioQueue).taken.value.packet.value) > maxPacketSize
    ensures var f := FetchNext(s.outQueue, s.lowPrioQueue);
      var r := Step(s, i, maxPacketSize);
      Written(s, i, maxPacketSize) == []
      && r.reported == s.reported && r.pending == []
      && r.outQueue == f.outQueue && r.lowPrioQueue == f.lowPrioQueue
  {
  }

  /** In particular an oversized low-priority front, behind an empty normal
      queue, is removed from the low-priority queue. */
  lemma OversizedLowPrioDropped(s: EngineState, i: Input, maxPacketSize: nat)
    requires Inv(s, maxPacketSize) && !Draining(s)
    requires s.outQueue == [] && s.lowPrioQueue != [] && s.lowPrioQueue[0].packet.Some?
    requires PacketLen(s.lowPrioQueue[0].packet.value) > maxPacketSize
    ensures Written(s, i, maxPacketSize) == []
    ensures Step(s, i, maxPacketSize).reported == s.reported
    ensures Step(s, i, maxPacketSize).lowPrioQueue == s.lowPrioQueue[1..]
    ensures Step(s, i, maxPacketSize).pending == []
  {
    OversizedDropped(s, i, maxPacketSize);
  }

  /** Every byte handed to the socket in one iteration is one of the pending
      bytes, from the front: nothing is sent twice. */
  lemma WrittenThenPending(s: EngineState, i: Input, maxPacketSize: nat)
    requires Inv(s, maxPacketSize) && Draining(s) && !Expired(s.timer, i.now) && i.sent.Sent?
    ensures Written(s, i, maxPacketSize) + Step(s, i, maxPacketSize).pending == s.pending
  {
    var n := i.sent.bytes;
    if n < |s.pending| {
      assert s.pending == s.pending[..n] + s.pending[n..];
    }
  }
}
