/** The send engine as an object: two bounded queues that producers append
    to, a fixed staging buffer, the current session, the last-invalid marker,
    the stall timer, and the record of error callback invocations. `Step` is
    one pass through the body of the send loop; its effect on `State()` is
    SendEngine.Step, about which module SendEngine proves the properties. */
module Sender {
  import opened NetTypes
  import SendEngine

  class SenderThread {
    const dedicatedServer: bool
    const maxQueueSize: nat
    const maxLowPrioQueueSize: nat
    const maxPacketSize: nat

    var outBuf: seq<SendData>
    var lowPrioOutBuf: seq<SendData>
    const tmpOutBuf: array<byte>
    var tmpOutBufSize: nat
    var curSession: Option<Session>
    var lastInvalidSessionId: SessionId
    var sendTimer: SendEngine.Timer
    /** Every call the engine made to the error callback, oldest first. */
    var netErrors: seq<NetError>

    ghost predicate Valid()
      reads this
    {
      maxQueueSize == SendQueueSize(dedicatedServer)
      && maxLowPrioQueueSize == SendLowPrioQueueSize(dedicatedServer)
      && tmpOutBuf.Length == maxPacketSize
      && |outBuf| <= maxQueueSize && |lowPrioOutBuf| <= maxLowPrioQueueSize
      && tmpOutBufSize <= maxPacketSize
      && (tmpOutBufSize > 0 ==> curSession.Some? && sendTimer.Running?)
    }

    /** The engine state as a value; the staging buffer counts up to its size. */
    ghost function State(): SendEngine.EngineState
      reads this, tmpOutBuf
      requires Valid()
    {
      SendEngine.EngineState(outBuf, lowPrioOutBuf, tmpOutBuf[..tmpOutBufSize], curSession,
                             lastInvalidSessionId, sendTimer, netErrors)
    }

    constructor (dedicatedServer: bool, maxPacketSize: nat)
      ensures Valid() && fresh(tmpOutBuf)
      ensures this.dedicatedServer == dedicatedServer && this.maxPacketSize == maxPacketSize
      ensures State() == SendEngine.EngineState([], [], [], None, INVALID_SESSION,
                                                SendEngine.Stopped, [])
    {
      this.dedicatedServer := dedicatedServer;
      this.maxQueueSize := SendQueueSize(dedicatedServer);
      this.maxLowPrioQueueSize := SendLowPrioQueueSize(dedicatedServer);
      this.maxPacketSize := maxPacketSize;
      outBuf, lowPrioOutBuf := [], [];
      tmpOutBuf := new byte[maxPacketSize];
      tmpOutBufSize := 0;
      curSession := None;
      lastInvalidSessionId := INVALID_SESSION;
      sendTimer := SendEngine.Stopped;
      netErrors := [];
    }

    // -------------------------------------------------------------------
    // Producers' side.

    /** Store one entry at the back of `sendQueue` if it holds fewer than
        `maxQueueSize` entries; otherwise drop it. */
    static method InternalStore(sendQueue: seq<SendData>, maxQueueSize: nat, session: Session, packet: Packet)
      returns (q: seq<SendData>)
      ensures |sendQueue| < maxQueueSize ==> q == sendQueue + [SendData(Some(packet), session)]
      ensures |sendQueue| >= maxQueueSize ==> q == sendQueue
      ensures |sendQueue| <= maxQueueSize ==> |q| <= maxQueueSize
    {
      q := sendQueue;
      if |q| < maxQueueSize {
        q := q + [SendData(Some(packet), session)];
      }
    }

    /** Store a whole list, each packet paired with `session`, in list order,
        if the queue stays strictly below `maxQueueSize`; otherwise store none. */
    static method InternalStoreList(sendQueue: seq<SendData>, maxQueueSize: nat, session: Session,
                                    packetList: seq<Option<Packet>>)
      returns (q: seq<SendData>)
      ensures |sendQueue| + |packetList| < maxQueueSize ==>
                |q| == |sendQueue| + |packetList| && q[..|sendQueue|] == sendQueue
                && forall k :: 0 <= k < |packetList| ==> q[|sendQueue| + k] == SendData(packetList[k], session)
      ensures |sendQueue| + |packetList| >= maxQueueSize ==> q == sendQueue
      ensures |sendQueue| <= maxQueueSize ==> |q| <= maxQueueSize
    {
      q := sendQueue;
      if |sendQueue| + |packetList| < maxQueueSize {
        var i := 0;
        while i != |packetList|
          invariant 0 <= i <= |packetList|
          invariant |q| == |sendQueue| + i && q[..|sendQueue|] == sendQueue
          invariant forall k :: 0 <= k < i ==> q[|sendQueue| + k] == SendData(packetList[k], session)
        {
          q := q + [SendData(packetList[i], session)];
          i := i + 1;
        }
      }
    }

    method Send(session: Option<Session>, packet: Option<Packet>)
      requires Valid()
      modifies this`outBuf
      ensures Valid()
      ensures packet.Some? && session.Some? && |old(outBuf)| < maxQueueSize ==>
                outBuf == old(outBuf) + [SendData(packet, session.value)]
      ensures packet.None? || session.None? || |old(outBuf)| >= maxQueueSize ==> outBuf == old(outBuf)
    {
      if packet.Some? && session.Some? {
        outBuf := InternalStore(outBuf, maxQueueSize, session.value, packet.value);
      }
    }

    method SendList(session: Option<Session>, packetList: seq<Option<Packet>>)
      requires Valid()
      modifies this`outBuf
      ensures Valid()
      ensures packetList != [] && session.Some? && |old(outBuf)| + |packetList| < maxQueueSize ==>
                |outBuf| == |old(outBuf)| + |packetList| && outBuf[..|old(outBuf)|] == old(outBuf)
                && forall k :: 0 <= k < |packetList| ==>
                     outBuf[|old(outBuf)| + k] == SendData(packetList[k], session.value)
      ensures packetList == [] || session.None? || |old(outBuf)| + |packetList| >= maxQueueSize ==>
                outBuf == old(outBuf)
    {
      if packetList != [] && session.Some? {
        outBuf := InternalStoreList(outBuf, maxQueueSize, session.value, packetList);
      }
    }

    method SendLowPrio(session: Option<Session>, packet: Option<Packet>)
      requires Valid()
      modifies this`lowPrioOutBuf
      ensures Valid()
      ensures packet.Some? && session.Some? && |old(lowPrioOutBuf)| < maxLowPrioQueueSize ==>
                lowPrioOutBuf == old(lowPrioOutBuf) + [SendData(packet, session.value)]
      ensures packet.None? || session.None? || |old(lowPrioOutBuf)| >= maxLowPrioQueueSize ==>
                lowPrioOutBuf == old(lowPrioOutBuf)
    {
      if packet.Some? && session.Some? {
        lowPrioOutBuf := InternalStore(lowPrioOutBuf, maxLowPrioQueueSize, session.value, packet.value);
      }
    }

    method SendLowPrioList(session: Option<Session>, packetList: seq<Option<Packet>>)
      requires Valid()
      modifies this`lowPrioOutBuf
      ensures Valid()
      ensures packetList != [] && session.Some? && |old(lowPrioOutBuf)| + |packetList| < maxLowPrioQueueSize ==>
                |lowPrioOutBuf| == |old(lowPrioOutBuf)| + |packetList|
                && lowPrioOutBuf[..|old(lowPrioOutBuf)|] == old(lowPrioOutBuf)
                && forall k :: 0 <= k < |packetList| ==>
                     lowPrioOutBuf[|old(lowPrioOutBuf)| + k] == SendData(packetList[k], session.value)
      ensures packetList == [] || session.None? || |old(lowPrioOutBuf)| + |packetList| >= maxLowPrioQueueSize ==>
                lowPrioOutBuf == old(lowPrioOutBuf)
    {
      if packetList != [] && session.Some? {
        lowPrioOutBuf := InternalStoreList(lowPrioOutBuf, maxLowPrioQueueSize, session.value, packetList);
      }
    }

    // -------------------------------------------------------------------
    // Load signal.

    /** The unsigned sum of both queue lengths; the capacities keep it from wrapping. */
    function GetNumPacketsInQueue(): (n: nat)
      reads this
      requires Valid()
      ensures n == |lowPrioOutBuf| + |outBuf|
      ensures n < 0x1_0000_0000
    {
      (|lowPrioOutBuf| + |outBuf|) % 0x1_0000_0000
    }

    /** Engines are ordered by how many packets they have queued. */
    function Less(other: SenderThread): (r: bool)
      reads this, other
      requires Valid() && other.Valid()
      ensures r <==> |outBuf| + |lowPrioOutBuf| < |other.outBuf| + |other.lowPrioOutBuf|
    {
      GetNumPacketsInQueue() < other.GetNumPacketsInQueue()
    }

    /** The load order is a strict order: irreflexive, asymmetric, transitive,
        and two engines neither of which is less have equal loads. */
    static lemma LessIsStrictOrder(a: SenderThread, b: SenderThread, c: SenderThread)
      requires a.Valid() && b.Valid() && c.Valid()
      ensures !a.Less(a)
      ensures a.Less(b) ==> !b.Less(a)
      ensures a.Less(b) && b.Less(c) ==> a.Less(c)
      ensures !a.Less(b) && !b.Less(a) ==> a.GetNumPacketsInQueue() == b.GetNumPacketsInQueue()
    {
    }

    // -------------------------------------------------------------------
    // The send loop.

    /** Drop the current packet and session; the stall timer keeps running. */
    method RemoveCurSendData()
      requires Valid()
      modifies this`tmpOutBufSize, this`curSession
      ensures Valid()
      ensures State() == SendEngine.RemoveCurSendData(old(State()))
    {
      tmpOutBufSize := 0;
      curSession := None;
    }

    /** The error callback: record the invocation. */
    method SignalNetError(sessionId: SessionId, kind: NetErrorKind, err: SocketError)
      modifies this`netErrors
      ensures netErrors == old(netErrors) + [NetError(sessionId, kind, err)]
    {
      netErrors := netErrors + [NetError(sessionId, kind, err)];
    }

    /** memcpy of the first `len` bytes of `data` to the staging buffer. */
    method CopyToOutBuf(data: seq<byte>, len: nat)
      requires len <= |data| && len <= tmpOutBuf.Length
      modifies tmpOutBuf
      ensures tmpOutBuf[..len] == data[..len]
    {
      for i := 0 to len
        invariant tmpOutBuf[..i] == data[..i]
      {
        tmpOutBuf[i] := data[i];
      }
    }

    /** memmove of `count` bytes from offset `k` of the staging buffer to its front. */
    method ShiftOutBuf(k: nat, count: nat)
      requires k + count <= tmpOutBuf.Length
      modifies tmpOutBuf
      ensures tmpOutBuf[..count] == old(tmpOutBuf[k..k + count])
    {
      for i := 0 to count
        invariant tmpOutBuf[..i] == old(tmpOutBuf[k..k + i])
        invariant tmpOutBuf[i..] == old(tmpOutBuf[i..])
      {
        tmpOutBuf[i] := tmpOutBuf[i + k];
      }
    }

    /** With nothing pending, pop one entry and copy it in if it is admitted. */
    method FetchPacket(now: int)
      requires Valid()
      modifies this, tmpOutBuf
      ensures Valid()
      ensures State() == SendEngine.IdlePhase(old(State()), now, maxPacketSize)
    {
      if tmpOutBufSize == 0 {
        var isLowPrio := false;
        var tmpData: Option<SendData> := None;
        // Check the main queue first.
        if outBuf != [] {
          tmpData := Some(outBuf[0]);
          outBuf := outBuf[1..];
        }
        // Check the low-priority queue only if the main queue gave no packet.
        if !SendEngine.HasPacket(tmpData) {
          if lowPrioOutBuf != [] {
            tmpData := Some(lowPrioOutBuf[0]);
            lowPrioOutBuf := lowPrioOutBuf[1..];
            isLowPrio := true;
          }
        }
        if SendEngine.HasPacket(tmpData) {
          var entry := tmpData.value;
          if !isLowPrio || entry.session.id != lastInvalidSessionId {
            var packet := entry.packet.value;
            var tmpLen := PacketLen(packet);
            if tmpLen <= maxPacketSize {
              curSession := Some(entry.session);
              tmpOutBufSize := tmpLen;
              CopyToOutBuf(packet.data, tmpLen);
              sendTimer := SendEngine.Running(now);
            }
          }
        }
      }
    }

    /** One non-blocking send of the staging buffer, and what follows from its result. */
    method SendChunk(sent: SendResult, selected: SelectResult)
      requires Valid() && tmpOutBufSize > 0
      modifies this, tmpOutBuf
      ensures Valid()
      ensures State() == SendEngine.DrainPhase(old(State()), sent, selected, maxPacketSize)
    {
      match sent
      case SendFailed(errCode) =>
        if errCode == WouldBlock {
          if selected.SelectFailed? && selected.err != WouldBlock {
            if !IsBenign(selected.err) {
              SignalNetError(curSession.value.id, ErrSockSelectFailed, selected.err);
            }
            RemoveCurSendData();
          }
        } else {
          if !IsBenign(errCode) {
            SignalNetError(curSession.value.id, ErrSockSendFailed, errCode);
          }
          RemoveCurSendData();
        }
      case Sent(bytesSent) =>
        if bytesSent < tmpOutBufSize {
          if bytesSent > 0 {
            ghost var before := tmpOutBuf[..tmpOutBufSize];
            tmpOutBufSize := tmpOutBufSize - bytesSent;
            ShiftOutBuf(bytesSent, tmpOutBufSize);
            assert tmpOutBuf[..tmpOutBufSize] == before[bytesSent..];
          }
        } else {
          tmpOutBufSize := 0;
          curSession := None;
          sendTimer := SendEngine.Stopped;
        }
    }

    /** Abandon the current packet once the stall timer has run past the deadline. */
    method CheckTimeout(now: int)
      requires Valid()
      modifies this
      ensures Valid()
      ensures State() == SendEngine.TimeoutPhase(old(State()), now, maxPacketSize)
    {
      if sendTimer.Running? {
        if now - sendTimer.start > SEND_ERROR_TIMEOUT_MSEC {
          if curSession.Some? {
            lastInvalidSessionId := curSession.value.id;
          }
          RemoveCurSendData();
          sendTimer := SendEngine.Stopped;
        }
      }
    }

    /** One pass through the send loop: fetch a packet when idle, send when
        draining, then check the stall timer. */
    method Step(sent: SendResult, selected: SelectResult, now: int)
      requires Valid()
      modifies this, tmpOutBuf
      ensures Valid()
      ensures State() == SendEngine.Step(old(State()), SendEngine.Input(sent, selected, now), maxPacketSize)
    {
      FetchPacket(now);
      if tmpOutBufSize != 0 {
        SendChunk(sent, selected);
      }
      CheckTimeout(now);
    }
  }
}
