/** The heartbeat and inactivity timers of a peer. Instants are in nanoseconds, and a clock reading stays
    the same for the whole of one poll. */
module PeerTimers {
  const NANOS_PER_MILLI: nat := 1_000_000
  const HEARTBEAT_PERIOD: nat := 20_000 * NANOS_PER_MILLI
  const INACTIVITY_TIMEOUT: nat := 120_000 * NANOS_PER_MILLI

  datatype PeerMessage = Heartbeat | Data(bytes: seq<nat>)

  /** The deadlines are those the two timers were last set to. */
  datatype Timers = Timers(lastSend: nat, sendDeadline: nat, recvDeadline: nat)

  function Construct(now: nat): Timers {
    Timers(now, now + HEARTBEAT_PERIOD, now + INACTIVITY_TIMEOUT)
  }

  ghost predicate Valid(t: Timers) {
    t.sendDeadline <= t.lastSend + HEARTBEAT_PERIOD
  }

  /** Whether a poll at `now` sends a heartbeat. */
  predicate Beats(t: Timers, now: nat) {
    t.sendDeadline <= now && t.lastSend + HEARTBEAT_PERIOD <= now
  }

  /** As long as the timer was set no later than a period after the last send, a heartbeat goes out exactly when
      twenty seconds have passed since that send. */
  lemma BeatsIff(t: Timers, now: nat)
    requires Valid(t)
    ensures Beats(t, now) <==> now >= t.lastSend + 20_000_000_000
    ensures Beat(t, now).lastSend == if now >= t.lastSend + 20_000_000_000 then now else t.lastSend
  {
  }

  /** The timers once the sending half of a poll is done. */
  function Beat(t: Timers, now: nat): (t': Timers)
    ensures Valid(t) ==> Valid(t') && now < t'.lastSend + HEARTBEAT_PERIOD && now < t'.sendDeadline
    ensures t'.recvDeadline == t.recvDeadline && t.lastSend <= now ==> t.lastSend <= t'.lastSend <= now
  {
    if t.sendDeadline > now then t
    else if Beats(t, now) then t.(lastSend := now, sendDeadline := now + HEARTBEAT_PERIOD)
    else t.(sendDeadline := t.lastSend + HEARTBEAT_PERIOD)
  }

  function Sent(t: Timers, now: nat): Timers {
    t.(lastSend := now)
  }

  datatype Result = Received(bytes: seq<nat>) | SocketError | InactivityTimeout | NotReady

  /** The receiving half: how many messages it takes, and how it ends. */
  datatype Receipt = Receipt(timers: Timers, taken: nat, result: Result)

  function Receive(t: Timers, now: nat, inbox: seq<PeerMessage>, broken: bool): (r: Receipt)
    ensures r.taken <= |inbox|
    ensures r.taken == |inbox| || r.result.Received?
    ensures r.timers == t.(recvDeadline := if r.taken > 0 then now + INACTIVITY_TIMEOUT else t.recvDeadline)
    ensures r.result.InactivityTimeout? <==> inbox == [] && !broken && t.recvDeadline <= now
    decreases |inbox|
  {
    if inbox == [] then
      Receipt(t, 0, if broken then SocketError else if t.recvDeadline <= now then InactivityTimeout else NotReady)
    else
      var heard := t.(recvDeadline := now + INACTIVITY_TIMEOUT);
      match inbox[0]
      case Data(bytes) => Receipt(heard, 1, Received(bytes))
      case Heartbeat =>
        var r := Receive(heard, now, inbox[1..], broken);
        r.(taken := r.taken + 1)
  }

  ghost predicate AllHeartbeats(inbox: seq<PeerMessage>) {
    forall k :: 0 <= k < |inbox| ==> inbox[k].Heartbeat?
  }

  /** What a poll returns, in terms of the inbox alone: the first data in it, and everything before that is
      heartbeats; without data, all of it is taken, and an error is one of the socket or of the timer. */
  lemma {:induction false} ReceiveReturnsFirstData(t: Timers, now: nat, inbox: seq<PeerMessage>, broken: bool)
    ensures var r := Receive(t, now, inbox, broken);
            && (r.result.Received? <==> exists k :: 0 <= k < |inbox| && inbox[k].Data?)
            && (r.result.Received? ==>
                  0 < r.taken <= |inbox| && inbox[r.taken - 1] == Data(r.result.bytes) && AllHeartbeats(inbox[..r.taken - 1]))
            && (!r.result.Received? ==> r.taken == |inbox|)
            && (r.result.SocketError? <==> AllHeartbeats(inbox) && broken)
            && (r.result.NotReady? <==> AllHeartbeats(inbox) && !broken && (inbox != [] || now < t.recvDeadline))
    decreases |inbox|
  {
    if inbox != [] && inbox[0].Heartbeat? {
      var heard, rest := t.(recvDeadline := now + INACTIVITY_TIMEOUT), inbox[1..];
      ReceiveReturnsFirstData(heard, now, rest, broken);
      var r := Receive(heard, now, rest, broken);
      assert AllHeartbeats(inbox) <==> AllHeartbeats(rest) by {
        assert forall k :: 0 < k < |inbox| ==> inbox[k] == rest[k - 1];
      }
      if r.result.Received? {
        assert inbox[..r.taken] == [inbox[0]] + rest[..r.taken - 1];
        assert inbox[r.taken] == rest[r.taken - 1];
      }
    }
  }

  // Whole runs of the receiving side

  /** One poll at `now`, when the next `available` messages of the stream have arrived. */
  datatype Visit = Visit(now: nat, available: nat, broken: bool)

  /** How many messages of the stream were processed, and the data that was returned, in order. */
  datatype Progress = Progress(timers: Timers, processed: nat, returned: seq<seq<nat>>)

  function Arrived(stream: seq<PeerMessage>, processed: nat, available: nat): seq<PeerMessage>
    requires processed <= |stream|
  {
    if processed + available <= |stream| then stream[processed..processed + available] else stream[processed..]
  }

  function VisitOnce(stream: seq<PeerMessage>, p: Progress, v: Visit): (p': Progress)
    requires p.processed <= |stream|
    ensures p'.processed <= |stream|
  {
    var r := Receive(Beat(p.timers, v.now), v.now, Arrived(stream, p.processed, v.available), v.broken);
    Progress(r.timers, p.processed + r.taken, p.returned + if r.result.Received? then [r.result.bytes] else [])
  }

  function Visited(stream: seq<PeerMessage>, start: Timers, visits: seq<Visit>): (p: Progress)
    ensures p.processed <= |stream|
    decreases |visits|
  {
    if visits == [] then Progress(start, 0, [])
    else VisitOnce(stream, Visited(stream, start, visits[..|visits| - 1]), visits[|visits| - 1])
  }

  /** The data among some messages. */
  function DataOf(messages: seq<PeerMessage>): seq<seq<nat>> {
    if messages == [] then []
    else
      var last := messages[|messages| - 1];
      DataOf(messages[..|messages| - 1]) + if last.Data? then [last.bytes] else []
  }

  lemma {:induction false} HeartbeatsCarryNoData(before: seq<PeerMessage>, heartbeats: seq<PeerMessage>)
    requires AllHeartbeats(heartbeats)
    ensures DataOf(before + heartbeats) == DataOf(before)
  {
    if heartbeats == [] {
      assert before + heartbeats == before;
    } else {
      var n := |heartbeats| - 1;
      HeartbeatsCarryNoData(before, heartbeats[..n]);
      assert (before + heartbeats)[..|before| + n] == before + heartbeats[..n];
    }
  }

  lemma TakenData(before: seq<PeerMessage>, inbox: seq<PeerMessage>, taken: nat, result: Result)
    requires taken <= |inbox|
    requires result.Received? ==>
      0 < taken && inbox[taken - 1] == Data(result.bytes) && AllHeartbeats(inbox[..taken - 1])
    requires !result.Received? ==> AllHeartbeats(inbox)
    ensures DataOf(before + inbox[..taken]) == DataOf(before) + if result.Received? then [result.bytes] else []
  {
    if result.Received? {
      var heartbeats, all := inbox[..taken - 1], before + inbox[..taken];
      HeartbeatsCarryNoData(before, heartbeats);
      assert all[..|all| - 1] == before + heartbeats;
    } else {
      HeartbeatsCarryNoData(before, inbox[..taken]);
    }
  }

  lemma VisitStep(stream: seq<PeerMessage>, p: Progress, v: Visit)
    requires p.processed <= |stream| && p.returned == DataOf(stream[..p.processed])
    ensures var p' := VisitOnce(stream, p, v);
            p'.returned == DataOf(stream[..p'.processed])
  {
    var before, inbox := stream[..p.processed], Arrived(stream, p.processed, v.available);
    var r := Receive(Beat(p.timers, v.now), v.now, inbox, v.broken);
    assert stream[..p.processed + r.taken] == before + inbox[..r.taken];
    ReceiveReturnsFirstData(Beat(p.timers, v.now), v.now, inbox, v.broken);
    TakenData(before, inbox, r.taken, r.result);
  }

  /** Over any polls, what a peer has returned is exactly the data among the messages it has processed, in
      order; none is swallowed, repeated or made up. */
  lemma {:induction false} DataComesOutInOrder(stream: seq<PeerMessage>, start: Timers, visits: seq<Visit>)
    ensures var p := Visited(stream, start, visits);
            p.returned == DataOf(stream[..p.processed])
    decreases |visits|
  {
    if visits != [] {
      var init := visits[..|visits| - 1];
      DataComesOutInOrder(stream, start, init);
      VisitStep(stream, Visited(stream, start, init), visits[|visits| - 1]);
    }
  }

  /** A poll to which anything has arrived processes some of it. */
  lemma VisitMakesProgress(stream: seq<PeerMessage>, start: Timers, visits: seq<Visit>, v: Visit)
    requires Visited(stream, start, visits).processed < |stream| && v.available > 0
    ensures Visited(stream, start, visits + [v]).processed > Visited(stream, start, visits).processed
  {
    var p := Visited(stream, start, visits);
    assert (visits + [v])[..|visits|] == visits;
    ReceiveReturnsFirstData(Beat(p.timers, v.now), v.now, Arrived(stream, p.processed, v.available), v.broken);
  }
}

module Peers {
  import opened PeerTimers
  import opened Sockets
  import opened SocketQueue

  /** A connection to a remote peer: a socket of peer messages and two timers. */
  class Peer {
    const socket: Socket<PeerMessage>
    var lastSend: nat
    var sendDeadline: nat
    var recvDeadline: nat

    function Value(): Timers
      reads this
    {
      Timers(lastSend, sendDeadline, recvDeadline)
    }

    /** Takes the socket over once its handshake is done. */
    constructor FromHandshakenSocket(socket: Socket<PeerMessage>, now: nat)
      ensures this.socket == socket && Value() == Construct(now) && Valid(Value())
    {
      this.socket := socket;
      lastSend := now;
      sendDeadline := now + HEARTBEAT_PERIOD;
      recvDeadline := now + INACTIVITY_TIMEOUT;
    }

    /** The sending half of a poll. The loop ends because the timer is read at the `now` it is compared
        with; a heartbeat that a destroyed socket refuses still counts as sent. */
    method SendHeartbeat(now: nat)
      requires Valid(Value()) && lastSend <= now
      modifies this`lastSend, this`sendDeadline, socket`submitted, socket.writeTx
      ensures Value() == Beat(old(Value()), now)
      ensures socket.writeTx.items == old(socket.writeTx.items) +
        if Beats(old(Value()), now) && socket.inner then [Send(Msg(old(socket.submitted), 0, Heartbeat))] else []
    {
      while sendDeadline <= now
        invariant Valid(Value()) && lastSend <= now
        invariant Beat(Value(), now) == Beat(old(Value()), now)
        invariant if Value() == old(Value()) then
                    socket.writeTx.items == old(socket.writeTx.items) && socket.submitted == old(socket.submitted)
                  else
                    !Beats(Value(), now) &&
                    socket.writeTx.items == old(socket.writeTx.items) +
                      if Beats(old(Value()), now) && socket.inner then [Send(Msg(old(socket.submitted), 0, Heartbeat))] else []
        decreases Beats(Value(), now), now - sendDeadline
      {
        sendDeadline := lastSend + HEARTBEAT_PERIOD;
        if now - lastSend >= HEARTBEAT_PERIOD {
          lastSend := now;
          var _ := socket.StartSend(0, Heartbeat);
        }
      }
    }

    /** The receiving half of a poll, on the messages that have arrived and the answer after them. */
    method TakeMessages(now: nat, inbox: seq<PeerMessage>, last: Incoming<PeerMessage>) returns (result: Result, taken: nat)
      requires !last.Frame?
      modifies this`recvDeadline, socket`inner, socket.writeTx
      ensures var alive := old(socket.inner);
              var r := Receive(old(Value()), now, if alive then inbox else [], !alive || !last.NotYet?);
              Value() == r.timers && result == r.result && taken == r.taken
      ensures socket.inner == (old(socket.inner) && !result.SocketError?)
      ensures socket.writeTx.items == old(socket.writeTx.items) + if old(socket.inner) && !socket.inner then [Shutdown] else []
    {
      ghost var alive, broken := socket.inner, !socket.inner || !last.NotYet?;
      ghost var all := Receive(Value(), now, if alive then inbox else [], broken);
      taken := 0;
      while true
        invariant taken <= |inbox| && (alive || taken == 0)
        invariant socket.inner == alive && socket.writeTx.items == old(socket.writeTx.items)
        invariant lastSend == old(lastSend) && sendDeadline == old(sendDeadline)
        invariant var rest := Receive(Value(), now, if alive then inbox[taken..] else [], broken);
                  all == rest.(taken := taken + rest.taken)
        decreases |inbox| - taken
      {
        assert taken == |inbox| ==> inbox[taken..] == [];
        assert taken < |inbox| ==> inbox[taken..][0] == inbox[taken] && inbox[taken..][1..] == inbox[taken + 1..];
        var answer := socket.Poll(if taken < |inbox| then Frame(inbox[taken]) else last);
        match answer {
          case Error =>
            return SocketError, taken;
          case Pending =>
            break;
          case Message(m) =>
            recvDeadline := now + INACTIVITY_TIMEOUT;
            taken := taken + 1;
            if m.Data? {
              return Received(m.bytes), taken;
            }
        }
      }
      result := if recvDeadline <= now then InactivityTimeout else NotReady;
    }

    method Poll(now: nat, inbox: seq<PeerMessage>, last: Incoming<PeerMessage>) returns (result: Result, taken: nat)
      requires Valid(Value()) && lastSend <= now && !last.Frame?
      modifies this, socket`submitted, socket`inner, socket.writeTx
      ensures Valid(Value()) && now < lastSend + HEARTBEAT_PERIOD
      ensures var alive := old(socket.inner);
              var r := Receive(Beat(old(Value()), now), now, if alive then inbox else [], !alive || !last.NotYet?);
              Value() == r.timers && result == r.result && taken == r.taken
      ensures socket.inner == (old(socket.inner) && !result.SocketError?)
      ensures socket.writeTx.items == old(socket.writeTx.items)
        + (if Beats(old(Value()), now) && old(socket.inner) then [Send(Msg(old(socket.submitted), 0, Heartbeat))] else [])
        + (if old(socket.inner) && !socket.inner then [Shutdown] else [])
    {
      SendHeartbeat(now);
      result, taken := TakeMessages(now, inbox, last);
    }

    /** Sending data puts the next heartbeat off by way of `lastSend`; the timer itself is left alone. */
    method StartSend(now: nat, priority: Priority, bytes: seq<nat>) returns (ok: bool)
      requires Valid(Value()) && lastSend <= now
      modifies this`lastSend, socket`submitted, socket.writeTx
      ensures Valid(Value())
      ensures ok == socket.inner
      ensures Value() == if ok then PeerTimers.Sent(old(Value()), now) else old(Value())
      ensures socket.writeTx.items == old(socket.writeTx.items) +
        if ok then [Send(Msg(old(socket.submitted), priority, Data(bytes)))] else []
    {
      ok := socket.StartSend(priority, Data(bytes));
      if ok {
        lastSend := now;
      }
    }
  }
}
