/** The rendezvous connect protocol, between any number of peers over any number of TCP connections.
    Each connection has two ends. What an end submitted stays listed in `sent`, and the other end reads it
    in order, which `WireFrames` justifies for frames that pass through the priority queue of a socket. */
module Connect {
  import opened Common

  /** How many connections each stage of a connect call works on at a time. */
  const BUFFER: nat := 128

  datatype ConnectRequest = ConnectRequest(uid: Uid, nameHash: NameHash)

  /** A frame with the type it was encoded at: the first two are handshake messages. */
  datatype Frame = Connect(request: ConnectRequest) | ChooseConnection | PeerMessage

  datatype SingleConnectionError = InvalidUid(received: Uid, expected: Uid) | InvalidNameHash(nameHash: NameHash)

  function ValidateConnectRequest(expected: Uid, ours: NameHash, request: ConnectRequest)
    : (error: Option<SingleConnectionError>)
    ensures error.None? <==> request == ConnectRequest(expected, ours)
    ensures error.Some? && error.value.InvalidNameHash? ==> request.uid == expected
  {
    if request.uid != expected then Some(InvalidUid(request.uid, expected))
    else if request.nameHash != ours then Some(InvalidNameHash(request.nameHash))
    else None
  }

  datatype Call = Call(own: Uid, their: Uid)

  datatype EndId = EndId(conn: nat, first: bool)

  function Far(id: EndId): EndId {
    EndId(id.conn, !id.first)
  }

  /** `FailedAfterChoice`: the choice was sent, but the peer could not be constructed. */
  datatype Status = Calling | Connected(at: EndId) | Failed | FailedAfterChoice(at: EndId)

  datatype CallState = CallState(nameHash: NameHash, status: Status)

  datatype Phase =
    | Dialled                          // connected by this side, nothing sent yet
    | AwaitingConnect                  // has sent its Connect and reads the other's
    | Accepted                         // accepted by the listener, not yet demultiplexed
    | Routed(request: ConnectRequest)  // handed to a connect call, not yet answered
    | Validated                        // both Connect messages exchanged
    | AwaitingChoice                   // reads the choice of the greater uid
    | Handshaken                       // returned as a Peer
    | Closed

  datatype End = End(node: Uid, call: Option<Call>, phase: Phase, sent: seq<Frame>, read: nat)

  datatype Net = Net(calls: map<Call, CallState>, ends: map<EndId, End>)

  /** What is at the other end of a new connection: a listener, or a hole punched from the other side. */
  datatype Remote = Listening(node: Uid) | Punching(call: Call)

  datatype Event =
    | StartCall(call: Call, nameHash: NameHash)
    | Dial(conn: nat, call: Call, remote: Remote)
    | SendConnect(id: EndId)
    | ReadConnect(id: EndId)
    | Demultiplex(id: EndId)
    | TakeRequest(id: EndId)
    | Choose(id: EndId, constructed: bool)
    | AwaitChoice(id: EndId)
    | ReadChoice(id: EndId)
    | SendMessage(id: EndId)
    | ReadMessage(id: EndId)
    | Fail(id: EndId)       // any error, end of stream or timeout of one connection
    | GiveUp(call: Call)    // the call timed out or ran out of connections

  // Steps

  predicate IsCalling(n: Net, call: Call) {
    call in n.calls && n.calls[call].status.Calling?
  }

  /** The end belongs to a call and is in this phase. */
  predicate At(n: Net, id: EndId, phase: Phase) {
    id in n.ends && n.ends[id].phase == phase && n.ends[id].call.Some? && n.ends[id].call.value in n.calls
  }

  /** The end has a frame to read. */
  predicate Unread(n: Net, id: EndId) {
    Far(id) in n.ends && id in n.ends && n.ends[id].read < |n.ends[Far(id)].sent|
  }

  function InPhase(n: Net, call: Call, phase: Phase): set<EndId> {
    set id | id in n.ends && n.ends[id].call == Some(call) && n.ends[id].phase == phase
  }

  /** The connections of a call on which the choice is still open. */
  function Undecided(n: Net, call: Call): set<EndId> {
    InPhase(n, call, Validated) + InPhase(n, call, AwaitingChoice)
  }

  /** Whether the call looks at its connections at all: the lesser side stops while its second buffer, of those
      that wait for the choice, is full. */
  predicate Polled(n: Net, call: Call) {
    call.own > call.their || |Undecided(n, call)| < BUFFER
  }

  /** The end is of a call that looks at it. */
  predicate Looked(n: Net, id: EndId, phase: Phase) {
    At(n, id, phase) && Polled(n, n.ends[id].call.value)
  }

  predicate Enabled(n: Net, e: Event) {
    match e
    case StartCall(call, _) => call !in n.calls
    case Dial(conn, call, remote) =>
      && EndId(conn, true) !in n.ends && EndId(conn, false) !in n.ends && IsCalling(n, call)
      && (remote.Punching? ==> IsCalling(n, remote.call))
    case SendConnect(id) =>
      Looked(n, id, Dialled) && |InPhase(n, n.ends[id].call.value, AwaitingConnect)| < BUFFER
    case ReadConnect(id) => Looked(n, id, AwaitingConnect) && Unread(n, id)
    case Demultiplex(id) => id in n.ends && n.ends[id].phase.Accepted? && Unread(n, id)
    case TakeRequest(id) => id in n.ends && n.ends[id].phase.Routed? && Looked(n, id, n.ends[id].phase)
    case Choose(id, _) => At(n, id, Validated) && n.ends[id].call.value.own > n.ends[id].call.value.their
    case AwaitChoice(id) => At(n, id, Validated) && n.ends[id].call.value.own <= n.ends[id].call.value.their
    case ReadChoice(id) => At(n, id, AwaitingChoice) && Unread(n, id)
    case SendMessage(id) => At(n, id, Handshaken)
    case ReadMessage(id) => At(n, id, Handshaken) && Unread(n, id)
    case Fail(id) => id in n.ends
    case GiveUp(call) => IsCalling(n, call)
  }

  function Set(n: Net, id: EndId, end: End): Net {
    n.(ends := n.ends[id := end])
  }

  /** The connect request an end of this call sends. */
  function OurConnect(n: Net, call: Call): Frame
    requires call in n.calls
  {
    Connect(ConnectRequest(call.own, n.calls[call].nameHash))
  }

  /** Ends the call: all its sockets but the one at `keep` are dropped. */
  function Finish(n: Net, call: Call, status: Status, keep: Option<EndId>): Net
    requires call in n.calls
  {
    Net(n.calls[call := n.calls[call].(status := status)],
        map id | id in n.ends ::
          if n.ends[id].call == Some(call) && keep != Some(id) then n.ends[id].(phase := Closed) else n.ends[id])
  }

  function Validate(n: Net, end: End, frame: Frame): Phase
    requires end.call.Some? && end.call.value in n.calls
  {
    var call := end.call.value;
    if frame.Connect? && ValidateConnectRequest(call.their, n.calls[call].nameHash, frame.request).None?
    then Validated else Closed
  }

  /** An event that cannot happen leaves the network as it is. */
  function Apply(n: Net, e: Event): Net {
    if !Enabled(n, e) then n
    else match e
      case StartCall(call, nameHash) =>
        n.(calls := n.calls[call := CallState(nameHash, if call.own == call.their then Failed else Calling)])
      case Dial(conn, call, remote) =>
        var far := match remote
          case Listening(node) => End(node, None, Accepted, [], 0)
          case Punching(call') => End(call'.own, Some(call'), Dialled, [], 0);
        Set(Set(n, EndId(conn, true), End(call.own, Some(call), Dialled, [], 0)), EndId(conn, false), far)
      case SendConnect(id) =>
        var end := n.ends[id];
        Set(n, id, end.(phase := AwaitingConnect, sent := [OurConnect(n, end.call.value)]))
      case ReadConnect(id) =>
        var end := n.ends[id];
        Set(n, id, end.(phase := Validate(n, end, n.ends[Far(id)].sent[end.read]), read := end.read + 1))
      case Demultiplex(id) =>
        var end := n.ends[id];
        var frame := n.ends[Far(id)].sent[end.read];
        if frame.Connect? && IsCalling(n, Call(end.node, frame.request.uid))
        then Set(n, id, end.(call := Some(Call(end.node, frame.request.uid)), phase := Routed(frame.request), read := end.read + 1))
        else Set(n, id, end.(phase := Closed, read := end.read + 1))
      case TakeRequest(id) =>
        var end := n.ends[id];
        if Validate(n, end, Connect(end.phase.request)).Validated?
        then Set(n, id, end.(phase := Validated, sent := [OurConnect(n, end.call.value)]))
        else Set(n, id, end.(phase := Closed))
      case Choose(id, constructed) =>
        var end := n.ends[id];
        var chosen := end.(sent := end.sent + [ChooseConnection], phase := if constructed then Handshaken else Closed);
        Finish(Set(n, id, chosen), end.call.value, if constructed then Connected(id) else FailedAfterChoice(id), Some(id))
      case AwaitChoice(id) => Set(n, id, n.ends[id].(phase := AwaitingChoice))
      case ReadChoice(id) =>
        var end := n.ends[id];
        if n.ends[Far(id)].sent[end.read].ChooseConnection?
        then Finish(Set(n, id, end.(phase := Handshaken, read := end.read + 1)), end.call.value, Connected(id), Some(id))
        else Set(n, id, end.(phase := Closed, read := end.read + 1))
      case SendMessage(id) => Set(n, id, n.ends[id].(sent := n.ends[id].sent + [PeerMessage]))
      case ReadMessage(id) =>
        var end := n.ends[id];
        var phase := if n.ends[Far(id)].sent[end.read].PeerMessage? then Handshaken else Closed;
        Set(n, id, end.(phase := phase, read := end.read + 1))
      case Fail(id) => Set(n, id, n.ends[id].(phase := Closed))
      case GiveUp(call) => Finish(n, call, Failed, None)
  }

  function After(es: seq<Event>): Net {
    if es == [] then Net(map[], map[]) else Apply(After(es[..|es| - 1]), es[|es| - 1])
  }

  // The invariant

  /** Frame `i` of what an end of this call ever sends. */
  function Script(n: Net, call: Call, i: nat): Frame
    requires call in n.calls
  {
    if i == 0 then OurConnect(n, call)
    else if i == 1 && call.own > call.their then ChooseConnection
    else PeerMessage
  }

  predicate Working(phase: Phase) {
    !phase.Accepted? && !phase.Handshaken? && !phase.Closed?
  }

  predicate Trusting(end: End) {
    end.phase.Validated? || end.phase.AwaitingChoice? || end.phase.Handshaken? || |end.sent| >= 2
  }

  /** The call of an end exists and the end has followed its script. */
  ghost predicate Scripted(n: Net, end: End) {
    match end.call
    case None => (end.phase.Accepted? || end.phase.Closed?) && end.sent == []
    case Some(call) =>
      && call in n.calls && call.own == end.node && call.own != call.their && !end.phase.Accepted?
      && (forall i :: 0 <= i < |end.sent| ==> end.sent[i] == Script(n, call, i))
  }

  /** How much an end has sent and read in each phase. */
  ghost predicate Counted(end: End) {
    match end.phase
    case Dialled => |end.sent| == 0 && end.read == 0
    case AwaitingConnect => |end.sent| == 1 && end.read == 0
    case Accepted => |end.sent| == 0 && end.read == 0
    case Routed(_) => |end.sent| == 0 && end.read == 1
    case Validated => |end.sent| == 1 && end.read == 1
    case AwaitingChoice => |end.sent| == 1 && end.read == 1 && end.call.Some? && end.call.value.own < end.call.value.their
    case Handshaken =>
      end.call.Some? &&
      if end.call.value.own > end.call.value.their then |end.sent| >= 2 && end.read >= 1
      else |end.sent| >= 1 && end.read >= 2
    case Closed => true
  }

  /** The far end sent the connect request this call expects. */
  ghost predicate Matched(n: Net, call: Call, far: End)
    requires call in n.calls
  {
    |far.sent| >= 1 && far.sent[0] == Connect(ConnectRequest(call.their, n.calls[call].nameHash))
  }

  ghost predicate EndOk(n: Net, id: EndId)
    requires id in n.ends && Far(id) in n.ends
  {
    var end, far := n.ends[id], n.ends[Far(id)];
    && Scripted(n, end)
    && Counted(end)
    && end.read <= |far.sent|
    && (end.phase.Routed? ==> end.call.Some? && far.sent[0] == Connect(end.phase.request) && end.phase.request.uid == end.call.value.their)
    && (end.call.Some? ==>
          var call := end.call.value;
          var status := n.calls[call].status;
          && (Trusting(end) ==> Matched(n, call, far))
          && (Working(end.phase) ==> status.Calling?)
          && (end.phase.Handshaken? ==> status == Connected(id))
          && (|end.sent| >= 2 ==> status == Connected(id) || (status == FailedAfterChoice(id) && call.own > call.their)))
  }

  ghost predicate CallOk(n: Net, call: Call)
    requires call in n.calls
  {
    && (call.own == call.their ==> n.calls[call].status.Failed?)
    && (n.calls[call].status.Connected? ==>
          var id := n.calls[call].status.at;
          && id in n.ends && Far(id) in n.ends && n.ends[id].call == Some(call)
          && Matched(n, call, n.ends[Far(id)])
          && if call.own > call.their then |n.ends[id].sent| >= 2
             else |n.ends[Far(id)].sent| >= 2 && n.ends[Far(id)].sent[1].ChooseConnection?)
  }

  ghost predicate PairOk(n: Net, id: EndId) {
    id in n.ends ==> Far(id) in n.ends && EndOk(n, id)
  }

  ghost predicate EndsOk(n: Net) {
    forall id :: PairOk(n, id)
  }

  ghost predicate CallsOk(n: Net) {
    forall call :: call in n.calls ==> CallOk(n, call)
  }

  ghost predicate Inv(n: Net) {
    EndsOk(n) && CallsOk(n)
  }

  // Every event keeps the invariant

  /** The far end is at most told more. */
  ghost predicate Grown(far: End, far': End) {
    far.sent <= far'.sent
  }

  lemma EndOkStable(n: Net, n': Net, id: EndId)
    requires id in n.ends && Far(id) in n.ends && EndOk(n, id)
    requires id in n'.ends && Far(id) in n'.ends && n'.ends[id] == n.ends[id] && Grown(n.ends[Far(id)], n'.ends[Far(id)])
    requires n.ends[id].call.Some? ==> n.ends[id].call.value in n'.calls && n'.calls[n.ends[id].call.value] == n.calls[n.ends[id].call.value]
    ensures EndOk(n', id)
  {
  }

  /** Closing an end is always safe, and so is settling the call of an end that is closed with it. */
  lemma EndOkClosed(n: Net, n': Net, id: EndId)
    requires id in n.ends && Far(id) in n.ends && EndOk(n, id)
    requires id in n'.ends && Far(id) in n'.ends && n'.ends[id] == n.ends[id].(phase := Closed) && Grown(n.ends[Far(id)], n'.ends[Far(id)])
    requires n.ends[id].call.Some? ==>
      var call := n.ends[id].call.value;
      && call in n'.calls && n'.calls[call].nameHash == n.calls[call].nameHash
      && (n'.calls[call].status == n.calls[call].status || n.calls[call].status.Calling?)
    ensures EndOk(n', id)
  {
  }

  lemma CallOkStable(n: Net, n': Net, call: Call)
    requires call in n.calls && CallOk(n, call)
    requires call in n'.calls && n'.calls[call] == n.calls[call]
    requires forall id :: id in n.ends ==> id in n'.ends && n'.ends[id].call == n.ends[id].call && Grown(n.ends[id], n'.ends[id])
    ensures CallOk(n', call)
  {
  }

  /** Replacing one end by one that is still in order keeps everything else in order. */
  lemma SetKeepsEnd(n: Net, id: EndId, end: End, i: EndId)
    requires PairOk(n, i) && id in n.ends && i != id && Grown(n.ends[id], end)
    ensures PairOk(Set(n, id, end), i)
  {
    if i in n.ends {
      EndOkStable(n, Set(n, id, end), i);
    }
  }

  lemma SetKeepsCall(n: Net, id: EndId, end: End, call: Call)
    requires id in n.ends && call in n.calls && CallOk(n, call)
    requires n.ends[id].call.None? || end.call == n.ends[id].call
    requires Grown(n.ends[id], end)
    ensures CallOk(Set(n, id, end), call)
  {
  }

  lemma SetKeeps(n: Net, id: EndId, end: End)
    requires EndsOk(n) && CallsOk(n) && id in n.ends
    requires n.ends[id].call.None? || end.call == n.ends[id].call
    requires Grown(n.ends[id], end) && PairOk(Set(n, id, end), id)
    ensures Inv(Set(n, id, end))
  {
    forall i
      ensures PairOk(Set(n, id, end), i)
    {
      if i != id {
        assert PairOk(n, i);
        SetKeepsEnd(n, id, end, i);
      }
    }
    forall call | call in n.calls
      ensures CallOk(Set(n, id, end), call)
    {
      SetKeepsCall(n, id, end, call);
    }
  }

  /** Settling a call that was in progress, and closing its other ends, keeps everything in order. */
  lemma FinishKeepsEnd(n: Net, call: Call, status: Status, keep: Option<EndId>, i: EndId)
    requires PairOk(n, i) && IsCalling(n, call) && keep != Some(i)
    ensures PairOk(Finish(n, call, status, keep), i)
  {
    if i in n.ends {
      if n.ends[i].call == Some(call) {
        EndOkClosed(n, Finish(n, call, status, keep), i);
      } else {
        EndOkStable(n, Finish(n, call, status, keep), i);
      }
    }
  }

  lemma FinishKeepsCall(n: Net, call: Call, status: Status, keep: Option<EndId>, c: Call)
    requires c in n.calls && CallOk(n, c) && call in n.calls && c != call
    ensures CallOk(Finish(n, call, status, keep), c)
  {
    CallOkStable(n, Finish(n, call, status, keep), c);
  }

  lemma SettleKeeps(n: Net, id: EndId, end: End, call: Call, status: Status)
    requires EndsOk(n) && CallsOk(n) && IsCalling(n, call) && id in n.ends
    requires end.call == n.ends[id].call && Grown(n.ends[id], end)
    requires PairOk(Finish(Set(n, id, end), call, status, Some(id)), id)
    requires CallOk(Finish(Set(n, id, end), call, status, Some(id)), call)
    ensures Inv(Finish(Set(n, id, end), call, status, Some(id)))
  {
    var n1 := Set(n, id, end);
    forall i
      ensures PairOk(Finish(n1, call, status, Some(id)), i)
    {
      if i != id {
        assert PairOk(n, i);
        SetKeepsEnd(n, id, end, i);
        FinishKeepsEnd(n1, call, status, Some(id), i);
      }
    }
    forall c | c in n.calls
      ensures CallOk(Finish(n1, call, status, Some(id)), c)
    {
      if c != call {
        SetKeepsCall(n, id, end, c);
        FinishKeepsCall(n1, call, status, Some(id), c);
      }
    }
  }

  lemma GiveUpKeeps(n: Net, call: Call)
    requires EndsOk(n) && CallsOk(n) && IsCalling(n, call)
    ensures Inv(Finish(n, call, Failed, None))
  {
    forall i
      ensures PairOk(Finish(n, call, Failed, None), i)
    {
      assert PairOk(n, i);
      FinishKeepsEnd(n, call, Failed, None, i);
    }
    forall c | c in n.calls
      ensures CallOk(Finish(n, call, Failed, None), c)
    {
      if c != call {
        FinishKeepsCall(n, call, Failed, None, c);
      }
    }
  }

  lemma StartKeeps(n: Net, call: Call, nameHash: NameHash)
    requires EndsOk(n) && CallsOk(n) && Enabled(n, StartCall(call, nameHash))
    ensures Inv(Apply(n, StartCall(call, nameHash)))
  {
    var n' := Apply(n, StartCall(call, nameHash));
    forall i
      ensures PairOk(n', i)
    {
      assert PairOk(n, i);
      if i in n.ends {
        EndOkStable(n, n', i);
      }
    }
    forall c | c in n'.calls
      ensures CallOk(n', c)
    {
      if c != call {
        CallOkStable(n, n', c);
      }
    }
  }

  lemma DialKeeps(n: Net, conn: nat, call: Call, remote: Remote)
    requires EndsOk(n) && CallsOk(n) && Enabled(n, Dial(conn, call, remote))
    ensures Inv(Apply(n, Dial(conn, call, remote)))
  {
    var n' := Apply(n, Dial(conn, call, remote));
    assert CallOk(n, call) && (remote.Punching? ==> CallOk(n, remote.call));
    DialledIsOk(n', EndId(conn, true));
    DialledIsOk(n', EndId(conn, false));
    forall i
      ensures PairOk(n', i)
    {
      assert PairOk(n, i);
      if i.conn != conn && i in n.ends {
        EndOkStable(n, n', i);
      }
    }
    forall c | c in n'.calls
      ensures CallOk(n', c)
    {
      CallOkStable(n, n', c);
    }
  }

  lemma DialledIsOk(n: Net, id: EndId)
    requires id in n.ends && Far(id) in n.ends
    requires var end := n.ends[id];
             || end == End(end.node, None, Accepted, [], 0)
             || (end == End(end.node, end.call, Dialled, [], 0) && end.call.Some? && IsCalling(n, end.call.value)
                 && end.call.value.own == end.node && end.call.value.own != end.call.value.their)
    ensures PairOk(n, id)
  {
  }

  /** Phase agreement: whatever an end reads next is of the kind its phase expects, so every frame is decoded
      at the type it was encoded with. */
  lemma NextFrame(n: Net, id: EndId)
    requires PairOk(n, id) && PairOk(n, Far(id)) && Unread(n, id)
    ensures var frame := n.ends[Far(id)].sent[n.ends[id].read];
            match n.ends[id].phase
            case Accepted | AwaitingConnect => frame.Connect?
            case Validated | AwaitingChoice => n.ends[id].call.value.own < n.ends[id].call.value.their ==> frame.ChooseConnection?
            case Handshaken => frame.PeerMessage?
            case _ => true
  {
    assert Far(Far(id)) == id;
  }

  lemma SendConnectKeeps(n: Net, id: EndId)
    requires EndsOk(n) && CallsOk(n) && Enabled(n, SendConnect(id))
    ensures Inv(Apply(n, SendConnect(id)))
  {
    assert PairOk(n, id);
    SetKeeps(n, id, Apply(n, SendConnect(id)).ends[id]);
  }

  lemma ReadConnectKeeps(n: Net, id: EndId)
    requires EndsOk(n) && CallsOk(n) && Enabled(n, ReadConnect(id))
    ensures Inv(Apply(n, ReadConnect(id)))
  {
    assert PairOk(n, id) && PairOk(n, Far(id));
    SetKeeps(n, id, Apply(n, ReadConnect(id)).ends[id]);
  }

  lemma DemultiplexKeeps(n: Net, id: EndId)
    requires EndsOk(n) && CallsOk(n) && Enabled(n, Demultiplex(id))
    ensures Inv(Apply(n, Demultiplex(id)))
  {
    assert PairOk(n, id) && PairOk(n, Far(id));
    var end := Apply(n, Demultiplex(id)).ends[id];
    assert end.call.Some? ==> CallOk(n, end.call.value);
    SetKeeps(n, id, end);
  }

  lemma TakeRequestKeeps(n: Net, id: EndId)
    requires EndsOk(n) && CallsOk(n) && Enabled(n, TakeRequest(id))
    ensures Inv(Apply(n, TakeRequest(id)))
  {
    assert PairOk(n, id) && PairOk(n, Far(id));
    SetKeeps(n, id, Apply(n, TakeRequest(id)).ends[id]);
  }

  lemma ChooseKeeps(n: Net, id: EndId, constructed: bool)
    requires EndsOk(n) && CallsOk(n) && Enabled(n, Choose(id, constructed))
    ensures Inv(Apply(n, Choose(id, constructed)))
  {
    assert PairOk(n, id) && PairOk(n, Far(id));
    var end := n.ends[id];
    var end' := end.(sent := end.sent + [ChooseConnection], phase := if constructed then Handshaken else Closed);
    SettleKeeps(n, id, end', end.call.value, if constructed then Connected(id) else FailedAfterChoice(id));
  }

  lemma AwaitChoiceKeeps(n: Net, id: EndId)
    requires EndsOk(n) && CallsOk(n) && Enabled(n, AwaitChoice(id))
    ensures Inv(Apply(n, AwaitChoice(id)))
  {
    assert PairOk(n, id);
    SetKeeps(n, id, Apply(n, AwaitChoice(id)).ends[id]);
  }

  lemma ReadChoiceKeeps(n: Net, id: EndId)
    requires EndsOk(n) && CallsOk(n) && Enabled(n, ReadChoice(id))
    ensures Inv(Apply(n, ReadChoice(id)))
  {
    assert PairOk(n, id) && PairOk(n, Far(id));
    NextFrame(n, id);
    var end := n.ends[id];
    SettleKeeps(n, id, end.(phase := Handshaken, read := end.read + 1), end.call.value, Connected(id));
  }

  lemma SendMessageKeeps(n: Net, id: EndId)
    requires EndsOk(n) && CallsOk(n) && Enabled(n, SendMessage(id))
    ensures Inv(Apply(n, SendMessage(id)))
  {
    assert PairOk(n, id);
    SetKeeps(n, id, Apply(n, SendMessage(id)).ends[id]);
  }

  lemma ReadMessageKeeps(n: Net, id: EndId)
    requires EndsOk(n) && CallsOk(n) && Enabled(n, ReadMessage(id))
    ensures Inv(Apply(n, ReadMessage(id)))
  {
    assert PairOk(n, id) && PairOk(n, Far(id));
    SetKeeps(n, id, Apply(n, ReadMessage(id)).ends[id]);
  }

  lemma FailKeeps(n: Net, id: EndId)
    requires EndsOk(n) && CallsOk(n) && Enabled(n, Fail(id))
    ensures Inv(Apply(n, Fail(id)))
  {
    assert PairOk(n, id);
    EndOkClosed(n, Apply(n, Fail(id)), id);
    SetKeeps(n, id, Apply(n, Fail(id)).ends[id]);
  }

  lemma ApplyKeeps(n: Net, e: Event)
    requires Inv(n)
    ensures Inv(Apply(n, e))
  {
    if Enabled(n, e) {
      match e
      case StartCall(call, nameHash) => StartKeeps(n, call, nameHash);
      case Dial(conn, call, remote) => DialKeeps(n, conn, call, remote);
      case SendConnect(id) => SendConnectKeeps(n, id);
      case ReadConnect(id) => ReadConnectKeeps(n, id);
      case Demultiplex(id) => DemultiplexKeeps(n, id);
      case TakeRequest(id) => TakeRequestKeeps(n, id);
      case Choose(id, constructed) => ChooseKeeps(n, id, constructed);
      case AwaitChoice(id) => AwaitChoiceKeeps(n, id);
      case ReadChoice(id) => ReadChoiceKeeps(n, id);
      case SendMessage(id) => SendMessageKeeps(n, id);
      case ReadMessage(id) => ReadMessageKeeps(n, id);
      case Fail(id) => FailKeeps(n, id);
      case GiveUp(call) => GiveUpKeeps(n, call);
    }
  }

  lemma {:induction false} InvHolds(es: seq<Event>)
    ensures Inv(After(es))
  {
    if es != [] {
      InvHolds(es[..|es| - 1]);
      ApplyKeeps(After(es[..|es| - 1]), es[|es| - 1]);
    }
  }
}
