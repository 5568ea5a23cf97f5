/** What the two sides of the rendezvous protocol can always reach, however many other connections and calls
    there are. */
module ConnectProgress {
  import opened Common
  import opened Connect
  import opened ConnectTheorems

  /** A call always starts, and a call to ourselves fails at once. */
  lemma CallStarts(n: Net, call: Call, nameHash: NameHash)
    requires call !in n.calls
    ensures var n' := Apply(n, StartCall(call, nameHash));
            && call in n'.calls && n'.calls[call].nameHash == nameHash && n'.ends == n.ends
            && (IsCalling(n', call) <==> call.own != call.their)
            && (n'.calls[call].status == Failed <==> call.own == call.their)
            && (forall c :: c in n.calls ==> c in n'.calls && n'.calls[c] == n.calls[c])
  {
  }

  /** The greater side can choose any connection it has validated, whatever else it has open. */
  lemma ChooseYieldsPeer(n: Net, call: Call, id: EndId)
    requires IsCalling(n, call) && call.own > call.their
    requires id in n.ends && n.ends[id].phase.Validated? && n.ends[id].call == Some(call)
    ensures var n' := Apply(n, Choose(id, true));
            && HasPeer(n', call, id) && SentChoice(n', call, id)
            && (forall i :: i in n.ends && i != id && n.ends[i].call == Some(call) ==> n'.ends[i].phase.Closed?)
            && (forall i :: i in n.ends && n.ends[i].call != Some(call) ==> n'.ends[i] == n.ends[i])
            && (forall c :: c in n.calls && c != call ==> n'.calls[c] == n.calls[c])
  {
    var sent := Apply(n, Choose(id, true)).ends[id].sent;
    assert sent[|sent| - 1] == ChooseConnection;
  }

  // The steps of one end up to the exchange of both Connect messages

  /** An open end of this call, or one that was accepted by this peer and is of no call yet. */
  ghost predicate Belongs(n: Net, id: EndId, call: Call) {
    && id in n.ends && !n.ends[id].phase.Closed?
    && (n.ends[id].call == Some(call) || (n.ends[id].phase.Accepted? && n.ends[id].node == call.own))
  }

  /** How many steps of its own the end still needs. */
  function ToValidated(phase: Phase): nat {
    match phase
    case Dialled => 2
    case Accepted => 2
    case AwaitingConnect => 1
    case Routed(_) => 1
    case _ => 0
  }

  function OwnStep(n: Net, id: EndId): Event
    requires id in n.ends
  {
    match n.ends[id].phase
    case Dialled => SendConnect(id)
    case Accepted => Demultiplex(id)
    case AwaitingConnect => ReadConnect(id)
    case _ => TakeRequest(id)
  }

  /** The lesser side has room for another connection that waits for the choice. */
  predicate RoomToDecide(n: Net, call: Call) {
    call.own > call.their || |Undecided(n, call)| < 128
  }

  predicate RoomToDial(n: Net, call: Call) {
    RoomToDecide(n, call) && |InPhase(n, call, AwaitingConnect)| < 128
  }

  ghost predicate OnlyEnd(n: Net, n': Net, id: EndId) {
    && n'.calls == n.calls && n'.ends.Keys == n.ends.Keys
    && forall i :: i in n.ends && i != id ==> n'.ends[i] == n.ends[i]
  }

  /** An end whose other side introduced itself as expected can take its next step exactly when its stage has room,
      and comes one step nearer without touching anything else. The first step of a dialled end is to introduce
      itself, and needs no introduction. */
  lemma OwnStepAdvances(n: Net, call: Call, id: EndId)
    requires Inv(n) && IsCalling(n, call) && Belongs(n, id, call) && ToValidated(n.ends[id].phase) > 0 && Far(id) in n.ends
    requires n.ends[id].phase.Dialled? || Matched(n, call, n.ends[Far(id)])
    ensures Enabled(n, OwnStep(n, id)) <==>
      match n.ends[id].phase
      case Dialled => RoomToDial(n, call)
      case Accepted => true
      case _ => RoomToDecide(n, call)
    ensures Enabled(n, OwnStep(n, id)) ==>
      var n' := Apply(n, OwnStep(n, id));
      && OnlyEnd(n, n', id) && Belongs(n', id, call) && n'.ends[id].call == Some(call)
      && ToValidated(n'.ends[id].phase) == ToValidated(n.ends[id].phase) - 1
      && (n'.ends[id].phase.AwaitingConnect? || n'.ends[id].phase.Routed? || n'.ends[id].phase.Validated?)
      && (n'.ends[id].phase.Routed? <==> n.ends[id].phase.Accepted?)
  {
    assert PairOk(n, id);
  }

  // Making room

  /** Only other ends of this call have failed. */
  ghost predicate OthersFailed(n: Net, n': Net, call: Call, id: EndId) {
    && n'.calls == n.calls && n'.ends.Keys == n.ends.Keys
    && forall i :: i in n.ends ==>
         n'.ends[i] == n.ends[i] || (i != id && n.ends[i].call == Some(call) && n'.ends[i] == n.ends[i].(phase := Closed))
  }

  lemma FullHasOther<A>(s: set<A>, x: A) returns (y: A)
    requires |s| >= 128
    ensures y in s && y != x
  {
    assert |s - {x}| >= |s| - 1;
    y :| y in s - {x};
  }

  lemma FailOne(n: Net, call: Call, id: EndId, x: EndId)
    requires x in Open(n, call) && x != id
    ensures OthersFailed(n, Apply(n, Fail(x)), call, id)
    ensures |Open(Apply(n, Fail(x)), call)| < |Open(n, call)|
  {
    assert Open(Apply(n, Fail(x)), call) == Open(n, call) - {x};
  }

  lemma {:induction false} MakeRoom(es: seq<Event>, call: Call, id: EndId) returns (fs: seq<Event>)
    ensures es <= fs && OthersFailed(After(es), After(fs), call, id) && RoomToDial(After(fs), call)
    ensures RoomToDial(After(es), call) ==> fs == es
    decreases |Open(After(es), call)|
  {
    var n := After(es);
    fs := es;
    if !RoomToDial(n, call) {
      var x;
      if |InPhase(n, call, AwaitingConnect)| >= 128 {
        x := FullHasOther(InPhase(n, call, AwaitingConnect), id);
      } else {
        x := FullHasOther(Undecided(n, call), id);
      }
      FailOne(n, call, id, x);
      AfterLast(es, Fail(x));
      fs := MakeRoom(es + [Fail(x)], call, id);
    }
  }

  /** Room is made and the end takes its own next step. */
  lemma {:induction false} Advance(es: seq<Event>, call: Call, id: EndId) returns (fs: seq<Event>)
    requires var n := After(es);
             && IsCalling(n, call) && Belongs(n, id, call) && ToValidated(n.ends[id].phase) > 0 && Far(id) in n.ends
             && (n.ends[id].phase.Dialled? || Matched(n, call, n.ends[Far(id)]))
    requires After(es).ends[Far(id)].call != Some(call)
    ensures es <= fs && IsCalling(After(fs), call) && Belongs(After(fs), id, call)
    ensures var n, n' := After(es), After(fs);
            && n'.calls == n.calls && n'.ends.Keys == n.ends.Keys
            && n'.ends[id].call == Some(call)
            && ToValidated(n'.ends[id].phase) == ToValidated(n.ends[id].phase) - 1
            && forall i :: i in n.ends && n.ends[i].call != Some(call) && i != id ==> n'.ends[i] == n.ends[i]
  {
    var gs := MakeRoom(es, call, id);
    InvHolds(gs);
    OwnStepAdvances(After(gs), call, id);
    AfterLast(gs, OwnStep(After(gs), id));
    fs := gs + [OwnStep(After(gs), id)];
  }

  // The greater side

  /** Nothing but this call and its ends has changed. */
  ghost predicate OnlyCall(n: Net, n': Net, call: Call, id: EndId) {
    && n'.ends.Keys == n.ends.Keys && n'.calls.Keys == n.calls.Keys
    && (forall c :: c in n.calls && c != call ==> n'.calls[c] == n.calls[c])
    && (forall i :: i in n.ends && n.ends[i].call != Some(call) && i != id ==> n'.ends[i] == n.ends[i])
  }

  /** In every run, from any end of the greater side that is open, dialled or accepted, and whose other side
      introduced itself as expected, some continuation gives the greater side its peer on that connection. It takes
      steps of that end only, and the failure of others where a stage is full. */
  lemma {:induction false} GreaterSideCanSucceed(es: seq<Event>, call: Call, id: EndId) returns (fs: seq<Event>)
    requires call.own > call.their && IsCalling(After(es), call) && Belongs(After(es), id, call)
    requires Far(id) in After(es).ends && Matched(After(es), call, After(es).ends[Far(id)])
    ensures es <= fs && HasPeer(After(fs), call, id) && OnlyCall(After(es), After(fs), call, id)
    decreases ToValidated(After(es).ends[id].phase)
  {
    var n := After(es);
    InvHolds(es);
    FarIsOfAnotherCall(n, call, id);
    if ToValidated(n.ends[id].phase) == 0 {
      assert PairOk(n, id);
      ChooseYieldsPeer(n, call, id);
      AfterLast(es, Choose(id, true));
      fs := es + [Choose(id, true)];
    } else {
      var gs := Advance(es, call, id);
      fs := GreaterSideCanSucceed(gs, call, id);
    }
  }

  lemma FarIsOfAnotherCall(n: Net, call: Call, id: EndId)
    requires Inv(n) && Far(id) in n.ends && call in n.calls && call.own != call.their && Matched(n, call, n.ends[Far(id)])
    ensures n.ends[Far(id)].call.Some? && n.ends[Far(id)].call.value.own == call.their
  {
    assert PairOk(n, Far(id));
    assert n.ends[Far(id)].sent[0] == Script(n, n.ends[Far(id)].call.value, 0);
  }

  // Both sides

  /** Two calls for each other are in progress on the same network, and this connection between them is open. */
  ghost predicate Meeting(n: Net, call: Call, id: EndId) {
    var back := Call(call.their, call.own);
    && call.own > call.their && IsCalling(n, call) && IsCalling(n, back)
    && n.calls[call].nameHash == n.calls[back].nameHash
    && Belongs(n, id, call) && Belongs(n, Far(id), back)
  }

  /** Any connection that one of the two makes to the other's listener, or that they punch, is such a one. */
  lemma DialMeets(n: Net, conn: nat, call: Call, remote: Remote, greater: Call)
    requires IsCalling(n, call) && IsCalling(n, Call(call.their, call.own))
    requires n.calls[call].nameHash == n.calls[Call(call.their, call.own)].nameHash
    requires EndId(conn, true) !in n.ends && EndId(conn, false) !in n.ends
    requires remote == Listening(call.their) || remote == Punching(Call(call.their, call.own))
    requires greater.own > greater.their && (greater == call || greater == Call(call.their, call.own))
    ensures Meeting(Apply(n, Dial(conn, call, remote)), greater, EndId(conn, greater == call))
  {
    assert Far(EndId(conn, true)) == EndId(conn, false) && Far(EndId(conn, false)) == EndId(conn, true);
  }

  /** The two ends of a connection are never both accepted. */
  lemma {:induction false} FirstEndIsDialled(es: seq<Event>, conn: nat)
    ensures EndId(conn, true) in After(es).ends ==> After(es).ends[EndId(conn, true)].call.Some?
  {
    if es != [] {
      var n, e := After(es[..|es| - 1]), es[|es| - 1];
      FirstEndIsDialled(es[..|es| - 1], conn);
      InvHolds(es[..|es| - 1]);
      if EndId(conn, true) in n.ends {
        assert PairOk(n, EndId(conn, true));
        EndStays(n, e, EndId(conn, true));
      }
    }
  }

  /** The lesser side of such a connection can introduce itself. */
  lemma {:induction false} LesserSideIntroduces(es: seq<Event>, call: Call, id: EndId) returns (fs: seq<Event>)
    requires Meeting(After(es), call, id)
    ensures es <= fs && Meeting(After(fs), call, id) && After(fs).ends[Far(id)].sent != []
    decreases ToValidated(After(es).ends[id].phase) + ToValidated(After(es).ends[Far(id)].phase)
  {
    var n, far, back := After(es), Far(id), Call(call.their, call.own);
    assert Far(far) == id;
    InvHolds(es);
    assert PairOk(n, id) && PairOk(n, far);
    FirstEndIsDialled(es, id.conn);
    fs := es;
    if n.ends[far].sent == [] {
      var gs;
      if n.ends[far].phase.Accepted? && n.ends[id].sent == [] {
        gs := Advance(es, call, id);
      } else {
        gs := Advance(es, back, far);
      }
      fs := LesserSideIntroduces(gs, call, id);
    }
  }

  /** In every run: as long as two peers call each other on the same network and any connection between the two
      calls is open, however far it has come, some continuation gives both of them their peer on it. */
  lemma {:induction false} BothSidesCanSucceed(es: seq<Event>, call: Call, id: EndId) returns (fs: seq<Event>)
    requires Meeting(After(es), call, id)
    ensures es <= fs && HasPeer(After(fs), call, id) && HasPeer(After(fs), Call(call.their, call.own), Far(id))
  {
    var far, back := Far(id), Call(call.their, call.own);
    assert Far(far) == id;
    var introduced := LesserSideIntroduces(es, call, id);
    var n := After(introduced);
    InvHolds(introduced);
    assert PairOk(n, far);
    assert n.ends[far].sent[0] == Script(n, back, 0);
    var chosen := GreaterSideCanSucceed(introduced, call, id);
    assert Awaited(After(chosen), back, far);
    var rest := AwaitedCanSucceed(chosen, back, far);
    PeerStaysThrough(chosen, rest, call, id);
    fs := chosen + rest;
  }

  // Buffers

  lemma EntersFirstStage(n: Net, e: Event, call: Call, i: EndId)
    requires i in InPhase(Apply(n, e), call, AwaitingConnect) && i !in InPhase(n, call, AwaitingConnect)
    ensures e.SendConnect? && e.id == i && |InPhase(n, call, AwaitingConnect)| < 128
  {
  }

  lemma EntersSecondStage(n: Net, e: Event, call: Call, i: EndId)
    requires i in Undecided(Apply(n, e), call) && i !in Undecided(n, call)
    ensures (e.ReadConnect? || e.TakeRequest?) && e.id == i && RoomToDecide(n, call)
  {
  }

  /** A set that takes in at most `x`, and that only when there is room, stays within the buffer. */
  lemma StaysWithin<A>(before: set<A>, after: set<A>, x: A)
    requires |before| <= 128
    requires forall y :: y in after && y !in before ==> y == x && |before| < 128
    ensures |after| <= 128
  {
    if after <= before {
      SubsetSize(after, before);
    } else {
      SubsetSize(after, before + {x});
    }
  }

  /** No stage of a call ever works on more than 128 connections. */
  lemma {:induction false} BuffersHold(es: seq<Event>, call: Call)
    ensures |InPhase(After(es), call, AwaitingConnect)| <= 128
    ensures call.own <= call.their ==> |Undecided(After(es), call)| <= 128
  {
    if es != [] {
      var n, e := After(es[..|es| - 1]), es[|es| - 1];
      BuffersHold(es[..|es| - 1], call);
      var x := if e.SendConnect? || e.ReadConnect? || e.TakeRequest? then e.id else EndId(0, true);
      forall i | i in InPhase(Apply(n, e), call, AwaitingConnect) && i !in InPhase(n, call, AwaitingConnect)
        ensures i == x && |InPhase(n, call, AwaitingConnect)| < 128
      {
        EntersFirstStage(n, e, call, i);
      }
      StaysWithin(InPhase(n, call, AwaitingConnect), InPhase(Apply(n, e), call, AwaitingConnect), x);
      if call.own <= call.their {
        forall i | i in Undecided(Apply(n, e), call) && i !in Undecided(n, call)
          ensures i == x && |Undecided(n, call)| < 128
        {
          EntersSecondStage(n, e, call, i);
        }
        StaysWithin(Undecided(n, call), Undecided(Apply(n, e), call), x);
      }
    }
  }

  /** Two peers can go on talking: what either sends waits for the other, which reads it and stays connected. */
  lemma {:induction false} PeersCanTalk(es: seq<Event>, id: EndId)
    requires At(After(es), id, Handshaken) && At(After(es), Far(id), Handshaken)
    ensures var n := After(es);
            var n' := Apply(Apply(n, SendMessage(Far(id))), ReadMessage(id));
            && n'.ends[id] == n.ends[id].(read := n.ends[id].read + 1)
            && n'.ends[Far(id)] == n.ends[Far(id)].(sent := n.ends[Far(id)].sent + [PeerMessage])
  {
    var n := After(es);
    InvHolds(es);
    assert PairOk(n, id) && PairOk(n, Far(id)) && Far(Far(id)) == id;
    ApplyKeeps(n, SendMessage(Far(id)));
    var n1 := Apply(n, SendMessage(Far(id)));
    assert PairOk(n1, id) && PairOk(n1, Far(id));
    NextFrame(n1, id);
  }
}
