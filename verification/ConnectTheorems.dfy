/** What the rendezvous protocol promises, in every reachable state: any number of peers, calls and
    connections, any interleaving, loss and timeouts, and one connect call per ordered pair of peers. */
module ConnectTheorems {
  import opened Common
  import opened Connect

  predicate HasPeer(n: Net, call: Call, id: EndId) {
    call in n.calls && n.calls[call].status == Connected(id)
  }

  ghost predicate SentChoice(n: Net, call: Call, id: EndId) {
    id in n.ends && n.ends[id].call == Some(call) && ChooseConnection in n.ends[id].sent
  }

  lemma ChoiceSettlesCall(n: Net, call: Call, id: EndId)
    requires Inv(n) && SentChoice(n, call, id)
    ensures call in n.calls && call.own > call.their && |n.ends[id].sent| >= 2
    ensures n.calls[call].status == Connected(id) || n.calls[call].status == FailedAfterChoice(id)
  {
    assert PairOk(n, id);
    var end := n.ends[id];
    var i :| 0 <= i < |end.sent| && end.sent[i] == ChooseConnection;
    assert end.sent[i] == Script(n, call, i);
  }

  /** The choice is sent on at most one connection, and only by the side with the greater uid. */
  lemma {:induction false} OneChoice(es: seq<Event>, call: Call, id: EndId, id': EndId)
    requires SentChoice(After(es), call, id) && SentChoice(After(es), call, id')
    ensures id == id' && call.own > call.their
  {
    InvHolds(es);
    ChoiceSettlesCall(After(es), call, id);
    ChoiceSettlesCall(After(es), call, id');
  }

  /** The lesser side only returns a connection on which the greater side, calling it, sent the choice. */
  lemma {:induction false} LesserSideWasChosen(es: seq<Event>, call: Call, id: EndId)
    requires HasPeer(After(es), call, id) && call.own < call.their
    ensures SentChoice(After(es), Call(call.their, call.own), Far(id))
  {
    InvHolds(es);
    var n := After(es);
    assert CallOk(n, call) && PairOk(n, id) && PairOk(n, Far(id));
    assert Far(Far(id)) == id;
    assert n.ends[Far(id)].sent[1] == ChooseConnection;
  }

  /** Agreement: when both sides return a peer, they hold the two ends of one connection. */
  lemma {:induction false} Agreement(es: seq<Event>, call: Call, id: EndId, id': EndId)
    requires HasPeer(After(es), call, id) && HasPeer(After(es), Call(call.their, call.own), id')
    ensures id' == Far(id)
  {
    InvHolds(es);
    var n, back := After(es), Call(call.their, call.own);
    assert CallOk(n, call);
    if call.own < call.their {
      LesserSideWasChosen(es, call, id);
      ChoiceSettlesCall(n, back, Far(id));
    } else {
      LesserSideWasChosen(es, back, id');
      ChoiceSettlesCall(n, call, Far(id'));
    }
  }

  /** A returned peer is the peer that was asked for, on the same network, whatever the address led to. */
  lemma {:induction false} PeerIsGenuine(es: seq<Event>, call: Call, id: EndId)
    requires HasPeer(After(es), call, id)
    ensures var n := After(es);
            && id in n.ends && Far(id) in n.ends
            && n.ends[id].node == call.own
            && n.ends[Far(id)].node == call.their
            && n.ends[Far(id)].call.Some?
            && n.ends[Far(id)].call.value in n.calls
            && n.calls[n.ends[Far(id)].call.value].nameHash == n.calls[call].nameHash
  {
    InvHolds(es);
    assert CallOk(After(es), call) && PairOk(After(es), id) && PairOk(After(es), Far(id));
  }

  /** Phase agreement: no end of any run finds an unexpected message or one of the wrong type. */
  lemma {:induction false} NoUnexpectedMessage(es: seq<Event>, id: EndId)
    requires Unread(After(es), id)
    ensures var n := After(es);
            var end, frame := n.ends[id], n.ends[Far(id)].sent[n.ends[id].read];
            && (end.phase.Accepted? || end.phase.AwaitingConnect? ==> frame.Connect?)
            && (end.phase.AwaitingChoice? ==> frame.ChooseConnection?)
            && (end.phase.Handshaken? ==> frame.PeerMessage?)
  {
    InvHolds(es);
    assert PairOk(After(es), id) && PairOk(After(es), Far(id));
    NextFrame(After(es), id);
  }

  /** Routing: a request that reaches a call by way of the demultiplexer has the uid the call expects, so
      only its name hash can still be wrong. */
  lemma {:induction false} RoutedUidIsValid(es: seq<Event>, id: EndId)
    requires id in After(es).ends && After(es).ends[id].phase.Routed?
    ensures var n := After(es);
            var end := n.ends[id];
            && end.call.Some? && end.call.value in n.calls
            && var error := ValidateConnectRequest(end.call.value.their, n.calls[end.call.value].nameHash, end.phase.request);
               error.Some? ==> error.value.InvalidNameHash?
  {
    InvHolds(es);
    assert PairOk(After(es), id);
  }

  // Progress

  /** The greater side has settled on this connection and this end of the lesser side is still open. */
  ghost predicate Awaited(n: Net, call: Call, id: EndId) {
    && call.own < call.their
    && IsCalling(n, call)
    && HasPeer(n, Call(call.their, call.own), Far(id))
    && id in n.ends && n.ends[id].call == Some(call) && !n.ends[id].phase.Closed?
  }

  /** How many steps of its own the end still needs. */
  function Remaining(phase: Phase): nat {
    match phase
    case AwaitingConnect => 3
    case Validated => 2
    case AwaitingChoice => 1
    case _ => 0
  }

  function NextStep(n: Net, id: EndId): Event
    requires id in n.ends
  {
    match n.ends[id].phase
    case AwaitingConnect => ReadConnect(id)
    case Validated => AwaitChoice(id)
    case _ => ReadChoice(id)
  }

  /** The call looks at this end, or will without fail. */
  ghost predicate HasRoom(n: Net, call: Call, id: EndId) {
    id in n.ends && (!n.ends[id].phase.AwaitingConnect? || Polled(n, call))
  }

  lemma AwaitedFacts(n: Net, call: Call, id: EndId)
    requires Inv(n) && Awaited(n, call, id)
    ensures PairOk(n, id) && PairOk(n, Far(id)) && Far(Far(id)) == id && CallOk(n, Call(call.their, call.own))
    ensures Remaining(n.ends[id].phase) > 0
    ensures Matched(n, call, n.ends[Far(id)])
    ensures |n.ends[Far(id)].sent| >= 2 && n.ends[Far(id)].sent[1].ChooseConnection?
  {
    assert CallOk(n, Call(call.their, call.own)) && PairOk(n, id) && PairOk(n, Far(id));
    var far := n.ends[Far(id)];
    assert far.sent[0] == Script(n, Call(call.their, call.own), 0) && far.sent[1] == Script(n, Call(call.their, call.own), 1);
    assert n.ends[id].sent[0] == Script(n, call, 0);
  }

  /** The end's own next step can happen exactly when its call looks at it, and brings it nearer. */
  lemma AwaitedAdvances(n: Net, call: Call, id: EndId)
    requires Inv(n) && Awaited(n, call, id)
    ensures Enabled(n, NextStep(n, id)) <==> HasRoom(n, call, id)
    ensures Enabled(n, NextStep(n, id)) ==>
      var n' := Apply(n, NextStep(n, id));
      HasPeer(n', call, id) || (Awaited(n', call, id) && Remaining(n'.ends[id].phase) == Remaining(n.ends[id].phase) - 1)
  {
    AwaitedFacts(n, call, id);
  }

  /** A call that returned a peer never loses or changes it. */
  lemma PeerIsFinal(n: Net, e: Event, call: Call, id: EndId)
    requires Inv(n) && HasPeer(n, call, id)
    ensures HasPeer(Apply(n, e), call, id)
  {
    if Enabled(n, e) && (e.Choose? || e.ReadChoice?) {
      assert PairOk(n, e.id);
    }
  }

  /** No other event takes an awaited end back, unless its connection fails or its call gives up. */
  lemma AwaitedPersists(n: Net, e: Event, call: Call, id: EndId)
    requires Inv(n) && Awaited(n, call, id) && e != Fail(id) && e != GiveUp(call)
    ensures var n' := Apply(n, e);
            HasPeer(n', call, id) || (Awaited(n', call, id) && Remaining(n'.ends[id].phase) <= Remaining(n.ends[id].phase))
  {
    PeerIsFinal(n, e, Call(call.their, call.own), Far(id));
    AwaitedFacts(n, call, id);
    if e == NextStep(n, id) {
      AwaitedAdvances(n, call, id);
    } else if Enabled(n, e) && (e.Choose? || e.ReadChoice?) && n.ends[e.id].call == Some(call) {
      assert PairOk(n, e.id) && PairOk(n, Far(e.id));
      OtherEndHasNoChoice(n, call, id, e.id);
    }
  }

  lemma OtherEndHasNoChoice(n: Net, call: Call, id: EndId, id': EndId)
    requires Inv(n) && Awaited(n, call, id) && id' in n.ends && n.ends[id'].call == Some(call) && id' != id
    ensures n.ends[id'].phase.AwaitingChoice? ==> !Unread(n, id')
  {
    assert PairOk(n, id') && PairOk(n, Far(id'));
    assert Far(Far(id')) == id';
  }

  /** An awaited end stays on its way for as long as its connection does not fail and its call does not give
      up, whatever else happens in between. */
  lemma {:induction false} AwaitedNeverLost(es: seq<Event>, fs: seq<Event>, call: Call, id: EndId)
    requires Awaited(After(es), call, id) && Fail(id) !in fs && GiveUp(call) !in fs
    ensures var n := After(es + fs);
            || HasPeer(n, call, id)
            || (Awaited(n, call, id) && Remaining(n.ends[id].phase) <= Remaining(After(es).ends[id].phase))
  {
    if fs == [] {
      assert es + fs == es;
    } else {
      var init, e := fs[..|fs| - 1], fs[|fs| - 1];
      AwaitedNeverLost(es, init, call, id);
      assert (es + fs)[..|es + fs| - 1] == es + init;
      InvHolds(es + init);
      if HasPeer(After(es + init), call, id) {
        PeerIsFinal(After(es + init), e, call, id);
      } else {
        AwaitedPersists(After(es + init), e, call, id);
      }
    }
  }

  lemma RoomIsKept(n: Net, call: Call, id: EndId)
    requires Inv(n) && Awaited(n, call, id) && HasRoom(n, call, id)
    ensures Enabled(n, NextStep(n, id))
    ensures var n' := Apply(n, NextStep(n, id));
            HasPeer(n', call, id) || HasRoom(n', call, id)
  {
    AwaitedFacts(n, call, id);
    AwaitedAdvances(n, call, id);
  }

  /** Progress: with room in the buffer, at most three steps of the awaited end give its side a peer on the
      connection the greater side chose. */
  lemma {:induction false} AwaitedCompletes(es: seq<Event>, call: Call, id: EndId) returns (fs: seq<Event>)
    requires Awaited(After(es), call, id) && HasRoom(After(es), call, id)
    ensures |fs| == Remaining(After(es).ends[id].phase) <= 3
    ensures HasPeer(After(es + fs), call, id)
    decreases Remaining(After(es).ends[id].phase)
  {
    InvHolds(es);
    var n := After(es);
    var e := NextStep(n, id);
    AwaitedFacts(n, call, id);
    AwaitedAdvances(n, call, id);
    RoomIsKept(n, call, id);
    assert (es + [e])[..|es|] == es;
    if HasPeer(After(es + [e]), call, id) {
      fs := [e];
    } else {
      var rest := AwaitedCompletes(es + [e], call, id);
      fs := [e] + rest;
      assert es + [e] + rest == es + fs;
    }
  }

  // Room

  lemma {:induction false} SubsetSize<A>(a: set<A>, b: set<A>)
    requires a <= b
    ensures |a| <= |b|
  {
    if a != {} {
      var x :| x in a;
      SubsetSize(a - {x}, b - {x});
    }
  }

  function Open(n: Net, call: Call): set<EndId> {
    set id | id in n.ends && n.ends[id].call == Some(call) && !n.ends[id].phase.Closed?
  }

  /** With at most as many open connections as the buffer holds there is always room. */
  lemma FewConnectionsHaveRoom(n: Net, call: Call, id: EndId)
    requires Awaited(n, call, id) && |Open(n, call)| <= 128
    ensures HasRoom(n, call, id)
  {
    if n.ends[id].phase.AwaitingConnect? {
      SubsetSize(Undecided(n, call), Open(n, call) - {id});
    }
  }

  lemma FailLeaves(n: Net, call: Call, x: EndId, phase: Phase)
    requires x in n.ends && !phase.Closed?
    ensures InPhase(Set(n, x, n.ends[x].(phase := Closed)), call, phase) == InPhase(n, call, phase) - {x}
  {
  }

  lemma FailMakesRoom(n: Net, call: Call, id: EndId, x: EndId)
    requires Awaited(n, call, id) && n.ends[id].phase.AwaitingConnect? && x in Undecided(n, call)
    ensures Awaited(Apply(n, Fail(x)), call, id)
    ensures |Undecided(Apply(n, Fail(x)), call)| < |Undecided(n, call)|
  {
    var n' := Apply(n, Fail(x));
    assert n' == Set(n, x, n.ends[x].(phase := Closed)) && x != id;
    assert n'.ends[id] == n.ends[id];
    FailLeaves(n, call, x, Validated);
    FailLeaves(n, call, x, AwaitingChoice);
  }

  /** The failure of other connections makes room for an awaited end. */
  lemma {:induction false} RoomCanBeFreed(es: seq<Event>, call: Call, id: EndId) returns (fs: seq<Event>)
    requires Awaited(After(es), call, id)
    ensures es <= fs && Awaited(After(fs), call, id) && HasRoom(After(fs), call, id)
    decreases |Undecided(After(es), call)|
  {
    fs := es;
    if !HasRoom(After(es), call, id) {
      assert |Undecided(After(es), call)| >= BUFFER;
      var x :| x in Undecided(After(es), call);
      FailMakesRoom(After(es), call, id, x);
      AfterLast(es, Fail(x));
      fs := RoomCanBeFreed(es + [Fail(x)], call, id);
    }
  }

  // When both sides can succeed

  /** After this continuation the call has a peer. */
  ghost predicate Succeeds(es: seq<Event>, fs: seq<Event>, call: Call) {
    exists id :: HasPeer(After(es + fs), call, id)
  }

  /** The greater side has settled on a connection that cannot become the peer of this call of the lesser side:
      its other end is of another call, or closed, or the call is over. */
  ghost predicate Missed(n: Net, call: Call, id: EndId) {
    && call.own < call.their
    && HasPeer(n, Call(call.their, call.own), Far(id)) && !HasPeer(n, call, id)
    && id in n.ends && n.ends[id].call.Some?
    && (n.ends[id].call != Some(call) || n.ends[id].phase.Closed? || !IsCalling(n, call))
  }

  lemma SettledIsAwaitedOrMissed(n: Net, call: Call, id: EndId)
    requires Inv(n) && call.own < call.their && HasPeer(n, Call(call.their, call.own), Far(id))
    ensures HasPeer(n, call, id) || Awaited(n, call, id) || Missed(n, call, id)
  {
    assert CallOk(n, Call(call.their, call.own)) && Far(Far(id)) == id && PairOk(n, id);
  }

  /** An end never leaves its call, and a closed end stays closed. */
  lemma EndStays(n: Net, e: Event, id: EndId)
    requires id in n.ends && n.ends[id].call.Some?
    requires PairOk(n, id)
    ensures var n' := Apply(n, e);
            && id in n'.ends && n'.ends[id].call == n.ends[id].call
            && (n.ends[id].phase.Closed? ==> n'.ends[id].phase.Closed?)
  {
  }

  lemma CallStaysOver(n: Net, e: Event, call: Call)
    requires EndsOk(n) && call in n.calls && !IsCalling(n, call)
    ensures !IsCalling(Apply(n, e), call)
  {
  }

  /** A call gets its peer by choosing the connection or by reading the choice on it. */
  lemma NewPeer(n: Net, e: Event, call: Call, id: EndId)
    requires !HasPeer(n, call, id) && HasPeer(Apply(n, e), call, id) && PairOk(n, id)
    ensures Enabled(n, e) && (e.Choose? || e.ReadChoice?) && e.id == id
    ensures id in n.ends && n.ends[id].call == Some(call) && IsCalling(n, call)
    ensures n.ends[id].phase.Validated? || n.ends[id].phase.AwaitingChoice?
  {
  }

  lemma MissedStays(n: Net, e: Event, call: Call, id: EndId)
    requires Inv(n) && Missed(n, call, id)
    ensures Missed(Apply(n, e), call, id)
  {
    PeerIsFinal(n, e, Call(call.their, call.own), Far(id));
    EndStays(n, e, id);
    assert PairOk(n, id);
    if call in n.calls && !IsCalling(n, call) {
      CallStaysOver(n, e, call);
    }
    if HasPeer(Apply(n, e), call, id) {
      NewPeer(n, e, call, id);
    }
  }

  lemma {:induction false} MissedForGood(es: seq<Event>, fs: seq<Event>, call: Call, id: EndId)
    requires Missed(After(es), call, id)
    ensures Missed(After(es + fs), call, id) && !Succeeds(es, fs, call)
  {
    if fs == [] {
      assert es + fs == es;
    } else {
      var init := es + fs[..|fs| - 1];
      MissedForGood(es, fs[..|fs| - 1], call, id);
      InvHolds(init);
      MissedStays(After(init), fs[|fs| - 1], call, id);
      AfterLast(init, fs[|fs| - 1]);
      assert es + fs == init + [fs[|fs| - 1]];
    }
    forall id' | HasPeer(After(es + fs), call, id')
      ensures id' == id
    {
      Agreement(es + fs, call, id', Far(id));
    }
  }

  lemma AwaitedCanSucceed(es: seq<Event>, call: Call, id: EndId) returns (rest: seq<Event>)
    requires Awaited(After(es), call, id)
    ensures HasPeer(After(es + rest), call, id)
  {
    var fs := RoomCanBeFreed(es, call, id);
    var gs := AwaitedCompletes(fs, call, id);
    rest := fs[|es|..] + gs;
    assert es + rest == fs + gs;
  }

  /** Exactly when the lesser side can still succeed once the greater side has: it has already, or it is awaited
      on the other end of that very connection, in this very call. */
  lemma {:induction false} LesserSideCanSucceedIff(es: seq<Event>, call: Call, id: EndId)
    requires call.own < call.their && HasPeer(After(es), Call(call.their, call.own), Far(id))
    ensures (exists fs :: Succeeds(es, fs, call)) <==>
      HasPeer(After(es), call, id) || Awaited(After(es), call, id)
  {
    InvHolds(es);
    SettledIsAwaitedOrMissed(After(es), call, id);
    if HasPeer(After(es), call, id) {
      assert es + [] == es && Succeeds(es, [], call);
    } else if Awaited(After(es), call, id) {
      var rest := AwaitedCanSucceed(es, call, id);
      assert HasPeer(After(es + rest), call, id) && Succeeds(es, rest, call);
    } else {
      forall fs
        ensures !Succeeds(es, fs, call)
      {
        MissedForGood(es, fs, call, id);
      }
    }
  }

  /** The success of the greater side does not imply the other's: an awaited end whose call gives up leaves
      the greater side with a peer alone. */
  lemma {:induction false} ChooserMayBeAlone(es: seq<Event>, call: Call, id: EndId)
    requires Awaited(After(es), call, id)
    ensures var n := After(es + [GiveUp(call)]);
            n.calls[call].status.Failed? && HasPeer(n, Call(call.their, call.own), Far(id))
  {
    InvHolds(es);
    assert (es + [GiveUp(call)])[..|es|] == es;
    PeerIsFinal(After(es), GiveUp(call), Call(call.their, call.own), Far(id));
  }

  // The hypotheses are met

  lemma AfterLast(es: seq<Event>, e: Event)
    ensures After(es + [e]) == Apply(After(es), e)
  {
    assert (es + [e])[..|es|] == es;
  }

  /** Two peers, each calling the other, with a connection that peer 2 opened and peer 1 accepted. */
  lemma {:induction false} Meeting(hash: NameHash) returns (es: seq<Event>)
    ensures After(es) == Net(
      map[Call(2, 1) := CallState(hash, Calling), Call(1, 2) := CallState(hash, Calling)],
      map[EndId(0, true) := End(2, Some(Call(2, 1)), Dialled, [], 0), EndId(0, false) := End(1, None, Accepted, [], 0)])
  {
    AfterLast([], StartCall(Call(2, 1), hash));
    es := [] + [StartCall(Call(2, 1), hash)];
    AfterLast(es, StartCall(Call(1, 2), hash));
    es := es + [StartCall(Call(1, 2), hash)];
    AfterLast(es, Dial(0, Call(2, 1), Listening(1)));
    es := es + [Dial(0, Call(2, 1), Listening(1))];
  }

  /** From there peer 2 introduces itself. */
  lemma {:induction false} Introduction(hash: NameHash) returns (es: seq<Event>)
    ensures After(es) == Net(
      map[Call(2, 1) := CallState(hash, Calling), Call(1, 2) := CallState(hash, Calling)],
      map[EndId(0, true) := End(2, Some(Call(2, 1)), AwaitingConnect, [Connect(ConnectRequest(2, hash))], 0),
          EndId(0, false) := End(1, None, Accepted, [], 0)])
  {
    es := Meeting(hash);
    FirstConnect(After(es), EndId(0, true), Call(2, 1));
    AfterLast(es, SendConnect(EndId(0, true)));
    es := es + [SendConnect(EndId(0, true))];
  }

  /** And peer 1 accepts the request. */
  lemma {:induction false} Greeting(hash: NameHash) returns (es: seq<Event>)
    ensures After(es) == Net(
      map[Call(2, 1) := CallState(hash, Calling), Call(1, 2) := CallState(hash, Calling)],
      map[EndId(0, true) := End(2, Some(Call(2, 1)), AwaitingConnect, [Connect(ConnectRequest(2, hash))], 0),
          EndId(0, false) := End(1, Some(Call(1, 2)), Validated, [Connect(ConnectRequest(1, hash))], 1)])
  {
    es := Introduction(hash);
    AfterLast(es, Demultiplex(EndId(0, false)));
    es := es + [Demultiplex(EndId(0, false))];
    assert Undecided(After(es), Call(1, 2)) == {};
    AfterLast(es, TakeRequest(EndId(0, false)));
    es := es + [TakeRequest(EndId(0, false))];
  }

  lemma {:induction false} Choice(hash: NameHash) returns (es: seq<Event>)
    ensures Awaited(After(es), Call(1, 2), EndId(0, false)) && HasRoom(After(es), Call(1, 2), EndId(0, false))
  {
    var a := EndId(0, true);
    es := Greeting(hash);
    AfterLast(es, ReadConnect(a));
    es := es + [ReadConnect(a)];
    AfterLast(es, Choose(a, true));
    es := es + [Choose(a, true)];
  }

  /** A run in which both sides end up with a peer: peer 2 chooses, and peer 1 is awaited until it has read
      the choice. */
  lemma {:induction false} BothCanConnect(hash: NameHash) returns (es: seq<Event>)
    ensures HasPeer(After(es), Call(2, 1), EndId(0, true)) && HasPeer(After(es), Call(1, 2), EndId(0, false))
  {
    es := Choice(hash);
    var fs := AwaitedCompletes(es, Call(1, 2), EndId(0, false));
    PeerStaysThrough(es, fs, Call(2, 1), EndId(0, true));
    es := es + fs;
  }

  lemma {:induction false} PeerStaysThrough(es: seq<Event>, fs: seq<Event>, call: Call, id: EndId)
    requires HasPeer(After(es), call, id)
    ensures HasPeer(After(es + fs), call, id)
  {
    if fs == [] {
      assert es + fs == es;
    } else {
      var init := es + fs[..|fs| - 1];
      PeerStaysThrough(es, fs[..|fs| - 1], call, id);
      InvHolds(init);
      PeerIsFinal(After(init), fs[|fs| - 1], call, id);
      AfterLast(init, fs[|fs| - 1]);
      assert es + fs == init + [fs[|fs| - 1]];
    }
  }

  /** Peer 1 calls both 2 and 3, and what it takes for 3 is peer 2. */
  lemma Mistaken(hash: NameHash) returns (es: seq<Event>)
    ensures After(es) == Net(
      map[Call(2, 1) := CallState(hash, Calling), Call(1, 2) := CallState(hash, Calling), Call(1, 3) := CallState(hash, Calling)],
      map[EndId(0, true) := End(1, Some(Call(1, 3)), Dialled, [], 0), EndId(0, false) := End(2, None, Accepted, [], 0)])
  {
    AfterLast([], StartCall(Call(2, 1), hash));
    es := [] + [StartCall(Call(2, 1), hash)];
    AfterLast(es, StartCall(Call(1, 2), hash));
    es := es + [StartCall(Call(1, 2), hash)];
    AfterLast(es, StartCall(Call(1, 3), hash));
    es := es + [StartCall(Call(1, 3), hash)];
    AfterLast(es, Dial(0, Call(1, 3), Listening(2)));
    es := es + [Dial(0, Call(1, 3), Listening(2))];
  }

  lemma FirstConnect(n: Net, id: EndId, call: Call)
    requires At(n, id, Dialled) && n.ends[id].call == Some(call)
    requires forall i :: i in n.ends && n.ends[i].call == Some(call) ==> n.ends[i].phase.Dialled?
    ensures Apply(n, SendConnect(id)) == Set(n, id, n.ends[id].(phase := AwaitingConnect, sent := [OurConnect(n, call)]))
  {
    assert InPhase(n, call, AwaitingConnect) == {} && Undecided(n, call) == {};
  }

  lemma MistakenIntroduction(hash: NameHash) returns (es: seq<Event>)
    ensures After(es) == Net(
      map[Call(2, 1) := CallState(hash, Calling), Call(1, 2) := CallState(hash, Calling), Call(1, 3) := CallState(hash, Calling)],
      map[EndId(0, true) := End(1, Some(Call(1, 3)), AwaitingConnect, [Connect(ConnectRequest(1, hash))], 0),
          EndId(0, false) := End(2, None, Accepted, [], 0)])
  {
    es := Mistaken(hash);
    FirstConnect(After(es), EndId(0, true), Call(1, 3));
    AfterLast(es, SendConnect(EndId(0, true)));
    es := es + [SendConnect(EndId(0, true))];
  }

  lemma MistakenGreeting(hash: NameHash) returns (es: seq<Event>)
    ensures After(es) == Net(
      map[Call(2, 1) := CallState(hash, Calling), Call(1, 2) := CallState(hash, Calling), Call(1, 3) := CallState(hash, Calling)],
      map[EndId(0, true) := End(1, Some(Call(1, 3)), AwaitingConnect, [Connect(ConnectRequest(1, hash))], 0),
          EndId(0, false) := End(2, Some(Call(2, 1)), Validated, [Connect(ConnectRequest(2, hash))], 1)])
  {
    es := MistakenIntroduction(hash);
    AfterLast(es, Demultiplex(EndId(0, false)));
    es := es + [Demultiplex(EndId(0, false))];
    AfterLast(es, TakeRequest(EndId(0, false)));
    es := es + [TakeRequest(EndId(0, false))];
  }

  /** The greater side may choose a connection that the lesser side made for another of its calls: then nothing
      has failed and no call has ended, and still the lesser side's call can never succeed. */
  lemma ChosenFromAnotherCall(hash: NameHash) returns (es: seq<Event>)
    ensures var n := After(es);
            && HasPeer(n, Call(2, 1), EndId(0, false))
            && IsCalling(n, Call(1, 2)) && IsCalling(n, Call(1, 3))
            && EndId(0, true) in n.ends && n.ends[EndId(0, true)].phase.AwaitingConnect?
    ensures forall fs :: !Succeeds(es, fs, Call(1, 2))
  {
    es := MistakenGreeting(hash);
    AfterLast(es, Choose(EndId(0, false), true));
    es := es + [Choose(EndId(0, false), true)];
    forall fs
      ensures !Succeeds(es, fs, Call(1, 2))
    {
      MissedForGood(es, fs, Call(1, 2), EndId(0, true));
    }
  }
}
