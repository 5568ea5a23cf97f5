/** The handshakes over the socket: the protocols assume that frames arrive in the order in which they were
    submitted, and here that is put together from the priority queue that they pass through. */
module WireFrames {
  import opened Common
  import opened SocketQueue
  import S = SocketRuns
  import C = Connect
  import T = ConnectTheorems
  import B = Bootstrap

  /** The socket was handed exactly these frames, the first `n` of them at the most urgent priority. */
  ghost predicate Carries<F>(w: S.World<F>, frames: seq<F>, n: nat) {
    && |w.submitted| == |frames|
    && (forall k :: 0 <= k < |frames| ==> w.submitted[k].body == frames[k])
    && (forall k :: 0 <= k < n && k < |frames| ==> w.submitted[k].priority == 0)
  }

  function Wire<F>(fs: seq<S.Event<F>>): seq<Msg<F>> {
    S.Wire(S.After(fs).task.log)
  }

  lemma WireIsKnown<F>(fs: seq<S.Event<F>>, i: nat)
    requires i < |Wire(fs)|
    ensures var w := S.After(fs);
            Wire(fs)[i].serial < |w.submitted| && w.submitted[Wire(fs)[i].serial] == Wire(fs)[i]
  {
    var w := S.After(fs);
    S.InvHolds(fs);
    S.WireWithinHanded(fs);
    assert S.Handed(w.task.log)[i] == Wire(fs)[i];
    S.HandedFrom(w.task.log, Wire(fs)[i]);
    assert S.Conserved(w, Wire(fs)[i].priority);
    S.LoggedIsKnown(w, Wire(fs)[i]);
  }

  /** The first `n` frames on the wire are the first `n` submitted, and every later one is a later one. */
  lemma FrameOnWire<F>(fs: seq<S.Event<F>>, frames: seq<F>, n: nat, i: nat)
    requires Carries(S.After(fs), frames, n) && i < |Wire(fs)|
    ensures i < n ==> i < |frames| && Wire(fs)[i].body == frames[i]
    ensures i >= n ==> exists k :: n <= k < |frames| && Wire(fs)[i].body == frames[k]
  {
    S.TypeChangeIsSafe(fs, if n <= |frames| then n else |frames|, i);
    WireIsKnown(fs, i);
    assert Wire(fs)[i].body == frames[Wire(fs)[i].serial];
  }

  /** How many handshake messages an end of a connection sends. */
  function Handshake(end: C.End): nat {
    if end.call.Some? && end.call.value.own > end.call.value.their then 2 else 1
  }

  /** Whatever an end of a connection reads off the wire next, in any run of the other end's socket, is of the
      kind its phase expects. */
  lemma ConnectFramesAreExpected(es: seq<C.Event>, id: C.EndId, fs: seq<S.Event<C.Frame>>)
    requires id in C.After(es).ends && C.Far(id) in C.After(es).ends
    requires var far := C.After(es).ends[C.Far(id)];
             Carries(S.After(fs), far.sent, Handshake(far))
    requires C.After(es).ends[id].read < |Wire(fs)|
    ensures var end := C.After(es).ends[id];
            var frame := Wire(fs)[end.read].body;
            && (end.phase.Accepted? || end.phase.AwaitingConnect? ==> frame.Connect?)
            && (end.phase.AwaitingChoice? ==> frame.ChooseConnection?)
            && (end.phase.Handshaken? ==> frame.PeerMessage?)
  {
    var n := C.After(es);
    var end, far := n.ends[id], n.ends[C.Far(id)];
    C.InvHolds(es);
    assert C.PairOk(n, id) && C.PairOk(n, C.Far(id));
    FrameOnWire(fs, far.sent, Handshake(far), end.read);
    if end.read < Handshake(far) {
      assert C.Unread(n, id);
      T.NoUnexpectedMessage(es, id);
    } else {
      LaterFramesArePeers(n, id);
    }
  }

  lemma LaterFramesArePeers(n: C.Net, id: C.EndId)
    requires C.PairOk(n, id) && id in n.ends && C.PairOk(n, C.Far(id)) && C.Far(id) in n.ends
    requires n.ends[id].read >= Handshake(n.ends[C.Far(id)]) && |n.ends[C.Far(id)].sent| > Handshake(n.ends[C.Far(id)])
    ensures var end, far := n.ends[id], n.ends[C.Far(id)];
            && (forall k :: Handshake(far) <= k < |far.sent| ==> far.sent[k].PeerMessage?)
            && !end.phase.Accepted? && !end.phase.AwaitingConnect? && !end.phase.AwaitingChoice?
  {
    assert C.Far(C.Far(id)) == id;
    if n.ends[id].phase.AwaitingChoice? {
      C.NextFrame(n, id);
    }
  }

  /** The same for both sides of a bootstrap handshake. */
  lemma BootstrapFramesAreExpected(ours: Uid, theirs: Uid, es: seq<B.Event>, fs: seq<S.Event<B.Frame>>, gs: seq<S.Event<B.Frame>>)
    requires Carries(S.After(fs), B.After(ours, theirs, es).toAcceptor, 1)
    requires Carries(S.After(gs), B.After(ours, theirs, es).toInitiator, 1)
    ensures var l := B.After(ours, theirs, es);
            l.readByAcceptor < |Wire(fs)| ==>
              && (l.acceptor.AwaitingRequest? ==> Wire(fs)[l.readByAcceptor].body.Request?)
              && (l.acceptor.Accepted? ==> Wire(fs)[l.readByAcceptor].body.PeerMessage?)
    ensures var l := B.After(ours, theirs, es);
            l.readByInitiator < |Wire(gs)| ==>
              && (l.initiator.AwaitingVerdict? ==>
                    Wire(gs)[l.readByInitiator].body.Granted? || Wire(gs)[l.readByInitiator].body.Denied?)
              && (l.initiator.HasPeer? ==> Wire(gs)[l.readByInitiator].body.PeerMessage?)
  {
    var l := B.After(ours, theirs, es);
    B.InvHolds(ours, theirs, es);
    if l.readByAcceptor < |Wire(fs)| {
      FrameOnWire(fs, l.toAcceptor, 1, l.readByAcceptor);
    }
    if l.readByInitiator < |Wire(gs)| {
      FrameOnWire(gs, l.toInitiator, 1, l.readByInitiator);
      B.FramesAreReadAtTheirType(ours, theirs, es);
    }
  }
}
