/** The stream of bootstrapping peers: requests come in on a channel, each starts a handshake, and the results
    of the handshakes come out. */
module BootstrapAcceptors {
  import opened Common

  /** Requests are numbered in the order they arrive. A result is what one handshake ended with. */
  datatype Completion = Completion(request: nat, ok: bool)

  datatype Item = Peer(request: nat) | Error(request: nat) | NotReady | Ended

  /** `lost` lists the handshakes whose result was discarded. */
  datatype Acceptor = Acceptor(
    arrived: nat,
    peerRx: seq<nat>,
    closed: bool,
    handshaking: set<nat>,
    taken: seq<nat>,
    yielded: seq<nat>,
    lost: seq<nat>,
    ended: bool)

  const START: Acceptor := Acceptor(0, [], false, {}, [], [], [], false)

  function Elements(s: seq<nat>): set<nat> {
    set x | x in s
  }

  /** The handshakes in progress once all requests in the channel have been taken. */
  function InProgress(a: Acceptor): set<nat> {
    a.handshaking + Elements(a.peerRx)
  }

  function ItemOf(c: Completion): Item {
    if c.ok then Peer(c.request) else Error(c.request)
  }

  predicate Possible(a: Acceptor, completes: Option<Completion>) {
    completes.Some? ==> completes.value.request in InProgress(a)
  }

  /** One poll, in which at most one handshake completes. Once the channel is closed and nothing is in
      progress the stream ends, whatever the poll of the handshakes had returned. */
  function Poll(a: Acceptor, completes: Option<Completion>): Acceptor {
    var left := InProgress(a) - (if completes.Some? then {completes.value.request} else {});
    var done := if completes.Some? then [completes.value.request] else [];
    var a' := a.(peerRx := [], taken := a.taken + a.peerRx, handshaking := left);
    if a.closed && left == {} then a'.(lost := a.lost + done, ended := true)
    else a'.(yielded := a.yielded + done)
  }

  function Returned(a: Acceptor, completes: Option<Completion>): Item {
    if Poll(a, completes).ended then Ended
    else if completes.Some? then ItemOf(completes.value)
    else NotReady
  }

  datatype Event = Arrive | Close | PollStream(completes: Option<Completion>)

  predicate Enabled(a: Acceptor, e: Event) {
    match e
    case Arrive => !a.closed
    case Close => !a.closed
    case PollStream(completes) => !a.ended && Possible(a, completes)
  }

  function Apply(a: Acceptor, e: Event): Acceptor {
    if !Enabled(a, e) then a
    else match e
      case Arrive => a.(arrived := a.arrived + 1, peerRx := a.peerRx + [a.arrived])
      case Close => a.(closed := true)
      case PollStream(completes) => Poll(a, completes)
  }

  function After(es: seq<Event>): Acceptor {
    if es == [] then START else Apply(After(es[..|es| - 1]), es[|es| - 1])
  }

  ghost predicate Balanced(a: Acceptor) {
    multiset(a.taken) == multiset(a.handshaking) + multiset(a.yielded) + multiset(a.lost)
  }

  /** Every request that arrived is in exactly one place. */
  ghost predicate Inv(a: Acceptor) {
    && (forall i :: 0 <= i < |a.taken + a.peerRx| ==> (a.taken + a.peerRx)[i] == i)
    && |a.taken + a.peerRx| == a.arrived
    && Balanced(a)
    && |a.lost| <= 1
    && (a.lost != [] ==> a.ended)
    && (a.ended ==> a.closed && a.handshaking == {} && a.peerRx == [])
  }

  lemma {:induction false} ElementsOnce(s: seq<nat>, base: nat)
    requires forall i :: 0 <= i < |s| ==> s[i] == base + i
    ensures multiset(s) == multiset(Elements(s))
    ensures forall x :: x in Elements(s) <==> base <= x < base + |s|
  {
    if s != [] {
      var init, last := s[..|s| - 1], s[|s| - 1];
      ElementsOnce(init, base);
      assert s == init + [last];
      assert Elements(s) == Elements(init) + {last};
      assert last !in Elements(init);
    }
  }

  lemma HandshakingWasTaken(a: Acceptor)
    requires Inv(a)
    ensures forall x :: x in a.handshaking ==> x < |a.taken|
  {
    forall x | x in a.handshaking
      ensures x < |a.taken|
    {
      assert x in multiset(a.handshaking);
      assert x in multiset(a.taken);
      var i :| 0 <= i < |a.taken| && a.taken[i] == x;
      assert (a.taken + a.peerRx)[i] == x;
    }
  }

  lemma TakingIsDisjoint(a: Acceptor)
    requires Inv(a)
    ensures multiset(InProgress(a)) == multiset(a.handshaking) + multiset(a.peerRx)
  {
    var all, n := a.taken + a.peerRx, |a.taken|;
    assert forall i :: 0 <= i < |a.peerRx| ==> a.peerRx[i] == all[n + i];
    ElementsOnce(a.peerRx, n);
    HandshakingWasTaken(a);
    assert a.handshaking !! Elements(a.peerRx);
  }

  lemma PollBalances(a: Acceptor, completes: Option<Completion>)
    requires Balanced(a) && multiset(InProgress(a)) == multiset(a.handshaking) + multiset(a.peerRx)
    requires a.lost == [] && Possible(a, completes)
    ensures Balanced(Poll(a, completes))
  {
    var a' := Poll(a, completes);
    var done := if completes.Some? then [completes.value.request] else [];
    assert a.lost + done == done;
    Rebalance(multiset(a.handshaking), multiset(a.yielded), multiset(a.peerRx), multiset(a'.handshaking),
              multiset(done), multiset(a'.yielded), multiset(a'.lost));
  }

  lemma Rebalance(h: multiset<nat>, y: multiset<nat>, p: multiset<nat>, h': multiset<nat>, d: multiset<nat>,
                  y': multiset<nat>, l': multiset<nat>)
    requires h' + d == h + p && y' + l' == y + d
    ensures (h + y) + p == h' + y' + l'
  {
    assert (h + y) + p == (h' + d) + y;
    assert h' + y' + l' == h' + (y' + l');
  }

  lemma PollKeepsInv(a: Acceptor, completes: Option<Completion>)
    requires Inv(a) && !a.ended && Possible(a, completes)
    ensures Inv(Poll(a, completes))
  {
    TakingIsDisjoint(a);
    PollBalances(a, completes);
    assert Poll(a, completes).taken + Poll(a, completes).peerRx == a.taken + a.peerRx;
  }

  lemma {:induction false} InvHolds(es: seq<Event>)
    ensures Inv(After(es))
  {
    if es != [] {
      var a, e := After(es[..|es| - 1]), es[|es| - 1];
      InvHolds(es[..|es| - 1]);
      if Enabled(a, e) {
        match e
        case Arrive => assert a.taken + (a.peerRx + [a.arrived]) == a.taken + a.peerRx + [a.arrived];
        case Close =>
        case PollStream(completes) => PollKeepsInv(a, completes);
      }
    }
  }

  /** Conservation: each request taken is in progress or came out exactly once, except that the result of one
      handshake may be lost, and that only when the stream has ended. */
  lemma {:induction false} HandshakesAreConserved(es: seq<Event>)
    ensures var a := After(es);
            && multiset(a.taken) == multiset(a.handshaking) + multiset(a.yielded) + multiset(a.lost)
            && (forall x :: multiset(a.taken)[x] <= 1)
            && |a.lost| <= 1
            && (!a.ended ==> a.lost == [])
  {
    InvHolds(es);
    var a := After(es);
    assert forall i :: 0 <= i < |a.taken| ==> a.taken[i] == (a.taken + a.peerRx)[i];
    ElementsOnce(a.taken, 0);
  }

  /** Exactly when a poll discards a result: the channel is closed and the handshake was the only one left. */
  lemma {:induction false} ResultIsLostIff(es: seq<Event>, c: Completion)
    requires !After(es).ended && (c.request in After(es).handshaking || c.request in After(es).peerRx)
    ensures var a := After(es);
            Apply(a, PollStream(Some(c))).lost != [] <==> a.closed && InProgress(a) == {c.request}
    ensures var a := After(es);
            Returned(a, Some(c)) == (if c.ok then Peer(c.request) else Error(c.request)) <==>
              !(a.closed && InProgress(a) == {c.request})
  {
    InvHolds(es);
    var a := After(es);
    assert InProgress(a) - {c.request} == {} <==> InProgress(a) == {c.request};
  }

  /** Exactly when a poll ends the stream: the channel is closed, and every handshake in progress or still in the
      channel is the one that completes, if any does. */
  lemma {:induction false} StreamEndsIff(es: seq<Event>, completes: Option<Completion>)
    requires !After(es).ended
    requires completes.Some? ==> completes.value.request in After(es).handshaking || completes.value.request in After(es).peerRx
    ensures var a := After(es);
            && (Returned(a, completes) == Ended <==> Apply(a, PollStream(completes)).ended)
            && (Returned(a, completes) == Ended <==>
                  a.closed && forall x :: x in a.handshaking || x in a.peerRx ==> completes.Some? && x == completes.value.request)
            && (Returned(a, completes) == NotReady ==> completes.None?)
  {
    var a := After(es);
    var left := InProgress(a) - (if completes.Some? then {completes.value.request} else {});
    assert left == {} <==> forall x :: x in InProgress(a) ==> x !in left;
  }

  /** A poll of any run empties the channel, and every request in it that does not complete at once is then in
      progress, next to those that were. A result that is not discarded comes out next. */
  lemma {:induction false} PollTakesAll(es: seq<Event>, completes: Option<Completion>)
    requires !After(es).ended
    requires completes.Some? ==> completes.value.request in After(es).handshaking || completes.value.request in After(es).peerRx
    ensures var a, a' := After(es), Apply(After(es), PollStream(completes));
            && a'.peerRx == [] && a'.taken == a.taken + a.peerRx && a'.arrived == a.arrived
            && (forall x :: x in a'.handshaking <==>
                  (x in a.handshaking || x in a.peerRx) && !(completes.Some? && x == completes.value.request))
            && (!a'.ended ==> a'.yielded == a.yielded + if completes.Some? then [completes.value.request] else [])
  {
  }

  /** As long as the channel is open requests can arrive, and the stream only ends once it has been closed. */
  lemma {:induction false} ArrivalsQueue(es: seq<Event>)
    ensures After(es).closed <==> Close in es
    ensures Close !in es ==>
      var a, a' := After(es), Apply(After(es), Arrive);
      !a.ended && a'.peerRx == a.peerRx + [a.arrived] && a'.arrived == a.arrived + 1 && a'.taken == a.taken
    decreases |es|
  {
    InvHolds(es);
    if es != [] {
      ArrivalsQueue(es[..|es| - 1]);
      assert es == es[..|es| - 1] + [es[|es| - 1]];
    }
  }

  /** When the stream ends nothing is left behind but a result that was discarded. */
  lemma {:induction false} EndedMeansAllDone(es: seq<Event>)
    requires After(es).ended
    ensures var a := After(es);
            a.peerRx == [] && |a.taken| == a.arrived && multiset(a.taken) == multiset(a.yielded) + multiset(a.lost)
  {
    InvHolds(es);
    assert multiset(After(es).handshaking) == multiset{};
  }

  class BootstrapAcceptor {
    ghost var arrived: nat
    var peerRx: seq<nat>
    var closed: bool
    var handshaking: set<nat>
    ghost var taken: seq<nat>
    ghost var yielded: seq<nat>
    ghost var lost: seq<nat>
    ghost var ended: bool

    ghost function Value(): Acceptor
      reads this
    {
      Acceptor(arrived, peerRx, closed, handshaking, taken, yielded, lost, ended)
    }

    constructor ()
      ensures Value() == START
    {
      arrived, peerRx, closed, handshaking, taken, yielded, lost, ended := 0, [], false, {}, [], [], [], false;
    }

    method StartHandshakes()
      modifies this`peerRx, this`handshaking, this`taken
      ensures peerRx == [] && handshaking == InProgress(old(Value())) && taken == old(taken) + old(peerRx)
    {
      while peerRx != []
        invariant taken + peerRx == old(taken) + old(peerRx)
        invariant handshaking + Elements(peerRx) == InProgress(old(Value()))
        decreases |peerRx|
      {
        var request := peerRx[0];
        assert peerRx == [request] + peerRx[1..];
        assert Elements(peerRx) == {request} + Elements(peerRx[1..]);
        peerRx := peerRx[1..];
        taken := taken + [request];
        handshaking := handshaking + {request};
      }
    }

    method PollNext(completes: Option<Completion>) returns (item: Item)
      requires !ended && Possible(Value(), completes)
      modifies this
      ensures Value() == Poll(old(Value()), completes) && item == Returned(old(Value()), completes)
    {
      StartHandshakes();
      item := NotReady;
      ghost var done: seq<nat> := [];
      if completes.Some? {
        handshaking := handshaking - {completes.value.request};
        item, done := ItemOf(completes.value), [completes.value.request];
      }
      if closed && handshaking == {} {
        lost, ended := lost + done, true;
        return Ended;
      }
      yielded := yielded + done;
    }
  }
}
