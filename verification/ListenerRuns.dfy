/** Whole runs of a set of listeners: listening, dropping handles, watching the addresses and polling the
    incoming stream, in any order. */
module ListenerRuns {
  import opened AddressBook

  /** `queue` holds the listeners the incoming stream has not taken yet; `dropped` the handles that were
      dropped; `bound` every listener there ever was. `closed` is set once no more can come. */
  datatype World = World(
    book: Book,
    queue: seq<Bound>,
    listeners: seq<Bound>,
    dropped: set<nat>,
    closed: bool,
    bound: seq<Bound>,
    outcome: Outcome)

  datatype Event =
    | Listen(addrs: set<Addr>)
    | Watch
    | HangUp(observer: nat)
    | DropListener(id: nat)
    | Close
    | PollIncoming(accepts: map<nat, Accept>)

  const EmptyBook: Book := Book({}, [], map[], {}, [{}])

  const Start: World := World(EmptyBook, [], [], {}, false, [], NotReady)

  predicate Enabled(w: World, e: Event) {
    match e
    case Listen(_) => !w.closed
    case Watch => !w.closed
    case HangUp(observer) => observer in w.book.channels
    case DropListener(id) => id < |w.bound|
    case Close => true
    case PollIncoming(_) => !w.outcome.Ended?
  }

  /** The listeners the incoming stream holds once it has read its channel. */
  function Taken(w: World): seq<Bound> {
    w.listeners + w.queue
  }

  function PollStream(w: World, accepts: map<nat, Accept>): World {
    if w.closed then w.(listeners := Taken(w), queue := [], outcome := Ended)
    else
      var r := Scan(Taken(w), 0, w.dropped, accepts);
      w.(listeners := r.listeners, queue := [], book := Withdraw(w.book, r.removed), outcome := r.outcome)
  }

  /** The number of the next channel: observers are numbered in the order they subscribe. */
  function NextObserver(b: Book): nat {
    |b.channels.Keys|
  }

  function Apply(w: World, e: Event): World {
    if !Enabled(w, e) then w
    else match e
      case Listen(addrs) =>
        var l := Bound(|w.bound|, addrs);
        w.(book := Publish(w.book, w.book.current + addrs), queue := w.queue + [l], bound := w.bound + [l])
      case Watch => if w.book.history == [] then w else w.(book := Subscribe(w.book, NextObserver(w.book)))
      case HangUp(observer) => w.(book := w.book.(hungUp := w.book.hungUp + {observer}))
      case DropListener(id) => w.(dropped := w.dropped + {id})
      case Close => w.(closed := true)
      case PollIncoming(accepts) => PollStream(w, accepts)
  }

  function After(es: seq<Event>): World {
    if es == [] then Start else Apply(After(es[..|es| - 1]), es[|es| - 1])
  }

  lemma AfterLast(es: seq<Event>, e: Event)
    ensures After(es + [e]) == Apply(After(es), e)
  {
    assert (es + [e])[..|es|] == es;
  }

  // The invariant

  ghost predicate Numbered(bound: seq<Bound>) {
    forall k :: 0 <= k < |bound| ==> bound[k].id == k
  }

  ghost predicate Disjoint(bound: seq<Bound>) {
    forall j, k :: 0 <= j < k < |bound| ==> bound[j].addrs !! bound[k].addrs
  }

  ghost predicate Inv(w: World) {
    && Valid(w.book)
    && (forall o :: o in w.book.channels ==> o < |w.book.channels.Keys|)
    && w.book.hungUp <= w.book.channels.Keys
    && Numbered(w.bound)
    && multiset(Taken(w)) <= multiset(w.bound)
    && w.book.current <= Union(Taken(w))
  }

  lemma UnionByMultiset(a: seq<Bound>, b: seq<Bound>, c: seq<Bound>)
    requires multiset(a) + multiset(b) == multiset(c)
    ensures Union(a) + Union(b) == Union(c)
  {
    assert forall l :: l in c <==> l in multiset(c);
    assert forall l :: l in a <==> l in multiset(a);
    assert forall l :: l in b <==> l in multiset(b);
  }

  lemma {:induction false} NumberedOnce(bound: seq<Bound>, l: Bound)
    requires Numbered(bound)
    ensures multiset(bound)[l] <= 1
    ensures l in bound ==> l.id < |bound| && bound[l.id] == l
  {
    if bound != [] {
      var init, last := bound[..|bound| - 1], bound[|bound| - 1];
      assert bound == init + [last];
      NumberedOnce(init, l);
      assert last.id == |init|;
    }
  }

  /** Among listeners that share no address, those taken out share none with those that stay. */
  lemma DisjointSplit(bound: seq<Bound>, all: seq<Bound>, kept: seq<Bound>, removed: seq<Bound>)
    requires Numbered(bound) && multiset(all) <= multiset(bound)
    requires Disjoint(all) && multiset(kept) + multiset(removed) == multiset(all)
    ensures Union(kept) !! Union(removed)
  {
    forall l, m | l in kept && m in removed
      ensures l.addrs !! m.addrs
    {
      assert multiset(kept)[l] > 0 && multiset(removed)[m] > 0;
      assert l in multiset(all) && m in multiset(all);
      NumberedOnce(bound, l);
      assert multiset(all)[l] <= multiset(bound)[l];
      assert l != m;
    }
  }

  lemma ScanKeepsInv(w: World, accepts: map<nat, Accept>)
    requires Inv(w) && !w.closed
    ensures Inv(PollStream(w, accepts))
  {
    var r, w' := Scan(Taken(w), 0, w.dropped, accepts), PollStream(w, accepts);
    ScanPartitions(Taken(w), 0, w.dropped, accepts);
    WithdrawFacts(w.book, r.removed);
    UnionByMultiset(r.listeners, r.removed, Taken(w));
    assert Taken(w') == r.listeners;
  }

  lemma UnionAppend(listeners: seq<Bound>, l: Bound)
    ensures Union(listeners + [l]) == Union(listeners) + l.addrs
  {
    assert forall m :: m in listeners + [l] <==> m in listeners || m == l;
  }

  lemma ListenKeepsInv(w: World, addrs: set<Addr>)
    requires Inv(w) && Enabled(w, Listen(addrs))
    ensures Inv(Apply(w, Listen(addrs)))
  {
    var l, w' := Bound(|w.bound|, addrs), Apply(w, Listen(addrs));
    PublishKeepsValid(w.book, w.book.current + addrs);
    assert w'.book.channels.Keys == w.book.channels.Keys;
    assert Taken(w') == Taken(w) + [l];
    UnionAppend(Taken(w), l);
    assert multiset(Taken(w')) == multiset(Taken(w)) + multiset{l};
    assert multiset(w'.bound) == multiset(w.bound) + multiset{l};
  }

  lemma WatchKeepsInv(w: World)
    requires Inv(w)
    ensures Inv(Apply(w, Watch))
  {
    if !w.closed {
      var o := NextObserver(w.book);
      assert o !in w.book.channels;
      SubscribeKeepsValid(w.book, o);
      assert Subscribe(w.book, o).channels.Keys == w.book.channels.Keys + {o};
      assert Taken(Apply(w, Watch)) == Taken(w);
    }
  }

  lemma HangUpKeepsInv(w: World, observer: nat)
    requires Inv(w)
    ensures Inv(Apply(w, HangUp(observer)))
  {
    HangUpKeepsValid(w.book, observer);
    assert Taken(Apply(w, HangUp(observer))) == Taken(w);
  }

  lemma ApplyKeepsInv(w: World, e: Event)
    requires Inv(w)
    ensures Inv(Apply(w, e))
  {
    if Enabled(w, e) {
      match e
      case Listen(addrs) => ListenKeepsInv(w, addrs);
      case Watch => WatchKeepsInv(w);
      case HangUp(observer) => HangUpKeepsInv(w, observer);
      case PollIncoming(accepts) =>
        if w.closed {
          assert Taken(Apply(w, e)) == Taken(w);
        } else {
          ScanKeepsInv(w, accepts);
        }
      case _ =>
    }
  }

  lemma {:induction false} InvHolds(es: seq<Event>)
    ensures Inv(After(es))
  {
    if es == [] {
      assert Union(Taken(Start)) == {};
    } else {
      InvHolds(es[..|es| - 1]);
      ApplyKeepsInv(After(es[..|es| - 1]), es[|es| - 1]);
    }
  }

  // What the source promises

  /** Watching always works while listeners can be made: the new observer has the current set as its snapshot. */
  lemma {:induction false} WatchSubscribes(es: seq<Event>)
    requires Close !in es
    ensures var b, b' := After(es).book, After(es + [Watch]).book;
            var o := NextObserver(b);
            && o !in b.channels && b'.channels.Keys == b.channels.Keys + {o} && o !in b'.hungUp
            && b'.history == b.history && b'.channels[o] == Channel(|b.history| - 1, [])
            && b'.current == b.current == b.history[|b.history| - 1]
  {
    InvHolds(es);
    ClosedIff(es);
    AfterLast(es, Watch);
  }

  lemma {:induction false} HangUpIsKnown(es: seq<Event>, o: nat)
    requires o in After(es).book.channels
    ensures var b, b' := After(es).book, After(es + [HangUp(o)]).book;
            b'.hungUp == b.hungUp + {o} && b'.channels == b.channels && b'.current == b.current
  {
    AfterLast(es, HangUp(o));
  }

  lemma {:induction false} ClosedIff(es: seq<Event>)
    ensures After(es).closed <==> Close in es
    decreases |es|
  {
    if es != [] {
      ClosedIff(es[..|es| - 1]);
      assert es == es[..|es| - 1] + [es[|es| - 1]];
    }
  }

  // Which addresses the current set has

  /** The listeners an event takes out. */
  function Removed(w: World, e: Event): seq<Bound> {
    if e.PollIncoming? && Enabled(w, e) && !w.closed then Scan(Taken(w), 0, w.dropped, e.accepts).removed else []
  }

  ghost predicate BoundAt(es: seq<Event>, i: nat, a: Addr) {
    i < |es| && es[i].Listen? && Enabled(After(es[..i]), es[i]) && a in es[i].addrs
  }

  ghost predicate RemovedAt(es: seq<Event>, j: nat, a: Addr) {
    j < |es| && a in Union(Removed(After(es[..j]), es[j]))
  }

  /** A listener was bound to this address at `i`, and no listener that has it was removed since. */
  ghost predicate Held(es: seq<Event>, i: nat, a: Addr) {
    BoundAt(es, i, a) && forall j: nat :: i < j < |es| ==> !RemovedAt(es, j, a)
  }

  lemma ApplyToCurrent(w: World, e: Event, a: Addr)
    requires Valid(w.book)
    ensures a in Apply(w, e).book.current <==>
      || (e.Listen? && Enabled(w, e) && a in e.addrs)
      || (a in w.book.current && a !in Union(Removed(w, e)))
  {
    if e.PollIncoming? {
      WithdrawFacts(w.book, Removed(w, e));
    }
  }

  lemma HeldLonger(es: seq<Event>, e: Event, i: nat, a: Addr)
    ensures BoundAt(es + [e], i, a) <==> BoundAt(es, i, a) || (i == |es| && e.Listen? && Enabled(After(es), e) && a in e.addrs)
    ensures RemovedAt(es + [e], i, a) <==> RemovedAt(es, i, a) || (i == |es| && a in Union(Removed(After(es), e)))
  {
    if i < |es| {
      assert (es + [e])[..i] == es[..i];
    } else if i == |es| {
      assert (es + [e])[..i] == es;
    }
  }

  lemma HeldStep(es: seq<Event>, e: Event, i: nat, a: Addr)
    ensures Held(es + [e], i, a) <==>
      || (Held(es, i, a) && a !in Union(Removed(After(es), e)))
      || (i == |es| && e.Listen? && Enabled(After(es), e) && a in e.addrs)
  {
    HeldLonger(es, e, i, a);
    HeldLonger(es, e, |es|, a);
    forall j: nat
      ensures RemovedAt(es + [e], j, a) <==> RemovedAt(es, j, a) || (j == |es| && a in Union(Removed(After(es), e)))
    {
      HeldLonger(es, e, j, a);
    }
  }

  /** In every run, an address is in the current set exactly when it was bound again since a listener that had
      it was last removed. */
  lemma {:induction false} CurrentIffHeld(es: seq<Event>, a: Addr)
    ensures a in After(es).book.current <==> exists i: nat :: Held(es, i, a)
  {
    if es != [] {
      var init, e := es[..|es| - 1], es[|es| - 1];
      assert es == init + [e];
      CurrentIffHeld(init, a);
      InvHolds(init);
      ApplyToCurrent(After(init), e, a);
      forall i: nat
        ensures Held(es, i, a) <==>
          || (Held(init, i, a) && a !in Union(Removed(After(init), e)))
          || (i == |init| && e.Listen? && Enabled(After(init), e) && a in e.addrs)
      {
        HeldStep(init, e, i, a);
      }
      if e.Listen? && Enabled(After(init), e) && a in e.addrs {
        assert Held(es, |init|, a);
      } else if a in After(es).book.current {
        var i: nat :| Held(init, i, a);
        assert Held(es, i, a);
      }
    }
  }

  /** Every address in the current set belongs to a listener, and the set is exactly the addresses of the
      listeners when each of these was bound again since a listener that had it was last removed. */
  lemma AddressesAreExactIff(es: seq<Event>)
    ensures After(es).book.current <= Union(Taken(After(es)))
    ensures After(es).book.current == Union(Taken(After(es))) <==>
      forall a :: a in Union(Taken(After(es))) ==> exists i: nat :: Held(es, i, a)
  {
    InvHolds(es);
    forall a
      ensures a in After(es).book.current <==> exists i: nat :: Held(es, i, a)
    {
      CurrentIffHeld(es, a);
    }
  }

  /** Exactly when a poll of any run keeps the set exact: the listeners it takes out share no address with those
      that stay. */
  lemma RemovalIsExactIff(es: seq<Event>, accepts: map<nat, Accept>)
    requires !After(es).outcome.Ended? && !After(es).closed
    requires After(es).book.current == Union(Taken(After(es)))
    ensures var w, w' := After(es), Apply(After(es), PollIncoming(accepts));
            var r := Scan(Taken(w), 0, w.dropped, accepts);
            w'.book.current == Union(Taken(w')) <==> Union(r.listeners) !! Union(r.removed)
  {
    InvHolds(es);
    var w, w' := After(es), Apply(After(es), PollIncoming(accepts));
    var r := Scan(Taken(w), 0, w.dropped, accepts);
    ScanPartitions(Taken(w), 0, w.dropped, accepts);
    UnionByMultiset(r.listeners, r.removed, Taken(w));
    WithdrawFacts(w.book, r.removed);
    assert Taken(w') == r.listeners;
    if w'.book.current == Union(Taken(w')) {
      assert forall a :: a in Union(r.listeners) ==> a !in Union(r.removed);
    }
  }

  /** So far, the listeners that were there at the same time never shared an address. */
  ghost predicate NeverShared(es: seq<Event>) {
    Disjoint(Taken(After(es))) && (es != [] ==> NeverShared(es[..|es| - 1]))
  }

  lemma ListenExtends(w: World, addrs: set<Addr>)
    requires Inv(w) && Enabled(w, Listen(addrs)) && w.book.current == Union(Taken(w))
    ensures Apply(w, Listen(addrs)).book.current == Union(Taken(Apply(w, Listen(addrs))))
  {
    var l := Bound(|w.bound|, addrs);
    UnionAppend(Taken(w), l);
    assert Taken(Apply(w, Listen(addrs))) == Taken(w) + [l];
  }

  lemma {:induction false} ExactWhileNeverShared(es: seq<Event>)
    requires NeverShared(es)
    ensures After(es).book.current == Union(Taken(After(es)))
  {
    if es == [] {
      assert Union(Taken(Start)) == {};
    } else {
      var init, e := es[..|es| - 1], es[|es| - 1];
      var w := After(init);
      ExactWhileNeverShared(init);
      InvHolds(init);
      if e.PollIncoming? && Enabled(w, e) && !w.closed {
        var r := Scan(Taken(w), 0, w.dropped, e.accepts);
        ScanPartitions(Taken(w), 0, w.dropped, e.accepts);
        DisjointSplit(w.bound, Taken(w), r.listeners, r.removed);
        RemovalIsExactIff(init, e.accepts);
      } else if e.Listen? && Enabled(w, e) {
        ListenExtends(w, e.addrs);
      } else {
        assert Taken(After(es)) == Taken(w);
      }
    }
  }

  /** Every address in the current set belongs to a listener, whether or not listeners share addresses; and the
      set is exactly the addresses of the listeners as long as those that are there at the same time share none.
      The addresses of a listener that was removed may be bound again. */
  lemma {:induction false} AddressesAreBacked(es: seq<Event>)
    ensures After(es).book.current <= Union(Taken(After(es)))
    ensures NeverShared(es) ==> After(es).book.current == Union(Taken(After(es)))
  {
    InvHolds(es);
    if NeverShared(es) {
      ExactWhileNeverShared(es);
    }
  }

  lemma DisjointTaken(w: World)
    requires Inv(w) && Disjoint(w.bound)
    ensures Disjoint(Taken(w))
  {
    var all := Taken(w);
    forall j, k | 0 <= j < k < |all|
      ensures all[j].addrs !! all[k].addrs
    {
      assert all == all[..k] + [all[k]] + all[k + 1..];
      assert all[j] in all[..k];
      assert all[j] in multiset(all) && all[k] in multiset(all);
      NumberedOnce(w.bound, all[j]);
      assert multiset(all)[all[j]] <= multiset(w.bound)[all[j]];
      assert all[j] != all[k];
    }
  }

  /** In particular when no two listeners ever bound share an address. */
  lemma {:induction false} DisjointNeverShared(es: seq<Event>)
    requires Disjoint(After(es).bound)
    ensures NeverShared(es)
  {
    InvHolds(es);
    DisjointTaken(After(es));
    if es != [] {
      var w := After(es[..|es| - 1]);
      assert w.bound <= After(es).bound;
      DisjointNeverShared(es[..|es| - 1]);
    }
  }

  /** A poll that returns without a connection leaves exactly the listeners whose handles are still held. */
  lemma {:induction false} IdlePollLeavesLive(es: seq<Event>, accepts: map<nat, Accept>, l: Bound)
    requires !After(es).outcome.Ended?
    requires Apply(After(es), PollIncoming(accepts)).outcome.NotReady?
    ensures var w, w' := After(es), Apply(After(es), PollIncoming(accepts));
            w'.queue == [] && multiset(w'.listeners)[l] == if l.id in w.dropped then 0 else multiset(Taken(w))[l]
  {
    var w := After(es);
    var r := Scan(Taken(w), 0, w.dropped, accepts);
    ScanPartitions(Taken(w), 0, w.dropped, accepts);
    ScanRemovesDropped(Taken(w), 0, w.dropped, accepts);
    if l.id in w.dropped {
      assert l !in r.listeners;
    } else {
      assert l !in r.removed;
    }
  }

  /** A poll of any run ends the stream exactly when no more listeners can come. Otherwise it finds nothing
      exactly when no listener is busy, and reports a connection or an error of one that is. */
  lemma {:induction false} PollFindsBusy(es: seq<Event>, accepts: map<nat, Accept>)
    requires !After(es).outcome.Ended?
    ensures var w, w' := After(es), Apply(After(es), PollIncoming(accepts));
            && (w'.outcome.Ended? <==> w.closed)
            && (!w.closed ==>
                  && (w'.outcome.NotReady? <==> forall l :: l in Taken(w) ==> !Busy(l, w.dropped, accepts))
                  && (!w'.outcome.NotReady? ==>
                        exists l :: l in Taken(w) && Busy(l, w.dropped, accepts)
                          && match accepts[l.id]
                             case Connection(stream) => w'.outcome == Accepted(stream)
                             case AcceptError => w'.outcome == Failed
                             case Nothing => false))
  {
    var w := After(es);
    ScanFindsBusy(Taken(w), 0, w.dropped, accepts);
    assert Taken(w)[0..] == Taken(w);
  }

  lemma ToldInFull(b: Book, o: nat)
    requires o in b.channels && Told(b, o) && o !in b.hungUp
    ensures [b.history[b.channels[o].since]] + b.channels[o].received == b.history[b.channels[o].since..]
  {
    var h, since := b.history, b.channels[o].since;
    assert h[since..] == [h[since]] + h[since + 1..];
  }

  /** Replication: the snapshot an observer was given, followed by what it was told, is the exact history of
      the current set since it subscribed. */
  lemma {:induction false} ObserverSeesHistory(es: seq<Event>, o: nat)
    requires o in After(es).book.channels && o !in After(es).book.hungUp
    ensures var b := After(es).book;
            && b.channels[o].since < |b.history|
            && [b.history[b.channels[o].since]] + b.channels[o].received == b.history[b.channels[o].since..]
            && b.current == b.history[|b.history| - 1]
  {
    InvHolds(es);
    ToldInFull(After(es).book, o);
  }

  /** Listeners that share an address: dropping one takes away the address the other still listens on. */
  lemma {:induction false} SharedAddressIsLost() returns (es: seq<Event>)
    ensures After(es).bound == [Bound(0, {7}), Bound(1, {7})]
    ensures After(es).book.current == {} && After(es).listeners == [Bound(1, {7})] && 1 !in After(es).dropped
  {
    var start := TwoSharing();
    es := start + [PollIncoming(map[])];
    AfterLast(start, PollIncoming(map[]));
    PollOfTwoSharing(After(start));
  }

  lemma WithdrawOne(b: Book, l: Bound)
    ensures Withdraw(b, [l]) == Publish(b, b.current - l.addrs)
  {
    var gone := [l];
    assert gone[1..] == [];
    assert Withdraw(Publish(b, b.current - gone[0].addrs), []) == Publish(b, b.current - l.addrs);
  }

  lemma PollOfTwoSharing(w: World)
    requires Taken(w) == [Bound(0, {7}), Bound(1, {7})] && w.dropped == {0} && w.book.current == {7} && !w.closed
    ensures PollStream(w, map[]).listeners == [Bound(1, {7})] && PollStream(w, map[]).book.current == {}
  {
    var l0, l1 := Bound(0, {7}), Bound(1, {7});
    var both, one := [l0, l1], [l1];
    assert SwapRemove(both, 0) == one && one[0].id == 1;
    assert Scan(one, 1, {0}, map[]) == ScanResult(one, [], NotReady);
    assert Scan(one, 0, {0}, map[]) == ScanResult(one, [], NotReady);
    assert both[0] == l0 && Scan(both, 0, {0}, map[]) == ScanResult(one, [l0], NotReady);
    WithdrawOne(w.book, l0);
    assert w.book.current - l0.addrs == {};
  }

  lemma {:induction false} TwoSharing() returns (es: seq<Event>)
    ensures var w := After(es);
            && Taken(w) == w.bound == [Bound(0, {7}), Bound(1, {7})] && w.dropped == {0} && w.book.current == {7}
            && !w.closed && !w.outcome.Ended?
  {
    AfterLast([], Listen({7}));
    AfterLast([] + [Listen({7})], Listen({7}));
    es := [] + [Listen({7})] + [Listen({7})];
    AfterLast(es, DropListener(0));
    es := es + [DropListener(0)];
  }
}
