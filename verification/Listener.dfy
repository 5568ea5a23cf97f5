/** The addresses we listen on, and those who watch them. An address book holds the current set and its
    observers; the incoming stream removes the listeners whose handles were dropped. */
module AddressBook {
  type Addr = nat

  /** A channel to one observer: everything ever put into it, and the position in the history of the snapshot
      the observer was given. */
  datatype Channel = Channel(since: nat, received: seq<set<Addr>>)

  /** `channels` are known by number; `hungUp` are those whose receiver is gone; `history` lists every value of
      `current`. */
  datatype Book = Book(
    current: set<Addr>,
    observers: seq<nat>,
    channels: map<nat, Channel>,
    hungUp: set<nat>,
    history: seq<set<Addr>>)

  /** Keeps the observers that still listen. */
  function Listening(observers: seq<nat>, hungUp: set<nat>): seq<nat> {
    if observers == [] then []
    else (if observers[0] in hungUp then [] else [observers[0]]) + Listening(observers[1..], hungUp)
  }

  function Given(c: Channel, value: set<Addr>): Channel {
    c.(received := c.received + [value])
  }

  function Deliver(channels: map<nat, Channel>, observers: seq<nat>, value: set<Addr>): map<nat, Channel> {
    map o | o in channels ::
      if o in observers then Given(channels[o], value) else channels[o]
  }

  /** Tells every observer the new set, forgetting those that hung up. */
  function Publish(b: Book, current: set<Addr>): Book {
    var observers := Listening(b.observers, b.hungUp);
    b.(current := current, observers := observers, channels := Deliver(b.channels, observers, current),
       history := b.history + [current])
  }

  /** A new channel, for an observer that is given the current set. */
  function Subscribe(b: Book, observer: nat): Book
    requires b.history != []
  {
    b.(observers := b.observers + [observer], channels := b.channels[observer := Channel(|b.history| - 1, [])])
  }

  /** Whoever listens has been told, in order, every value of `current` since it subscribed, and whoever hung
      up was told the first few of them. */
  ghost predicate Told(b: Book, o: nat)
    requires o in b.channels
  {
    var c := b.channels[o];
    && c.since < |b.history|
    && c.received <= b.history[c.since + 1..]
    && (o !in b.hungUp ==> o in b.observers && c.received == b.history[c.since + 1..])
  }

  ghost predicate Distinct(s: seq<nat>) {
    forall i, j :: 0 <= i < j < |s| ==> s[i] != s[j]
  }

  ghost predicate Valid(b: Book) {
    && b.history != [] && b.current == b.history[|b.history| - 1]
    && (forall o :: o in b.observers ==> o in b.channels)
    && Distinct(b.observers)
    && (forall o :: o in b.channels ==> Told(b, o))
  }

  lemma {:induction false} ListeningKeeps(observers: seq<nat>, hungUp: set<nat>)
    requires Distinct(observers)
    ensures forall o :: o in Listening(observers, hungUp) <==> o in observers && o !in hungUp
    ensures Distinct(Listening(observers, hungUp))
  {
    if observers != [] {
      ListeningKeeps(observers[1..], hungUp);
      assert observers == [observers[0]] + observers[1..];
    }
  }

  lemma PublishTells(b: Book, current: set<Addr>, o: nat)
    requires o in b.channels && Told(b, o)
    requires o in Listening(b.observers, b.hungUp) <==> o in b.observers && o !in b.hungUp
    ensures Told(Publish(b, current), o)
  {
    var b', since := Publish(b, current), b.channels[o].since;
    assert b'.history[since + 1..] == b.history[since + 1..] + [current];
  }

  lemma PublishKeepsValid(b: Book, current: set<Addr>)
    requires Valid(b)
    ensures Valid(Publish(b, current))
  {
    ListeningKeeps(b.observers, b.hungUp);
    forall o | o in b.channels
      ensures Told(Publish(b, current), o)
    {
      PublishTells(b, current, o);
    }
  }

  lemma SubscribeKeepsValid(b: Book, observer: nat)
    requires Valid(b) && observer !in b.channels && observer !in b.hungUp
    ensures Valid(Subscribe(b, observer))
  {
    var b' := Subscribe(b, observer);
    assert forall o :: o in b.channels ==> Told(b, o);
    assert forall i :: 0 <= i < |b.observers| ==> b.observers[i] in b.observers;
  }

  lemma HangUpKeepsValid(b: Book, observer: nat)
    requires Valid(b)
    ensures Valid(b.(hungUp := b.hungUp + {observer}))
  {
    assert forall o :: o in b.channels ==> Told(b, o);
  }

  // Listeners

  /** A listening socket with the addresses it can be reached on. */
  datatype Bound = Bound(id: nat, addrs: set<Addr>)

  /** What polling one listening socket yields. */
  datatype Accept = Connection(stream: nat) | Nothing | AcceptError

  datatype Outcome = Accepted(stream: nat) | Failed | Ended | NotReady

  function SwapRemove<A>(s: seq<A>, i: nat): (r: seq<A>)
    requires i < |s|
    ensures multiset(r) + multiset{s[i]} == multiset(s)
    ensures |r| == |s| - 1 && r[..i] == s[..i]
  {
    var last := |s| - 1;
    assert s == s[..last] + [s[last]];
    if i == last then s[..last] else s[..last][i := s[last]]
  }

  datatype ScanResult = ScanResult(listeners: seq<Bound>, removed: seq<Bound>, outcome: Outcome)

  function AnswerOf(accepts: map<nat, Accept>, id: nat): Accept {
    if id in accepts then accepts[id] else Nothing
  }

  /** One pass over the listeners from index `i`, which stays put when a listener is removed. */
  function Scan(listeners: seq<Bound>, i: nat, dropped: set<nat>, accepts: map<nat, Accept>): ScanResult
    decreases |listeners|, |listeners| - i
  {
    if i >= |listeners| then ScanResult(listeners, [], NotReady)
    else if listeners[i].id in dropped then
      var shorter := SwapRemove(listeners, i);
      var r := Scan(shorter, i, dropped, accepts);
      r.(removed := [listeners[i]] + r.removed)
    else match AnswerOf(accepts, listeners[i].id)
      case Connection(stream) => ScanResult(listeners, [], Accepted(stream))
      case AcceptError => ScanResult(listeners, [], Failed)
      case Nothing => Scan(listeners, i + 1, dropped, accepts)
  }

  /** A pass removes each listener at most once and loses none. */
  lemma {:induction false} ScanPartitions(listeners: seq<Bound>, i: nat, dropped: set<nat>, accepts: map<nat, Accept>)
    ensures var r := Scan(listeners, i, dropped, accepts);
            multiset(r.listeners) + multiset(r.removed) == multiset(listeners)
    decreases |listeners|, |listeners| - i
  {
    if i < |listeners| {
      if listeners[i].id in dropped {
        var shorter := SwapRemove(listeners, i);
        ScanPartitions(shorter, i, dropped, accepts);
        assert multiset([listeners[i]] + Scan(shorter, i, dropped, accepts).removed)
            == multiset{listeners[i]} + multiset(Scan(shorter, i, dropped, accepts).removed);
      } else if AnswerOf(accepts, listeners[i].id).Nothing? {
        ScanPartitions(listeners, i + 1, dropped, accepts);
      }
    }
  }

  ghost predicate AllDropped(listeners: seq<Bound>, dropped: set<nat>) {
    forall k :: 0 <= k < |listeners| ==> listeners[k].id in dropped
  }

  ghost predicate AllLive(listeners: seq<Bound>, dropped: set<nat>) {
    forall k :: 0 <= k < |listeners| ==> listeners[k].id !in dropped
  }

  /** A pass removes only listeners whose handle was dropped. One that runs to the end removes all of them,
      and one that is cut short by a connection reports a connection of a live listener. */
  lemma {:induction false} ScanRemovesDropped(listeners: seq<Bound>, i: nat, dropped: set<nat>, accepts: map<nat, Accept>)
    requires i <= |listeners| && AllLive(listeners[..i], dropped)
    ensures var r := Scan(listeners, i, dropped, accepts);
            && AllDropped(r.removed, dropped)
            && (r.outcome.NotReady? ==> AllLive(r.listeners, dropped))
            && (r.outcome.Accepted? ==>
                  exists l :: l in r.listeners && l.id !in dropped && AnswerOf(accepts, l.id) == Connection(r.outcome.stream))
    decreases |listeners|, |listeners| - i
  {
    if i < |listeners| {
      if listeners[i].id in dropped {
        ScanRemovesDropped(SwapRemove(listeners, i), i, dropped, accepts);
      } else if AnswerOf(accepts, listeners[i].id).Nothing? {
        ScanRemovesDropped(listeners, i + 1, dropped, accepts);
      } else {
        assert listeners[i] in listeners;
      }
    } else {
      assert listeners[..i] == listeners;
    }
  }

  /** Whether there is something to accept, or an error to report, on a listener whose handle is held. */
  predicate Busy(l: Bound, dropped: set<nat>, accepts: map<nat, Accept>) {
    l.id !in dropped && l.id in accepts && !accepts[l.id].Nothing?
  }

  lemma SwapRemoveElements<A>(s: seq<A>, i: nat)
    requires i < |s|
    ensures forall x :: x in SwapRemove(s, i)[i..] ==> x in s[i..]
    ensures forall x :: x in s[i..] && x != s[i] ==> x in SwapRemove(s, i)[i..]
  {
    var r := SwapRemove(s, i);
    forall x | x in s[i..] && x != s[i]
      ensures x in r[i..]
    {
      var k :| i < k < |s| && s[k] == x;
      assert k < |s| - 1 ==> r[k] == x;
      assert k == |s| - 1 ==> r[i] == x;
    }
  }

  /** A pass finds nothing exactly when no listener from `i` on is busy; otherwise it reports what one of the busy
      ones has. */
  lemma {:induction false} ScanFindsBusy(listeners: seq<Bound>, i: nat, dropped: set<nat>, accepts: map<nat, Accept>)
    requires i <= |listeners|
    ensures var r := Scan(listeners, i, dropped, accepts);
            && (r.outcome.NotReady? <==> forall l :: l in listeners[i..] ==> !Busy(l, dropped, accepts))
            && (!r.outcome.NotReady? ==>
                  exists l :: l in listeners[i..] && Busy(l, dropped, accepts)
                    && match accepts[l.id]
                       case Connection(stream) => r.outcome == Accepted(stream)
                       case AcceptError => r.outcome == Failed
                       case Nothing => false)
    decreases |listeners|, |listeners| - i
  {
    if i < |listeners| {
      assert listeners[i] in listeners[i..];
      assert listeners[i..] == [listeners[i]] + listeners[i + 1..];
      if listeners[i].id in dropped {
        ScanFindsBusy(SwapRemove(listeners, i), i, dropped, accepts);
        SwapRemoveElements(listeners, i);
      } else if AnswerOf(accepts, listeners[i].id).Nothing? {
        ScanFindsBusy(listeners, i + 1, dropped, accepts);
      }
    }
  }

  /** A busy listener is served as soon as those before it are idle and held. */
  lemma {:induction false} ScanServesFirst(listeners: seq<Bound>, i: nat, k: nat, dropped: set<nat>, accepts: map<nat, Accept>)
    requires i <= k < |listeners| && Busy(listeners[k], dropped, accepts)
    requires forall j :: i <= j < k ==> listeners[j].id !in dropped && !Busy(listeners[j], dropped, accepts)
    ensures var r := Scan(listeners, i, dropped, accepts);
            && r.listeners == listeners && r.removed == []
            && r.outcome == match accepts[listeners[k].id] case Connection(stream) => Accepted(stream) case _ => Failed
    decreases k - i
  {
    if i < k {
      ScanServesFirst(listeners, i + 1, k, dropped, accepts);
    }
  }

  /** The book after each of these listeners was taken out, one by one. */
  function Withdraw(b: Book, removed: seq<Bound>): Book
    decreases |removed|
  {
    if removed == [] then b
    else Withdraw(Publish(b, b.current - removed[0].addrs), removed[1..])
  }

  function Union(listeners: seq<Bound>): set<Addr> {
    set l, a | l in listeners && a in l.addrs :: a
  }

  lemma {:induction false} WithdrawFacts(b: Book, removed: seq<Bound>)
    requires Valid(b)
    ensures var b' := Withdraw(b, removed);
            && Valid(b')
            && b'.current == b.current - Union(removed)
            && b'.channels.Keys == b.channels.Keys && b'.hungUp == b.hungUp
            && |b'.history| == |b.history| + |removed| && b.history <= b'.history
    decreases |removed|
  {
    if removed != [] {
      var b1 := Publish(b, b.current - removed[0].addrs);
      PublishKeepsValid(b, b.current - removed[0].addrs);
      WithdrawFacts(b1, removed[1..]);
      assert Union(removed) == removed[0].addrs + Union(removed[1..]) by {
        assert removed == [removed[0]] + removed[1..];
      }
    }
  }
}
