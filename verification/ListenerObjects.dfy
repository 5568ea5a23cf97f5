/** The objects behind the address book: the shared addresses, the set of listeners and the incoming stream. */
module ListenerObjects {
  import opened AddressBook
  import opened Seqs

  lemma DeliverOne(channels: map<nat, Channel>, kept: seq<nat>, o: nat, value: set<Addr>)
    requires o in channels && o !in kept
    ensures Deliver(channels, kept + [o], value)
         == Deliver(channels, kept, value)[o := Given(channels[o], value)]
  {
  }

  lemma ListeningStep(observers: seq<nat>, hungUp: set<nat>, i: nat)
    requires i < |observers|
    ensures Listening(observers[i..], hungUp)
         == (if observers[i] in hungUp then [] else [observers[i]]) + Listening(observers[i + 1..], hungUp)
  {
    assert observers[i..][1..] == observers[i + 1..];
  }

  /** Handling one more observer takes `Notify` one step further. */
  lemma NotifyStep(
      channels: map<nat, Channel>, observers: seq<nat>, hungUp: set<nat>, kept: seq<nat>, i: nat, value: set<Addr>)
    requires Distinct(observers) && (forall o :: o in observers ==> o in channels) && i < |observers|
    requires forall o :: o in kept ==> o in observers[..i]
    requires observers[i] !in hungUp
    ensures kept + [observers[i]] + Listening(observers[i + 1..], hungUp) == kept + Listening(observers[i..], hungUp)
    ensures forall o :: o in kept + [observers[i]] ==> o in observers[..i + 1]
    ensures Deliver(channels, kept + [observers[i]], value)
         == Deliver(channels, kept, value)[observers[i] := Given(channels[observers[i]], value)]
  {
    ListeningStep(observers, hungUp, i);
    ConcatAssociates(kept, [observers[i]], Listening(observers[i + 1..], hungUp));
    assert observers[..i + 1] == observers[..i] + [observers[i]];
    assert observers[i] !in observers[..i];
    DeliverOne(channels, kept, observers[i], value);
  }

  class Addresses {
    var current: set<Addr>
    var observers: seq<nat>
    var channels: map<nat, Channel>
    var hungUp: set<nat>
    var history: seq<set<Addr>>

    ghost function Value(): Book
      reads this
    {
      Book(current, observers, channels, hungUp, history)
    }

    constructor ()
      ensures Value() == Book({}, [], map[], {}, [{}]) && Valid(Value())
    {
      current, observers, channels, hungUp, history := {}, [], map[], {}, [{}];
    }

    /** Sends the value to every observer, and returns those that still listen. */
    method Notify(value: set<Addr>) returns (kept: seq<nat>)
      requires Distinct(observers) && forall o :: o in observers ==> o in channels
      modifies this`channels
      ensures kept == Listening(observers, hungUp) && channels == Deliver(old(channels), kept, value)
    {
      kept := [];
      var i := 0;
      while i < |observers|
        invariant 0 <= i <= |observers|
        invariant kept + Listening(observers[i..], hungUp) == Listening(observers, hungUp)
        invariant forall o :: o in kept ==> o in observers[..i]
        invariant channels == Deliver(old(channels), kept, value)
      {
        var o := observers[i];
        if o in hungUp {
          ListeningStep(observers, hungUp, i);
          assert observers[..i + 1] == observers[..i] + [o];
        } else {
          NotifyStep(old(channels), observers, hungUp, kept, i, value);
          assert channels[o] == old(channels)[o] by {
            assert o !in observers[..i];
          }
          channels := channels[o := Given(channels[o], value)];
          kept := kept + [o];
        }
        i := i + 1;
      }
    }

    /** Replaces the current set, telling every observer and forgetting those that hung up. */
    method Replace(value: set<Addr>)
      requires Valid(Value())
      modifies this
      ensures Value() == Publish(old(Value()), value) && Valid(Value())
    {
      PublishKeepsValid(Value(), value);
      observers := Notify(value);
      current, history := value, history + [value];
    }
  }

  class ListenerQueue {
    var items: seq<Bound>
    var closed: bool
    var bound: nat

    constructor ()
      ensures items == [] && !closed && bound == 0
    {
      items, closed, bound := [], false, 0;
    }
  }

  class Listeners {
    const listenersTx: ListenerQueue
    const addresses: Addresses

    constructor (listenersTx: ListenerQueue, addresses: Addresses)
      ensures this.listenersTx == listenersTx && this.addresses == addresses
    {
      this.listenersTx, this.addresses := listenersTx, addresses;
    }

    /** The current addresses and a channel on which every later change will arrive. */
    method Watch(observer: nat) returns (snapshot: set<Addr>)
      requires Valid(addresses.Value()) && observer !in addresses.channels && observer !in addresses.hungUp
      modifies addresses
      ensures snapshot == addresses.current
      ensures addresses.Value() == Subscribe(old(addresses.Value()), observer) && Valid(addresses.Value())
    {
      SubscribeKeepsValid(addresses.Value(), observer);
      addresses.observers := addresses.observers + [observer];
      addresses.channels := addresses.channels[observer := Channel(|addresses.history| - 1, [])];
      snapshot := addresses.current;
    }

    /** A new listening socket that can be reached on these addresses. */
    method Listener(addrs: set<Addr>) returns (l: Bound)
      requires Valid(addresses.Value())
      modifies addresses, listenersTx
      ensures l == Bound(old(listenersTx.bound), addrs) && listenersTx.bound == old(listenersTx.bound) + 1
      ensures listenersTx.items == old(listenersTx.items) + [l] && listenersTx.closed == old(listenersTx.closed)
      ensures addresses.Value() == Publish(old(addresses.Value()), old(addresses.current) + addrs) && Valid(addresses.Value())
    {
      addresses.Replace(addresses.current + addrs);
      l := Bound(listenersTx.bound, addrs);
      listenersTx.items := listenersTx.items + [l];
      listenersTx.bound := listenersTx.bound + 1;
    }
  }

  /** The stream of incoming connections. */
  class SocketIncoming {
    const listenersRx: ListenerQueue
    const addresses: Addresses
    var listeners: seq<Bound>

    constructor (listenersRx: ListenerQueue, addresses: Addresses)
      ensures this.listenersRx == listenersRx && this.addresses == addresses && listeners == []
    {
      this.listenersRx, this.addresses, listeners := listenersRx, addresses, [];
    }

    method TakeListeners()
      modifies this, listenersRx`items
      ensures listeners == old(listeners) + old(listenersRx.items) && listenersRx.items == []
    {
      while listenersRx.items != []
        invariant listeners + listenersRx.items == old(listeners) + old(listenersRx.items)
        decreases |listenersRx.items|
      {
        listeners := listeners + [listenersRx.items[0]];
        listenersRx.items := listenersRx.items[1..];
      }
    }

    /** Scans the listeners, removing in place those whose handle was dropped and withdrawing their
        addresses, until one has a connection or fails. */
    method Poll(dropped: set<nat>, accepts: map<nat, Accept>) returns (outcome: Outcome)
      requires Valid(addresses.Value())
      modifies this, listenersRx`items, addresses
      ensures listenersRx.items == [] && Valid(addresses.Value())
      ensures listenersRx.closed ==>
        outcome == Ended && listeners == old(listeners + listenersRx.items) && addresses.Value() == old(addresses.Value())
      ensures !listenersRx.closed ==>
        var r := Scan(old(listeners + listenersRx.items), 0, dropped, accepts);
        outcome == r.outcome && listeners == r.listeners && addresses.Value() == Withdraw(old(addresses.Value()), r.removed)
    {
      TakeListeners();
      if listenersRx.closed {
        return Ended;
      }
      ghost var all := Scan(listeners, 0, dropped, accepts);
      var i := 0;
      while i < |listeners|
        invariant i <= |listeners| && listenersRx.items == []
        invariant Valid(addresses.Value())
        invariant var rest := Scan(listeners, i, dropped, accepts);
                  && all.listeners == rest.listeners && all.outcome == rest.outcome
                  && Withdraw(addresses.Value(), rest.removed) == Withdraw(old(addresses.Value()), all.removed)
        decreases |listeners|, |listeners| - i
      {
        var l := listeners[i];
        if l.id !in dropped {
          match AnswerOf(accepts, l.id) {
            case Connection(stream) => return Accepted(stream);
            case AcceptError => return Failed;
            case Nothing => i := i + 1;
          }
        } else {
          listeners := SwapRemove(listeners, i);
          addresses.Replace(addresses.current - l.addrs);
        }
      }
      outcome := NotReady;
    }
  }
}
