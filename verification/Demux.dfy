/** Routing of incoming sockets by their first message. */
module Routing {
  import opened Common

  datatype Message = BootstrapRequest(uid: Uid) | Connect(uid: Uid) | EchoAddrReq | OtherMessage

  /** Where a socket ends up; channels are numbered in the order they were made. */
  datatype Destination = ToAcceptor(channel: nat) | ToConnect(channel: nat) | Echoed | Dropped

  datatype Handlers = Handlers(bootstrapHandler: Option<nat>, connectionHandler: map<Uid, nat>)

  /** A new bootstrap acceptor or a new connect call, or an incoming socket with its first message (or none,
      when it failed, ended or timed out first). */
  datatype Event = NewAcceptor | NewConnect(their: Uid) | Incoming(first: Option<Message>)

  function Route(h: Handlers, first: Option<Message>): Destination {
    match first
    case None => Dropped
    case Some(BootstrapRequest(_)) => if h.bootstrapHandler.Some? then ToAcceptor(h.bootstrapHandler.value) else Dropped
    case Some(Connect(uid)) => if uid in h.connectionHandler then ToConnect(h.connectionHandler[uid]) else Dropped
    case Some(EchoAddrReq) => Echoed
    case Some(OtherMessage) => Dropped
  }

  /** The last event before position `n` that is this one. */
  function Latest(es: seq<Event>, n: nat, e: Event): (latest: Option<nat>)
    requires n <= |es|
    ensures latest.Some? ==> latest.value < n && es[latest.value] == e && e !in es[latest.value + 1..n]
    ensures latest.None? ==> e !in es[..n]
  {
    if n == 0 then None
    else if es[n - 1] == e then Some(n - 1)
    else
      var latest := Latest(es, n - 1, e);
      assert es[..n] == es[..n - 1] + [es[n - 1]];
      assert latest.Some? ==> es[latest.value + 1..n] == es[latest.value + 1..n - 1] + [es[n - 1]];
      latest
  }

  /** The handlers agree with the history of registrations, whose positions number the channels. */
  ghost predicate Current(h: Handlers, es: seq<Event>) {
    && h.bootstrapHandler == Latest(es, |es|, NewAcceptor)
    && (forall uid :: (if uid in h.connectionHandler then Some(h.connectionHandler[uid]) else None)
                      == Latest(es, |es|, NewConnect(uid)))
  }

  lemma {:induction false} LatestPrefix(es: seq<Event>, n: nat, e: Event, more: Event)
    requires n <= |es|
    ensures Latest(es + [more], n, e) == Latest(es, n, e)
  {
    if n > 0 {
      LatestPrefix(es, n - 1, e, more);
    }
  }

  /** The demultiplexer. `history` lists everything that happened to it. */
  class Demux {
    var bootstrapHandler: Option<nat>
    var connectionHandler: map<Uid, nat>
    var history: seq<Event>

    function Value(): Handlers
      reads this
    {
      Handlers(bootstrapHandler, connectionHandler)
    }

    ghost predicate Valid()
      reads this
    {
      Current(Value(), history)
    }

    constructor ()
      ensures Valid() && history == []
    {
      bootstrapHandler, connectionHandler, history := None, map[], [];
    }

    method BootstrapAcceptor() returns (channel: nat)
      requires Valid()
      modifies this
      ensures Valid() && history == old(history) + [NewAcceptor] && channel == |old(history)|
    {
      channel := |history|;
      Extend(NewAcceptor);
      bootstrapHandler := Some(channel);
    }

    /** Replaces whatever was registered for that uid before. */
    method Connect(their: Uid) returns (channel: nat)
      requires Valid()
      modifies this
      ensures Valid() && history == old(history) + [NewConnect(their)] && channel == |old(history)|
    {
      channel := |history|;
      Extend(NewConnect(their));
      connectionHandler := connectionHandler[their := channel];
    }

    /** A socket goes to the acceptor made last, to the connect call made last for the uid it names, or to
        nobody; it goes nowhere else. */
    method HandleIncoming(first: Option<Message>) returns (to: Destination)
      requires Valid()
      modifies this`history
      ensures Valid() && history == old(history) + [Incoming(first)]
      ensures to.ToConnect? <==> first.Some? && first.value.Connect? && NewConnect(first.value.uid) in old(history)
      ensures to.ToConnect? ==>
        && to.channel < |old(history)| && old(history)[to.channel] == NewConnect(first.value.uid)
        && NewConnect(first.value.uid) !in old(history)[to.channel + 1..]
      ensures to.ToAcceptor? <==> first.Some? && first.value.BootstrapRequest? && NewAcceptor in old(history)
      ensures to.ToAcceptor? ==>
        && to.channel < |old(history)| && old(history)[to.channel] == NewAcceptor
        && NewAcceptor !in old(history)[to.channel + 1..]
      ensures to.Echoed? <==> first == Some(EchoAddrReq)
    {
      to := Route(Value(), first);
      assert history[..|history|] == history;
      assert to.ToConnect? ==> Latest(history, |history|, NewConnect(first.value.uid)) == Some(to.channel);
      assert to.ToAcceptor? ==> Latest(history, |history|, NewAcceptor) == Some(to.channel);
      assert first.Some? && first.value.Connect? && !to.ToConnect? ==>
        Latest(history, |history|, NewConnect(first.value.uid)) == None;
      Extend(Incoming(first));
    }

    method Extend(e: Event)
      modifies this`history
      ensures history == old(history) + [e]
      ensures forall e': Event ::
        Latest(history, |history|, e') == (if e' == e then Some(|old(history)|) else Latest(old(history), |old(history)|, e'))
    {
      ghost var before := history;
      history := history + [e];
      forall e': Event
        ensures Latest(history, |before|, e') == Latest(before, |before|, e')
      {
        LatestPrefix(before, |before|, e', e);
      }
    }
  }
}
