/** From the address book to the answers of service discovery: the forwarder takes what its observer channel
    delivers and passes it on to the server. */
module Replication {
  import opened Seqs
  import opened AddressBook
  import opened ListenerRuns
  import opened DiscoveryServer

  /** A value on its way through the pipe, with its position in the history of the current set. */
  datatype Versioned = Versioned(addrs: set<Addr>, at: nat)

  /** `forwarded` counts the values passed on to the server so far. */
  datatype Pipe = Pipe(
    world: World,
    observer: nat,
    forwarded: nat,
    queue: seq<Versioned>,
    data: Versioned,
    state: State<Versioned>,
    sent: seq<Response<Versioned>>)

  datatype Step =
    | Upstream(event: ListenerRuns.Event)
    | Forward
    | PollServer(inbox: seq<Datagram>, writes: nat)

  function Source(p: Pipe): Channel {
    if p.observer in p.world.book.channels then p.world.book.channels[p.observer] else Channel(0, [])
  }

  /** Starting service discovery subscribes to the addresses and hands the server the snapshot. */
  function Begin(w: World): Pipe {
    var since := if w.book.history == [] then 0 else |w.book.history| - 1;
    Pipe(ListenerRuns.Apply(w, Watch), NextObserver(w.book), 0, [], Versioned(w.book.current, since), Reading, [])
  }

  function Take(p: Pipe, s: Step): Pipe {
    match s
    case Upstream(event) => p.(world := ListenerRuns.Apply(p.world, event))
    case Forward =>
      var c := Source(p);
      if p.forwarded < |c.received| then
        var v := Versioned(c.received[p.forwarded], c.since + p.forwarded + 1);
        p.(forwarded := p.forwarded + 1, queue := p.queue + [v])
      else p
    case PollServer(inbox, writes) =>
      var data := Newest(p.data, p.queue);
      var served := Serve(data, p.state, inbox, writes);
      p.(queue := [], data := data, state := served.state, sent := p.sent + served.sent)
  }

  function Run(p: Pipe, steps: seq<Step>): Pipe {
    if steps == [] then p else Take(Run(p, steps[..|steps| - 1]), steps[|steps| - 1])
  }

  ghost predicate Genuine(history: seq<set<Addr>>, v: Versioned) {
    v.at < |history| && v.addrs == history[v.at]
  }

  /** The responses sent and the one in hand carry values of the history between these positions, and never go
      back in it. */
  ghost predicate InStep(history: seq<set<Addr>>, responses: seq<Response<Versioned>>, first: nat, last: nat) {
    && (forall k :: 0 <= k < |responses| ==> Genuine(history, responses[k].data) && first <= responses[k].data.at <= last)
    && (forall j, k :: 0 <= j <= k < |responses| ==> responses[j].data.at <= responses[k].data.at)
  }

  /** The values in the queue follow the server's data in the history. */
  ghost predicate InFlight(history: seq<set<Addr>>, p: Pipe) {
    && Genuine(history, p.data)
    && p.data.at + |p.queue| == Source(p).since + p.forwarded
    && (forall k :: 0 <= k < |p.queue| ==> Genuine(history, p.queue[k]) && p.queue[k].at == p.data.at + k + 1)
  }

  ghost predicate Inv(p: Pipe) {
    && ListenerRuns.Inv(p.world)
    && p.observer in p.world.book.channels && Told(p.world.book, p.observer)
    && p.forwarded <= |Source(p).received|
    && Source(p).since <= p.data.at
    && InFlight(p.world.book.history, p)
    && InStep(p.world.book.history, p.sent + InHand(p.state), Source(p).since, p.data.at)
  }

  lemma WatchedIsTold(w: World, o: nat)
    requires ListenerRuns.Inv(w) && o in w.book.channels
    ensures Told(w.book, o)
  {
  }

  /** Channels only grow. */
  lemma PublishExtends(b: Book, current: set<Addr>, o: nat)
    requires o in b.channels
    ensures o in Publish(b, current).channels
    ensures b.channels[o].received <= Publish(b, current).channels[o].received
    ensures b.channels[o].since == Publish(b, current).channels[o].since
    ensures b.history <= Publish(b, current).history
  {
  }

  lemma {:induction false} WithdrawExtends(b: Book, removed: seq<Bound>, o: nat)
    requires o in b.channels
    ensures var b' := Withdraw(b, removed);
            && o in b'.channels
            && b.channels[o].received <= b'.channels[o].received
            && b.channels[o].since == b'.channels[o].since
            && b.history <= b'.history
    decreases |removed|
  {
    if removed != [] {
      PublishExtends(b, b.current - removed[0].addrs, o);
      WithdrawExtends(Publish(b, b.current - removed[0].addrs), removed[1..], o);
    }
  }

  lemma UpstreamExtends(w: World, e: ListenerRuns.Event, o: nat)
    requires ListenerRuns.Inv(w) && o in w.book.channels
    ensures var b' := ListenerRuns.Apply(w, e).book;
            && o in b'.channels
            && w.book.channels[o].received <= b'.channels[o].received
            && w.book.channels[o].since == b'.channels[o].since
            && w.book.history <= b'.history
  {
    match e
    case Listen(addrs) => PublishExtends(w.book, w.book.current + addrs, o);
    case PollIncoming(accepts) => WithdrawExtends(w.book, Scan(Taken(w), 0, w.dropped, accepts).removed, o);
    case _ =>
  }

  lemma InStepExtends(history: seq<set<Addr>>, history': seq<set<Addr>>, responses: seq<Response<Versioned>>, first: nat, last: nat)
    requires InStep(history, responses, first, last) && history <= history'
    ensures InStep(history', responses, first, last)
  {
  }

  lemma InFlightExtends(p: Pipe, p': Pipe)
    requires InFlight(p.world.book.history, p) && p.world.book.history <= p'.world.book.history
    requires p' == p.(world := p'.world) && Source(p').since == Source(p).since
    ensures InFlight(p'.world.book.history, p')
  {
  }

  lemma UpstreamKeepsInv(p: Pipe, e: ListenerRuns.Event)
    requires Inv(p)
    ensures Inv(Take(p, Upstream(e)))
  {
    var p' := Take(p, Upstream(e));
    ApplyKeepsInv(p.world, e);
    UpstreamExtends(p.world, e, p.observer);
    WatchedIsTold(p'.world, p.observer);
    InFlightExtends(p, p');
    InStepExtends(p.world.book.history, p'.world.book.history, p.sent + InHand(p.state), Source(p).since, p.data.at);
  }

  lemma {:induction false} AnswersCarryData<T>(data: T, inbox: seq<Datagram>)
    ensures forall k :: 0 <= k < |Answers(data, inbox)| ==> Answers(data, inbox)[k].data == data
  {
    if inbox != [] {
      AnswersCarryData(data, inbox[1..]);
    }
  }

  /** Answering with a value that is no older than any before keeps the responses in step. */
  lemma InStepAppend(history: seq<set<Addr>>, a: seq<Response<Versioned>>, b: seq<Response<Versioned>>, first: nat, last: nat, v: Versioned)
    requires InStep(history, a, first, last) && Genuine(history, v) && first <= last <= v.at
    requires forall k :: 0 <= k < |b| ==> b[k].data == v
    ensures InStep(history, a + b, first, v.at)
  {
  }

  lemma PollKeepsInv(p: Pipe, inbox: seq<Datagram>, writes: nat)
    requires Inv(p)
    ensures Inv(Take(p, PollServer(inbox, writes)))
  {
    var p', history := Take(p, PollServer(inbox, writes)), p.world.book.history;
    var s := Serve(p'.data, p.state, inbox, writes);
    var answers := Answers(p'.data, inbox[..s.taken]);
    ServeAnswersAll(p'.data, p.state, inbox, writes);
    AnswersCarryData(p'.data, inbox[..s.taken]);
    ConcatAssociates(p.sent, s.sent, InHand(s.state));
    ConcatAssociates(p.sent, InHand(p.state), answers);
    InStepAppend(history, p.sent + InHand(p.state), answers, Source(p).since, p.data.at, p'.data);
  }

  lemma ForwardKeepsInv(p: Pipe)
    requires Inv(p)
    ensures Inv(Take(p, Forward))
  {
    var c, history := Source(p), p.world.book.history;
    if p.forwarded < |c.received| {
      assert c.received[p.forwarded] == history[c.since + 1..][p.forwarded] == history[c.since + p.forwarded + 1];
    }
  }

  lemma TakeKeepsInv(p: Pipe, s: Step)
    requires Inv(p)
    ensures Inv(Take(p, s))
  {
    match s
    case Upstream(event) => UpstreamKeepsInv(p, event);
    case Forward => ForwardKeepsInv(p);
    case PollServer(inbox, writes) => PollKeepsInv(p, inbox, writes);
  }

  lemma BeginHasInv(w: World)
    requires ListenerRuns.Inv(w) && !w.closed
    ensures Inv(Begin(w))
  {
    var p, o := Begin(w), NextObserver(w.book);
    ApplyKeepsInv(w, Watch);
    assert p.world.book == Subscribe(w.book, o);
    assert Source(p) == Channel(|w.book.history| - 1, []);
    WatchedIsTold(p.world, o);
  }

  lemma {:induction false} InvHolds(es: seq<ListenerRuns.Event>, steps: seq<Step>)
    requires !ListenerRuns.After(es).closed
    ensures Inv(Run(Begin(ListenerRuns.After(es)), steps))
  {
    var w := ListenerRuns.After(es);
    if steps == [] {
      ListenerRuns.InvHolds(es);
      BeginHasInv(w);
    } else {
      InvHolds(es, steps[..|steps| - 1]);
      TakeKeepsInv(Run(Begin(w), steps[..|steps| - 1]), steps[|steps| - 1]);
    }
  }

  // What service discovery promises

  /** Every response ever sent carries a value the set of addresses really had since service discovery was
      started, and later responses never carry earlier values. */
  lemma {:induction false} ResponsesFollowHistory(es: seq<ListenerRuns.Event>, steps: seq<Step>)
    requires !ListenerRuns.After(es).closed
    ensures var p := Run(Begin(ListenerRuns.After(es)), steps);
            && p.observer in p.world.book.channels
            && (forall k :: 0 <= k < |p.sent| ==>
                  && Source(p).since <= p.sent[k].data.at < |p.world.book.history|
                  && p.sent[k].data.addrs == p.world.book.history[p.sent[k].data.at])
            && (forall j, k :: 0 <= j <= k < |p.sent| ==> p.sent[j].data.at <= p.sent[k].data.at)
  {
    InvHolds(es, steps);
    var p := Run(Begin(ListenerRuns.After(es)), steps);
    assert forall k :: 0 <= k < |p.sent| ==> (p.sent + InHand(p.state))[k] == p.sent[k];
  }

  lemma EverythingTaken(p: Pipe)
    requires Inv(p) && p.queue == [] && p.forwarded == |Source(p).received| && p.observer !in p.world.book.hungUp
    ensures p.data.addrs == p.world.book.current
  {
  }

  /** What happened to the listeners in these steps. */
  function Upstreams(steps: seq<Step>): seq<ListenerRuns.Event> {
    if steps == [] then []
    else
      var last := steps[|steps| - 1];
      Upstreams(steps[..|steps| - 1]) + if last.Upstream? then [last.event] else []
  }

  /** Everything that happens to the listeners happens at the source of the pipe, and nothing else does. */
  lemma {:induction false} SourceFollowsListeners(es: seq<ListenerRuns.Event>, steps: seq<Step>)
    ensures Run(Begin(ListenerRuns.After(es)), steps).world == ListenerRuns.After(es + [Watch] + Upstreams(steps))
    decreases |steps|
  {
    if steps == [] {
      ListenerRuns.AfterLast(es, Watch);
      assert es + [Watch] + Upstreams([]) == es + [Watch];
    } else {
      var init, last := steps[..|steps| - 1], steps[|steps| - 1];
      SourceFollowsListeners(es, init);
      if last.Upstream? {
        ListenerRuns.AfterLast(es + [Watch] + Upstreams(init), last.event);
        ConcatAssociates(es + [Watch], Upstreams(init), [last.event]);
      } else {
        ConcatEmpty(Upstreams(init));
      }
    }
  }

  // Catching up

  function Behind(p: Pipe): nat {
    if p.forwarded <= |Source(p).received| then |Source(p).received| - p.forwarded else 0
  }

  function Forwards(n: nat): seq<Step> {
    seq(n, i => Forward)
  }

  lemma ForwardPassesOn(p: Pipe)
    requires Behind(p) > 0
    ensures var p' := Take(p, Forward);
            Behind(p') == Behind(p) - 1 && p'.world == p.world && p'.observer == p.observer
            && p'.state == p.state && p'.sent == p.sent
  {
  }

  lemma RunLast(p: Pipe, steps: seq<Step>, s: Step)
    ensures Run(p, steps + [s]) == Take(Run(p, steps), s)
  {
    assert (steps + [s])[..|steps|] == steps;
  }

  /** However far behind it is, the forwarder has passed everything on after as many steps. */
  lemma {:induction false} ForwardsCatchUp(p: Pipe, steps: seq<Step>, n: nat)
    requires n <= Behind(Run(p, steps))
    ensures var before, after := Run(p, steps), Run(p, steps + Forwards(n));
            Behind(after) == Behind(before) - n && after.world == before.world && after.observer == before.observer
            && after.state == before.state && after.sent == before.sent
    decreases n
  {
    if n == 0 {
      assert steps + Forwards(0) == steps;
    } else {
      ForwardsCatchUp(p, steps, n - 1);
      assert steps + Forwards(n) == steps + Forwards(n - 1) + [Forward];
      RunLast(p, steps + Forwards(n - 1), Forward);
      ForwardPassesOn(Run(p, steps + Forwards(n - 1)));
    }
  }

  /** From any moment of any run, while the observer listens: as many forwards as values are outstanding and one
      poll of the server make its data the current set. */
  lemma {:induction false} AlwaysCatchesUp(es: seq<ListenerRuns.Event>, steps: seq<Step>, inbox: seq<Datagram>, writes: nat)
    requires !ListenerRuns.After(es).closed
    ensures var p0 := Begin(ListenerRuns.After(es));
            var p := Run(p0, steps);
            var p' := Run(p0, steps + Forwards(Behind(p)) + [PollServer(inbox, writes)]);
            p.observer !in p.world.book.hungUp ==> p'.data.addrs == p'.world.book.current == p.world.book.current
  {
    var p0 := Begin(ListenerRuns.After(es));
    var more := steps + Forwards(Behind(Run(p0, steps)));
    ForwardsCatchUp(p0, steps, Behind(Run(p0, steps)));
    InvHolds(es, more);
    CaughtUp(es, more, inbox, writes);
    RunLast(p0, more, PollServer(inbox, writes));
  }

  /** And a request that arrives with that poll, when no response is in hand, is answered with that set. */
  lemma {:induction false} RequestIsAnsweredWithCurrentSet(es: seq<ListenerRuns.Event>, steps: seq<Step>, from: nat, writes: nat)
    requires !ListenerRuns.After(es).closed && writes > 0
    ensures var p0 := Begin(ListenerRuns.After(es));
            var p := Run(p0, steps);
            var p' := Run(p0, steps + Forwards(Behind(p)) + [PollServer([Datagram(from, Request)], writes)]);
            p.observer !in p.world.book.hungUp && p.state.Reading? ==>
              exists r :: p'.sent == p.sent + [r] && r.to == from && r.data.addrs == p.world.book.current
  {
    var p0 := Begin(ListenerRuns.After(es));
    var p, request := Run(p0, steps), [Datagram(from, Request)];
    if p.observer !in p.world.book.hungUp && p.state.Reading? {
      var more := steps + Forwards(Behind(p));
      var p' := Run(p0, more + [PollServer(request, writes)]);
      ForwardsCatchUp(p0, steps, Behind(p));
      RunLast(p0, more, PollServer(request, writes));
      AlwaysCatchesUp(es, steps, request, writes);
      RoomForAll(p'.data, request, writes);
      var r := Response(from, p'.data);
      assert Answers(p'.data, request) == [r];
      assert p'.sent == p.sent + [r];
    }
  }

  /** Once everything the observer was told has been forwarded, one poll of the server makes its data the
      current set. */
  lemma {:induction false} CaughtUp(es: seq<ListenerRuns.Event>, steps: seq<Step>, inbox: seq<Datagram>, writes: nat)
    requires !ListenerRuns.After(es).closed
    ensures var p := Run(Begin(ListenerRuns.After(es)), steps);
            p.forwarded == |Source(p).received| && p.observer !in p.world.book.hungUp ==>
              Take(p, PollServer(inbox, writes)).data.addrs == p.world.book.current
  {
    InvHolds(es, steps);
    var p := Run(Begin(ListenerRuns.After(es)), steps);
    if p.forwarded == |Source(p).received| && p.observer !in p.world.book.hungUp {
      PollKeepsInv(p, inbox, writes);
      EverythingTaken(Take(p, PollServer(inbox, writes)));
    }
  }
}
