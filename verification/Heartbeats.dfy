/** Two live peers and the two timers of each, over whole timed runs. The runs meet three bounds: a peer is
    polled at most `lateness` after its heartbeat timer is due, an urgent message can be read at most `delay`
    after it was sent, and the two peers were constructed at most `skew` apart. Of droppable messages nothing
    is assumed: the sender's own socket may drop them. */
module Heartbeats {
  import opened PeerTimers
  import opened SocketQueue

  datatype Bounds = Bounds(lateness: nat, delay: nat, skew: nat)

  datatype Sending = Sending(at: nat, priority: Priority, message: PeerMessage)

  predicate Urgent(s: Sending) {
    s.priority < MSG_DROP_PRIORITY
  }

  /** `got` lists, by index in the other side's `sends`, the messages this side has processed. */
  datatype Side = Side(timers: Timers, born: nat, sends: seq<Sending>, got: set<nat>, lastHeard: nat, timedOut: bool)

  datatype World = World(clock: nat, left: Side, right: Side)

  /** A poll, with the messages that can be read at that moment in the order they are read; or the user
      sending data. */
  datatype Event =
    | Wake(left: bool, at: nat, arrived: seq<nat>)
    | SendData(left: bool, at: nat, priority: Priority, bytes: seq<nat>)

  function Born(at: nat): Side {
    Side(Construct(at), at, [], {}, at, false)
  }

  function Mine(w: World, left: bool): Side {
    if left then w.left else w.right
  }

  function With(w: World, left: bool, at: nat, side: Side): World {
    if left then w.(clock := at, left := side) else w.(clock := at, right := side)
  }

  predicate Arrivals(me: Side, other: Side, at: nat, arrived: seq<nat>, delay: nat) {
    && (forall k :: 0 <= k < |arrived| ==>
          arrived[k] < |other.sends| && other.sends[arrived[k]].at <= at && arrived[k] !in me.got)
    && (forall j, k :: 0 <= j < k < |arrived| ==> arrived[j] != arrived[k])
    && (forall i :: 0 <= i < |other.sends| && Urgent(other.sends[i]) && i !in me.got && other.sends[i].at + delay <= at ==>
          i in arrived)
  }

  predicate OnTime(w: World, left: bool, at: nat, lateness: nat) {
    && w.clock <= at && Mine(w, left).born <= at
    && at <= w.left.timers.sendDeadline + lateness
    && at <= w.right.timers.sendDeadline + lateness
  }

  predicate Enabled(b: Bounds, w: World, e: Event) {
    && OnTime(w, e.left, e.at, b.lateness)
    && (e.Wake? ==> Arrivals(Mine(w, e.left), Mine(w, !e.left), e.at, e.arrived, b.delay))
  }

  function Inbox(other: Side, arrived: seq<nat>): seq<PeerMessage>
    requires forall k :: 0 <= k < |arrived| ==> arrived[k] < |other.sends|
  {
    seq(|arrived|, k requires 0 <= k < |arrived| => other.sends[arrived[k]].message)
  }

  function Awoken(me: Side, other: Side, at: nat, arrived: seq<nat>): Side
    requires forall k :: 0 <= k < |arrived| ==> arrived[k] < |other.sends|
  {
    var r := Receive(Beat(me.timers, at), at, Inbox(other, arrived), false);
    Side(
      r.timers,
      me.born,
      me.sends + if Beats(me.timers, at) then [Sending(at, 0, Heartbeat)] else [],
      me.got + set i | i in arrived[..r.taken],
      if r.taken > 0 then at else me.lastHeard,
      me.timedOut || r.result.InactivityTimeout?)
  }

  /** An event outside the bounds leaves the world as it is. */
  function Apply(b: Bounds, w: World, e: Event): World {
    if !Enabled(b, w, e) then w
    else
      var me := Mine(w, e.left);
      match e
      case Wake(left, at, arrived) => With(w, left, at, Awoken(me, Mine(w, !left), at, arrived))
      case SendData(left, at, priority, bytes) =>
        With(w, left, at, me.(timers := PeerTimers.Sent(me.timers, at), sends := me.sends + [Sending(at, priority, Data(bytes))]))
  }

  function After(b: Bounds, w: World, es: seq<Event>): World {
    if es == [] then w else Apply(b, After(b, w, es[..|es| - 1]), es[|es| - 1])
  }

  predicate Initial(b: Bounds, w: World) {
    && w == World(0, Born(w.left.born), Born(w.right.born))
    && w.left.born <= w.right.born + b.skew
    && w.right.born <= w.left.born + b.skew
  }

  // The invariant of one direction

  function PreviousSend(s: Side, k: nat): nat
    requires k <= |s.sends|
  {
    if k == 0 then s.born else s.sends[k - 1].at
  }

  ghost predicate Sender(s: Side, clock: nat, lateness: nat) {
    && Valid(s.timers)
    && s.timers.lastSend == PreviousSend(s, |s.sends|)
    && (s.timers.lastSend <= clock || s.sends == [])
    && (forall k :: 0 <= k < |s.sends| ==>
          PreviousSend(s, k) <= s.sends[k].at <= PreviousSend(s, k) + HEARTBEAT_PERIOD + lateness)
  }

  ghost predicate Receiver(s: Side, r: Side, clock: nat) {
    && r.timers.recvDeadline == r.lastHeard + INACTIVITY_TIMEOUT
    && r.born <= r.lastHeard && (r.lastHeard <= clock || r.lastHeard == r.born)
    && (forall i :: i in r.got ==> i < |s.sends| && s.sends[i].at <= r.lastHeard)
  }

  ghost predicate Inv(b: Bounds, w: World) {
    && Sender(w.left, w.clock, b.lateness) && Receiver(w.left, w.right, w.clock)
    && Sender(w.right, w.clock, b.lateness) && Receiver(w.right, w.left, w.clock)
    && w.left.born <= w.right.born + b.skew
    && w.right.born <= w.left.born + b.skew
  }

  lemma SenderSends(s: Side, clock: nat, lateness: nat, sent: Sending, timers: Timers)
    requires Sender(s, clock, lateness) && clock <= sent.at && s.born <= sent.at <= s.timers.sendDeadline + lateness
    requires Valid(timers) && timers.lastSend == sent.at
    ensures Sender(s.(timers := timers, sends := s.sends + [sent]), sent.at, lateness)
  {
    var s' := s.(timers := timers, sends := s.sends + [sent]);
    forall k | 0 <= k < |s'.sends|
      ensures PreviousSend(s', k) <= s'.sends[k].at <= PreviousSend(s', k) + HEARTBEAT_PERIOD + lateness
    {
      assert PreviousSend(s', k) == PreviousSend(s, k);
    }
  }

  lemma WakeKeepsSender(me: Side, other: Side, clock: nat, b: Bounds, at: nat, arrived: seq<nat>)
    requires Sender(me, clock, b.lateness) && clock <= at && me.born <= at && at <= me.timers.sendDeadline + b.lateness
    requires Arrivals(me, other, at, arrived, b.delay)
    ensures Sender(Awoken(me, other, at, arrived), at, b.lateness)
  {
    var me' := Awoken(me, other, at, arrived);
    if Beats(me.timers, at) {
      SenderSends(me, clock, b.lateness, Sending(at, 0, Heartbeat), Beat(me.timers, at));
      var sent := me.(timers := Beat(me.timers, at), sends := me.sends + [Sending(at, 0, Heartbeat)]);
      assert forall k | 0 <= k <= |me'.sends| :: PreviousSend(me', k) == PreviousSend(sent, k);
    } else {
      assert me'.sends == me.sends;
      assert forall k | 0 <= k <= |me'.sends| :: PreviousSend(me', k) == PreviousSend(me, k);
    }
  }

  lemma WakeKeepsReceiver(me: Side, other: Side, clock: nat, b: Bounds, at: nat, arrived: seq<nat>)
    requires Receiver(other, me, clock) && Arrivals(me, other, at, arrived, b.delay) && clock <= at && me.born <= at
    ensures Receiver(other, Awoken(me, other, at, arrived), at)
  {
    var r := Receive(Beat(me.timers, at), at, Inbox(other, arrived), false);
    forall i | i in Awoken(me, other, at, arrived).got
      ensures i < |other.sends| && other.sends[i].at <= Awoken(me, other, at, arrived).lastHeard
    {
      if i !in me.got {
        assert i in arrived[..r.taken];
      }
    }
  }

  lemma ReceiverSeesMore(s: Side, s': Side, r: Side, clock: nat, at: nat)
    requires Receiver(s, r, clock) && s.sends <= s'.sends && clock <= at
    ensures Receiver(s', r, at)
  {
  }

  lemma ApplyKeeps(b: Bounds, w: World, e: Event)
    requires Inv(b, w)
    ensures Inv(b, Apply(b, w, e))
  {
    if Enabled(b, w, e) {
      var me, other := Mine(w, e.left), Mine(w, !e.left);
      match e
      case Wake(left, at, arrived) =>
        WakeKeepsSender(me, other, w.clock, b, at, arrived);
        WakeKeepsReceiver(me, other, w.clock, b, at, arrived);
        ReceiverSeesMore(me, Awoken(me, other, at, arrived), other, w.clock, at);
      case SendData(left, at, priority, bytes) =>
        SenderSends(me, w.clock, b.lateness, Sending(at, priority, Data(bytes)), PeerTimers.Sent(me.timers, at));
    }
  }

  lemma {:induction false} InvHolds(b: Bounds, w: World, es: seq<Event>)
    requires Initial(b, w)
    ensures Inv(b, After(b, w, es))
  {
    if es != [] {
      InvHolds(b, w, es[..|es| - 1]);
      ApplyKeeps(b, After(b, w, es[..|es| - 1]), es[|es| - 1]);
    }
  }

  // What the timers promise

  /** In every run, consecutive sends are at most a heartbeat period and the lateness apart. */
  lemma {:induction false} SendGap(b: Bounds, w: World, es: seq<Event>, left: bool, k: nat)
    requires Initial(b, w) && k < |Mine(After(b, w, es), left).sends|
    ensures var s := Mine(After(b, w, es), left);
            PreviousSend(s, k) <= s.sends[k].at <= PreviousSend(s, k) + HEARTBEAT_PERIOD + b.lateness
  {
    InvHolds(b, w, es);
  }

  // Urgent sends

  /** When a peer last sent something that its socket cannot drop (or was constructed, if it never did). */
  function LastUrgent(born: nat, sends: seq<Sending>): nat {
    if sends == [] then born
    else if Urgent(sends[|sends| - 1]) then sends[|sends| - 1].at
    else LastUrgent(born, sends[..|sends| - 1])
  }

  /** At no moment of the run has this peer been silent, but for droppable data, for longer than `gap`. */
  ghost predicate Spaced(b: Bounds, w: World, es: seq<Event>, left: bool, gap: nat) {
    es != [] ==>
      var init, e := es[..|es| - 1], es[|es| - 1];
      var s := Mine(After(b, w, init), left);
      Spaced(b, w, init, left, gap) && (Enabled(b, After(b, w, init), e) ==> e.at <= LastUrgent(s.born, s.sends) + gap)
  }

  ghost predicate UrgentlySpaced(s: Side, gap: nat) {
    forall k :: 0 <= k < |s.sends| && Urgent(s.sends[k]) ==> s.sends[k].at <= LastUrgent(s.born, s.sends[..k]) + gap
  }

  /** What an event adds to the sends of one side. */
  function Added(w: World, e: Event, left: bool): seq<Sending> {
    if e.left != left then []
    else if e.SendData? then [Sending(e.at, e.priority, Data(e.bytes))]
    else if Beats(Mine(w, left).timers, e.at) then [Sending(e.at, 0, Heartbeat)]
    else []
  }

  lemma ApplyAdds(b: Bounds, w: World, e: Event, left: bool)
    requires Enabled(b, w, e)
    ensures var s, s' := Mine(w, left), Mine(Apply(b, w, e), left);
            s'.sends == s.sends + Added(w, e, left) && s'.born == s.born
  {
  }

  lemma SpacedStep(s: Side, s': Side, more: seq<Sending>, gap: nat)
    requires UrgentlySpaced(s, gap) && s'.sends == s.sends + more && s'.born == s.born
    requires more == [] || (|more| == 1 && more[0].at <= LastUrgent(s.born, s.sends) + gap)
    ensures UrgentlySpaced(s', gap)
  {
    forall k | 0 <= k < |s'.sends| && Urgent(s'.sends[k])
      ensures s'.sends[k].at <= LastUrgent(s'.born, s'.sends[..k]) + gap
    {
      assert s'.sends[..k] == s.sends[..k];
      assert k == |s.sends| ==> s.sends[..k] == s.sends;
    }
  }

  lemma {:induction false} SpacedHolds(b: Bounds, w: World, es: seq<Event>, left: bool, gap: nat)
    requires Initial(b, w) && Spaced(b, w, es, left, gap)
    ensures UrgentlySpaced(Mine(After(b, w, es), left), gap)
  {
    if es != [] {
      var v, e := After(b, w, es[..|es| - 1]), es[|es| - 1];
      SpacedHolds(b, w, es[..|es| - 1], left, gap);
      if Enabled(b, v, e) {
        ApplyAdds(b, v, e, left);
        SpacedStep(Mine(v, left), Mine(Apply(b, v, e), left), Added(v, e, left), gap);
      }
    }
  }

  ghost predicate AllUrgent(sends: seq<Sending>) {
    forall k :: 0 <= k < |sends| ==> Urgent(sends[k])
  }

  ghost predicate NoDroppable(es: seq<Event>) {
    forall k :: 0 <= k < |es| && es[k].SendData? ==> es[k].priority < MSG_DROP_PRIORITY
  }

  lemma HeartbeatSpaces(b: Bounds, w: World, e: Event, left: bool)
    requires Sender(Mine(w, left), w.clock, b.lateness) && AllUrgent(Mine(w, left).sends) && Enabled(b, w, e)
    ensures var s := Mine(w, left);
            e.at <= LastUrgent(s.born, s.sends) + HEARTBEAT_PERIOD + b.lateness
    ensures (e.SendData? ==> e.priority < MSG_DROP_PRIORITY) ==> AllUrgent(Mine(Apply(b, w, e), left).sends)
  {
    var s := Mine(w, left);
    ApplyAdds(b, w, e, left);
    assert LastUrgent(s.born, s.sends) == PreviousSend(s, |s.sends|);
  }

  /** While nobody sends droppable data, heartbeats keep the urgent sends a period and the lateness apart. */
  lemma {:induction false} HeartbeatsSpace(b: Bounds, w: World, es: seq<Event>, left: bool)
    requires Initial(b, w) && NoDroppable(es)
    ensures Spaced(b, w, es, left, HEARTBEAT_PERIOD + b.lateness)
    ensures AllUrgent(Mine(After(b, w, es), left).sends)
  {
    if es != [] {
      var v, e := After(b, w, es[..|es| - 1]), es[|es| - 1];
      HeartbeatsSpace(b, w, es[..|es| - 1], left);
      InvHolds(b, w, es[..|es| - 1]);
      if Enabled(b, v, e) {
        HeartbeatSpaces(b, v, e, left);
      }
    }
  }

  /** The first urgent send after an instant; the urgent send before it is not after that instant. */
  lemma {:induction false} FirstAfter(s: Side, instant: nat, n: nat) returns (k: nat)
    requires n <= |s.sends|
    ensures k <= n
    ensures LastUrgent(s.born, s.sends[..k]) <= if s.born > instant then s.born else instant
    ensures k < n ==> Urgent(s.sends[k]) && s.sends[k].at > instant
    decreases n
  {
    k := n;
    if n > 0 {
      k := FirstAfter(s, instant, n - 1);
      if k == n - 1 && !(Urgent(s.sends[k]) && s.sends[k].at > instant) {
        assert s.sends[..n][..n - 1] == s.sends[..n - 1];
        k := n;
      }
    }
  }

  /** The bounds under which silence means that the peer is gone, when its urgent sends are at most `gap`
      apart. (A gap of zero leaves no time for anything to be delivered, nor for anybody to miss it.) */
  predicate Sufficient(b: Bounds, gap: nat) {
    && b.skew + gap < INACTIVITY_TIMEOUT
    && (gap == 0 || b.skew + gap + b.delay <= INACTIVITY_TIMEOUT)
  }

  lemma {:induction false} NoGapNoTime(s: Side, n: nat)
    requires n <= |s.sends| && UrgentlySpaced(s, 0)
    ensures LastUrgent(s.born, s.sends[..n]) <= s.born
  {
    if n > 0 {
      NoGapNoTime(s, n - 1);
      assert s.sends[..n][..n - 1] == s.sends[..n - 1];
    }
  }

  /** By the inactivity deadline some message has arrived that was not processed before. */
  lemma SomethingArrives(s: Side, r: Side, clock: nat, b: Bounds, gap: nat, at: nat, arrived: seq<nat>)
    requires UrgentlySpaced(s, gap) && Receiver(s, r, clock)
    ensures s.born <= r.born + b.skew && Sufficient(b, gap)
            && r.timers.recvDeadline <= at <= LastUrgent(s.born, s.sends) + gap
            && Arrivals(r, s, at, arrived, b.delay)
            ==> arrived != []
  {
    var k := FirstAfter(s, r.lastHeard, |s.sends|);
    assert s.sends[..|s.sends|] == s.sends;
    if k < |s.sends| {
      assert k !in r.got;
    }
    if gap == 0 {
      NoGapNoTime(s, |s.sends|);
    }
  }

  lemma TimeoutStep(b: Bounds, w: World, e: Event)
    requires Receiver(Mine(w, !e.left), Mine(w, e.left), w.clock) && !Mine(w, e.left).timedOut
    ensures Mine(Apply(b, w, e), e.left).timedOut ==>
      e.Wake? && e.arrived == [] && Mine(w, e.left).lastHeard + INACTIVITY_TIMEOUT <= e.at
  {
    if Enabled(b, w, e) && e.Wake? {
      var me := Mine(w, e.left);
      assert Beat(me.timers, e.at).recvDeadline == me.timers.recvDeadline;
      assert |Inbox(Mine(w, !e.left), e.arrived)| == |e.arrived|;
    }
  }

  lemma NoTimeoutStep(b: Bounds, w: World, e: Event, left: bool, gap: nat)
    requires Receiver(Mine(w, left), Mine(w, !left), w.clock) && UrgentlySpaced(Mine(w, left), gap)
    requires Mine(w, left).born <= Mine(w, !left).born + b.skew && Sufficient(b, gap) && !Mine(w, !left).timedOut
    requires Enabled(b, w, e) ==> e.at <= LastUrgent(Mine(w, left).born, Mine(w, left).sends) + gap
    ensures !Mine(Apply(b, w, e), !left).timedOut
  {
    if Enabled(b, w, e) && e.left != left {
      TimeoutStep(b, w, e);
      if e.Wake? {
        SomethingArrives(Mine(w, left), Mine(w, !left), w.clock, b, gap, e.at, e.arrived);
      }
    }
  }

  /** No false timeout: while both peers live and one of them keeps its urgent sends at most `gap` apart, the
      other never reports inactivity. */
  lemma {:induction false} NoFalseTimeout(b: Bounds, w: World, es: seq<Event>, left: bool, gap: nat)
    requires Initial(b, w) && Spaced(b, w, es, left, gap) && Sufficient(b, gap)
    ensures !Mine(After(b, w, es), !left).timedOut
  {
    if es != [] {
      var init := es[..|es| - 1];
      NoFalseTimeout(b, w, init, left, gap);
      InvHolds(b, w, init);
      SpacedHolds(b, w, init, left, gap);
      NoTimeoutStep(b, After(b, w, init), es[|es| - 1], left, gap);
    }
  }

  /** Without droppable data the heartbeats alone keep either peer from reporting inactivity. */
  lemma HeartbeatsPreventTimeout(b: Bounds, w: World, es: seq<Event>, left: bool)
    requires Initial(b, w) && NoDroppable(es) && Sufficient(b, HEARTBEAT_PERIOD + b.lateness)
    ensures !Mine(After(b, w, es), left).timedOut
  {
    HeartbeatsSpace(b, w, es, !left);
    NoFalseTimeout(b, w, es, !left, HEARTBEAT_PERIOD + b.lateness);
  }

  /** A timeout is only reported by a poll that finds nothing to read, a whole inactivity timeout after the
      last message was processed (or after construction, if there was none). */
  lemma {:induction false} TimeoutMeansSilence(b: Bounds, w: World, es: seq<Event>, e: Event)
    requires Initial(b, w)
    requires !Mine(After(b, w, es), e.left).timedOut && Mine(After(b, w, es + [e]), e.left).timedOut
    ensures e.Wake? && e.arrived == []
    ensures Mine(After(b, w, es), e.left).lastHeard + INACTIVITY_TIMEOUT <= e.at
  {
    InvHolds(b, w, es);
    assert (es + [e])[..|es|] == es;
    TimeoutStep(b, After(b, w, es), e);
  }

  // The bounds are exact

  /** The first `n` numbers without those in `got`. */
  function Unread(got: set<nat>, n: nat): seq<nat> {
    if n == 0 then [] else Unread(got, n - 1) + if n - 1 in got then [] else [n - 1]
  }

  lemma {:induction false} UnreadIsAll(got: set<nat>, n: nat)
    ensures var u := Unread(got, n);
            && (forall i: nat :: i < n && i !in got ==> i in u)
            && (forall j :: 0 <= j < |u| ==> u[j] < n && u[j] !in got)
            && (forall j, k :: 0 <= j < k < |u| ==> u[j] != u[k])
  {
    if n > 0 {
      UnreadIsAll(got, n - 1);
    }
  }

  /** The instant at which a peer constructed at 0 and polled on time sends its `k`th heartbeat. */
  function Tick(k: nat): nat {
    k * 20_000_000_000
  }

  /** When the right peer has to act next: it is polled as late as the bounds allow, and sends something
      urgent as late as `gap` allows. */
  function NextAct(b: Bounds, s: Side, gap: nat): nat {
    var due, quiet := s.timers.sendDeadline + b.lateness, LastUrgent(s.born, s.sends) + gap;
    if due <= quiet then due else quiet
  }

  /** What it does then. It sends droppable data where a poll would send a heartbeat too early, and urgent data
      where a poll would send none. */
  function NextEvent(b: Bounds, w: World, gap: nat): Event {
    var s, at := w.right, NextAct(b, w.right, gap);
    if Beats(s.timers, at) && at < LastUrgent(s.born, s.sends) + gap then SendData(false, at, MSG_DROP_PRIORITY, [])
    else if !Beats(s.timers, at) && at == LastUrgent(s.born, s.sends) + gap then SendData(false, at, 0, [])
    else Wake(false, at, Unread(s.got, |w.left.sends|))
  }

  /** The left peer has been polled on time `k` periods in a row and has heard nothing. */
  ghost predicate Waiting(w: World, k: nat) {
    && w.left.born == 0
    && w.left.timers == Timers(Tick(k), Tick(k + 1), INACTIVITY_TIMEOUT)
    && w.clock <= Tick(k + 1)
    && forall i :: 0 <= i < |w.left.sends| ==> w.left.sends[i].at <= w.clock
  }

  /** The right peer has sent nothing urgent before `skew + gap`, and nothing at all if that is too late. */
  ghost predicate Quiet(b: Bounds, s: Side, clock: nat, gap: nat) {
    && Valid(s.timers)
    && s.born <= s.timers.lastSend <= NextAct(b, s, gap) && clock <= NextAct(b, s, gap)
    && b.skew <= LastUrgent(s.born, s.sends) <= s.timers.lastSend
    && (forall i :: 0 <= i < |s.sends| && Urgent(s.sends[i]) ==>
          b.skew + gap <= s.sends[i].at && b.skew + gap < INACTIVITY_TIMEOUT)
  }

  ghost predicate OnlyHeartbeats(s: Side) {
    s.timers.sendDeadline == s.timers.lastSend + HEARTBEAT_PERIOD && LastUrgent(s.born, s.sends) == s.timers.lastSend
  }

  lemma LastUrgentOf(born: nat, sends: seq<Sending>, sent: Sending)
    ensures LastUrgent(born, sends + [sent]) == if Urgent(sent) then sent.at else LastUrgent(born, sends)
  {
    assert (sends + [sent])[..|sends|] == sends;
  }

  lemma SendKeepsQuiet(b: Bounds, s: Side, s': Side, clock: nat, sent: Sending, gap: nat)
    requires Quiet(b, s, clock, gap) && gap > 0 && sent.at == NextAct(b, s, gap) && NextAct(b, s, gap) < INACTIVITY_TIMEOUT
    requires s'.sends == s.sends + [sent] && s'.born == s.born && s'.timers.lastSend == sent.at
    requires s.timers.sendDeadline <= s'.timers.sendDeadline <= sent.at + HEARTBEAT_PERIOD
    requires Urgent(sent) ==> sent.at == LastUrgent(s.born, s.sends) + gap
    ensures Quiet(b, s', sent.at, gap)
    ensures LastUrgent(s'.born, s'.sends) == if Urgent(sent) then sent.at else LastUrgent(s.born, s.sends)
  {
    LastUrgentOf(s.born, s.sends, sent);
  }

  /** What is left of the period in which the left peer waits: sends and timers move towards its end. */
  function Left(s: Side, k: nat): int {
    3 * Tick(k + 2) - (LastUrgent(s.born, s.sends) + s.timers.lastSend + s.timers.sendDeadline)
  }

  lemma NextEventIsEnabled(b: Bounds, w: World, gap: nat, k: nat)
    requires Waiting(w, k) && Quiet(b, w.right, w.clock, gap) && NextAct(b, w.right, gap) < Tick(k + 1)
    ensures Enabled(b, w, NextEvent(b, w, gap))
  {
    UnreadIsAll(w.right.got, |w.left.sends|);
    var e := NextEvent(b, w, gap);
    if e.Wake? {
      assert Arrivals(w.right, w.left, e.at, e.arrived, b.delay);
    }
  }

  lemma NextEventKeeps(b: Bounds, w: World, gap: nat, k: nat)
    requires Waiting(w, k) && Quiet(b, w.right, w.clock, gap) && NextAct(b, w.right, gap) < Tick(k + 1)
    requires k < 6 && gap > 0
    ensures var e, w' := NextEvent(b, w, gap), Apply(b, w, NextEvent(b, w, gap));
            && e.at == NextAct(b, w.right, gap)
            && Waiting(w', k) && Quiet(b, w'.right, w'.clock, gap)
            && 0 <= Left(w'.right, k) < Left(w.right, k)
            && (gap == HEARTBEAT_PERIOD + b.lateness && OnlyHeartbeats(w.right) ==> e.Wake? && OnlyHeartbeats(w'.right))
  {
    NextEventIsEnabled(b, w, gap, k);
    var e, w' := NextEvent(b, w, gap), Apply(b, w, NextEvent(b, w, gap));
    if w'.right.sends != w.right.sends {
      ApplyAdds(b, w, e, false);
      SendKeepsQuiet(b, w.right, w'.right, w.clock, Added(w, e, false)[0], gap);
    }
  }

  lemma QuietWake(b: Bounds, w: World, gap: nat, k: nat)
    requires Waiting(w, k) && Quiet(b, w.right, w.clock, gap) && k < 6 && !Sufficient(b, gap)
    requires Tick(k + 1) <= NextAct(b, w.right, gap)
    ensures var w' := Apply(b, w, Wake(true, Tick(k + 1), []));
            && Waiting(w', k + 1) && w'.right == w.right && w'.clock == Tick(k + 1)
            && (k == 5 ==> w'.left.timedOut)
  {
    assert Arrivals(w.left, w.right, Tick(k + 1), [], b.delay);
    assert Beats(w.left.timers, Tick(k + 1)) && Tick(k + 2) == Tick(k + 1) + HEARTBEAT_PERIOD;
  }

  lemma AfterLast(b: Bounds, w: World, es: seq<Event>, e: Event, gap: nat)
    requires Spaced(b, w, es, false, gap)
    requires e.at <= LastUrgent(After(b, w, es).right.born, After(b, w, es).right.sends) + gap
    ensures After(b, w, es + [e]) == Apply(b, After(b, w, es), e) && Spaced(b, w, es + [e], false, gap)
  {
    assert (es + [e])[..|es|] == es;
  }

  ghost predicate OnlyPolls(es: seq<Event>) {
    forall k :: 0 <= k < |es| ==> es[k].Wake?
  }

  /** One step of the run that ends in the left peer's timeout. */
  lemma SilenceStep(b: Bounds, w: World, gap: nat, k: nat) returns (e: Event, k': nat)
    requires Waiting(w, k) && Quiet(b, w.right, w.clock, gap) && k < 6 && !Sufficient(b, gap)
    ensures e.at <= LastUrgent(w.right.born, w.right.sends) + gap
    ensures var w' := Apply(b, w, e);
            && Waiting(w', k') && Quiet(b, w'.right, w'.clock, gap)
            && (k' == 6 ==> w'.left.timedOut)
            && (k' == k + 1 || (k' == k && 0 <= Left(w'.right, k) < Left(w.right, k)))
            && (gap == HEARTBEAT_PERIOD + b.lateness && OnlyHeartbeats(w.right) ==> e.Wake? && OnlyHeartbeats(w'.right))
  {
    if NextAct(b, w.right, gap) < Tick(k + 1) {
      NextEventKeeps(b, w, gap, k);
      e, k' := NextEvent(b, w, gap), k;
    } else {
      QuietWake(b, w, gap, k);
      e, k' := Wake(true, Tick(k + 1), []), k + 1;
    }
  }

  lemma {:induction false} SilenceGoesOn(b: Bounds, w: World, es: seq<Event>, v: World, gap: nat, k: nat) returns (all: seq<Event>)
    requires Spaced(b, w, es, false, gap) && v == After(b, w, es) && k <= 6 && !Sufficient(b, gap)
    requires Waiting(v, k) && Quiet(b, v.right, v.clock, gap) && (k == 6 ==> v.left.timedOut)
    ensures Spaced(b, w, all, false, gap) && After(b, w, all).left.timedOut
    ensures Quiet(b, After(b, w, all).right, After(b, w, all).clock, gap)
    ensures gap == HEARTBEAT_PERIOD + b.lateness && OnlyHeartbeats(v.right) && OnlyPolls(es) ==> OnlyPolls(all)
    decreases 6 - k, Left(v.right, k)
  {
    all := es;
    if k < 6 {
      var e, k' := SilenceStep(b, v, gap, k);
      var v' := Apply(b, v, e);
      AfterLast(b, w, es, e, gap);
      assert v' == After(b, w, es + [e]);
      assert e.Wake? && OnlyPolls(es) ==> OnlyPolls(es + [e]);
      all := SilenceGoesOn(b, w, es + [e], v', gap, k');
    }
  }

  /** Outside those bounds some run with urgent sends at most `gap` apart reports inactivity although both
      peers live: the bounds are exactly the condition for `NoFalseTimeout`. */
  lemma GapIsExact(b: Bounds, gap: nat) returns (w: World, es: seq<Event>)
    requires !Sufficient(b, gap)
    ensures Initial(b, w) && Spaced(b, w, es, false, gap) && After(b, w, es).left.timedOut
    ensures forall i :: 0 <= i < |After(b, w, es).right.sends| && Urgent(After(b, w, es).right.sends[i]) ==>
      b.skew + gap < INACTIVITY_TIMEOUT
    ensures gap == HEARTBEAT_PERIOD + b.lateness ==> OnlyPolls(es)
  {
    w := World(0, Born(0), Born(b.skew));
    es := SilenceGoesOn(b, w, [], w, gap, 0);
  }

  /** The bounds decide whether a live peer can be taken for dead. */
  lemma BoundsDecide(b: Bounds, gap: nat)
    ensures Sufficient(b, gap) <==>
      forall w, es :: Initial(b, w) && Spaced(b, w, es, false, gap) ==> !After(b, w, es).left.timedOut
  {
    if Sufficient(b, gap) {
      forall w, es | Initial(b, w) && Spaced(b, w, es, false, gap)
        ensures !After(b, w, es).left.timedOut
      {
        NoFalseTimeout(b, w, es, false, gap);
      }
    } else {
      var w, es := GapIsExact(b, gap);
    }
  }

  /** Without droppable data the bounds are exact too: outside them heartbeats alone come too late. */
  lemma BoundsAreExact(b: Bounds) returns (w: World, es: seq<Event>)
    requires !Sufficient(b, HEARTBEAT_PERIOD + b.lateness)
    ensures Initial(b, w) && OnlyPolls(es) && After(b, w, es).left.timedOut
  {
    w, es := GapIsExact(b, HEARTBEAT_PERIOD + b.lateness);
  }

  /** Droppable data holds the heartbeats up without taking their place: whatever the bounds, some run in which
      one peer sends nothing but droppable data, none of which arrives, ends in the other's timeout. */
  lemma DroppableDataIsNoHeartbeat(b: Bounds) returns (w: World, es: seq<Event>)
    ensures Initial(b, w) && After(b, w, es).left.timedOut
    ensures forall i :: 0 <= i < |After(b, w, es).right.sends| ==> !Urgent(After(b, w, es).right.sends[i])
  {
    w, es := GapIsExact(b, INACTIVITY_TIMEOUT);
  }
}
