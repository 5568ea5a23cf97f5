/** The write side of a socket as a value: what one poll of its task reads, drops and transmits.
    Time is counted in nanoseconds; a priority is a byte, and lower numbers are more urgent. */
module SocketQueue {
  import opened Seqs

  type Priority = p: nat | p < 256

  /** Messages below this priority are never dropped. */
  const MSG_DROP_PRIORITY: nat := 2
  const MAX_MSG_AGE_SECS: nat := 60
  const NANOS_PER_SEC: nat := 1_000_000_000

  /** `serial` numbers the messages in the order they were handed to the socket. The program does not
      carry it; the histories below use it to tell two equal messages apart. */
  datatype Msg<+T> = Msg(serial: nat, priority: Priority, body: T)

  datatype Entry<+T> = Entry(at: nat, msg: Msg<T>)

  /** A priority can be present with an empty queue: flushing a queue leaves its key behind. */
  type Queues<+T> = map<Priority, seq<Entry<T>>>

  datatype TaskMsg<+T> = Send(msg: Msg<T>) | Shutdown

  datatype Fate = Sent | Expired | Lost

  datatype Fated<+T> = Fated(msg: Msg<T>, fate: Fate)

  datatype Flush = Flushed | Waiting | Broken

  /** What the sink answers during one poll: it takes `accepts` messages, then either has no room for
      another or breaks on it; `flush` answers the final flush and `closes` the closing of the stream. */
  datatype SinkAnswers = SinkAnswers(accepts: nat, breaks: bool, flush: Flush, closes: bool)

  datatype Status = Running | Finished | Failed

  /** `shutdown` and `sink` say whether the task holds the two halves of the stream; `log` is the
      history of every message that left the queues, in order. */
  datatype Task<+T> = Task(
    queue: Queues<T>,
    inbox: seq<TaskMsg<T>>,
    shutdown: bool,
    sink: bool,
    status: Status,
    log: seq<Fated<T>>)

  function At<T>(q: Queues<T>, p: nat): seq<Entry<T>> {
    if p < 256 && p in q then q[p] else []
  }

  function Msgs<T>(es: seq<Entry<T>>): seq<Msg<T>> {
    seq(|es|, i requires 0 <= i < |es| => es[i].msg)
  }

  function WithFate<T>(ms: seq<Msg<T>>, fate: Fate): seq<Fated<T>> {
    seq(|ms|, i requires 0 <= i < |ms| => Fated(ms[i], fate))
  }

  // Reading the channel

  function Push<T>(q: Queues<T>, e: Entry<T>): Queues<T> {
    q[e.msg.priority := At(q, e.msg.priority) + [e]]
  }

  datatype IntakeResult<+T> = IntakeResult(queue: Queues<T>, inbox: seq<TaskMsg<T>>, shutdown: bool)

  function Intake<T>(inbox: seq<TaskMsg<T>>, q: Queues<T>, now: nat): IntakeResult<T> {
    if inbox == [] then IntakeResult(q, [], false)
    else match inbox[0]
      case Send(m) => Intake(inbox[1..], Push(q, Entry(now, m)), now)
      case Shutdown => IntakeResult(q, inbox[1..], true)
  }

  // Dropping stale queues

  /** Older than MAX_MSG_AGE_SECS whole seconds. */
  predicate Stale<T>(e: Entry<T>, t: nat) {
    t > e.at && (t - e.at) / NANOS_PER_SEC > MAX_MSG_AGE_SECS
  }

  predicate FrontStale<T>(q: Queues<T>, p: nat, t: nat) {
    At(q, p) != [] && Stale(At(q, p)[0], t)
  }

  /** The least priority from `p` on whose front is stale, or 256 when there is none. */
  function CutFrom<T>(q: Queues<T>, t: nat, p: nat): (cut: nat)
    requires p <= 256
    ensures p <= cut <= 256
    ensures cut < 256 ==> FrontStale(q, cut, t)
    ensures forall k :: p <= k < cut ==> !FrontStale(q, k, t)
    decreases 256 - p
  {
    if p == 256 || FrontStale(q, p, t) then p else CutFrom(q, t, p + 1)
  }

  function Cut<T>(q: Queues<T>, t: nat): nat {
    CutFrom(q, t, MSG_DROP_PRIORITY)
  }

  /** The priorities present from `low` to below `high`. */
  function Between<T>(q: Queues<T>, low: nat, high: nat): set<Priority> {
    set p | p in q && low <= p < high
  }

  function Below<T>(q: Queues<T>, cut: nat): Queues<T> {
    q - Between(q, cut, 256)
  }

  /** All queues from priority `p` on, most urgent first. */
  function Flatten<T>(q: Queues<T>, p: nat): seq<Entry<T>>
    requires p <= 256
    decreases 256 - p
  {
    if p == 256 then [] else At(q, p) + Flatten(q, p + 1)
  }

  // Feeding the sink

  datatype DrainResult<+T> = DrainResult(queue: Queues<T>, sent: seq<Msg<T>>, lost: seq<Msg<T>>, all: bool)

  /** The queues without the first message of priority `p`. */
  function Pop<T>(q: Queues<T>, p: Priority): (popped: Queues<T>)
    requires At(q, p) != []
    ensures forall k: nat {:trigger At(popped, k)} :: At(popped, k) == if k == p then At(q, p)[1..] else At(q, k)
  {
    q[p := q[p][1..]]
  }

  lemma PushFrontUndoesPop<T>(q: Queues<T>, p: Priority)
    requires At(q, p) != []
    ensures Pop(q, p)[p := [At(q, p)[0]] + At(Pop(q, p), p)] == q
  {
    assert [q[p][0]] + q[p][1..] == q[p];
  }

  /** One message at a time from the most urgent queue that has one. A refused message goes back to the
      front of its queue; a message the sink breaks on is gone. */
  function Drain<T>(q: Queues<T>, p: nat, accepts: nat, breaks: bool): DrainResult<T>
    requires p <= 256
    decreases 256 - p, |At(q, p)|
  {
    if p == 256 then DrainResult(q, [], [], true)
    else if At(q, p) == [] then Drain(q, p + 1, accepts, breaks)
    else
      var head := At(q, p)[0].msg;
      if accepts > 0 then
        var r := Drain(Pop(q, p), p, accepts - 1, breaks);
        r.(sent := [head] + r.sent)
      else if breaks then DrainResult(Pop(q, p), [], [head], false)
      else DrainResult(q, [], [], false)
  }

  lemma WithFateConcat<T>(a: seq<Msg<T>>, b: seq<Msg<T>>, fate: Fate)
    ensures WithFate(a + b, fate) == WithFate(a, fate) + WithFate(b, fate)
  {
  }

  // One poll, stage by stage

  /** The queues once the channel has been read at `now`. */
  function Read<T>(t: Task<T>, now: nat): Queues<T> {
    Intake(t.inbox, t.queue, now).queue
  }

  /** The queues left after the drop at `checked`. */
  function Kept<T>(t: Task<T>, now: nat, checked: nat): Queues<T> {
    Below(Read(t, now), Cut(Read(t, now), checked))
  }

  function Dropped<T>(t: Task<T>, now: nat, checked: nat): seq<Msg<T>> {
    Msgs(Flatten(Read(t, now), Cut(Read(t, now), checked)))
  }

  function Fed<T>(t: Task<T>, now: nat, checked: nat, answers: SinkAnswers): DrainResult<T> {
    Drain(Kept(t, now, checked), 0, answers.accepts, answers.breaks)
  }

  function Log<T>(dropped: seq<Msg<T>>, sent: seq<Msg<T>>, lost: seq<Msg<T>>): seq<Fated<T>> {
    WithFate(dropped, Expired) + WithFate(sent, Sent) + WithFate(lost, Lost)
  }

  /** The end of a poll: flush, and finish once shut down with nothing left. */
  function Settle<T>(t: Task<T>, all: bool, broken: bool, answers: SinkAnswers): Task<T> {
    if broken || answers.flush.Broken? then t.(status := Failed)
    else if answers.flush.Flushed? && all && t.shutdown then
      t.(shutdown := false, sink := false, status := if answers.closes then Finished else Failed)
    else t
  }

  function Poll<T>(t: Task<T>, now: nat, checked: nat, answers: SinkAnswers): Task<T> {
    var i := Intake(t.inbox, t.queue, now);
    var d := Fed(t, now, checked, answers);
    var next := t.(queue := d.queue, inbox := i.inbox, shutdown := t.shutdown || i.shutdown,
                   log := t.log + Log(Dropped(t, now, checked), d.sent, d.lost));
    Settle(next, d.all, d.lost != [], answers)
  }

  // What the parts of a poll do to the queues

  /** Every queued message sits under its own priority. */
  ghost predicate Keyed<T>(q: Queues<T>) {
    forall p: nat, k: nat :: k < |At(q, p)| ==> At(q, p)[k].msg.priority == p
  }

  ghost predicate Timed<T>(q: Queues<T>, clock: nat) {
    && (forall p: nat, k: nat :: k < |At(q, p)| ==> At(q, p)[k].at <= clock)
    && (forall p: nat, j: nat, k: nat :: j <= k < |At(q, p)| ==> At(q, p)[j].at <= At(q, p)[k].at)
  }

  function Sends<T>(inbox: seq<TaskMsg<T>>): seq<Msg<T>> {
    if inbox == [] then []
    else SendOf(inbox[0]) + Sends(inbox[1..])
  }

  function SendOf<T>(m: TaskMsg<T>): seq<Msg<T>> {
    match m case Send(msg) => [msg] case Shutdown => []
  }

  function OfPriority<T>(ms: seq<Msg<T>>, p: nat): seq<Msg<T>> {
    if ms == [] then []
    else (if ms[0].priority == p then [ms[0]] else []) + OfPriority(ms[1..], p)
  }

  lemma {:induction false} OfPriorityConcat<T>(a: seq<Msg<T>>, b: seq<Msg<T>>, p: nat)
    ensures OfPriority(a + b, p) == OfPriority(a, p) + OfPriority(b, p)
  {
    if a == [] {
      assert a + b == b;
      assert [] + OfPriority(b, p) == OfPriority(b, p);
    } else {
      OfPriorityConcat(a[1..], b, p);
      assert (a + b)[1..] == a[1..] + b;
      var first := if a[0].priority == p then [a[0]] else [];
      assert first + (OfPriority(a[1..], p) + OfPriority(b, p)) == (first + OfPriority(a[1..], p)) + OfPriority(b, p);
    }
  }

  lemma {:induction false} OfPriorityAll<T>(ms: seq<Msg<T>>, k: nat, p: nat)
    requires forall i :: 0 <= i < |ms| ==> ms[i].priority == k
    ensures OfPriority(ms, p) == if k == p then ms else []
  {
    if ms != [] {
      OfPriorityAll(ms[1..], k, p);
    }
  }

  lemma {:induction false} OfPriorityMember<T>(ms: seq<Msg<T>>, i: nat)
    requires i < |ms|
    ensures ms[i] in OfPriority(ms, ms[i].priority)
  {
    if i > 0 {
      OfPriorityMember(ms[1..], i - 1);
    }
  }

  lemma {:induction false} OfPriorityFrom<T>(ms: seq<Msg<T>>, p: nat)
    ensures forall m :: m in OfPriority(ms, p) ==> m in ms && m.priority == p
  {
    if ms != [] {
      OfPriorityFrom(ms[1..], p);
    }
  }

  lemma {:induction false} SendsConcat<T>(a: seq<TaskMsg<T>>, b: seq<TaskMsg<T>>)
    ensures Sends(a + b) == Sends(a) + Sends(b)
  {
    if a == [] {
      assert a + b == b;
      assert Sends(a) + Sends(b) == Sends(b);
    } else {
      SendsConcat(a[1..], b);
      assert (a + b)[1..] == a[1..] + b;
      ConcatAssociates(SendOf(a[0]), Sends(a[1..]), Sends(b));
    }
  }

  lemma MsgsConcat<T>(a: seq<Entry<T>>, b: seq<Entry<T>>)
    ensures Msgs(a + b) == Msgs(a) + Msgs(b)
  {
  }

  lemma PushAt<T>(q: Queues<T>, e: Entry<T>, p: nat)
    ensures At(Push(q, e), p) == At(q, p) + if p == e.msg.priority then [e] else []
  {
  }

  lemma PushMsgs<T>(q: Queues<T>, e: Entry<T>, p: nat)
    ensures Msgs(At(Push(q, e), p)) == Msgs(At(q, p)) + OfPriority([e.msg], p)
  {
    PushAt(q, e, p);
    OfPriorityAll([e.msg], e.msg.priority, p);
    MsgsConcat(At(q, p), [e]);
  }

  lemma MsgsPrepend<T>(e: Entry<T>, es: seq<Entry<T>>)
    ensures Msgs([e] + es) == [e.msg] + Msgs(es)
  {
  }

  /** Reading the channel appends to each queue, in order, what the channel held for it. */
  lemma {:induction false} IntakeConserves<T>(inbox: seq<TaskMsg<T>>, q: Queues<T>, now: nat, p: Priority)
    ensures var r := Intake(inbox, q, now);
            Msgs(At(r.queue, p)) + OfPriority(Sends(r.inbox), p) == Msgs(At(q, p)) + OfPriority(Sends(inbox), p)
  {
    if inbox == [] {
    } else if inbox[0].Shutdown? {
      assert Sends(inbox) == Sends(inbox[1..]);
    } else {
      var m, rest := inbox[0].msg, OfPriority(Sends(inbox[1..]), p);
      IntakeConserves(inbox[1..], Push(q, Entry(now, m)), now, p);
      PushMsgs(q, Entry(now, m), p);
      OfPriorityConcat([m], Sends(inbox[1..]), p);
      OfPriorityAll([m], m.priority, p);
      ConcatAssociates(Msgs(At(q, p)), OfPriority([m], p), rest);
    }
  }

  lemma PushKeepsShape<T>(q: Queues<T>, e: Entry<T>, clock: nat)
    requires Keyed(q) && Timed(q, clock) && clock <= e.at
    ensures Keyed(Push(q, e)) && Timed(Push(q, e), e.at)
  {
    var q', own := Push(q, e), e.msg.priority;
    PushAt(q, e, own);
    assert forall p: nat {:trigger At(q', p)} :: p != own ==> At(q', p) == At(q, p);
    forall p: nat, j: nat, k: nat | j <= k < |At(q', p)|
      ensures At(q', p)[k].msg.priority == p && At(q', p)[j].at <= At(q', p)[k].at <= e.at
    {
      assert p != own || k < |At(q, own)| ==> At(q', p)[k] == At(q, p)[k] && At(q', p)[j] == At(q, p)[j];
    }
  }

  lemma {:induction false} IntakeKeepsShape<T>(inbox: seq<TaskMsg<T>>, q: Queues<T>, clock: nat, now: nat)
    requires Keyed(q) && Timed(q, clock) && clock <= now
    ensures Keyed(Intake(inbox, q, now).queue) && Timed(Intake(inbox, q, now).queue, now)
  {
    if inbox != [] && inbox[0].Send? {
      var e := Entry(now, inbox[0].msg);
      PushKeepsShape(q, e, clock);
      IntakeKeepsShape(inbox[1..], Push(q, e), now, now);
    }
  }

  lemma FirstQueueOf<T>(first: seq<Entry<T>>, rest: seq<Entry<T>>, c: nat, p: nat)
    requires forall k :: 0 <= k < |first| ==> first[k].msg.priority == c
    ensures OfPriority(Msgs(first + rest), p) == (if c == p then Msgs(first) else []) + OfPriority(Msgs(rest), p)
  {
    MsgsConcat(first, rest);
    OfPriorityConcat(Msgs(first), Msgs(rest), p);
    OfPriorityAll(Msgs(first), c, p);
  }

  lemma OwnQueueFirst<T>(first: seq<Entry<T>>, rest: seq<Entry<T>>, p: nat)
    requires forall k :: 0 <= k < |first| ==> first[k].msg.priority == p
    requires OfPriority(Msgs(rest), p) == []
    ensures OfPriority(Msgs(first + rest), p) == Msgs(first)
  {
    FirstQueueOf(first, rest, p, p);
    ConcatEmpty(Msgs(first));
  }

  lemma OtherQueueFirst<T>(first: seq<Entry<T>>, rest: seq<Entry<T>>, c: nat, p: nat)
    requires c != p && forall k :: 0 <= k < |first| ==> first[k].msg.priority == c
    ensures OfPriority(Msgs(first + rest), p) == OfPriority(Msgs(rest), p)
  {
    FirstQueueOf(first, rest, c, p);
    ConcatEmpty(OfPriority(Msgs(rest), p));
  }

  /** The queue of one priority, seen in the concatenation of all queues. */
  lemma {:induction false} FlattenOf<T>(q: Queues<T>, c: nat, p: Priority)
    requires Keyed(q) && c <= 256
    ensures OfPriority(Msgs(Flatten(q, c)), p) == if p >= c then Msgs(At(q, p)) else []
    decreases 256 - c
  {
    if c < 256 {
      FlattenOf(q, c + 1, p);
      if c == p {
        OwnQueueFirst(At(q, c), Flatten(q, c + 1), p);
      } else {
        OtherQueueFirst(At(q, c), Flatten(q, c + 1), c, p);
      }
    }
  }

  lemma {:induction false} FlattenFrom<T>(q: Queues<T>, c: nat, i: nat) returns (p: nat, k: nat)
    requires c <= 256 && i < |Flatten(q, c)|
    ensures c <= p < 256 && k < |At(q, p)| && At(q, p)[k] == Flatten(q, c)[i]
    decreases 256 - c
  {
    var n := |At(q, c)|;
    if i < n {
      p, k := c, i;
    } else {
      p, k := FlattenFrom(q, c + 1, i - n);
    }
  }

  lemma {:induction false} FlattenHas<T>(q: Queues<T>, c: nat, p: nat, k: nat) returns (i: nat)
    requires c <= p < 256 && k < |At(q, p)|
    ensures i < |Flatten(q, c)| && Flatten(q, c)[i] == At(q, p)[k]
    decreases 256 - c
  {
    if c == p {
      i := k;
    } else {
      i := FlattenHas(q, c + 1, p, k);
      i := |At(q, c)| + i;
    }
  }

  /** An upper part of the queues only depends on those queues. */
  lemma {:induction false} FlattenSame<T>(q: Queues<T>, q': Queues<T>, c: nat)
    requires c <= 256
    requires forall p: nat :: c <= p < 256 ==> At(q, p) == At(q', p)
    ensures Flatten(q, c) == Flatten(q', c)
    decreases 256 - c
  {
    if c < 256 {
      FlattenSame(q, q', c + 1);
    }
  }

  ghost predicate Suffix<A>(s: seq<A>, t: seq<A>) {
    |s| <= |t| && forall i :: 0 <= i < |s| ==> s[i] == t[|t| - |s| + i]
  }

  lemma HeadAndTail<A>(s: seq<A>, rest: seq<A>)
    requires s != []
    ensures s + rest == [s[0]] + (s[1..] + rest)
  {
  }

  lemma FlattenPop<T>(q: Queues<T>, p: Priority)
    requires At(q, p) != []
    ensures Flatten(q, p) == [At(q, p)[0]] + Flatten(Pop(q, p), p)
  {
    var popped := Pop(q, p);
    FlattenSame(q, popped, p + 1);
    HeadAndTail(At(q, p), Flatten(q, p + 1));
    assert Flatten(popped, p) == At(popped, p) + Flatten(popped, p + 1);
  }

  lemma SuffixOfSuffix<A>(s: seq<A>, t: seq<A>, u: seq<A>)
    requires Suffix(s, t) && Suffix(t, u)
    ensures Suffix(s, u)
  {
  }

  lemma PopKeepsSuffixes<T>(q: Queues<T>, p: Priority, k: nat)
    requires At(q, p) != []
    ensures Suffix(At(Pop(q, p), k), At(q, k)) && |At(Pop(q, p), p)| < |At(q, p)|
    ensures k != p ==> At(Pop(q, p), k) == At(q, k)
  {
    assert At(Pop(q, p), p) == At(q, p)[1..];
  }

  lemma {:induction false} DrainKeepsSuffixes<T>(q: Queues<T>, p: nat, accepts: nat, breaks: bool, k: nat)
    requires p <= 256
    ensures Suffix(At(Drain(q, p, accepts, breaks).queue, k), At(q, k))
    ensures k < p ==> At(Drain(q, p, accepts, breaks).queue, k) == At(q, k)
    decreases 256 - p, |At(q, p)|
  {
    if p < 256 {
      if At(q, p) == [] {
        DrainKeepsSuffixes(q, p + 1, accepts, breaks, k);
      } else {
        PopKeepsSuffixes(q, p, k);
        if accepts > 0 {
          DrainKeepsSuffixes(Pop(q, p), p, accepts - 1, breaks, k);
          SuffixOfSuffix(At(Drain(q, p, accepts, breaks).queue, k), At(Pop(q, p), k), At(q, k));
        }
      }
    }
  }

  lemma FlattenSkip<T>(q: Queues<T>, p: Priority)
    requires At(q, p) == []
    ensures Flatten(q, p) == Flatten(q, p + 1)
  {
  }

  lemma DrainSkip<T>(q: Queues<T>, p: Priority, accepts: nat, breaks: bool)
    requires At(q, p) == []
    ensures Drain(q, p, accepts, breaks) == Drain(q, p + 1, accepts, breaks)
    ensures Flatten(q, p) == Flatten(q, p + 1)
    ensures Flatten(Drain(q, p, accepts, breaks).queue, p) == Flatten(Drain(q, p, accepts, breaks).queue, p + 1)
  {
    DrainKeepsSuffixes(q, p + 1, accepts, breaks, p);
    FlattenSkip(Drain(q, p + 1, accepts, breaks).queue, p);
  }

  /** Feeding the sink transmits a prefix of the queues in priority order and leaves the rest. */
  lemma {:induction false} DrainIsPrefix<T>(q: Queues<T>, p: nat, accepts: nat, breaks: bool)
    requires p <= 256
    ensures var r := Drain(q, p, accepts, breaks);
            Msgs(Flatten(q, p)) == r.sent + (r.lost + Msgs(Flatten(r.queue, p)))
    decreases 256 - p, |At(q, p)|
  {
    if p == 256 {
    } else if At(q, p) == [] {
      DrainIsPrefix(q, p + 1, accepts, breaks);
      DrainSkip(q, p, accepts, breaks);
    } else {
      var head, popped := At(q, p)[0], Pop(q, p);
      FlattenPop(q, p);
      MsgsPrepend(head, Flatten(popped, p));
      if accepts > 0 {
        DrainIsPrefix(popped, p, accepts - 1, breaks);
        var r := Drain(popped, p, accepts - 1, breaks);
        ConcatAssociates([head.msg], r.sent, r.lost + Msgs(Flatten(r.queue, p)));
      }
    }
  }

  /** The prefix is as long as the sink allows, and exactly one more message is lost when it breaks. */
  lemma {:induction false} DrainLength<T>(q: Queues<T>, p: nat, accepts: nat, breaks: bool)
    requires p <= 256
    ensures var r, n := Drain(q, p, accepts, breaks), |Flatten(q, p)|;
            && |r.sent| == (if accepts <= n then accepts else n)
            && |r.lost| == (if breaks && accepts < n then 1 else 0)
            && (r.all <==> n <= accepts)
    decreases 256 - p, |At(q, p)|
  {
    if p == 256 {
    } else if At(q, p) == [] {
      DrainLength(q, p + 1, accepts, breaks);
    } else {
      FlattenPop(q, p);
      if accepts > 0 {
        DrainLength(Pop(q, p), p, accepts - 1, breaks);
      }
    }
  }

  /** After the drop, which looks at fronts only, no droppable message anywhere is stale. */
  lemma CutLeavesNothingStale<T>(q: Queues<T>, clock: nat, t: nat, p: nat, k: nat)
    requires Timed(q, clock) && clock <= t
    requires MSG_DROP_PRIORITY <= p && k < |At(Below(q, Cut(q, t)), p)|
    ensures !Stale(At(Below(q, Cut(q, t)), p)[k], t)
  {
    assert !FrontStale(q, p, t);
    var front, e := At(q, p)[0], At(q, p)[k];
    assert t - e.at <= t - front.at;
    assert (t - e.at) / NANOS_PER_SEC <= (t - front.at) / NANOS_PER_SEC;
  }

  /** In whole seconds: stale from the sixty-first on, and not at sixty. */
  lemma StaleIff<T>(e: Entry<T>, t: nat)
    ensures Stale(e, t) <==> t >= e.at + 61_000_000_000
  {
  }

  /** What the drop does to a queue by itself: priorities 0 and 1 always stay, any other goes when its oldest
      message has waited for 61 seconds. */
  lemma LoneQueueIsDroppedIff<T>(q: Queues<T>, p: Priority, t: nat)
    requires q.Keys == {p} && q[p] != []
    ensures Below(q, Cut(q, t)) == if p >= 2 && t >= q[p][0].at + 61_000_000_000 then map[] else q
  {
    StaleIff(q[p][0], t);
    var cut := Cut(q, t);
    assert forall k: nat :: FrontStale(q, k, t) ==> k == p;
    if p >= 2 && Stale(q[p][0], t) {
      assert FrontStale(q, p, t) && cut == p;
      assert Between(q, cut, 256) == {p};
    } else {
      assert cut == 256;
      assert Between(q, cut, 256) == {};
    }
  }

  /** The dropped queues are exactly those at or above the least droppable priority with a stale front. */
  lemma CutIsLeastStale<T>(q: Queues<T>, t: nat, p: Priority)
    ensures At(Below(q, Cut(q, t)), p) == At(q, p) || At(Below(q, Cut(q, t)), p) == []
    ensures p in q ==>
      (p !in Below(q, Cut(q, t)) <==> exists k :: MSG_DROP_PRIORITY <= k <= p && FrontStale(q, k, t))
  {
    if p in q && p !in Below(q, Cut(q, t)) {
      assert MSG_DROP_PRIORITY <= Cut(q, t) <= p && FrontStale(q, Cut(q, t), t);
    }
  }
}
