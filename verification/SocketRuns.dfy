/** Whole runs of one socket: any interleaving of sends, polls of the task and the drop of the socket,
    with any clock readings and any answers of the sink. */
module SocketRuns {
  import opened Seqs
  import opened SocketQueue

  /** `submitted` is every message handed to the socket; `dropped` is set once the socket is gone. A task
      that finished or failed never reads its channel again, so what is sent to it stays in `inbox`. */
  datatype World<+T> = World(task: Task<T>, submitted: seq<Msg<T>>, dropped: bool, clock: nat)

  datatype Event<+T> =
    | Submit(priority: Priority, body: T)
    | DropSocket
    | PollTask(now: nat, checked: nat, answers: SinkAnswers)

  predicate Enabled<T>(w: World<T>, e: Event<T>) {
    match e
    case Submit(_, _) => !w.dropped
    case DropSocket => !w.dropped
    case PollTask(now, checked, _) => w.task.status.Running? && w.clock <= now <= checked
  }

  /** An event that cannot happen leaves the world as it is. */
  function Apply<T>(w: World<T>, e: Event<T>): World<T> {
    if !Enabled(w, e) then w
    else match e
      case Submit(priority, body) =>
        var m := Msg(|w.submitted|, priority, body);
        w.(task := w.task.(inbox := w.task.inbox + [Send(m)]), submitted := w.submitted + [m])
      case DropSocket => w.(task := w.task.(inbox := w.task.inbox + [Shutdown]), dropped := true)
      case PollTask(now, checked, answers) =>
        w.(task := Poll(w.task, now, checked, answers), clock := checked)
  }

  function After<T>(es: seq<Event<T>>): World<T> {
    if es == [] then World(Task(map[], [], false, true, Running, []), [], false, 0)
    else Apply(After(es[..|es| - 1]), es[|es| - 1])
  }

  // Histories

  function Messages<T>(log: seq<Fated<T>>): seq<Msg<T>> {
    seq(|log|, i requires 0 <= i < |log| => log[i].msg)
  }

  /** The messages handed to the sink, whether it took them or broke. */
  function Handed<T>(log: seq<Fated<T>>): seq<Msg<T>> {
    if log == [] then []
    else Handed(log[..|log| - 1]) + if log[|log| - 1].fate.Expired? then [] else [log[|log| - 1].msg]
  }

  /** The messages transmitted. */
  function Wire<T>(log: seq<Fated<T>>): seq<Msg<T>> {
    if log == [] then []
    else Wire(log[..|log| - 1]) + if log[|log| - 1].fate.Sent? then [log[|log| - 1].msg] else []
  }

  /** What waits at one priority, oldest first: its queue and then its share of the channel. */
  function Pending<T>(t: Task<T>, p: nat): seq<Msg<T>> {
    Msgs(At(t.queue, p)) + OfPriority(Sends(t.inbox), p)
  }

  /** `a` may precede `b` on the wire: it was submitted earlier, or it is strictly more urgent. */
  ghost predicate Before<T>(a: Msg<T>, b: Msg<T>) {
    a.serial < b.serial || (b.serial < a.serial && a.priority < b.priority)
  }

  // The invariant

  ghost predicate ShutdownLast<T>(inbox: seq<TaskMsg<T>>) {
    forall k :: 0 <= k < |inbox| - 1 ==> inbox[k].Send?
  }

  ghost predicate Shape<T>(w: World<T>) {
    && ShutdownLast(w.task.inbox)
    && (w.task.inbox != [] && w.task.inbox[|w.task.inbox| - 1].Shutdown? ==> w.dropped && !w.task.shutdown)
    && (w.task.shutdown ==> w.task.inbox == [])
    && (w.task.status.Running? ==>
          (w.dropped <==> w.task.shutdown || (w.task.inbox != [] && w.task.inbox[|w.task.inbox| - 1].Shutdown?)))
    && (w.task.shutdown || w.task.status.Finished? ==> w.dropped)
  }

  ghost predicate Numbered<T>(ms: seq<Msg<T>>) {
    forall i :: 0 <= i < |ms| ==> ms[i].serial == i
  }

  ghost predicate Conserved<T>(w: World<T>, p: Priority) {
    OfPriority(Messages(w.task.log), p) + Pending(w.task, p) == OfPriority(w.submitted, p)
  }

  ghost predicate Ordered<T>(w: World<T>) {
    var handed := Handed(w.task.log);
    && (forall i, j :: 0 <= i < j < |handed| ==> Before(handed[i], handed[j]))
    && (forall i, p: nat, k :: 0 <= i < |handed| && p < 256 && 0 <= k < |Pending(w.task, p)| ==>
          Before(handed[i], Pending(w.task, p)[k]))
  }

  ghost predicate Fates<T>(w: World<T>) {
    && (forall i :: 0 <= i < |w.task.log| && w.task.log[i].fate.Expired? ==>
          w.task.log[i].msg.priority >= MSG_DROP_PRIORITY)
    && (forall i :: 0 <= i < |w.task.log| && w.task.log[i].fate.Lost? ==>
          i == |w.task.log| - 1 && w.task.status.Failed?)
    && (w.task.status.Finished? ==> forall p: Priority :: Pending(w.task, p) == [])
  }

  ghost predicate Inv<T>(w: World<T>) {
    && Shape(w)
    && Keyed(w.task.queue)
    && Timed(w.task.queue, w.clock)
    && Numbered(w.submitted)
    && (forall p: Priority :: Conserved(w, p))
    && Ordered(w)
    && Fates(w)
  }

  // Facts about histories

  lemma MessagesConcat<T>(a: seq<Fated<T>>, b: seq<Fated<T>>)
    ensures Messages(a + b) == Messages(a) + Messages(b)
  {
  }

  lemma MessagesWithFate<T>(ms: seq<Msg<T>>, fate: Fate)
    ensures Messages(WithFate(ms, fate)) == ms
  {
  }

  lemma {:induction false} HandedConcat<T>(a: seq<Fated<T>>, ms: seq<Msg<T>>, fate: Fate)
    ensures Handed(a + WithFate(ms, fate)) == Handed(a) + if fate.Expired? then [] else ms
    ensures Wire(a + WithFate(ms, fate)) == Wire(a) + if fate.Sent? then ms else []
  {
    var log := a + WithFate(ms, fate);
    if ms == [] {
      assert log == a;
    } else {
      var init := ms[..|ms| - 1];
      assert log[..|log| - 1] == a + WithFate(init, fate);
      HandedConcat(a, init, fate);
      assert ms == init + [ms[|ms| - 1]];
    }
  }

  lemma {:induction false} HandedHas<T>(log: seq<Fated<T>>, i: nat)
    requires i < |log| && !log[i].fate.Expired?
    ensures log[i].msg in Handed(log)
  {
    if i < |log| - 1 {
      HandedHas(log[..|log| - 1], i);
    }
  }

  lemma {:induction false} HandedFrom<T>(log: seq<Fated<T>>, m: Msg<T>)
    requires m in Handed(log)
    ensures m in Messages(log)
  {
    var n := |log| - 1;
    assert Messages(log)[n] == log[n].msg;
    if m in Handed(log[..n]) {
      HandedFrom(log[..n], m);
      var k :| 0 <= k < n && Messages(log[..n])[k] == m;
      assert Messages(log)[k] == m;
    }
  }

  /** Only the last message handed over can have been lost. */
  lemma {:induction false} WireIsPrefix<T>(log: seq<Fated<T>>)
    requires forall i :: 0 <= i < |log| - 1 ==> !log[i].fate.Lost?
    ensures Wire(log) <= Handed(log)
    ensures (log != [] && log[|log| - 1].fate.Lost?) || Wire(log) == Handed(log)
  {
    if log != [] {
      WireIsPrefix(log[..|log| - 1]);
    }
  }

  /** `s` lists messages of priority `p` from `ms`, whose numbers start at `base`, in order. */
  ghost predicate Selection<T>(s: seq<Msg<T>>, ms: seq<Msg<T>>, base: nat, p: nat) {
    && (forall i :: 0 <= i < |s| ==>
          s[i].priority == p && base <= s[i].serial < base + |ms| && ms[s[i].serial - base] == s[i])
    && (forall i, j :: 0 <= i < j < |s| ==> s[i].serial < s[j].serial)
  }

  lemma SelectionPrepend<T>(rest: seq<Msg<T>>, ms: seq<Msg<T>>, base: nat, p: nat)
    requires ms != [] && Selection(rest, ms[1..], base + 1, p) && ms[0].serial == base
    ensures Selection(rest, ms, base, p)
    ensures ms[0].priority == p ==> Selection([ms[0]] + rest, ms, base, p)
  {
    forall i | 0 <= i < |rest|
      ensures rest[i].serial > base && ms[rest[i].serial - base] == rest[i]
    {
      assert ms[1..][rest[i].serial - (base + 1)] == rest[i];
    }
  }

  lemma {:induction false} OfPrioritySerials<T>(ms: seq<Msg<T>>, base: nat, p: nat)
    requires forall i :: 0 <= i < |ms| ==> ms[i].serial == base + i
    ensures Selection(OfPriority(ms, p), ms, base, p)
  {
    if ms != [] {
      OfPrioritySerials(ms[1..], base + 1, p);
      SelectionPrepend(OfPriority(ms[1..], p), ms, base, p);
      assert [] + OfPriority(ms[1..], p) == OfPriority(ms[1..], p);
    }
  }

  /** A message that waits is the submitted message of its number, and each priority waits in order of
      submission. */
  lemma PendingIsKnown<T>(w: World<T>, p: Priority)
    requires Numbered(w.submitted) && Conserved(w, p)
    ensures Selection(Pending(w.task, p), w.submitted, 0, p)
  {
    OfPrioritySerials(w.submitted, 0, p);
    var logged, all := OfPriority(Messages(w.task.log), p), OfPriority(w.submitted, p);
    assert Pending(w.task, p) == all[|logged|..];
  }

  lemma LoggedIsKnown<T>(w: World<T>, m: Msg<T>)
    requires Numbered(w.submitted) && Conserved(w, m.priority) && m in Messages(w.task.log)
    ensures m.serial < |w.submitted| && w.submitted[m.serial] == m
  {
    var ms := Messages(w.task.log);
    var i :| 0 <= i < |ms| && ms[i] == m;
    OfPriorityMember(ms, i);
    assert m in OfPriority(w.submitted, m.priority);
    OfPrioritySerials(w.submitted, 0, m.priority);
  }

  // One poll

  lemma {:induction false} IntakeEmptiesInbox<T>(inbox: seq<TaskMsg<T>>, q: Queues<T>, now: nat)
    requires ShutdownLast(inbox)
    ensures Intake(inbox, q, now).inbox == []
    ensures Intake(inbox, q, now).shutdown <==> inbox != [] && inbox[|inbox| - 1].Shutdown?
  {
    if inbox != [] && inbox[0].Send? {
      IntakeEmptiesInbox(inbox[1..], Push(q, Entry(now, inbox[0].msg)), now);
    }
  }

  lemma StagesKeepShape<T>(t: Task<T>, clock: nat, now: nat, checked: nat, answers: SinkAnswers)
    requires Keyed(t.queue) && Timed(t.queue, clock) && clock <= now <= checked
    ensures Keyed(Read(t, now)) && Timed(Read(t, now), now)
    ensures Keyed(Kept(t, now, checked)) && Timed(Kept(t, now, checked), checked)
    ensures Keyed(Fed(t, now, checked, answers).queue) && Timed(Fed(t, now, checked, answers).queue, checked)
  {
    IntakeKeepsShape(t.inbox, t.queue, clock, now);
    var kept, fed := Kept(t, now, checked), Fed(t, now, checked, answers).queue;
    assert forall p: nat {:trigger At(kept, p)} :: At(kept, p) == At(Read(t, now), p) || At(kept, p) == [];
    forall p: nat
      ensures Suffix(At(fed, p), At(kept, p))
    {
      DrainKeepsSuffixes(kept, 0, answers.accepts, answers.breaks, p);
    }
  }

  lemma ReadConserves<T>(t: Task<T>, now: nat, p: Priority)
    requires ShutdownLast(t.inbox)
    ensures Msgs(At(Read(t, now), p)) == Pending(t, p)
  {
    IntakeConserves(t.inbox, t.queue, now, p);
    IntakeEmptiesInbox(t.inbox, t.queue, now);
  }

  lemma DropConserves<T>(t: Task<T>, now: nat, checked: nat, p: Priority)
    requires Keyed(Read(t, now))
    ensures Msgs(At(Read(t, now), p))
         == OfPriority(Dropped(t, now, checked), p) + Msgs(At(Kept(t, now, checked), p))
  {
    FlattenOf(Read(t, now), Cut(Read(t, now), checked), p);
  }

  lemma FeedConserves<T>(q: Queues<T>, accepts: nat, breaks: bool, p: Priority)
    requires Keyed(q) && Keyed(Drain(q, 0, accepts, breaks).queue)
    ensures var d := Drain(q, 0, accepts, breaks);
            Msgs(At(q, p)) == OfPriority(d.sent, p) + (OfPriority(d.lost, p) + Msgs(At(d.queue, p)))
  {
    var d := Drain(q, 0, accepts, breaks);
    var left := Msgs(Flatten(d.queue, 0));
    FlattenOf(q, 0, p);
    FlattenOf(d.queue, 0, p);
    DrainIsPrefix(q, 0, accepts, breaks);
    OfPriorityConcat(d.sent, d.lost + left, p);
    OfPriorityConcat(d.lost, left, p);
  }

  ghost predicate InOrder<T>(ms: seq<Msg<T>>) {
    forall i, j :: 0 <= i < j < |ms| ==> Before(ms[i], ms[j])
  }

  ghost predicate Precedes<T>(a: seq<Msg<T>>, b: seq<Msg<T>>) {
    forall i, j :: 0 <= i < |a| && 0 <= j < |b| ==> Before(a[i], b[j])
  }

  lemma InOrderConcat<T>(a: seq<Msg<T>>, b: seq<Msg<T>>)
    requires InOrder(a) && InOrder(b) && Precedes(a, b)
    ensures InOrder(a + b)
  {
  }

  /** The queues in priority order are in an order the wire may show. */
  lemma {:induction false} FlattenIsOrdered<T>(q: Queues<T>, c: nat, all: seq<Msg<T>>)
    requires c <= 256
    requires forall p: Priority :: Selection(Msgs(At(q, p)), all, 0, p)
    ensures InOrder(Msgs(Flatten(q, c)))
    decreases 256 - c
  {
    if c < 256 {
      var first, rest := Msgs(At(q, c)), Msgs(Flatten(q, c + 1));
      FlattenIsOrdered(q, c + 1, all);
      MsgsConcat(At(q, c), Flatten(q, c + 1));
      assert Selection(first, all, 0, c);
      forall i, j | 0 <= i < |first| && 0 <= j < |rest|
        ensures Before(first[i], rest[j])
      {
        var p, k := FlattenFrom(q, c + 1, j);
        assert Selection(Msgs(At(q, p)), all, 0, p);
        assert Msgs(At(q, p))[k] == rest[j];
      }
      InOrderConcat(first, rest);
    }
  }

  lemma LogHanded<T>(log: seq<Fated<T>>, dropped: seq<Msg<T>>, sent: seq<Msg<T>>, lost: seq<Msg<T>>)
    ensures Handed(log + Log(dropped, sent, lost)) == Handed(log) + (sent + lost)
    ensures Wire(log + Log(dropped, sent, lost)) == Wire(log) + sent
  {
    var log1 := log + WithFate(dropped, Expired);
    var log2 := log1 + WithFate(sent, Sent);
    assert log + Log(dropped, sent, lost) == log2 + WithFate(lost, Lost) by {
      ConcatAssociates(log, WithFate(dropped, Expired) + WithFate(sent, Sent), WithFate(lost, Lost));
      ConcatAssociates(log, WithFate(dropped, Expired), WithFate(sent, Sent));
    }
    HandedConcat(log, dropped, Expired);
    HandedConcat(log1, sent, Sent);
    HandedConcat(log2, lost, Lost);
    ConcatEmpty(Handed(log));
    ConcatEmpty(Wire(log));
    ConcatEmpty(Wire(log) + sent);
    ConcatAssociates(Handed(log), sent, lost);
  }

  lemma LogMessages<T>(log: seq<Fated<T>>, dropped: seq<Msg<T>>, sent: seq<Msg<T>>, lost: seq<Msg<T>>)
    ensures Messages(log + Log(dropped, sent, lost)) == Messages(log) + (dropped + (sent + lost))
  {
    MessagesConcat(log, Log(dropped, sent, lost));
    MessagesConcat(WithFate(dropped, Expired) + WithFate(sent, Sent), WithFate(lost, Lost));
    MessagesConcat(WithFate(dropped, Expired), WithFate(sent, Sent));
    MessagesWithFate(dropped, Expired);
    MessagesWithFate(sent, Sent);
    MessagesWithFate(lost, Lost);
    ConcatAssociates(dropped, sent, lost);
  }

  lemma PollPending<T>(t: Task<T>, now: nat, checked: nat, answers: SinkAnswers, p: nat)
    requires ShutdownLast(t.inbox)
    ensures Pending(Poll(t, now, checked, answers), p) == Msgs(At(Fed(t, now, checked, answers).queue, p))
  {
    IntakeEmptiesInbox(t.inbox, t.queue, now);
  }

  lemma PollLog<T>(t: Task<T>, now: nat, checked: nat, answers: SinkAnswers)
    ensures var d := Fed(t, now, checked, answers);
            Poll(t, now, checked, answers).log == t.log + Log(Dropped(t, now, checked), d.sent, d.lost)
  {
  }

  /** Of each priority, what is logged followed by what waits is the same before and after a poll. */
  lemma PollConserves<T>(t: Task<T>, clock: nat, now: nat, checked: nat, answers: SinkAnswers, p: Priority)
    requires Keyed(t.queue) && Timed(t.queue, clock) && ShutdownLast(t.inbox) && clock <= now <= checked
    ensures var t' := Poll(t, now, checked, answers);
            OfPriority(Messages(t'.log), p) + Pending(t', p) == OfPriority(Messages(t.log), p) + Pending(t, p)
  {
    var d, dropped := Fed(t, now, checked, answers), Dropped(t, now, checked);
    var after := Msgs(At(d.queue, p));
    var x, y, z := OfPriority(dropped, p), OfPriority(d.sent, p), OfPriority(d.lost, p);
    assert Pending(t, p) == x + (y + (z + after)) by {
      StagesKeepShape(t, clock, now, checked, answers);
      ReadConserves(t, now, p);
      DropConserves(t, now, checked, p);
      FeedConserves(Kept(t, now, checked), answers.accepts, answers.breaks, p);
    }
    var logged := Messages(t.log);
    assert OfPriority(logged + (dropped + (d.sent + d.lost)), p) == OfPriority(logged, p) + (x + (y + z)) by {
      OfPriorityConcat(logged, dropped + (d.sent + d.lost), p);
      OfPriorityConcat(dropped, d.sent + d.lost, p);
      OfPriorityConcat(d.sent, d.lost, p);
    }
    PollLog(t, now, checked, answers);
    LogMessages(t.log, dropped, d.sent, d.lost);
    PollPending(t, now, checked, answers, p);
    Regroup(OfPriority(logged, p), x, y, z, after);
  }

  lemma Regroup<A>(l: seq<A>, x: seq<A>, y: seq<A>, z: seq<A>, after: seq<A>)
    ensures l + (x + (y + z)) + after == l + (x + (y + (z + after)))
  {
    ConcatAssociates(l, x + (y + z), after);
    ConcatAssociates(x, y + z, after);
    ConcatAssociates(y, z, after);
  }

  /** Everything kept was waiting before, so the order established earlier covers it. */
  lemma KeptWasPending<T>(w: World<T>, now: nat, checked: nat, p: Priority)
    requires Inv(w) && w.clock <= now <= checked
    ensures Msgs(At(Kept(w.task, now, checked), p)) == Pending(w.task, p) || At(Kept(w.task, now, checked), p) == []
    ensures Selection(Msgs(At(Kept(w.task, now, checked), p)), w.submitted, 0, p)
  {
    ReadConserves(w.task, now, p);
    assert Conserved(w, p);
    PendingIsKnown(w, p);
  }

  lemma KeptIsOrdered<T>(w: World<T>, now: nat, checked: nat)
    requires Inv(w) && w.clock <= now <= checked
    ensures InOrder(Msgs(Flatten(Kept(w.task, now, checked), 0)))
  {
    var kept := Kept(w.task, now, checked);
    forall p: Priority
      ensures Selection(Msgs(At(kept, p)), w.submitted, 0, p)
    {
      KeptWasPending(w, now, checked, p);
    }
    FlattenIsOrdered(kept, 0, w.submitted);
  }

  lemma KeptFollowsHanded<T>(w: World<T>, now: nat, checked: nat)
    requires Inv(w) && w.clock <= now <= checked
    ensures Precedes(Handed(w.task.log), Msgs(Flatten(Kept(w.task, now, checked), 0)))
  {
    var handed, kept := Handed(w.task.log), Kept(w.task, now, checked);
    forall i, j | 0 <= i < |handed| && 0 <= j < |Flatten(kept, 0)|
      ensures Before(handed[i], Msgs(Flatten(kept, 0))[j])
    {
      var p, k := FlattenFrom(kept, 0, j);
      KeptWasPending(w, now, checked, p);
      assert Msgs(At(kept, p))[k] == Flatten(kept, 0)[j].msg;
      assert Before(handed[i], Pending(w.task, p)[k]);
    }
  }

  lemma InOrderSplit<T>(a: seq<Msg<T>>, b: seq<Msg<T>>)
    requires InOrder(a + b)
    ensures InOrder(a) && Precedes(a, b)
  {
    assert forall i :: 0 <= i < |a| ==> (a + b)[i] == a[i];
    assert forall j :: 0 <= j < |b| ==> (a + b)[|a| + j] == b[j];
  }

  lemma PollHands<T>(t: Task<T>, now: nat, checked: nat, answers: SinkAnswers)
    ensures var t' := Poll(t, now, checked, answers);
            Handed(t'.log) + Msgs(Flatten(t'.queue, 0)) == Handed(t.log) + Msgs(Flatten(Kept(t, now, checked), 0))
  {
    var d := Fed(t, now, checked, answers);
    var rest := Msgs(Flatten(d.queue, 0));
    assert Poll(t, now, checked, answers).queue == d.queue;
    assert Handed(Poll(t, now, checked, answers).log) == Handed(t.log) + (d.sent + d.lost) by {
      PollLog(t, now, checked, answers);
      LogHanded(t.log, Dropped(t, now, checked), d.sent, d.lost);
    }
    assert Msgs(Flatten(Kept(t, now, checked), 0)) == d.sent + d.lost + rest by {
      DrainIsPrefix(Kept(t, now, checked), 0, answers.accepts, answers.breaks);
      ConcatAssociates(d.sent, d.lost, rest);
    }
    ConcatAssociates(Handed(t.log), d.sent + d.lost, rest);
  }

  /** What a poll hands over, followed by what it leaves queued, continues the order. */
  lemma PollExtendsOrder<T>(w: World<T>, now: nat, checked: nat, answers: SinkAnswers)
    requires Inv(w) && w.clock <= now <= checked
    ensures var t' := Poll(w.task, now, checked, answers);
            InOrder(Handed(t'.log)) && Precedes(Handed(t'.log), Msgs(Flatten(t'.queue, 0)))
  {
    var t' := Poll(w.task, now, checked, answers);
    PollHands(w.task, now, checked, answers);
    KeptIsOrdered(w, now, checked);
    KeptFollowsHanded(w, now, checked);
    InOrderConcat(Handed(w.task.log), Msgs(Flatten(Kept(w.task, now, checked), 0)));
    InOrderSplit(Handed(t'.log), Msgs(Flatten(t'.queue, 0)));
  }

  lemma PollOrders<T>(w: World<T>, now: nat, checked: nat, answers: SinkAnswers)
    requires Inv(w) && Enabled(w, PollTask(now, checked, answers))
    ensures Ordered(Apply(w, PollTask(now, checked, answers)))
  {
    var t', rest := Poll(w.task, now, checked, answers), Msgs(Flatten(Fed(w.task, now, checked, answers).queue, 0));
    PollExtendsOrder(w, now, checked, answers);
    forall i, p: nat, k | 0 <= i < |Handed(t'.log)| && p < 256 && 0 <= k < |Pending(t', p)|
      ensures Before(Handed(t'.log)[i], Pending(t', p)[k])
    {
      PollPending(w.task, now, checked, answers, p);
      var n := FlattenHas(t'.queue, 0, p, k);
      assert rest[n] == Pending(t', p)[k];
    }
  }

  lemma PollKeepsShape<T>(w: World<T>, now: nat, checked: nat, answers: SinkAnswers)
    requires Inv(w) && Enabled(w, PollTask(now, checked, answers))
    ensures var w' := Apply(w, PollTask(now, checked, answers));
            Shape(w') && Keyed(w'.task.queue) && Timed(w'.task.queue, w'.clock)
  {
    IntakeEmptiesInbox(w.task.inbox, w.task.queue, now);
    StagesKeepShape(w.task, w.clock, now, checked, answers);
  }

  /** When nothing is left to hand over, every queue is empty. */
  lemma AllSentLeavesNothing<T>(q: Queues<T>, accepts: nat, breaks: bool, p: Priority)
    requires Drain(q, 0, accepts, breaks).all
    ensures At(Drain(q, 0, accepts, breaks).queue, p) == [] && Drain(q, 0, accepts, breaks).lost == []
  {
    var d := Drain(q, 0, accepts, breaks);
    DrainLength(q, 0, accepts, breaks);
    DrainIsPrefix(q, 0, accepts, breaks);
    assert |Msgs(Flatten(q, 0))| == |d.sent| + |d.lost| + |Flatten(d.queue, 0)|;
    if At(d.queue, p) != [] {
      var i := FlattenHas(d.queue, 0, p, 0);
    }
  }

  lemma PollDropsOnlyDroppable<T>(t: Task<T>, clock: nat, now: nat, checked: nat, i: nat)
    requires Keyed(t.queue) && Timed(t.queue, clock) && clock <= now <= checked
    requires i < |Dropped(t, now, checked)|
    ensures Dropped(t, now, checked)[i].priority >= MSG_DROP_PRIORITY
  {
    IntakeKeepsShape(t.inbox, t.queue, clock, now);
    var p, k := FlattenFrom(Read(t, now), Cut(Read(t, now), checked), i);
  }

  lemma LogFates<T>(log: seq<Fated<T>>, dropped: seq<Msg<T>>, sent: seq<Msg<T>>, lost: seq<Msg<T>>, i: nat)
    requires i < |log + Log(dropped, sent, lost)| && |lost| <= 1
    ensures var log' := log + Log(dropped, sent, lost);
            || (i < |log| && log'[i] == log[i])
            || (log'[i].fate.Expired? && log'[i].msg in dropped)
            || log'[i].fate.Sent?
            || (log'[i].fate.Lost? && lost != [] && i == |log'| - 1)
  {
  }

  lemma FinishedLeavesNothing<T>(t: Task<T>, now: nat, checked: nat, answers: SinkAnswers)
    requires ShutdownLast(t.inbox) && t.status.Running? && Poll(t, now, checked, answers).status.Finished?
    ensures forall p: Priority :: Pending(Poll(t, now, checked, answers), p) == []
  {
    forall p: Priority
      ensures Pending(Poll(t, now, checked, answers), p) == []
    {
      AllSentLeavesNothing(Kept(t, now, checked), answers.accepts, answers.breaks, p);
      PollPending(t, now, checked, answers, p);
    }
  }

  lemma PollFates<T>(w: World<T>, now: nat, checked: nat, answers: SinkAnswers)
    requires Inv(w) && Enabled(w, PollTask(now, checked, answers))
    ensures Fates(Apply(w, PollTask(now, checked, answers)))
  {
    var t, t' := w.task, Poll(w.task, now, checked, answers);
    var d, dropped := Fed(t, now, checked, answers), Dropped(t, now, checked);
    PollLog(t, now, checked, answers);
    DrainLength(Kept(t, now, checked), 0, answers.accepts, answers.breaks);
    assert d.lost != [] ==> t'.status.Failed?;
    forall i | 0 <= i < |t'.log|
      ensures t'.log[i].fate.Expired? ==> t'.log[i].msg.priority >= MSG_DROP_PRIORITY
      ensures t'.log[i].fate.Lost? ==> i == |t'.log| - 1 && t'.status.Failed?
    {
      LogFates(t.log, dropped, d.sent, d.lost, i);
      if t'.log[i].msg in dropped {
        var k :| 0 <= k < |dropped| && dropped[k] == t'.log[i].msg;
        PollDropsOnlyDroppable(t, w.clock, now, checked, k);
      }
    }
    if t'.status.Finished? {
      FinishedLeavesNothing(t, now, checked, answers);
    }
  }

  lemma PollKeepsInv<T>(w: World<T>, now: nat, checked: nat, answers: SinkAnswers)
    requires Inv(w) && Enabled(w, PollTask(now, checked, answers))
    ensures Inv(Apply(w, PollTask(now, checked, answers)))
  {
    PollKeepsShape(w, now, checked, answers);
    PollOrders(w, now, checked, answers);
    PollFates(w, now, checked, answers);
    forall p: Priority
      ensures Conserved(Apply(w, PollTask(now, checked, answers)), p)
    {
      assert Conserved(w, p);
      PollConserves(w.task, w.clock, now, checked, answers, p);
    }
  }

  // The other events

  lemma SubmitPending<T>(t: Task<T>, m: Msg<T>, p: nat)
    ensures Pending(t.(inbox := t.inbox + [Send(m)]), p) == Pending(t, p) + if m.priority == p then [m] else []
  {
    SendsConcat(t.inbox, [Send(m)]);
    assert Sends([Send(m)]) == [m];
    OfPriorityConcat(Sends(t.inbox), [m], p);
    OfPriorityAll([m], m.priority, p);
  }

  lemma DropPending<T>(t: Task<T>, p: nat)
    ensures Pending(t.(inbox := t.inbox + [Shutdown]), p) == Pending(t, p)
  {
    SendsConcat(t.inbox, [Shutdown]);
    assert Sends<T>([Shutdown]) == [];
    assert Sends(t.inbox) + [] == Sends(t.inbox);
  }

  lemma SubmitKeepsInv<T>(w: World<T>, priority: Priority, body: T)
    requires Inv(w) && !w.dropped
    ensures Inv(Apply(w, Submit(priority, body)))
  {
    var m, w' := Msg(|w.submitted|, priority, body), Apply(w, Submit(priority, body));
    forall p: Priority
      ensures Conserved(w', p)
    {
      assert Conserved(w, p);
      SubmitPending(w.task, m, p);
      OfPriorityConcat(w.submitted, [m], p);
      OfPriorityAll([m], priority, p);
      ConcatAssociates(OfPriority(Messages(w.task.log), p), Pending(w.task, p), if priority == p then [m] else []);
    }
    var handed := Handed(w.task.log);
    forall i, p: nat, k | 0 <= i < |handed| && p < 256 && 0 <= k < |Pending(w'.task, p)|
      ensures Before(handed[i], Pending(w'.task, p)[k])
    {
      SubmitPending(w.task, m, p);
      if k < |Pending(w.task, p)| {
        assert Pending(w'.task, p)[k] == Pending(w.task, p)[k];
      } else {
        HandedFrom(w.task.log, handed[i]);
        assert Conserved(w, handed[i].priority);
        LoggedIsKnown(w, handed[i]);
      }
    }
  }

  lemma DropKeepsInv<T>(w: World<T>)
    requires Inv(w) && !w.dropped
    ensures Inv(Apply(w, DropSocket))
  {
    var w' := Apply(w, DropSocket);
    forall p: nat
      ensures Pending(w'.task, p) == Pending(w.task, p)
    {
      DropPending(w.task, p);
    }
    forall p: Priority
      ensures Conserved(w', p)
    {
      assert Conserved(w, p);
    }
  }

  lemma {:induction false} InvHolds<T>(es: seq<Event<T>>)
    ensures Inv(After(es))
  {
    if es != [] {
      var w, e := After(es[..|es| - 1]), es[|es| - 1];
      InvHolds(es[..|es| - 1]);
      if Enabled(w, e) {
        match e
        case Submit(priority, body) => SubmitKeepsInv(w, priority, body);
        case DropSocket => DropKeepsInv(w);
        case PollTask(now, checked, answers) => PollKeepsInv(w, now, checked, answers);
      }
    }
  }

  // What the source promises

  predicate Gone<T>(es: seq<Event<T>>) {
    exists k :: 0 <= k < |es| && es[k].DropSocket?
  }

  /** The messages that the user handed over before the socket was dropped. */
  function Submissions<T>(es: seq<Event<T>>): seq<Msg<T>> {
    if es == [] then []
    else
      var init, e := es[..|es| - 1], es[|es| - 1];
      var before := Submissions(init);
      before + if e.Submit? && !Gone(init) then [Msg(|before|, e.priority, e.body)] else []
  }

  /** Nothing the user does is lost on the way: what counts as submitted is every message sent before the drop,
      with its priority, and the socket is gone once it was dropped. */
  lemma {:induction false} WorldFollowsUser<T>(es: seq<Event<T>>)
    ensures After(es).submitted == Submissions(es) && (After(es).dropped <==> Gone(es))
    decreases |es|
  {
    if es != [] {
      var init, e := es[..|es| - 1], es[|es| - 1];
      WorldFollowsUser(init);
      ConcatEmpty(Submissions(init));
    }
  }

  /** Conservation and order within one priority, at every moment of every run: what left the queues,
      then what waits, is what was submitted. */
  lemma {:induction false} NothingIsLostOrReordered<T>(es: seq<Event<T>>, p: Priority)
    ensures var w := After(es);
            OfPriority(Messages(w.task.log), p) + Pending(w.task, p) == OfPriority(w.submitted, p)
  {
    InvHolds(es);
    assert Conserved(After(es), p);
  }

  lemma {:induction false} WireOfPriority<T>(log: seq<Fated<T>>, p: nat)
    requires forall i :: 0 <= i < |log| && log[i].msg.priority == p ==> log[i].fate.Sent?
    ensures OfPriority(Messages(log), p) == OfPriority(Wire(log), p)
  {
    if log != [] {
      var n := |log| - 1;
      WireOfPriority(log[..n], p);
      assert Messages(log) == Messages(log[..n]) + [log[n].msg];
      OfPriorityConcat(Messages(log[..n]), [log[n].msg], p);
      OfPriorityAll([log[n].msg], log[n].msg.priority, p);
      var tail := if log[n].fate.Sent? then [log[n].msg] else [];
      OfPriorityConcat(Wire(log[..n]), tail, p);
      OfPriorityAll(tail, log[n].msg.priority, p);
    }
  }

  /** Until the transport fails, what was transmitted of an urgent priority followed by what waits is exactly
      what was submitted. */
  lemma {:induction false} UrgentMessagesAreKept<T>(es: seq<Event<T>>, p: Priority)
    requires p < MSG_DROP_PRIORITY && !After(es).task.status.Failed?
    ensures var w := After(es);
            OfPriority(Wire(w.task.log), p) + Pending(w.task, p) == OfPriority(w.submitted, p)
  {
    InvHolds(es);
    var w := After(es);
    assert Conserved(w, p);
    WireOfPriority(w.task.log, p);
  }

  /** The sink may refuse messages and put the flush off, but never breaks. */
  ghost predicate SinkHolds<T>(es: seq<Event<T>>) {
    forall k :: 0 <= k < |es| && es[k].PollTask? ==>
      !es[k].answers.breaks && !es[k].answers.flush.Broken? && es[k].answers.closes
  }

  lemma {:induction false} HoldingSinkNeverFails<T>(es: seq<Event<T>>)
    requires SinkHolds(es)
    ensures !After(es).task.status.Failed?
  {
    if es != [] {
      var w, e := After(es[..|es| - 1]), es[|es| - 1];
      HoldingSinkNeverFails(es[..|es| - 1]);
      if e.PollTask? && Enabled(w, e) {
        DrainLength(Kept(w.task, e.now, e.checked), 0, e.answers.accepts, e.answers.breaks);
      }
    }
  }

  /** High-priority messages are never dropped, however long the sink takes no more: as long as it does not
      break, what was transmitted followed by what waits is exactly what was submitted. */
  lemma {:induction false} UrgentMessagesSurvive<T>(es: seq<Event<T>>, p: Priority)
    requires p < 2 && SinkHolds(es)
    ensures var w := After(es);
            && !w.task.status.Failed?
            && OfPriority(Wire(w.task.log), p) + Pending(w.task, p) == OfPriority(w.submitted, p)
  {
    HoldingSinkNeverFails(es);
    UrgentMessagesAreKept(es, p);
  }

  lemma {:induction false} NoLossMeansAllSent<T>(log: seq<Fated<T>>)
    requires forall i :: 0 <= i < |log| ==> !log[i].fate.Lost?
    ensures Wire(log) == Handed(log)
  {
    if log != [] {
      NoLossMeansAllSent(log[..|log| - 1]);
    }
  }

  lemma {:induction false} WireWithinHanded<T>(es: seq<Event<T>>)
    ensures Wire(After(es).task.log) <= Handed(After(es).task.log)
  {
    InvHolds(es);
    WireIsPrefix(After(es).task.log);
  }

  /** Order over whole runs: a message submitted earlier, at the same or a more urgent priority, is
      transmitted first, and everything transmitted is a distinct submitted message. */
  lemma {:induction false} UrgentFirst<T>(es: seq<Event<T>>, i: nat, j: nat)
    requires i < j < |Wire(After(es).task.log)|
    ensures var w := After(es);
            var a, b := Wire(w.task.log)[i], Wire(w.task.log)[j];
            && a.serial < |w.submitted| && w.submitted[a.serial] == a
            && b.serial < |w.submitted| && w.submitted[b.serial] == b
            && a.serial != b.serial
            && (b.serial < a.serial ==> a.priority < b.priority)
  {
    InvHolds(es);
    WireWithinHanded(es);
    var w := After(es);
    var handed := Handed(w.task.log);
    assert handed[i] == Wire(w.task.log)[i] && handed[j] == Wire(w.task.log)[j];
    HandedFrom(w.task.log, handed[i]);
    HandedFrom(w.task.log, handed[j]);
    assert Conserved(w, handed[i].priority) && Conserved(w, handed[j].priority);
    LoggedIsKnown(w, handed[i]);
    LoggedIsKnown(w, handed[j]);
  }

  lemma SuffixElement<A>(s: seq<A>, t: seq<A>, k: nat)
    requires Suffix(s, t) && k < |s|
    ensures |t| - |s| + k < |t| && t[|t| - |s| + k] == s[k]
  {
  }

  ghost predicate NothingStale<T>(q: Queues<T>, t: nat) {
    forall p: nat, k: nat :: MSG_DROP_PRIORITY <= p && k < |At(q, p)| ==> !Stale(At(q, p)[k], t)
  }

  lemma DrainLeavesNothingStale<T>(q: Queues<T>, accepts: nat, breaks: bool, t: nat)
    requires NothingStale(q, t)
    ensures NothingStale(Drain(q, 0, accepts, breaks).queue, t)
  {
    var q' := Drain(q, 0, accepts, breaks).queue;
    forall p: nat, k: nat | MSG_DROP_PRIORITY <= p && k < |At(q', p)|
      ensures !Stale(At(q', p)[k], t)
    {
      DrainKeepsSuffixes(q, 0, accepts, breaks, p);
      SuffixElement(At(q', p), At(q, p), k);
    }
  }

  lemma DropLeavesNothingStale<T>(q: Queues<T>, now: nat, checked: nat)
    requires Timed(q, now) && now <= checked
    ensures NothingStale(Below(q, Cut(q, checked)), checked)
  {
    forall p: nat, k: nat | MSG_DROP_PRIORITY <= p && k < |At(Below(q, Cut(q, checked)), p)|
      ensures !Stale(At(Below(q, Cut(q, checked)), p)[k], checked)
    {
      CutLeavesNothingStale(q, now, checked, p, k);
    }
  }

  lemma PollLeavesNothingStale<T>(t: Task<T>, clock: nat, now: nat, checked: nat, answers: SinkAnswers)
    requires Keyed(t.queue) && Timed(t.queue, clock) && clock <= now <= checked
    ensures NothingStale(Fed(t, now, checked, answers).queue, checked)
  {
    IntakeKeepsShape(t.inbox, t.queue, clock, now);
    DropLeavesNothingStale(Read(t, now), now, checked);
    DrainLeavesNothingStale(Kept(t, now, checked), answers.accepts, answers.breaks, checked);
  }

  /** After any poll of any run no droppable message that waits is stale, although only the fronts of the
      queues were examined. */
  lemma {:induction false} NothingStaleSurvivesPoll<T>(es: seq<Event<T>>, now: nat, checked: nat, answers: SinkAnswers)
    requires After(es).task.status.Running? && After(es).clock <= now <= checked
    ensures NothingStale(Apply(After(es), PollTask(now, checked, answers)).task.queue, checked)
  {
    InvHolds(es);
    PollLeavesNothingStale(After(es).task, After(es).clock, now, checked, answers);
  }

  /** A task finishes only after the socket is gone, and then everything ever submitted was transmitted or
      dropped as stale; at an urgent priority, everything was transmitted, in order. */
  lemma {:induction false} FinishedMeansDrained<T>(es: seq<Event<T>>, p: Priority)
    requires After(es).task.status.Finished?
    ensures var w := After(es);
            && w.dropped
            && OfPriority(Messages(w.task.log), p) == OfPriority(w.submitted, p)
            && (forall i :: 0 <= i < |w.task.log| ==> !w.task.log[i].fate.Lost?)
            && (p < MSG_DROP_PRIORITY ==> OfPriority(Wire(w.task.log), p) == OfPriority(w.submitted, p))
  {
    InvHolds(es);
    var w := After(es);
    assert Conserved(w, p);
    assert Pending(w.task, p) == [];
    WireOfPriority(w.task.log, if p < MSG_DROP_PRIORITY then p else 0);
  }

  lemma PollStatus<T>(t: Task<T>, now: nat, checked: nat, answers: SinkAnswers)
    requires t.status.Running?
    ensures var kept, asked := |Flatten(Kept(t, now, checked), 0)|, t.shutdown || Intake(t.inbox, t.queue, now).shutdown;
            var status, done := Poll(t, now, checked, answers).status, asked && kept <= answers.accepts && answers.flush.Flushed?;
            && (status.Finished? <==> done && answers.closes)
            && (status.Failed? <==>
                  (answers.breaks && answers.accepts < kept) || answers.flush.Broken? || (done && !answers.closes))
  {
    DrainLength(Kept(t, now, checked), 0, answers.accepts, answers.breaks);
  }

  /** Exactly when a poll completes the task: the socket is gone, the sink takes everything that is not
      stale and flushes, and the stream closes. */
  lemma {:induction false} PollFinishesIff<T>(es: seq<Event<T>>, now: nat, checked: nat, answers: SinkAnswers)
    requires After(es).task.status.Running? && After(es).clock <= now <= checked
    ensures var w := After(es);
            Apply(w, PollTask(now, checked, answers)).task.status.Finished? <==>
              && w.dropped
              && |Flatten(Kept(w.task, now, checked), 0)| <= answers.accepts
              && answers.flush.Flushed?
              && answers.closes
  {
    InvHolds(es);
    IntakeEmptiesInbox(After(es).task.inbox, After(es).task.queue, now);
    PollStatus(After(es).task, now, checked, answers);
  }

  /** Exactly when a poll fails: the sink breaks on a message it is offered or on the flush, or the stream does
      not close when the task is done. Back-pressure alone never fails it. */
  lemma {:induction false} PollFailsIff<T>(es: seq<Event<T>>, now: nat, checked: nat, answers: SinkAnswers)
    requires After(es).task.status.Running? && After(es).clock <= now <= checked
    ensures var w := After(es);
            var kept := |Flatten(Kept(w.task, now, checked), 0)|;
            Apply(w, PollTask(now, checked, answers)).task.status.Failed? <==>
              || (answers.breaks && answers.accepts < kept)
              || answers.flush.Broken?
              || (w.dropped && kept <= answers.accepts && answers.flush.Flushed? && !answers.closes)
  {
    InvHolds(es);
    IntakeEmptiesInbox(After(es).task.inbox, After(es).task.queue, now);
    PollStatus(After(es).task, now, checked, answers);
  }

  /** Exactly when a poll leaves the task to be polled again. */
  lemma {:induction false} PollGoesOnIff<T>(es: seq<Event<T>>, now: nat, checked: nat, answers: SinkAnswers)
    requires After(es).task.status.Running? && After(es).clock <= now <= checked
    ensures var w := After(es);
            var kept := |Flatten(Kept(w.task, now, checked), 0)|;
            Apply(w, PollTask(now, checked, answers)).task.status.Running? <==>
              && !(answers.breaks && answers.accepts < kept)
              && !answers.flush.Broken?
              && (!w.dropped || answers.accepts < kept || answers.flush.Waiting?)
  {
    PollFailsIff(es, now, checked, answers);
    PollFinishesIff(es, now, checked, answers);
  }

  lemma FirstPart<A>(whole: seq<A>, a: seq<A>, b: seq<A>)
    requires whole == a + b
    ensures whole[..|a|] == a
  {
  }

  /** A poll transmits as much of what is kept, most urgent first, as the sink takes. */
  lemma PollTransmits<T>(t: Task<T>, now: nat, checked: nat, answers: SinkAnswers)
    ensures var kept := Msgs(Flatten(Kept(t, now, checked), 0));
            Wire(Poll(t, now, checked, answers).log)
            == Wire(t.log) + kept[..if answers.accepts <= |kept| then answers.accepts else |kept|]
  {
    var kept, d := Kept(t, now, checked), Fed(t, now, checked, answers);
    DrainLength(kept, 0, answers.accepts, answers.breaks);
    DrainIsPrefix(kept, 0, answers.accepts, answers.breaks);
    FirstPart(Msgs(Flatten(kept, 0)), d.sent, d.lost + Msgs(Flatten(d.queue, 0)));
    PollLog(t, now, checked, answers);
    LogHanded(t.log, Dropped(t, now, checked), d.sent, d.lost);
  }

  /** A poll of any run keeps every urgent message that waits, and with room for all that is kept leaves none. */
  lemma {:induction false} FullPollLeavesNothing<T>(es: seq<Event<T>>, now: nat, checked: nat, answers: SinkAnswers, p: Priority)
    requires After(es).task.status.Running? && After(es).clock <= now <= checked
    ensures var t := After(es).task;
            && (p < 2 ==> Msgs(At(Kept(t, now, checked), p)) == Pending(t, p))
            && (|Flatten(Kept(t, now, checked), 0)| <= answers.accepts ==> Pending(Poll(t, now, checked, answers), p) == [])
  {
    InvHolds(es);
    var t := After(es).task;
    var kept := Kept(t, now, checked);
    DrainLength(kept, 0, answers.accepts, answers.breaks);
    PollPending(t, now, checked, answers, p);
    if Fed(t, now, checked, answers).all {
      AllSentLeavesNothing(kept, answers.accepts, answers.breaks, p);
    }
    ReadConserves(t, now, p);
  }

  lemma {:induction false} SubmittedIsAccountedFor<T>(es: seq<Event<T>>, i: nat)
    requires i < |After(es).submitted|
    ensures var w := After(es);
            var m := w.submitted[i];
            m in Messages(w.task.log) || m in Pending(w.task, m.priority)
  {
    var w := After(es);
    var m := w.submitted[i];
    NothingIsLostOrReordered(es, m.priority);
    OfPriorityMember(w.submitted, i);
    if m !in Pending(w.task, m.priority) {
      OfPriorityFrom(Messages(w.task.log), m.priority);
    }
  }

  lemma PendingFollowsHanded<T>(w: World<T>, i: nat, m: Msg<T>)
    requires Ordered(w) && i < |Handed(w.task.log)|
    ensures m in Pending(w.task, m.priority) ==> Before(Handed(w.task.log)[i], m)
  {
  }

  /** When the first `n` messages were submitted at the most urgent priority, they are the first on the
      wire, in order, whatever was submitted after them. */
  lemma {:induction false} PrefixStaysFirst<T>(es: seq<Event<T>>, n: nat, i: nat)
    requires n <= |After(es).submitted| && i < n
    requires forall k :: 0 <= k < n ==> After(es).submitted[k].priority == 0
    requires i < |Handed(After(es).task.log)|
    ensures Handed(After(es).task.log)[i] == After(es).submitted[i]
    decreases i
  {
    InvHolds(es);
    var w := After(es);
    var handed, m := Handed(w.task.log), w.submitted[i];
    HandedFrom(w.task.log, handed[i]);
    assert Conserved(w, handed[i].priority);
    LoggedIsKnown(w, handed[i]);
    if handed[i].serial < i {
      PrefixStaysFirst(es, n, handed[i].serial);
    } else if handed[i].serial > i {
      SubmittedIsAccountedFor(es, i);
      PendingFollowsHanded(w, i, m);
      var k :| 0 <= k < |Messages(w.task.log)| && Messages(w.task.log)[k] == m;
      HandedHas(w.task.log, k);
      var j :| 0 <= j < |handed| && handed[j] == m;
      if j < i {
        PrefixStaysFirst(es, n, j);
      }
    }
  }

  /** The change of message type at the end of a handshake is safe: frame `i` of the wire was submitted
      before the change exactly when `i` is below the number `n` of handshake messages, so a receiver that
      changes its own type after `n` frames decodes every frame at the type it was encoded with. */
  lemma {:induction false} TypeChangeIsSafe<T>(es: seq<Event<T>>, n: nat, i: nat)
    requires n <= |After(es).submitted|
    requires forall k :: 0 <= k < n ==> After(es).submitted[k].priority == 0
    requires i < |Wire(After(es).task.log)|
    ensures Wire(After(es).task.log)[i].serial < n <==> i < n
    ensures i < n ==> Wire(After(es).task.log)[i] == After(es).submitted[i]
  {
    InvHolds(es);
    WireWithinHanded(es);
    var w := After(es);
    var wire, s := Wire(w.task.log), Wire(w.task.log)[i].serial;
    assert wire[i] == Handed(w.task.log)[i];
    if i < n {
      PrefixStaysFirst(es, n, i);
    } else if s < n {
      PrefixStaysFirst(es, n, s);
      assert wire[s] == Handed(w.task.log)[s];
      UrgentFirst(es, s, i);
    }
  }
}
