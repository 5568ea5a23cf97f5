/** The registry of connected peers and the reader task of each registration. */
module ConnectionRegistry {
  import opened Common

  type Ip = nat

  /** A reader first finds its stream at an end, then removes its uid from the map, then reports the loss. */
  datatype Phase = Live | Unlinked | Done

  /** The task that reads one registered peer; `signalled` once the notice that ends it has been dropped. */
  datatype Reader = Reader(uid: Uid, kind: CrustUser, phase: Phase, signalled: bool)

  datatype Entry = Entry(reader: nat, ip: Ip, kind: CrustUser)

  /** What the user is told. The number of the reader is only for telling registrations apart. */
  datatype Event = NewMessage(reader: nat, uid: Uid, kind: CrustUser, message: nat) | LostPeer(reader: nat, uid: Uid)

  /** Readers are numbered in the order of registration. */
  datatype Registry = Registry(peers: map<Uid, Entry>, readers: seq<Reader>, events: seq<Event>)

  datatype Step =
    | Insert(uid: Uid, kind: CrustUser, ip: Ip)
    | Remove(uid: Uid)
    | WhitelistFilter(clientIps: set<Ip>, nodeIps: set<Ip>)
    | Clear
    | Receive(reader: nat, message: nat)
    | Unlink(reader: nat)
    | Report(reader: nat)

  predicate InPhase(s: Registry, r: nat, phase: Phase) {
    r < |s.readers| && s.readers[r].phase == phase
  }

  predicate Whitelisted(e: Entry, clientIps: set<Ip>, nodeIps: set<Ip>) {
    match e.kind case Node => e.ip in nodeIps case Client => e.ip in clientIps
  }

  /** Dropping entries from the map signals their readers. */
  function DropEntries(s: Registry, uids: set<Uid>): Registry {
    s.(peers := s.peers - uids,
       readers := seq(|s.readers|, r requires 0 <= r < |s.readers| =>
         var reader := s.readers[r];
         if reader.uid in uids && reader.uid in s.peers && s.peers[reader.uid].reader == r then reader.(signalled := true)
         else reader))
  }

  function Apply(s: Registry, step: Step): Registry {
    match step
    case Insert(uid, kind, ip) =>
      if uid in s.peers then s
      else s.(peers := s.peers[uid := Entry(|s.readers|, ip, kind)], readers := s.readers + [Reader(uid, kind, Live, false)])
    case Remove(uid) => DropEntries(s, {uid})
    case WhitelistFilter(clientIps, nodeIps) =>
      DropEntries(s, set u | u in s.peers && !Whitelisted(s.peers[u], clientIps, nodeIps))
    case Clear => DropEntries(s, s.peers.Keys)
    case Receive(r, message) =>
      if !InPhase(s, r, Live) then s
      else s.(events := s.events + [NewMessage(r, s.readers[r].uid, s.readers[r].kind, message)])
    case Unlink(r) =>
      if !InPhase(s, r, Live) then s
      else
        var s' := DropEntries(s, {s.readers[r].uid});
        s'.(readers := s'.readers[r := s'.readers[r].(phase := Unlinked)])
    case Report(r) =>
      if !InPhase(s, r, Unlinked) then s
      else
        s.(readers := s.readers[r := s.readers[r].(phase := Done)], events := s.events + [LostPeer(r, s.readers[r].uid)])
  }

  function After(steps: seq<Step>): Registry {
    if steps == [] then Registry(map[], [], []) else Apply(After(steps[..|steps| - 1]), steps[|steps| - 1])
  }

  // The invariant

  ghost predicate Linked(s: Registry) {
    && (forall u :: u in s.peers ==>
          var r := s.peers[u].reader;
          r < |s.readers| && s.readers[r].uid == u && s.readers[r].phase.Live? && !s.readers[r].signalled
          && s.peers[u].kind == s.readers[r].kind)
    && (forall r :: 0 <= r < |s.readers| && s.readers[r].phase.Live? && !s.readers[r].signalled ==>
          s.readers[r].uid in s.peers && s.peers[s.readers[r].uid].reader == r)
  }

  ghost predicate Told(s: Registry) {
    && (forall i :: 0 <= i < |s.events| ==> s.events[i].reader < |s.readers| && s.events[i].uid == s.readers[s.events[i].reader].uid)
    && (forall i, j :: 0 <= i < j < |s.events| && s.events[i].LostPeer? ==> s.events[j].reader != s.events[i].reader)
    && (forall i :: 0 <= i < |s.events| && s.events[i].LostPeer? ==> s.readers[s.events[i].reader].phase.Done?)
    && (forall r :: 0 <= r < |s.readers| && s.readers[r].phase.Done? ==> LostPeer(r, s.readers[r].uid) in s.events)
  }

  function Registered(readers: seq<Reader>, uid: Uid): nat {
    if readers == [] then 0 else Registered(readers[1..], uid) + if readers[0].uid == uid then 1 else 0
  }

  function Running(readers: seq<Reader>, uid: Uid): nat {
    if readers == [] then 0
    else Running(readers[1..], uid) + if readers[0].uid == uid && !readers[0].phase.Done? then 1 else 0
  }

  function Lost(events: seq<Event>, uid: Uid): nat {
    if events == [] then 0
    else
      var last := events[|events| - 1];
      Lost(events[..|events| - 1], uid) + if last.LostPeer? && last.uid == uid then 1 else 0
  }

  ghost predicate Balanced(s: Registry, uid: Uid) {
    Registered(s.readers, uid) == Lost(s.events, uid) + Running(s.readers, uid)
  }

  ghost predicate Inv(s: Registry) {
    Linked(s) && Told(s) && forall uid :: Balanced(s, uid)
  }

  /** Signalling a reader does not change what it counts for. */
  ghost predicate SameBut(a: seq<Reader>, b: seq<Reader>) {
    |a| == |b| && forall r :: 0 <= r < |a| ==> a[r].uid == b[r].uid && (a[r].phase.Done? <==> b[r].phase.Done?)
  }

  lemma {:induction false} CountsAgree(a: seq<Reader>, b: seq<Reader>, uid: Uid)
    requires SameBut(a, b)
    ensures Registered(a, uid) == Registered(b, uid) && Running(a, uid) == Running(b, uid)
  {
    if a != [] {
      CountsAgree(a[1..], b[1..], uid);
    }
  }

  lemma {:induction false} CountsAppend(readers: seq<Reader>, r: Reader, uid: Uid)
    ensures Registered(readers + [r], uid) == Registered(readers, uid) + if r.uid == uid then 1 else 0
    ensures Running(readers + [r], uid) == Running(readers, uid) + if r.uid == uid && !r.phase.Done? then 1 else 0
  {
    if readers == [] {
      assert readers + [r] == [r];
    } else {
      CountsAppend(readers[1..], r, uid);
      assert (readers + [r])[1..] == readers[1..] + [r];
    }
  }

  lemma {:induction false} CountsFinish(readers: seq<Reader>, r: nat, uid: Uid)
    requires r < |readers| && readers[r].phase.Unlinked?
    ensures var readers' := readers[r := readers[r].(phase := Done)];
            && Registered(readers', uid) == Registered(readers, uid)
            && Running(readers', uid) == Running(readers, uid) - if readers[r].uid == uid then 1 else 0
  {
    var readers' := readers[r := readers[r].(phase := Done)];
    if r == 0 {
      assert readers'[1..] == readers[1..];
    } else {
      CountsFinish(readers[1..], r - 1, uid);
      assert readers'[1..] == readers[1..][r - 1 := readers[r].(phase := Done)];
    }
  }

  lemma DropKeepsInv(s: Registry, uids: set<Uid>)
    requires Inv(s)
    ensures Inv(DropEntries(s, uids))
  {
    var s' := DropEntries(s, uids);
    forall uid
      ensures Balanced(s', uid)
    {
      assert Balanced(s, uid);
      CountsAgree(s.readers, s'.readers, uid);
    }
  }

  lemma InsertKeepsInv(s: Registry, uid: Uid, kind: CrustUser, ip: Ip)
    requires Inv(s)
    ensures Inv(Apply(s, Insert(uid, kind, ip)))
  {
    var s' := Apply(s, Insert(uid, kind, ip));
    if uid !in s.peers {
      forall u
        ensures Balanced(s', u)
      {
        assert Balanced(s, u);
        CountsAppend(s.readers, Reader(uid, kind, Live, false), u);
      }
    }
  }

  lemma ReceiveKeepsInv(s: Registry, r: nat, message: nat)
    requires Inv(s) && InPhase(s, r, Live)
    ensures Inv(Apply(s, Receive(r, message)))
  {
    var s' := Apply(s, Receive(r, message));
    forall u
      ensures Balanced(s', u)
    {
      assert Balanced(s, u);
      assert s'.events[..|s.events|] == s.events;
    }
  }

  lemma UnlinkKeepsInv(s: Registry, r: nat)
    requires Inv(s) && InPhase(s, r, Live)
    ensures Inv(Apply(s, Unlink(r)))
  {
    var s1, s' := DropEntries(s, {s.readers[r].uid}), Apply(s, Unlink(r));
    DropKeepsInv(s, {s.readers[r].uid});
    forall u
      ensures Balanced(s', u)
    {
      assert Balanced(s1, u);
      CountsAgree(s1.readers, s'.readers, u);
    }
  }

  lemma ReportKeepsTold(s: Registry, r: nat)
    requires Told(s) && InPhase(s, r, Unlinked)
    ensures Told(Apply(s, Report(r)))
  {
    var s' := Apply(s, Report(r));
    assert s'.events[|s.events|] == LostPeer(r, s.readers[r].uid);
    assert forall i :: 0 <= i < |s.events| ==> s'.events[i] == s.events[i];
  }

  lemma ReportKeepsBalance(s: Registry, r: nat, uid: Uid)
    requires Balanced(s, uid) && InPhase(s, r, Unlinked)
    ensures Balanced(Apply(s, Report(r)), uid)
  {
    CountsFinish(s.readers, r, uid);
    assert Apply(s, Report(r)).events[..|s.events|] == s.events;
  }

  lemma ReportKeepsInv(s: Registry, r: nat)
    requires Inv(s) && InPhase(s, r, Unlinked)
    ensures Inv(Apply(s, Report(r)))
  {
    ReportKeepsTold(s, r);
    forall uid
      ensures Balanced(Apply(s, Report(r)), uid)
    {
      assert Balanced(s, uid);
      ReportKeepsBalance(s, r, uid);
    }
  }

  lemma {:induction false} InvHolds(steps: seq<Step>)
    ensures Inv(After(steps))
  {
    if steps != [] {
      var s, step := After(steps[..|steps| - 1]), steps[|steps| - 1];
      InvHolds(steps[..|steps| - 1]);
      match step
      case Insert(uid, kind, ip) => InsertKeepsInv(s, uid, kind, ip);
      case Remove(uid) => DropKeepsInv(s, {uid});
      case WhitelistFilter(clientIps, nodeIps) =>
        DropKeepsInv(s, set u | u in s.peers && !Whitelisted(s.peers[u], clientIps, nodeIps));
      case Clear => DropKeepsInv(s, s.peers.Keys);
      case Receive(r, message) => if InPhase(s, r, Live) { ReceiveKeepsInv(s, r, message); }
      case Unlink(r) => if InPhase(s, r, Live) { UnlinkKeepsInv(s, r); }
      case Report(r) => if InPhase(s, r, Unlinked) { ReportKeepsInv(s, r); }
    }
  }

  // What the registry promises, under any interleaving

  /** A peer in the map has a live reader of its own, and a live reader that is not in the map has been told
      to end. */
  lemma {:induction false} ReadersFollowMap(steps: seq<Step>, r: nat)
    requires InPhase(After(steps), r, Live)
    ensures var s := After(steps);
            (s.readers[r].uid in s.peers && s.peers[s.readers[r].uid].reader == r) <==> !s.readers[r].signalled
  {
    InvHolds(steps);
  }

  lemma {:induction false} PeersHaveReaders(steps: seq<Step>, uid: Uid)
    requires uid in After(steps).peers
    ensures var s := After(steps);
            InPhase(s, s.peers[uid].reader, Live) && s.readers[s.peers[uid].reader].uid == uid
  {
    InvHolds(steps);
  }

  /** Of one registration the user sees messages and then, at most once and last, the loss. */
  lemma {:induction false} LossComesLast(steps: seq<Step>, i: nat, j: nat)
    requires i < |After(steps).events| && j < |After(steps).events|
    requires After(steps).events[i].LostPeer? && After(steps).events[i].reader == After(steps).events[j].reader
    ensures j <= i
  {
    InvHolds(steps);
  }

  /** Every registration of a uid ends in one reported loss, and until then its reader runs. */
  lemma {:induction false} RegistrationsBalance(steps: seq<Step>, uid: Uid)
    ensures var s := After(steps);
            Registered(s.readers, uid) == Lost(s.events, uid) + Running(s.readers, uid)
  {
    InvHolds(steps);
    assert Balanced(After(steps), uid);
  }

  /** Exactly when a reader that ends removes the registration of another: its own was removed before, and the
      uid has been registered again. */
  lemma {:induction false} StaleUnlinkIff(steps: seq<Step>, r: nat)
    requires InPhase(After(steps), r, Live)
    ensures var s := After(steps);
            var uid, s' := s.readers[r].uid, Apply(s, Unlink(r));
            && uid !in s'.peers
            && ((exists r': nat :: r' != r && InPhase(s, r', Live) && !s.readers[r'].signalled && s'.readers[r'].signalled)
                <==> s.readers[r].signalled && uid in s.peers)
  {
    InvHolds(steps);
    var s := After(steps);
    var uid, s' := s.readers[r].uid, Apply(s, Unlink(r));
    if s.readers[r].signalled && uid in s.peers {
      var r' := s.peers[uid].reader;
      assert r' != r && InPhase(s, r', Live) && s'.readers[r'].signalled;
    }
  }

  // What each step does, under any interleaving

  /** A peer can be registered exactly when its uid is free, and is then registered with its own address and
      kind, a new reader, and nobody else's registration touched. */
  lemma {:induction false} InsertRegisters(steps: seq<Step>, uid: Uid, kind: CrustUser, ip: Ip)
    ensures var s, s' := After(steps), After(steps + [Insert(uid, kind, ip)]);
            && (forall u :: u != uid ==> (u in s'.peers <==> u in s.peers) && (u in s.peers ==> s'.peers[u] == s.peers[u]))
            && uid in s'.peers && s'.events == s.events
            && (uid in s.peers ==> s' == s)
            && (uid !in s.peers ==>
                  && s'.peers[uid].ip == ip && s'.peers[uid].kind == kind && s'.peers[uid].reader == |s.readers|
                  && s'.readers == s.readers + [Reader(uid, kind, Live, false)])
  {
    AfterLast(steps, Insert(uid, kind, ip));
  }

  /** Taking entries out leaves the others as they are, tells the user nothing, and ends exactly the readers of
      those taken out. */
  ghost predicate TakesOut(s: Registry, s': Registry, uids: set<Uid>) {
    && s'.events == s.events && |s'.readers| == |s.readers|
    && (forall u :: u in s'.peers <==> u in s.peers && u !in uids)
    && (forall u :: u in s'.peers ==> s'.peers[u] == s.peers[u])
    && (forall r :: 0 <= r < |s.readers| ==>
          && s'.readers[r].uid == s.readers[r].uid && s'.readers[r].kind == s.readers[r].kind
          && s'.readers[r].phase == s.readers[r].phase
          && (s.readers[r].phase.Live? ==>
                (s'.readers[r].signalled <==> s.readers[r].signalled || s.readers[r].uid in uids)))
  }

  lemma DropTakesOut(s: Registry, uids: set<Uid>)
    requires Linked(s)
    ensures TakesOut(s, DropEntries(s, uids), uids)
  {
  }

  lemma {:induction false} RemoveTakesOut(steps: seq<Step>, uid: Uid)
    ensures TakesOut(After(steps), After(steps + [Remove(uid)]), {uid})
  {
    InvHolds(steps);
    AfterLast(steps, Remove(uid));
    DropTakesOut(After(steps), {uid});
  }

  lemma {:induction false} ClearTakesOutAll(steps: seq<Step>)
    ensures TakesOut(After(steps), After(steps + [Clear]), After(steps).peers.Keys)
    ensures After(steps + [Clear]).peers == map[]
  {
    InvHolds(steps);
    AfterLast(steps, Clear);
    DropTakesOut(After(steps), After(steps).peers.Keys);
  }

  /** Nodes are held against the whitelist of nodes and clients against that of clients. */
  lemma {:induction false} FilterKeepsIff(steps: seq<Step>, clientIps: set<Ip>, nodeIps: set<Ip>, uid: Uid)
    ensures var s, s' := After(steps), After(steps + [WhitelistFilter(clientIps, nodeIps)]);
            && (uid in s'.peers <==>
                  && uid in s.peers
                  && (s.peers[uid].kind == Node ==> s.peers[uid].ip in nodeIps)
                  && (s.peers[uid].kind == Client ==> s.peers[uid].ip in clientIps))
            && TakesOut(s, s', s.peers.Keys - s'.peers.Keys)
  {
    var s := After(steps);
    var gone := set u | u in s.peers && !Whitelisted(s.peers[u], clientIps, nodeIps);
    InvHolds(steps);
    AfterLast(steps, WhitelistFilter(clientIps, nodeIps));
    DropTakesOut(s, gone);
    var s' := After(steps + [WhitelistFilter(clientIps, nodeIps)]);
    assert s.peers.Keys - s'.peers.Keys == gone;
  }

  /** The messages a reader got before it found its stream at an end. */
  function Got(steps: seq<Step>, r: nat): seq<nat> {
    if steps == [] then []
    else
      var init, step := steps[..|steps| - 1], steps[|steps| - 1];
      Got(init, r) + if step.Receive? && step.reader == r && InPhase(After(init), r, Live) then [step.message] else []
  }

  function Reported(events: seq<Event>, r: nat): seq<nat> {
    if events == [] then []
    else
      var last := events[|events| - 1];
      Reported(events[..|events| - 1], r) + if last.NewMessage? && last.reader == r then [last.message] else []
  }

  lemma ReportedMore(events: seq<Event>, e: Event, r: nat)
    ensures Reported(events + [e], r)
         == Reported(events, r) + if e.NewMessage? && e.reader == r then [e.message] else []
  {
    assert (events + [e])[..|events|] == events;
  }

  lemma StepReports(s: Registry, step: Step, r: nat)
    ensures Reported(Apply(s, step).events, r) == Reported(s.events, r)
         + if step.Receive? && step.reader == r && InPhase(s, r, Live) then [step.message] else []
  {
    match step
    case Receive(reader, message) =>
      if InPhase(s, reader, Live) {
        ReportedMore(s.events, NewMessage(reader, s.readers[reader].uid, s.readers[reader].kind, message), r);
      }
    case Report(reader) =>
      if InPhase(s, reader, Unlinked) {
        ReportedMore(s.events, LostPeer(reader, s.readers[reader].uid), r);
      }
    case _ =>
  }

  /** What the user is told of one registration is exactly what its reader got, in order and unchanged. */
  lemma {:induction false} MessagesAreReported(steps: seq<Step>, r: nat)
    ensures Reported(After(steps).events, r) == Got(steps, r)
    decreases |steps|
  {
    if steps != [] {
      var init, step := steps[..|steps| - 1], steps[|steps| - 1];
      MessagesAreReported(init, r);
      StepReports(After(init), step, r);
    }
  }

  /** A live reader can always end: then its uid is out of the map, the loss is reported, and it is done. */
  lemma {:induction false} ReaderEnds(steps: seq<Step>, r: nat)
    requires InPhase(After(steps), r, Live)
    ensures var s, s' := After(steps), After(steps + [Unlink(r)] + [Report(r)]);
            var uid := s.readers[r].uid;
            && uid !in s'.peers && InPhase(s', r, Done)
            && s'.events == s.events + [LostPeer(r, uid)]
            && (forall u :: u != uid ==> (u in s'.peers <==> u in s.peers) && (u in s.peers ==> s'.peers[u] == s.peers[u]))
  {
    AfterLast(steps, Unlink(r));
    AfterLast(steps + [Unlink(r)], Report(r));
  }

  /** Each message is reported with the uid and kind its reader was registered with. */
  lemma {:induction false} MessagesNameTheirPeer(steps: seq<Step>, i: nat)
    requires i < |After(steps).events|
    ensures var s, e := After(steps), After(steps).events[i];
            && e.reader < |s.readers| && e.uid == s.readers[e.reader].uid
            && (e.NewMessage? ==> e.kind == s.readers[e.reader].kind)
    decreases |steps|
  {
    if steps != [] {
      var s := After(steps[..|steps| - 1]);
      if i < |s.events| {
        MessagesNameTheirPeer(steps[..|steps| - 1], i);
      }
    }
  }

  lemma AfterLast(steps: seq<Step>, step: Step)
    ensures After(steps + [step]) == Apply(After(steps), step)
  {
    assert (steps + [step])[..|steps|] == steps;
  }

  /** It does happen: a peer is removed and registered again before its first reader ends, and then that
      reader takes the new registration out of the map. */
  lemma {:induction false} StaleReaderRemovesNewer() returns (steps: seq<Step>)
    ensures var s := After(steps);
            && |s.readers| == 2 && s.peers == map[] && s.events == []
            && s.readers[0] == Reader(1, Node, Unlinked, true) && s.readers[1] == Reader(1, Node, Live, true)
  {
    steps := [];
    AfterLast(steps, Insert(1, Node, 9));
    steps := steps + [Insert(1, Node, 9)];
    AfterLast(steps, Remove(1));
    steps := steps + [Remove(1)];
    AfterLast(steps, Insert(1, Node, 9));
    steps := steps + [Insert(1, Node, 9)];
    assert After(steps).readers == [Reader(1, Node, Live, true), Reader(1, Node, Live, false)];
    AfterLast(steps, Unlink(0));
    steps := steps + [Unlink(0)];
  }

  lemma DropMore(s: Registry, uids: set<Uid>, uid: Uid)
    requires uid !in uids
    ensures DropEntries(DropEntries(s, uids), {uid}) == DropEntries(s, uids + {uid})
  {
    var a, b := DropEntries(DropEntries(s, uids), {uid}), DropEntries(s, uids + {uid});
    assert a.peers == b.peers;
    assert a.readers == b.readers;
  }
}

module ConnectionMaps {
  import opened Common
  import opened ConnectionRegistry

  class ConnectionMap {
    var peers: map<Uid, Entry>
    var readers: seq<Reader>
    var events: seq<Event>

    function Value(): Registry
      reads this
    {
      Registry(peers, readers, events)
    }

    constructor ()
      ensures Value() == After([])
    {
      peers, readers, events := map[], [], [];
    }

    /** False, and nothing happens, when the uid is already registered. */
    method InsertPeer(uid: Uid, kind: CrustUser, ip: Ip) returns (inserted: bool)
      modifies this
      ensures inserted == (uid !in old(peers))
      ensures Value() == Apply(old(Value()), Insert(uid, kind, ip))
    {
      if uid in peers {
        return false;
      }
      peers := peers[uid := Entry(|readers|, ip, kind)];
      readers := readers + [Reader(uid, kind, Live, false)];
      inserted := true;
    }

    /** Takes one entry out and drops it, which signals its reader. */
    method RemoveEntry(uid: Uid)
      requires uid in peers && Linked(Value())
      modifies this`peers, this`readers
      ensures Value() == DropEntries(old(Value()), {uid})
    {
      var r := peers[uid].reader;
      ghost var s := Value();
      readers := readers[r := readers[r].(signalled := true)];
      peers := peers - {uid};
      assert readers == DropEntries(s, {uid}).readers;
    }

    method Remove(uid: Uid) returns (removed: bool)
      requires Linked(Value())
      modifies this`peers, this`readers
      ensures removed == (uid in old(peers))
      ensures Value() == Apply(old(Value()), ConnectionRegistry.Remove(uid))
    {
      removed := uid in peers;
      if removed {
        RemoveEntry(uid);
      } else {
        assert DropEntries(Value(), {uid}) == Value() by {
          assert DropEntries(Value(), {uid}).peers == peers && DropEntries(Value(), {uid}).readers == readers;
        }
      }
    }

    /** A peer is registered when a reader of its own still runs and has not been told to end. */
    method ContainsPeer(uid: Uid) returns (found: bool)
      requires Linked(Value())
      ensures found <==>
        exists r: nat :: InPhase(Value(), r, Live) && readers[r].uid == uid && !readers[r].signalled
    {
      found := uid in peers;
      assert found ==> InPhase(Value(), peers[uid].reader, Live);
    }

    method RetainWhitelisted(clientIps: set<Ip>, nodeIps: set<Ip>)
      requires Inv(Value())
      modifies this`peers, this`readers
      ensures Value() == Apply(old(Value()), WhitelistFilter(clientIps, nodeIps))
    {
      ghost var s := Value();
      ghost var gone: set<Uid> := {};
      var rest := peers.Keys;
      assert DropEntries(s, {}) == s by {
        assert DropEntries(s, {}).peers == s.peers && DropEntries(s, {}).readers == s.readers;
      }
      while rest != {}
        invariant rest <= s.peers.Keys && rest !! gone
        invariant gone == set u | u in s.peers && u !in rest && !Whitelisted(s.peers[u], clientIps, nodeIps)
        invariant Value() == DropEntries(s, gone) && Inv(Value())
        decreases rest
      {
        var uid :| uid in rest;
        rest := rest - {uid};
        if !Whitelisted(peers[uid], clientIps, nodeIps) {
          DropMore(s, gone, uid);
          DropKeepsInv(Value(), {uid});
          RemoveEntry(uid);
          gone := gone + {uid};
        }
      }
      assert gone == set u | u in s.peers && !Whitelisted(s.peers[u], clientIps, nodeIps);
    }

    method Clear()
      requires Inv(Value())
      modifies this`peers, this`readers
      ensures Value() == Apply(old(Value()), ConnectionRegistry.Clear)
    {
      ghost var s := Value();
      ghost var gone: set<Uid> := {};
      assert DropEntries(s, {}) == s by {
        assert DropEntries(s, {}).peers == s.peers && DropEntries(s, {}).readers == s.readers;
      }
      while peers.Keys != {}
        invariant gone == s.peers.Keys - peers.Keys && peers.Keys <= s.peers.Keys
        invariant Value() == DropEntries(s, gone) && Inv(Value())
        decreases peers.Keys
      {
        var uid :| uid in peers.Keys;
        DropMore(s, gone, uid);
        DropKeepsInv(Value(), {uid});
        RemoveEntry(uid);
        gone := gone + {uid};
      }
      assert gone == s.peers.Keys;
    }

    /** The reader task of one registration passes on a message. */
    method ReadMessage(r: nat, message: nat)
      requires InPhase(Value(), r, Live)
      modifies this`events
      ensures Value() == Apply(old(Value()), Receive(r, message))
    {
      events := events + [NewMessage(r, readers[r].uid, readers[r].kind, message)];
    }

    /** The end of the reader's stream: it removes whatever is registered for its uid. */
    method EndReading(r: nat)
      requires InPhase(Value(), r, Live) && Linked(Value())
      modifies this`peers, this`readers
      ensures Value() == Apply(old(Value()), Unlink(r))
    {
      var _ := Remove(readers[r].uid);
      readers := readers[r := readers[r].(phase := Unlinked)];
    }

    method ReportLoss(r: nat)
      requires InPhase(Value(), r, Unlinked)
      modifies this`readers, this`events
      ensures Value() == Apply(old(Value()), Report(r))
    {
      events := events + [LostPeer(r, readers[r].uid)];
      readers := readers[r := readers[r].(phase := Done)];
    }
  }
}
