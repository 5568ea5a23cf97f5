/** The bootstrap handshake: one peer asks to bootstrap off another, which grants or denies. */
module Bootstrap {
  import opened Common

  type Ip = nat

  datatype Addr = Addr(ip: Ip, port: nat)

  datatype ExternalReachability = NotRequired | Required(directListeners: seq<Addr>)

  datatype BootstrapRequest = BootstrapRequest(uid: Uid, nameHash: NameHash, reachability: ExternalReachability)

  datatype DenyReason = InvalidNameHash | FailedExternalReachability | NodeNotWhitelisted | ClientNotWhitelisted

  datatype DevConfig = DevConfig(disableExternalReachabilityRequirement: bool)

  datatype Config = Config(
    networkNameHash: NameHash,
    whitelistedNodeIps: Option<set<Ip>>,
    whitelistedClientIps: Option<set<Ip>>,
    dev: Option<DevConfig>)

  /** Without a whitelist everybody is whitelisted. */
  predicate IsPeerWhitelisted(c: Config, ip: Ip, user: CrustUser) {
    match if user.Node? then c.whitelistedNodeIps else c.whitelistedClientIps
    case None => true
    case Some(ips) => ip in ips
  }

  /** What the acceptor finds outside its own state: the address of the other side (none when the socket has
      been destroyed; nothing polls it between the reading of the request and the verdict, so that cannot
      change in between), the settings before and after they are reloaded, which ips are global and which
      addresses accept a connection in time. */
  datatype Surroundings = Surroundings(
    peerIp: Option<Ip>,
    before: Config,
    reloaded: Config,
    globalIps: set<Ip>,
    reachable: set<Addr>)

  /** Without an answer the request ends in an error on this side only. A destroyed socket takes no answer,
      whatever it would have been. */
  datatype Verdict = Grant(user: CrustUser) | Deny(reason: DenyReason) | NoAnswer

  predicate AnyReachable(listeners: seq<Addr>, s: Surroundings) {
    exists a :: a in listeners && a.ip in s.globalIps && a in s.reachable
  }

  function Judge(own: Uid, request: BootstrapRequest, s: Surroundings): Verdict {
    if own == request.uid || s.peerIp.None? then NoAnswer
    else if s.before.networkNameHash != request.nameHash then Deny(InvalidNameHash)
    else
      var requireReachability := s.before.dev.None? || !s.before.dev.value.disableExternalReachabilityRequirement;
      match request.reachability
      case Required(listeners) =>
        if !IsPeerWhitelisted(s.reloaded, s.peerIp.value, Node) then Deny(NodeNotWhitelisted)
        else if !requireReachability then Grant(Node)
        else if AnyReachable(listeners, s) then Grant(Node)
        else Deny(FailedExternalReachability)
      case NotRequired =>
        if !IsPeerWhitelisted(s.reloaded, s.peerIp.value, Client) then Deny(ClientNotWhitelisted)
        else Grant(Client)
  }

  /** Exactly what a grant vouches for. */
  ghost predicate Entitled(own: Uid, request: BootstrapRequest, s: Surroundings, user: CrustUser) {
    && own != request.uid
    && request.nameHash == s.before.networkNameHash
    && (user.Node? <==> request.reachability.Required?)
    && s.peerIp.Some?
    && (user.Node? && s.reloaded.whitelistedNodeIps.Some? ==> s.peerIp.value in s.reloaded.whitelistedNodeIps.value)
    && (user.Client? && s.reloaded.whitelistedClientIps.Some? ==> s.peerIp.value in s.reloaded.whitelistedClientIps.value)
    && (user.Node? && !(s.before.dev.Some? && s.before.dev.value.disableExternalReachabilityRequirement) ==>
          exists a :: a in request.reachability.directListeners && a.ip in s.globalIps && a in s.reachable)
  }

  lemma GrantIff(own: Uid, request: BootstrapRequest, s: Surroundings, user: CrustUser)
    ensures Judge(own, request, s) == Grant(user) <==> Entitled(own, request, s, user)
  {
  }

  /** Silence means a connection to ourselves or a destroyed socket, and nothing else. */
  lemma NoAnswerIff(own: Uid, request: BootstrapRequest, s: Surroundings)
    ensures Judge(own, request, s).NoAnswer? <==>
      own == request.uid || s.peerIp.None?
  {
  }

  /** Which reason goes with which failed test, and in which order they are made. */
  lemma DenyIff(own: Uid, request: BootstrapRequest, s: Surroundings)
    requires own != request.uid && s.peerIp.Some?
    ensures Judge(own, request, s) == Deny(InvalidNameHash) <==> request.nameHash != s.before.networkNameHash
    ensures Judge(own, request, s) == Deny(NodeNotWhitelisted) <==>
      && request.nameHash == s.before.networkNameHash && request.reachability.Required?
      && s.reloaded.whitelistedNodeIps.Some? && s.peerIp.value !in s.reloaded.whitelistedNodeIps.value
    ensures Judge(own, request, s) == Deny(ClientNotWhitelisted) <==>
      && request.nameHash == s.before.networkNameHash && request.reachability.NotRequired?
      && s.reloaded.whitelistedClientIps.Some? && s.peerIp.value !in s.reloaded.whitelistedClientIps.value
    ensures Judge(own, request, s) == Deny(FailedExternalReachability) <==>
      && request.nameHash == s.before.networkNameHash && request.reachability.Required?
      && (s.reloaded.whitelistedNodeIps.Some? ==> s.peerIp.value in s.reloaded.whitelistedNodeIps.value)
      && (s.before.dev.Some? ==> !s.before.dev.value.disableExternalReachabilityRequirement)
      && forall a :: a in request.reachability.directListeners && a.ip in s.globalIps ==> a !in s.reachable
  {
  }

  // The two ends of one socket

  datatype Frame = Request(request: BootstrapRequest) | Granted(uid: Uid) | Denied(reason: DenyReason) | PeerMessage

  datatype InitiatorPhase = Fresh | AwaitingVerdict | HasPeer(uid: Uid, user: CrustUser) | WasDenied(reason: DenyReason) | Gone

  /** The acceptor's phase; the judgement, once made, keeps what it was based on. */
  datatype AcceptorPhase =
    | AwaitingRequest
    | Judging(request: BootstrapRequest)
    | Accepted(uid: Uid, user: CrustUser)
    | Ended

  datatype Judgement = Judgement(request: BootstrapRequest, surroundings: Surroundings)

  datatype Link = Link(
    initiator: InitiatorPhase,
    acceptor: AcceptorPhase,
    toAcceptor: seq<Frame>,
    toInitiator: seq<Frame>,
    readByAcceptor: nat,
    readByInitiator: nat,
    judgement: Option<Judgement>)

  datatype Event =
    | SendRequest(nameHash: NameHash, reachability: ExternalReachability)
    | ReadRequest
    | Answer(surroundings: Surroundings, constructed: bool)
    | ReadVerdict(constructed: bool)
    | InitiatorSends
    | AcceptorSends
    | InitiatorReads
    | AcceptorReads
    | InitiatorFails
    | AcceptorFails

  const START: Link := Link(Fresh, AwaitingRequest, [], [], 0, 0, None)

  predicate Enabled(l: Link, e: Event) {
    match e
    case SendRequest(_, _) => l.initiator.Fresh?
    case ReadRequest => l.acceptor.AwaitingRequest? && l.readByAcceptor < |l.toAcceptor|
    case Answer(_, _) => l.acceptor.Judging?
    case ReadVerdict(_) => l.initiator.AwaitingVerdict? && l.readByInitiator < |l.toInitiator|
    case InitiatorSends => l.initiator.HasPeer?
    case AcceptorSends => l.acceptor.Accepted?
    case InitiatorReads => l.initiator.HasPeer? && l.readByInitiator < |l.toInitiator|
    case AcceptorReads => l.acceptor.Accepted? && l.readByAcceptor < |l.toAcceptor|
    case InitiatorFails => true
    case AcceptorFails => true
  }

  /** `ours` asks `theirs`. An event that cannot happen changes nothing. */
  function Apply(ours: Uid, theirs: Uid, l: Link, e: Event): Link {
    if !Enabled(l, e) then l
    else match e
      case SendRequest(nameHash, reachability) =>
        l.(initiator := AwaitingVerdict, toAcceptor := l.toAcceptor + [Request(BootstrapRequest(ours, nameHash, reachability))])
      case ReadRequest =>
        var frame := l.toAcceptor[l.readByAcceptor];
        l.(readByAcceptor := l.readByAcceptor + 1, acceptor := if frame.Request? then Judging(frame.request) else Ended)
      case Answer(s, constructed) =>
        var request := l.acceptor.request;
        var l' := l.(judgement := Some(Judgement(request, s)));
        (match Judge(theirs, request, s)
         case NoAnswer => l'.(acceptor := Ended)
         case Deny(reason) => l'.(acceptor := Ended, toInitiator := l.toInitiator + [Denied(reason)])
         case Grant(user) =>
           l'.(acceptor := if constructed then Accepted(request.uid, user) else Ended,
               toInitiator := l.toInitiator + [Granted(theirs)]))
      case ReadVerdict(constructed) =>
        var frame := l.toInitiator[l.readByInitiator];
        l.(readByInitiator := l.readByInitiator + 1,
           initiator := match frame
             case Granted(uid) => if constructed then HasPeer(uid, Node) else Gone
             case Denied(reason) => WasDenied(reason)
             case _ => Gone)
      case InitiatorSends => l.(toAcceptor := l.toAcceptor + [PeerMessage])
      case AcceptorSends => l.(toInitiator := l.toInitiator + [PeerMessage])
      case InitiatorReads =>
        l.(readByInitiator := l.readByInitiator + 1,
           initiator := if l.toInitiator[l.readByInitiator].PeerMessage? then l.initiator else Gone)
      case AcceptorReads =>
        l.(readByAcceptor := l.readByAcceptor + 1,
           acceptor := if l.toAcceptor[l.readByAcceptor].PeerMessage? then l.acceptor else Ended)
      case InitiatorFails => l.(initiator := Gone)
      case AcceptorFails => l.(acceptor := Ended)
  }

  function After(ours: Uid, theirs: Uid, es: seq<Event>): Link {
    if es == [] then START else Apply(ours, theirs, After(ours, theirs, es[..|es| - 1]), es[|es| - 1])
  }

  /** The first frame back is what the judgement calls for, and there is only one before peer messages. */
  ghost predicate Inv(ours: Uid, theirs: Uid, l: Link) {
    && l.readByAcceptor <= |l.toAcceptor| && l.readByInitiator <= |l.toInitiator|
    && (forall i :: 0 <= i < |l.toAcceptor| ==> if i == 0 then l.toAcceptor[i].Request? && l.toAcceptor[i].request.uid == ours else l.toAcceptor[i].PeerMessage?)
    && (forall i :: 0 < i < |l.toInitiator| ==> l.toInitiator[i].PeerMessage?)
    && (|l.toInitiator| > 1 ==> l.toInitiator[0].Granted?)
    && (l.initiator.Fresh? <==> l.toAcceptor == [] && !l.initiator.Gone?)
    && (l.initiator.AwaitingVerdict? || l.initiator.Fresh? ==> l.readByInitiator == 0)
    && (l.initiator.HasPeer? ==>
          l.readByInitiator >= 1 && l.initiator.user.Node? && l.toInitiator[0] == Granted(l.initiator.uid))
    && (l.initiator.WasDenied? ==> |l.toInitiator| >= 1 && l.toInitiator[0] == Denied(l.initiator.reason))
    && (l.acceptor.AwaitingRequest? ==> l.readByAcceptor == 0)
    && (l.acceptor.Judging? ==> l.readByAcceptor == 1 && l.toAcceptor[0] == Request(l.acceptor.request))
    && (l.acceptor.AwaitingRequest? || l.acceptor.Judging? ==> l.judgement.None?)
    && (l.acceptor.Accepted? ==>
          && l.readByAcceptor >= 1 && |l.toInitiator| >= 1 && l.toInitiator[0] == Granted(theirs)
          && l.acceptor.uid == ours && l.judgement.Some?
          && Judge(theirs, l.judgement.value.request, l.judgement.value.surroundings) == Grant(l.acceptor.user))
    && (l.judgement.None? ==> l.toInitiator == [])
    && (l.judgement.Some? ==>
          && |l.toAcceptor| >= 1 && l.toAcceptor[0] == Request(l.judgement.value.request)
          && match Judge(theirs, l.judgement.value.request, l.judgement.value.surroundings)
             case NoAnswer => l.toInitiator == []
             case Deny(reason) => l.toInitiator == [Denied(reason)]
             case Grant(user) => |l.toInitiator| >= 1 && l.toInitiator[0] == Granted(theirs))
  }

  lemma ApplyKeepsInv(ours: Uid, theirs: Uid, l: Link, e: Event)
    requires Inv(ours, theirs, l)
    ensures Inv(ours, theirs, Apply(ours, theirs, l, e))
  {
  }

  lemma {:induction false} InvHolds(ours: Uid, theirs: Uid, es: seq<Event>)
    ensures Inv(ours, theirs, After(ours, theirs, es))
  {
    if es != [] {
      InvHolds(ours, theirs, es[..|es| - 1]);
      ApplyKeepsInv(ours, theirs, After(ours, theirs, es[..|es| - 1]), es[|es| - 1]);
    }
  }

  // What the handshake promises

  /** The initiator only gets a peer when the acceptor found its request, as it was sent, entitled to one; and
      both sides name each other. */
  lemma {:induction false} PeerMeansEntitled(ours: Uid, theirs: Uid, es: seq<Event>)
    requires After(ours, theirs, es).initiator.HasPeer?
    ensures var l := After(ours, theirs, es);
            && l.initiator.uid == theirs && l.initiator.user.Node?
            && l.judgement.Some? && |l.toAcceptor| > 0 && l.toAcceptor[0] == Request(l.judgement.value.request)
            && l.judgement.value.request.uid == ours
            && (l.acceptor.Accepted? ==> l.acceptor.uid == ours)
            && exists user :: Entitled(theirs, l.judgement.value.request, l.judgement.value.surroundings, user)
  {
    InvHolds(ours, theirs, es);
    var l := After(ours, theirs, es);
    match Judge(theirs, l.judgement.value.request, l.judgement.value.surroundings)
    case Grant(user) => GrantIff(theirs, l.judgement.value.request, l.judgement.value.surroundings, user);
    case _ =>
  }

  /** The request on the wire is the one the initiator was asked to make: its own uid, and the name hash and
      reachability it was given. */
  lemma {:induction false} RequestIsAsGiven(ours: Uid, theirs: Uid, es: seq<Event>) returns (k: nat)
    requires After(ours, theirs, es).toAcceptor != []
    ensures k < |es| && es[k].SendRequest?
    ensures After(ours, theirs, es).toAcceptor[0] == Request(BootstrapRequest(ours, es[k].nameHash, es[k].reachability))
    decreases |es|
  {
    var init := es[..|es| - 1];
    if After(ours, theirs, init).toAcceptor == [] {
      InvHolds(ours, theirs, init);
      k := |es| - 1;
    } else {
      k := RequestIsAsGiven(ours, theirs, init);
    }
  }

  // Progress, from every moment of every run

  lemma {:induction false} RequestCanBeSent(ours: Uid, theirs: Uid, es: seq<Event>, nameHash: NameHash, reachability: ExternalReachability)
    requires After(ours, theirs, es).initiator.Fresh?
    ensures var l' := Apply(ours, theirs, After(ours, theirs, es), SendRequest(nameHash, reachability));
            l'.initiator.AwaitingVerdict? && l'.toAcceptor == [Request(BootstrapRequest(ours, nameHash, reachability))]
  {
    InvHolds(ours, theirs, es);
  }

  /** A request that was sent can be read as it was sent. */
  lemma {:induction false} RequestIsRead(ours: Uid, theirs: Uid, es: seq<Event>)
    requires After(ours, theirs, es).acceptor.AwaitingRequest? && After(ours, theirs, es).toAcceptor != []
    ensures var l := After(ours, theirs, es);
            var acceptor := Apply(ours, theirs, l, ReadRequest).acceptor;
            acceptor.Judging? && l.toAcceptor[0] == Request(acceptor.request)
  {
    InvHolds(ours, theirs, es);
  }

  /** A request that was read can be judged: the acceptor has its peer exactly when it grants, and what it puts on
      the wire is the verdict. */
  lemma {:induction false} RequestIsJudged(ours: Uid, theirs: Uid, es: seq<Event>, s: Surroundings)
    requires After(ours, theirs, es).acceptor.Judging?
    ensures var l := After(ours, theirs, es);
            var l' := Apply(ours, theirs, l, Answer(s, true));
            && l'.judgement == Some(Judgement(l.acceptor.request, s))
            && match Judge(theirs, l.acceptor.request, s)
               case NoAnswer => l'.acceptor.Ended? && l'.toInitiator == []
               case Deny(reason) => l'.acceptor.Ended? && l'.toInitiator == [Denied(reason)]
               case Grant(user) => l'.acceptor == Accepted(ours, user) && l'.toInitiator == [Granted(theirs)]
  {
    InvHolds(ours, theirs, es);
  }

  /** An initiator that waits can read the verdict as soon as there is one: granted, it gets its peer, with the
      acceptor's uid; denied, it learns why. */
  lemma {:induction false} VerdictArrives(ours: Uid, theirs: Uid, es: seq<Event>)
    requires After(ours, theirs, es).initiator.AwaitingVerdict? && After(ours, theirs, es).judgement.Some?
    ensures var l := After(ours, theirs, es);
            var l' := Apply(ours, theirs, l, ReadVerdict(true));
            match Judge(theirs, l.judgement.value.request, l.judgement.value.surroundings)
            case NoAnswer => l' == l
            case Deny(reason) => l'.initiator == WasDenied(reason)
            case Grant(_) => l'.initiator == HasPeer(theirs, Node)
  {
    InvHolds(ours, theirs, es);
  }

  /** Two peers can go on talking: what either sends waits for the other, which reads it and stays connected. */
  lemma {:induction false} PeersCanTalk(ours: Uid, theirs: Uid, es: seq<Event>)
    requires After(ours, theirs, es).initiator.HasPeer? && After(ours, theirs, es).acceptor.Accepted?
    ensures var l := After(ours, theirs, es);
            var l1 := Apply(ours, theirs, Apply(ours, theirs, l, InitiatorSends), AcceptorReads);
            l1.acceptor == l.acceptor && l1.readByAcceptor == l.readByAcceptor + 1 && |l1.toAcceptor| == |l.toAcceptor| + 1
    ensures var l := After(ours, theirs, es);
            var l2 := Apply(ours, theirs, Apply(ours, theirs, l, AcceptorSends), InitiatorReads);
            l2.initiator == l.initiator && l2.readByInitiator == l.readByInitiator + 1 && |l2.toInitiator| == |l.toInitiator| + 1
  {
    InvHolds(ours, theirs, es);
    ApplyKeepsInv(ours, theirs, After(ours, theirs, es), InitiatorSends);
    ApplyKeepsInv(ours, theirs, After(ours, theirs, es), AcceptorSends);
  }

  /** An initiator that was denied learns the reason the acceptor had. */
  lemma {:induction false} DenialIsFaithful(ours: Uid, theirs: Uid, es: seq<Event>)
    requires After(ours, theirs, es).initiator.WasDenied?
    ensures var l := After(ours, theirs, es);
            && l.judgement.Some?
            && Judge(theirs, l.judgement.value.request, l.judgement.value.surroundings) == Deny(l.initiator.reason)
  {
    InvHolds(ours, theirs, es);
  }

  /** A request that was judged stays unanswered exactly when the judgement was silence. */
  lemma {:induction false} UnansweredIff(ours: Uid, theirs: Uid, es: seq<Event>)
    requires After(ours, theirs, es).judgement.Some?
    ensures var l := After(ours, theirs, es);
            var j := l.judgement.value;
            l.toInitiator == [] <==> theirs == ours || j.surroundings.peerIp.None?
  {
    InvHolds(ours, theirs, es);
    var j := After(ours, theirs, es).judgement.value;
    NoAnswerIff(theirs, j.request, j.surroundings);
  }

  /** No request gets more than one answer, and only a judgement that is not silence sends one. */
  lemma {:induction false} OneAnswer(ours: Uid, theirs: Uid, es: seq<Event>, i: nat)
    requires i < |After(ours, theirs, es).toInitiator|
    ensures var l := After(ours, theirs, es);
            && (l.toInitiator[i].Granted? || l.toInitiator[i].Denied? <==> i == 0)
            && l.judgement.Some?
            && !Judge(theirs, l.judgement.value.request, l.judgement.value.surroundings).NoAnswer?
  {
    InvHolds(ours, theirs, es);
  }

  /** Phase agreement: each side finds the next frame at the type it reads. */
  lemma {:induction false} FramesAreReadAtTheirType(ours: Uid, theirs: Uid, es: seq<Event>)
    ensures var l := After(ours, theirs, es);
            && (l.readByAcceptor < |l.toAcceptor| ==>
                  && (l.acceptor.AwaitingRequest? ==> l.toAcceptor[l.readByAcceptor].Request?)
                  && (l.acceptor.Accepted? ==> l.toAcceptor[l.readByAcceptor].PeerMessage?))
            && (l.readByInitiator < |l.toInitiator| ==>
                  && (l.initiator.AwaitingVerdict? ==> l.toInitiator[l.readByInitiator].Granted? || l.toInitiator[l.readByInitiator].Denied?)
                  && (l.initiator.HasPeer? ==> l.toInitiator[l.readByInitiator].PeerMessage?))
  {
    InvHolds(ours, theirs, es);
  }
}
