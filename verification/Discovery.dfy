/** Service discovery: a server that answers requests with its latest data, fed by a forwarder. */
module DiscoveryServer {
  import opened Seqs

  datatype Kind = Request | OtherMessage | Undecodable

  datatype Datagram = Datagram(from: nat, kind: Kind)

  datatype Response<+T> = Response(to: nat, data: T)

  /** The server reads one datagram or writes one response at a time. */
  datatype State<+T> = Reading | Writing(response: Response<T>)

  /** What a poll of the state machine does: responses sent, datagrams taken and writes used. */
  datatype Served<+T> = Served(state: State<T>, taken: nat, sent: seq<Response<T>>)

  /** Runs until there is nothing to read or no room to write; `writes` responses can be written at once. */
  function Serve<T>(data: T, state: State<T>, inbox: seq<Datagram>, writes: nat): (s: Served<T>)
    ensures s.taken <= |inbox| && |s.sent| <= writes
    ensures s.state.Reading? ==> s.taken == |inbox|
    ensures s.state.Writing? ==> |s.sent| == writes
    decreases |inbox|, state.Writing?
  {
    match state
    case Reading =>
      if inbox == [] then Served(Reading, 0, [])
      else
        var next := if inbox[0].kind.Request? then Writing(Response(inbox[0].from, data)) else Reading;
        var s := Serve(data, next, inbox[1..], writes);
        s.(taken := s.taken + 1)
    case Writing(response) =>
      if writes == 0 then Served(state, 0, [])
      else
        var s := Serve(data, Reading, inbox, writes - 1);
        s.(sent := [response] + s.sent)
  }

  /** The requests of an inbox, each answered with this data. */
  function Answers<T>(data: T, inbox: seq<Datagram>): seq<Response<T>> {
    if inbox == [] then []
    else (if inbox[0].kind.Request? then [Response(inbox[0].from, data)] else []) + Answers(data, inbox[1..])
  }

  function InHand<T>(state: State<T>): seq<Response<T>> {
    match state case Reading => [] case Writing(response) => [response]
  }

  /** Every request taken is answered once, in order, to whoever asked: the response in hand at the start goes
      out first, and the last answer may still be in hand at the end. */
  lemma {:induction false} ServeAnswersAll<T>(data: T, state: State<T>, inbox: seq<Datagram>, writes: nat)
    ensures var s := Serve(data, state, inbox, writes);
            s.sent + InHand(s.state) == InHand(state) + Answers(data, inbox[..s.taken])
    decreases |inbox|, state.Writing?
  {
    match state
    case Reading =>
      if inbox != [] {
        var next := if inbox[0].kind.Request? then Writing(Response(inbox[0].from, data)) else Reading;
        ServeAnswersAll(data, next, inbox[1..], writes);
        var taken := Serve(data, next, inbox[1..], writes).taken;
        assert inbox[..taken + 1][1..] == inbox[1..][..taken];
      }
    case Writing(response) =>
      if writes > 0 {
        ServeAnswersAll(data, Reading, inbox, writes - 1);
        var s := Serve(data, Reading, inbox, writes - 1);
        ConcatAssociates([response], s.sent, InHand(s.state));
        assert [] + Answers(data, inbox[..s.taken]) == Answers(data, inbox[..s.taken]);
      }
  }

  lemma {:induction false} AnswersConcat<T>(data: T, a: seq<Datagram>, b: seq<Datagram>)
    ensures Answers(data, a + b) == Answers(data, a) + Answers(data, b)
  {
    if a == [] {
      assert a + b == b;
      ConcatEmpty(Answers(data, b));
    } else {
      AnswersConcat(data, a[1..], b);
      assert (a + b)[1..] == a[1..] + b;
      var first := if a[0].kind.Request? then [Response(a[0].from, data)] else [];
      ConcatAssociates(first, Answers(data, a[1..]), Answers(data, b));
    }
  }

  /** With nothing in hand and room for as many responses, one poll reads the whole inbox and has answered every
      request in it when it ends: the next one to whoever sent it, and nothing for anything else. */
  lemma PollAnswersEveryRequest<T>(data: T, inbox: seq<Datagram>, d: Datagram, writes: nat)
    requires writes > |inbox|
    ensures var s, s' := Serve(data, Reading, inbox, writes), Serve(data, Reading, inbox + [d], writes);
            && s.state.Reading? && s'.state.Reading? && s'.taken == |inbox| + 1
            && s'.sent == s.sent + if d.kind.Request? then [Response(d.from, data)] else []
    ensures Serve(data, Reading, [], writes).sent == []
  {
    RoomForAll(data, inbox, writes);
    RoomForAll(data, inbox + [d], writes);
    AnswersConcat(data, inbox, [d]);
    assert Answers(data, [d]) == (if d.kind.Request? then [Response(d.from, data)] else []) + Answers(data, []);
  }

  lemma {:induction false} AnswersAreFew<T>(data: T, inbox: seq<Datagram>)
    ensures |Answers(data, inbox)| <= |inbox|
  {
    if inbox != [] {
      AnswersAreFew(data, inbox[1..]);
    }
  }

  lemma RoomForAll<T>(data: T, inbox: seq<Datagram>, writes: nat)
    requires writes >= |inbox|
    ensures var s := Serve(data, Reading, inbox, writes);
            s.state.Reading? && s.taken == |inbox| && s.sent == Answers(data, inbox)
  {
    var s := Serve(data, Reading, inbox, writes);
    ServeAnswersAll(data, Reading, inbox, writes);
    AnswersAreFew(data, inbox[..s.taken]);
    ConcatEmpty(Answers(data, inbox[..s.taken]));
    ConcatEmpty(s.sent);
    assert inbox[..|inbox|] == inbox;
  }

  /** The last of the values sent, or the one there was. */
  function Newest<T>(data: T, items: seq<T>): T {
    if items == [] then data else items[|items| - 1]
  }

  class DataChannel<T> {
    var items: seq<T>
    var closed: bool

    constructor ()
      ensures items == [] && !closed
    {
      items, closed := [], false;
    }
  }

  class ServerTask<T> {
    const dataRx: DataChannel<T>
    var data: T
    var state: State<T>
    var sent: seq<Response<T>>

    constructor (dataRx: DataChannel<T>, data: T)
      ensures this.dataRx == dataRx && this.data == data && state == Reading && sent == []
    {
      this.dataRx, this.data, state, sent := dataRx, data, Reading, [];
    }

    /** Takes everything the channel holds; only the newest data stays. */
    method TakeData()
      modifies this`data, dataRx`items
      ensures dataRx.items == [] && data == Newest(old(data), old(dataRx.items))
    {
      while dataRx.items != []
        invariant Newest(data, dataRx.items) == Newest(old(data), old(dataRx.items))
        decreases |dataRx.items|
      {
        data := dataRx.items[0];
        dataRx.items := dataRx.items[1..];
      }
    }

    /** Takes the newest data first, then serves. Returns true when the task is over, which leaves whatever
        it had in hand unserved. */
    method Poll(inbox: seq<Datagram>, writes: nat) returns (ended: bool, taken: nat)
      modifies this, dataRx`items
      ensures dataRx.items == [] && ended == dataRx.closed
      ensures data == Newest(old(data), old(dataRx.items))
      ensures ended ==> state == old(state) && sent == old(sent) && taken == 0
      ensures !ended ==>
        var s := Serve(data, old(state), inbox, writes);
        state == s.state && taken == s.taken && sent == old(sent) + s.sent
    {
      TakeData();
      taken := 0;
      if dataRx.closed {
        return true, taken;
      }
      var room, busy := writes, true;
      ghost var all := Serve(data, state, inbox, writes);
      while busy
        invariant taken <= |inbox| && dataRx.items == []
        invariant data == Newest(old(data), old(dataRx.items))
        invariant var rest := Serve(data, state, inbox[taken..], room);
                  && all.state == rest.state && all.taken == taken + rest.taken
                  && old(sent) + all.sent == sent + rest.sent
                  && (!busy ==> rest == Served(state, 0, []))
        decreases busy, |inbox| - taken, state.Writing?
      {
        match state {
          case Reading =>
            if taken < |inbox| {
              var d := inbox[taken];
              assert inbox[taken..][0] == d && inbox[taken..][1..] == inbox[taken + 1..];
              state := if d.kind.Request? then Writing(Response(d.from, data)) else Reading;
              taken := taken + 1;
            } else {
              busy := false;
            }
          case Writing(response) =>
            if room > 0 {
              ConcatAssociates(sent, [response], Serve(data, Reading, inbox[taken..], room - 1).sent);
              sent := sent + [response];
              room := room - 1;
              state := Reading;
            } else {
              busy := false;
            }
        }
      }
      ended := false;
    }
  }
}
