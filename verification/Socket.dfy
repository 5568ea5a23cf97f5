/** The socket and its writing task as objects that share an unbounded channel. */
module Sockets {
  import opened Seqs
  import opened SocketQueue

  class Channel<T> {
    var items: seq<TaskMsg<T>>

    constructor ()
      ensures items == []
    {
      items := [];
    }
  }

  datatype Incoming<+T> = Frame(body: T) | Undecodable | EndOfStream | IoError | NotYet

  datatype Received<+T> = Message(body: T) | Error | Pending

  /** The handle given to the user. `inner` is false once the socket has been destroyed. */
  class Socket<T> {
    const writeTx: Channel<T>
    var inner: bool
    var submitted: nat

    constructor (writeTx: Channel<T>, submitted: nat)
      ensures this.writeTx == writeTx && inner && this.submitted == submitted
    {
      this.writeTx, inner, this.submitted := writeTx, true, submitted;
    }

    /** Never refuses and never blocks: the channel is unbounded. */
    method StartSend(priority: Priority, body: T) returns (ok: bool)
      modifies this`submitted, writeTx
      ensures ok == inner
      ensures submitted == old(submitted) + if ok then 1 else 0
      ensures writeTx.items == old(writeTx.items) + if ok then [Send(Msg(old(submitted), priority, body))] else []
    {
      ok := inner;
      if ok {
        writeTx.items := writeTx.items + [Send(Msg(submitted, priority, body))];
        submitted := submitted + 1;
      }
    }

    /** Any error or the end of the stream destroys the socket, and only that asks the task to shut down. */
    method Poll(incoming: Incoming<T>) returns (r: Received<T>)
      modifies this`inner, writeTx
      ensures inner == (old(inner) && (incoming.Frame? || incoming.NotYet?))
      ensures r.Error? <==> !inner
      ensures r.Message? <==> old(inner) && incoming.Frame?
      ensures r.Message? ==> r.body == incoming.body
      ensures writeTx.items == old(writeTx.items) + if old(inner) && !inner then [Shutdown] else []
    {
      if !inner {
        return Error;
      }
      match incoming {
        case Frame(body) => return Message(body);
        case NotYet => return Pending;
        case Undecodable | EndOfStream | IoError =>
          Drop();
          return Error;
      }
    }

    method Drop()
      modifies this`inner, writeTx
      ensures !inner
      ensures writeTx.items == old(writeTx.items) + if old(inner) then [Shutdown] else []
    {
      if inner {
        writeTx.items := writeTx.items + [Shutdown];
        inner := false;
      }
    }

    /** The new socket takes over the channel with everything still in it; the old one is moved from, not
        dropped, so the task is not asked to shut down. */
    method ChangeMessageType() returns (s: Socket<T>)
      requires inner
      modifies this`inner
      ensures fresh(s) && s.inner && s.writeTx == writeTx && s.submitted == submitted
      ensures writeTx.items == old(writeTx.items) && !inner
    {
      s := new Socket(writeTx, submitted);
      inner := false;
    }
  }

  /** The task that owns the write half of the transport. */
  class SocketTask<T> {
    const writeRx: Channel<T>
    var streamRx: bool
    var streamTx: bool
    var writeQueue: Queues<T>
    var status: Status
    ghost var log: seq<Fated<T>>

    ghost function Value(): Task<T>
      reads this, writeRx
    {
      Task(writeQueue, writeRx.items, streamRx, streamTx, status, log)
    }

    constructor (writeRx: Channel<T>)
      ensures this.writeRx == writeRx
      ensures writeRx.items == [] ==> Value() == Task(map[], [], false, true, Running, [])
    {
      this.writeRx := writeRx;
      streamRx, streamTx, writeQueue, status, log := false, true, map[], Running, [];
    }

    method ReadChannel(now: nat)
      modifies this`writeQueue, this`streamRx, writeRx
      ensures var i := Intake(old(writeRx.items), old(writeQueue), now);
              writeQueue == i.queue && writeRx.items == i.inbox && streamRx == (old(streamRx) || i.shutdown)
    {
      ghost var all := Intake(writeRx.items, writeQueue, now);
      while writeRx.items != []
        invariant Intake(writeRx.items, writeQueue, now) == all
        invariant streamRx == old(streamRx)
        decreases |writeRx.items|
      {
        var msg := writeRx.items[0];
        writeRx.items := writeRx.items[1..];
        match msg {
          case Send(m) =>
            writeQueue := Push(writeQueue, Entry(now, m));
          case Shutdown =>
            streamRx := true;
            break;
        }
      }
    }

    /** Skips urgent priorities, then every queue whose front is not stale. */
    method FirstExpired(checked: nat) returns (cut: nat)
      ensures cut == Cut(writeQueue, checked)
    {
      cut := 0;
      while cut < 256 && (cut < MSG_DROP_PRIORITY || !FrontStale(writeQueue, cut, checked))
        invariant cut <= Cut(writeQueue, checked)
      {
        cut := cut + 1;
      }
    }

    method RemoveFrom(cut: nat)
      requires cut <= 256
      modifies this`writeQueue, this`log
      ensures writeQueue == Below(old(writeQueue), cut)
      ensures log == old(log) + WithFate(Msgs(Flatten(old(writeQueue), cut)), Expired)
    {
      ghost var q, removed := writeQueue, [];
      var p := cut;
      while p < 256
        invariant cut <= p <= 256
        invariant writeQueue == q - Between(q, cut, p)
        invariant Msgs(Flatten(q, cut)) == removed + Msgs(Flatten(q, p))
        invariant log == old(log) + WithFate(removed, Expired)
      {
        ghost var gone := Msgs(At(q, p));
        MsgsConcat(At(q, p), Flatten(q, p + 1));
        ConcatAssociates(removed, gone, Msgs(Flatten(q, p + 1)));
        WithFateConcat(removed, gone, Expired);
        ConcatAssociates(old(log), WithFate(removed, Expired), WithFate(gone, Expired));
        if p in writeQueue {
          log := log + WithFate(gone, Expired);
          writeQueue := writeQueue - {p};
        }
        removed := removed + gone;
        p := p + 1;
      }
    }

    method DropExpired(checked: nat)
      modifies this`writeQueue, this`log
      ensures var q := old(writeQueue);
              && writeQueue == Below(q, Cut(q, checked))
              && log == old(log) + WithFate(Msgs(Flatten(q, Cut(q, checked))), Expired)
    {
      var cut := FirstExpired(checked);
      RemoveFrom(cut);
    }

    /** Takes the front of a queue to the sink, and puts it back when the sink has no room for it. */
    method OfferFront(p: Priority, room: nat, breaks: bool) returns (answer: Offer)
      requires At(writeQueue, p) != []
      modifies this`writeQueue, this`log
      ensures answer == if room > 0 then Taken else if breaks then Broke else NoRoom
      ensures writeQueue == if answer.NoRoom? then old(writeQueue) else Pop(old(writeQueue), p)
      ensures var front := [At(old(writeQueue), p)[0].msg];
              log == old(log) + (match answer case Taken => WithFate(front, Sent)
                                              case Broke => WithFate(front, Lost)
                                              case NoRoom => [])
    {
      var front := At(writeQueue, p)[0];
      PushFrontUndoesPop(writeQueue, p);
      writeQueue := Pop(writeQueue, p);
      if room > 0 {
        log := log + WithFate([front.msg], Sent);
        answer := Taken;
      } else if breaks {
        log := log + WithFate([front.msg], Lost);
        answer := Broke;
      } else {
        writeQueue := writeQueue[p := [front] + At(writeQueue, p)];
        answer := NoRoom;
      }
    }

    /** Returns whether all queues were emptied and whether the sink broke. */
    method FeedSink(answers: SinkAnswers) returns (all: bool, broken: bool)
      modifies this`writeQueue, this`log
      ensures var d := Drain(old(writeQueue), 0, answers.accepts, answers.breaks);
              && writeQueue == d.queue
              && log == old(log) + WithFate(d.sent, Sent) + WithFate(d.lost, Lost)
              && all == d.all
              && broken == (d.lost != [])
    {
      ghost var d, sent := Drain(writeQueue, 0, answers.accepts, answers.breaks), [];
      var p: nat, room := 0, answers.accepts;
      while p < 256
        invariant p <= 256
        invariant d == Sending(sent, Drain(writeQueue, p, room, answers.breaks))
        invariant log == old(log) + WithFate(sent, Sent)
      {
        while At(writeQueue, p) != []
          invariant d == Sending(sent, Drain(writeQueue, p, room, answers.breaks))
          invariant log == old(log) + WithFate(sent, Sent)
          decreases |At(writeQueue, p)|
        {
          ghost var front := At(writeQueue, p)[0].msg;
          SendingStep(sent, writeQueue, p, room, answers.breaks);
          var answer := OfferFront(p, room, answers.breaks);
          if !answer.Taken? {
            return false, answer.Broke?;
          }
          WithFateConcat(sent, [front], Sent);
          sent, room := sent + [front], room - 1;
        }
        p := p + 1;
      }
      return true, false;
    }

    method Poll(now: nat, checked: nat, answers: SinkAnswers) returns (outcome: Status)
      requires status.Running? && streamTx && now <= checked
      modifies this, writeRx
      ensures Value() == SocketQueue.Poll(old(Value()), now, checked, answers)
      ensures outcome == status && (status.Running? ==> streamTx)
    {
      ghost var t := Value();
      ghost var d, dropped := Fed(t, now, checked, answers), Dropped(t, now, checked);
      ReadChannel(now);
      DropExpired(checked);
      var all, broken := FeedSink(answers);
      assert log == t.log + Log(dropped, d.sent, d.lost) by {
        ConcatAssociates(t.log, WithFate(dropped, Expired) + WithFate(d.sent, Sent), WithFate(d.lost, Lost));
        ConcatAssociates(t.log, WithFate(dropped, Expired), WithFate(d.sent, Sent));
      }
      if broken || answers.flush.Broken? {
        status := Failed;
      } else if answers.flush.Flushed? && all && streamRx {
        streamRx, streamTx := false, false;
        status := if answers.closes then Finished else Failed;
      }
      outcome := status;
    }
  }

  datatype Offer = Taken | NoRoom | Broke

  /** The result `d` of the rest of a drain, after `sent` has already gone out. */
  ghost function Sending<T>(sent: seq<Msg<T>>, d: DrainResult<T>): DrainResult<T> {
    d.(sent := sent + d.sent)
  }

  lemma SendingStep<T>(sent: seq<Msg<T>>, q: Queues<T>, p: Priority, room: nat, breaks: bool)
    requires At(q, p) != []
    ensures var front := At(q, p)[0].msg;
            Sending(sent, Drain(q, p, room, breaks)) ==
              if room > 0 then Sending(sent + [front], Drain(Pop(q, p), p, room - 1, breaks))
              else if breaks then DrainResult(Pop(q, p), sent, [front], false)
              else DrainResult(q, sent, [], false)
  {
    if room > 0 {
      ConcatAssociates(sent, [At(q, p)[0].msg], Drain(Pop(q, p), p, room - 1, breaks).sent);
    }
  }
}
