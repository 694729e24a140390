/** The connection object whose fields the goroutines update, one atomic section per method. Each
    method performs one step of the protocol; the asserts are the operations that would panic. */
module ConnectionObject {
  import opened Connection
  import opened ConnectionSafety
  import opened ConnectionLedger
  import opened ConnectionRuns

  // ---------------------------------------------------------------- what the channel operations rely on

  lemma QueueIsSafe(s: State)
    requires Reachable(s)
    ensures s.mailbox.closed ==> s.mailbox.closing && s.mailbox.closer.Closed?
  {
    ReachableKeeps(s);
  }

  lemma BeginIsSafe(s: State, startTLS: bool)
    requires Reachable(s) && Enabled(s, Begin(startTLS))
    ensures s.ledger.nextId >= 1 && Reachable(BeginStep(s, startTLS))
  {
    ReachableKeeps(s);
    StepIsReachable(s, Begin(startTLS));
  }

  lemma CounterIsSafe(s: State, i: nat)
    requires Reachable(s) && InPhase(s.ledger, i, FinishChecked)
    ensures s.ledger.outstanding > 0
  {
    ReachableKeeps(s);
    ChargedAtLeast(s.ledger.callers, i);
  }

  lemma DequeueIsSafe(s: State, writeOk: bool, arm: bool)
    requires Reachable(s) && Enabled(s, Dequeue(writeOk, arm))
    ensures s.mailbox.queue != []
    ensures var x := s.mailbox.queue[0];
      && (x.Request? ==> x.req < |s.desk.contexts|)
      && (x.Finish? && x.id in s.desk.messageContexts ==> IsOpen(s.desk, s.desk.messageContexts[x.id]))
    ensures Reachable(s.(desk := ProcessStep(s.desk, s.mailbox.queue[0], writeOk, arm), mailbox := Dequeued(s.mailbox)))
  {
    ReachableKeeps(s);
    QueueDequeue(s.mailbox, s.desk, writeOk, arm);
    StepIsReachable(s, Dequeue(writeOk, arm));
  }

  lemma SendIsSafe(s: State)
    requires Reachable(s) && s.desk.at.Delivering?
    ensures IsOpen(s.desk, s.desk.at.req)
  {
    ReachableKeeps(s);
  }

  lemma CleanUpIsSafe(s: State, id: int)
    requires Reachable(s) && id in s.desk.messageContexts
    ensures IsOpen(s.desk, s.desk.messageContexts[id])
  {
    ReachableKeeps(s);
  }

  class Conn {
    var chanMessage: seq<Message>
    var chanMessageClosed: bool
    var closing: bool
    var closer: Closer
    var outstandingRequests: int
    var isStartingTLS: bool
    var messageID: int
    var callers: seq<Caller>
    var messageContexts: map<int, nat>
    var contexts: seq<Context>
    var processor: Processor
    ghost var dispatched: seq<Packet>
    ghost var since: map<nat, nat>
    var readers: seq<Reader>
    var closeErr: bool
    ghost var arrived: seq<Packet>
    const timed: bool

    ghost function View(): State
      reads this
    {
      State(Mailbox(chanMessage, chanMessageClosed, closing, closer, false),
            Ledger(callers, outstandingRequests, isStartingTLS, messageID, false),
            Desk(processor, messageContexts, contexts, dispatched, since, false),
            Wire(readers, closeErr, arrived), timed)
    }

    ghost predicate Valid()
      reads this
    {
      Reachable(View())
    }

    /** `NewConn` and `Start`. */
    constructor (timed: bool)
      ensures Valid() && View() == Init(timed)
    {
      chanMessage, chanMessageClosed, closing, closer := [], false, false, Idle;
      outstandingRequests, isStartingTLS, messageID, callers := 0, false, 1, [];
      messageContexts, contexts, processor, dispatched, since := map[], [], Looping, [], map[];
      readers, closeErr, arrived := [Reader(Reading, false)], false, [];
      this.timed := timed;
      new;
      InitIsReachable(timed);
    }

    // -------------------------------------------------------------- sending and finishing

    /** `nextMessageID`, at the start of a request. */
    method NextMessageID(startTLS: bool) returns (id: int)
      requires Valid() && Enabled(View(), Begin(startTLS))
      modifies this`messageID, this`callers, this`contexts
      ensures Valid() && View() == Apply(old(View()), Begin(startTLS))
      ensures id == callers[|callers| - 1].id && (id == 0 <==> processor.Stopped?)
    {
      BeginIsSafe(View(), startTLS);
      if processor.Looping? {
        id := messageID;
        messageID := messageID + 1;
      } else {
        id := 0;
      }
      callers := callers + [Caller(id, startTLS, Identified, false)];
      contexts := contexts + [FRESH];
      assert View() == BeginStep(old(View()), startTLS);
    }

    /** The closing checks of `sendMessageWithFlags` and `finishMessage`. */
    method CheckClosing(i: nat) returns (goOn: bool)
      requires Valid() && (InPhase(View().ledger, i, Identified) || InPhase(View().ledger, i, DoneClosed))
      modifies this`callers
      ensures Valid() && View() == Apply(old(View()), Go(i)) && goOn == !closing
    {
      ghost var before := View();
      goOn := !closing;
      if callers[i].phase.Identified? {
        SetPhase(i, if closing then Refused else Checked);
      } else {
        SetPhase(i, if closing then Skipped else FinishChecked);
      }
      StepIsReachable(before, Go(i));
    }

    method SetPhase(i: nat, p: Phase)
      requires i < |callers|
      modifies this`callers
      ensures callers == old(callers)[i := old(callers)[i].(phase := p)]
    {
      callers := callers[i := callers[i].(phase := p)];
    }

    method CountSection(i: nat) returns (counted: bool)
      requires InPhase(View().ledger, i, Checked)
      modifies this`callers, this`outstandingRequests, this`isStartingTLS
      ensures View().ledger == Advance(old(View().ledger), i, closing) && counted == InPhase(View().ledger, i, Counted)
    {
      if isStartingTLS {
        SetPhase(i, Refused);
        return false;
      }
      if callers[i].startTLS && outstandingRequests != 0 {
        SetPhase(i, Refused);
        return false;
      }
      if callers[i].startTLS { isStartingTLS := true; }
      outstandingRequests := outstandingRequests + 1;
      SetPhase(i, Counted);
      return true;
    }

    /** The section of `sendMessageWithFlags` under the mutex. */
    method CountRequest(i: nat) returns (counted: bool)
      requires Valid() && InPhase(View().ledger, i, Checked) && MutexFree(View().mailbox)
      modifies this`callers, this`outstandingRequests, this`isStartingTLS
      ensures Valid() && View() == Apply(old(View()), Go(i)) && counted == InPhase(View().ledger, i, Counted)
    {
      StepIsReachable(View(), Go(i));
      counted := CountSection(i);
    }

    /** `sendProcessMessage`, where it does not block. */
    method SendProcessMessage(x: Message) returns (sent: bool)
      requires CanSubmit(View().mailbox) && (chanMessageClosed ==> closing)
      modifies this`chanMessage
      ensures sent == !closing && View().mailbox == Connection.SendProcessMessage(old(View()).mailbox, x)
    {
      if closing { return false; }
      assert !chanMessageClosed;
      chanMessage := chanMessage + [x];
      return true;
    }

    /** The end of `sendMessageWithFlags`. */
    method SubmitRequest(i: nat) returns (accepted: bool)
      requires Valid() && InPhase(View().ledger, i, Counted) && CanSubmit(View().mailbox)
      modifies this`callers, this`chanMessage
      ensures Valid() && View() == Apply(old(View()), Go(i)) && accepted == IsAccepted(callers[i].phase)
    {
      ghost var before := View();
      QueueIsSafe(before);
      accepted := SendProcessMessage(Request(callers[i].id, i));
      SetPhase(i, if accepted then Accepted else Unsent);
      StepIsReachable(before, Go(i));
    }

    /** `close(done)` at the start of `finishMessage`. */
    method CloseDone(i: nat)
      requires Valid() && InPhase(View().ledger, i, Accepted)
      modifies this`callers
      ensures Valid() && View() == Apply(old(View()), Go(i))
    {
      ghost var before := View();
      assert !IsDone(callers[i].phase);
      SetPhase(i, DoneClosed);
      StepIsReachable(before, Go(i));
    }

    method DiscountSection(i: nat)
      requires InPhase(View().ledger, i, FinishChecked) && outstandingRequests > 0
      modifies this`callers, this`outstandingRequests, this`isStartingTLS
      ensures View().ledger == Advance(old(View().ledger), i, closing)
    {
      outstandingRequests := outstandingRequests - 1;
      if isStartingTLS { isStartingTLS := false; }
      SetPhase(i, Released);
    }

    /** The section of `finishMessage` under the mutex; the unsigned counter is positive before it. */
    method DiscountRequest(i: nat)
      requires Valid() && InPhase(View().ledger, i, FinishChecked) && MutexFree(View().mailbox)
      modifies this`callers, this`outstandingRequests, this`isStartingTLS
      ensures Valid() && View() == Apply(old(View()), Go(i)) && old(outstandingRequests) > 0
    {
      CounterIsSafe(View(), i);
      StepIsReachable(View(), Go(i));
      DiscountSection(i);
    }

    /** The end of `finishMessage`. */
    method SubmitFinish(i: nat)
      requires Valid() && InPhase(View().ledger, i, Released) && CanSubmit(View().mailbox)
      modifies this`callers, this`chanMessage
      ensures Valid() && View() == Apply(old(View()), Go(i))
    {
      ghost var before := View();
      QueueIsSafe(before);
      var _ := SendProcessMessage(Finish(callers[i].id));
      SetPhase(i, Finished);
      StepIsReachable(before, Go(i));
    }

    /** The goroutine that waits for the request timeout. */
    method FireTimer(i: nat)
      requires Valid() && HasTimer(View(), i) && CanSubmit(View().mailbox)
      modifies this`contexts, this`chanMessage
      ensures Valid() && View() == Apply(old(View()), Fire(i))
    {
      ghost var before := View();
      QueueIsSafe(before);
      var _ := SendProcessMessage(Timeout(callers[i].id));
      contexts := contexts[i := contexts[i].(timer := false)];
      StepIsReachable(before, Fire(i));
    }

    // -------------------------------------------------------------- the message processor

    /** `close(responses)`. */
    method CloseResponses(i: nat, timedOut: bool)
      requires i < |contexts| && contexts[i].open
      modifies this`contexts
      ensures View().desk == Connection.CloseResponses(old(View()).desk, i, timedOut)
    {
      contexts := contexts[i := contexts[i].(open := false, timedOut := timedOut)];
    }

    /** The cases of `processMessages`, up to the call of `sendResponse` if there is one. */
    method HandleMessage(message: Message, writeOk: bool, arm: bool)
      requires processor.Looping? && (message.Request? ==> message.req < |contexts|)
      requires message.Finish? && message.id in messageContexts ==> IsOpen(View().desk, messageContexts[message.id])
      modifies this`processor, this`messageContexts, this`contexts, this`dispatched, this`since
      ensures View().desk == ProcessStep(old(View().desk), message, writeOk, arm)
    {
      match message
      case Quit => processor := Draining;
      case Request(id, i) =>
        if writeOk {
          messageContexts := messageContexts[id := i];
          contexts := contexts[i := contexts[i].(written := true, timer := arm)];
          since := since[i := |dispatched|];
        } else {
          processor := Delivering(id, i, Failure, CloseFailed);
        }
      case Response(p) =>
        dispatched := dispatched + [p];
        if p.id in messageContexts { processor := Delivering(p.id, messageContexts[p.id], Data(p), Resume); }
      case Timeout(id) =>
        if id in messageContexts { processor := Delivering(id, messageContexts[id], Failure, DropTimedOut); }
      case Finish(id) =>
        if id in messageContexts {
          var i := messageContexts[id];
          messageContexts := messageContexts - {id};
          CloseResponses(i, false);
        }
    }

    /** One message taken from the queue by `processMessages`. */
    method ProcessMessage(writeOk: bool, arm: bool)
      requires Valid() && Enabled(View(), Dequeue(writeOk, arm))
      modifies this`chanMessage, this`processor, this`messageContexts, this`contexts, this`dispatched, this`since
      ensures Valid() && View() == Apply(old(View()), Dequeue(writeOk, arm))
    {
      DequeueIsSafe(View(), writeOk, arm);
      var message := chanMessage[0];
      chanMessage := chanMessage[1..];
      HandleMessage(message, writeOk, arm);
      assert View() == DequeueStep(old(View()), writeOk, arm);
    }

    /** The end of the select of `sendResponse`. */
    method EndSelect(taken: bool)
      requires processor.Delivering? && IsOpen(View().desk, processor.req)
      modifies this`contexts
      ensures View().desk == Deliver(old(View().desk), taken) && IsOpen(View().desk, processor.req)
    {
      var i := processor.req;
      if taken { contexts := contexts[i := contexts[i].(replies := contexts[i].replies + [processor.reply])]; }
    }

    /** What follows a call of `sendResponse`. */
    method AfterSend()
      requires processor.Delivering? && IsOpen(View().desk, processor.req)
      modifies this`processor, this`messageContexts, this`contexts
      ensures View().desk == Conclude(old(View().desk))
    {
      var Delivering(id, i, reply, after) := processor;
      match after
      case Resume => processor := Looping;
      case CloseFailed =>
        CloseResponses(i, false);
        processor := Looping;
      case DropTimedOut =>
        messageContexts := messageContexts - {id};
        CloseResponses(i, true);
        processor := Looping;
      case CloseDrained =>
        messageContexts := messageContexts - {id};
        CloseResponses(i, false);
        processor := Draining;
    }

    /** The rest of `sendResponse` and of the case that called it. */
    method SendResponse(taken: bool)
      requires Valid() && Enabled(View(), Reply(taken))
      modifies this`processor, this`messageContexts, this`contexts
      ensures Valid() && View() == Apply(old(View()), Reply(taken))
    {
      ghost var before := View();
      SendIsSafe(before);
      StepIsReachable(before, Reply(taken));
      EndSelect(taken);
      AfterSend();
    }

    /** One turn of the deferred cleanup of `processMessages`. */
    method CleanUp(id: int)
      requires Valid() && Enabled(View(), Drain(id))
      modifies this`processor, this`messageContexts, this`contexts
      ensures Valid() && View() == Apply(old(View()), Drain(id))
    {
      ghost var before := View();
      CleanUpIsSafe(before, id);
      StepIsReachable(before, Drain(id));
      var i := messageContexts[id];
      if closing && closeErr {
        processor := Delivering(id, i, Failure, CloseDrained);
      } else {
        messageContexts := messageContexts - {id};
        CloseResponses(i, false);
      }
    }

    /** The end of the deferred cleanup, which closes the id and confirmation channels. */
    method Confirm()
      requires Valid() && Enabled(View(), Stop)
      modifies this`processor
      ensures Valid() && View() == Apply(old(View()), Stop)
    {
      ghost var before := View();
      processor := Stopped;
      StepIsReachable(before, Stop);
    }

    // -------------------------------------------------------------- closing and reading

    /** The sections of `Close`: the flag is set under the mutex, Quit is sent, and the queue is
        closed once the confirmation or the timeout has come. */
    method Close(section: CloserAction)
      requires Valid() && Enabled(View(), Shut(section))
      modifies this`closing, this`closer, this`chanMessage, this`chanMessageClosed
      ensures Valid() && View() == Apply(old(View()), Shut(section))
    {
      ghost var before := View();
      QueueIsSafe(before);
      StepIsReachable(before, Shut(section));
      match section
      case BeginClose => closing, closer := true, Quitting;
      case SendQuit =>
        assert !chanMessageClosed;
        chanMessage, closer := chanMessage + [Quit], Waiting;
      case EndClose =>
        assert !chanMessageClosed;
        chanMessageClosed, closer := true, Closed;
    }

    method ReaderSection(a: ReaderAction)
      requires ReaderEnabled(View().wire, a, View().mailbox) && (chanMessageClosed ==> closing)
      modifies this`readers, this`closeErr, this`arrived, this`chanMessage
      ensures View().wire == ReaderStep(old(View().wire), a, closing, isStartingTLS)
      ensures View().mailbox == if a.Forward?
        then Connection.SendProcessMessage(old(View().mailbox), Response(old(readers)[a.j].at.packet))
        else old(View().mailbox)
    {
      var Reader(at, cleanstop) := readers[a.j];
      match a
      case Read(j, p) => readers := readers[j := Reader(Holding(p), cleanstop)];
      case ReadError(j) =>
        if !closing { closeErr := true; }
        readers := readers[j := Reader(Gone, cleanstop)];
      case CheckTLS(j) =>
        readers := readers[j := Reader(Forwarding(at.packet), if isStartingTLS then true else cleanstop)];
      case Forward(j) =>
        var sent := SendProcessMessage(Response(at.packet));
        if sent { arrived := arrived + [at.packet]; }
        readers := readers[j := Reader(if sent && !cleanstop then Reading else Gone, cleanstop)];
    }

    /** The sections of `reader`: a packet or an error from the network, the check of the StartTLS
        flag under the mutex, and `sendProcessMessage`. */
    method ReadStep(a: ReaderAction)
      requires Valid() && Enabled(View(), Listen(a))
      modifies this`readers, this`closeErr, this`arrived, this`chanMessage
      ensures Valid() && View() == Apply(old(View()), Listen(a))
    {
      QueueIsSafe(View());
      StepIsReachable(View(), Listen(a));
      ReaderSection(a);
    }

    /** The end of a successful `StartTLS`, which starts the reader of the encrypted connection. */
    method StartReader(i: nat)
      requires Valid() && Enabled(View(), Spawn(i))
      modifies this`callers, this`readers
      ensures Valid() && View() == Apply(old(View()), Spawn(i))
    {
      ghost var before := View();
      callers := callers[i := callers[i].(spawned := true)];
      readers := readers + [Reader(Reading, false)];
      StepIsReachable(before, Spawn(i));
    }
  }
}
