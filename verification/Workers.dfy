/** The two stream workers over any trace of reads, queue answers, clock readings, writes and
    reconnections. A trace entry is what one turn of the loop meets. */
module Workers {
  import opened Prelude
  import opened Sequences
  import opened ControlFrames
  import opened StreamOpen

  // ---------------------------------------------------------------- receiving

  /** A read of no bytes is the end of the stream. `alive`: the packet receiver still exists;
      `attempts`: what a reconnection would meet. */
  datatype ReadEvent =
    | ReadOk(bytes: Bytes, alive: bool, attempts: nat -> Attempt)
    | WouldBlock
    | ReadError(attempts: nat -> Attempt)

  datatype RxExit =
    | RxRunning
    | ReceiverGone
    | ControlFrameSeen(control: NativeControlType)
    | RxReopenFailed(why: OpenResult)

  /** A reconnection counts its tries from one, since no failure is pending at a loop head. */
  ghost predicate ReopensAs(profile: StreamProfile, attempts: nat -> Attempt, r: OpenResult) {
    exists tries :: tries <= 5 && OpensAs(profile, attempts, 1, r, tries)
  }

  /** The stream is lost: it ended or could not be read. */
  predicate Broken(e: ReadEvent) {
    e.ReadError? || (e.ReadOk? && e.bytes == [])
  }

  /** What is to be done with the data of an entry, if it has any. */
  function Verdict(e: ReadEvent): Option<RxVerdict> {
    if e.ReadOk? && e.bytes != [] then Some(ShouldForwardRxPayload(e.bytes)) else None
  }

  /** The payload that an entry makes the worker forward. */
  function Payload(): ReadEvent -> Option<Bytes> {
    (e: ReadEvent) => if Verdict(e) == Some(Forward) then Some(e.bytes) else None
  }

  /** The entry leaves the loop running. */
  ghost predicate Passes(e: ReadEvent) {
    && (Broken(e) ==> ReopensAs(Rx, e.attempts, Opened))
    && (Verdict(e).Some? ==> Verdict(e).value == Skip || (Verdict(e).value == Forward && e.alive))
  }

  /** The entry ends the loop in the given way. */
  ghost predicate Ends(e: ReadEvent, exit: RxExit) {
    match exit
    case RxRunning => false
    case ReceiverGone => Verdict(e) == Some(Forward) && !e.alive
    case ControlFrameSeen(control) => Verdict(e) == Some(Reject(control))
    case RxReopenFailed(why) => Broken(e) && why != Opened && ReopensAs(Rx, e.attempts, why)
  }

  lemma ReopeningsAreSettled(profile: StreamProfile, attempts: nat -> Attempt, r: OpenResult)
    requires ReopensAs(profile, attempts, r)
    ensures Settled(profile, attempts, 5, r)
  {
    var tries :| tries <= 5 && OpensAs(profile, attempts, 1, r, tries);
    OpeningsAreSettled(profile, attempts, 1, r, tries);
  }

  /** An entry that the loop survives: nothing to read, an acknowledgement, data for a live receiver, or a
      lost stream that one of five tries reopens. Forwarded is what is no 40-byte frame. */
  lemma PassingMeans(e: ReadEvent)
    requires Passes(e)
    ensures match e
            case WouldBlock => Payload()(e) == None
            case ReadError(attempts) => Settled(Rx, attempts, 5, Opened) && Payload()(e) == None
            case ReadOk(bytes, alive, attempts) =>
              if bytes == [] then Settled(Rx, attempts, 5, Opened) && Payload()(e) == None
              else if IsFrame(bytes) then bytes[4..8] == [1, 0, 0, 0] && Payload()(e) == None
              else alive && Payload()(e) == Some(bytes)
  {
    if Broken(e) {
      ReopeningsAreSettled(Rx, e.attempts, Opened);
    } else if e.ReadOk? {
      ReceivedDataMeaning(e.bytes);
    }
  }

  /** An entry that ends the loop: data without a receiver, a control frame that is no acknowledgement, or a
      lost stream that is not reopened. */
  lemma EndingMeans(e: ReadEvent, exit: RxExit)
    requires Ends(e, exit)
    ensures match exit
            case RxRunning => false
            case ReceiverGone => e.ReadOk? && e.bytes != [] && !IsFrame(e.bytes) && !e.alive
            case ControlFrameSeen(control) =>
              && e.ReadOk? && IsFrame(e.bytes) && e.bytes[4..8] != [1, 0, 0, 0]
              && control.Code() == LeastFirst(e.bytes[4], e.bytes[5], e.bytes[6], e.bytes[7])
            case RxReopenFailed(why) =>
              (e.ReadError? || (e.ReadOk? && e.bytes == [])) && why != Opened && Settled(Rx, e.attempts, 5, why)
  {
    if exit.RxReopenFailed? {
      ReopeningsAreSettled(Rx, e.attempts, exit.why);
    } else {
      ReceivedDataMeaning(e.bytes);
    }
  }

  /** The first `turns` entries have passed, and what they had to forward is forwarded. */
  ghost predicate RxAt(trace: seq<ReadEvent>, turns: nat, forwarded: seq<Bytes>) {
    && turns <= |trace| && forwarded == FilterMap(trace[..turns], Payload())
    && forall i :: 0 <= i < turns ==> Passes(trace[i])
  }

  lemma RxNext(trace: seq<ReadEvent>, turns: nat, forwarded: seq<Bytes>)
    requires turns < |trace| && RxAt(trace, turns, forwarded) && Passes(trace[turns])
    ensures var payload := Payload()(trace[turns]);
            RxAt(trace, turns + 1, if payload.Some? then forwarded + [payload.value] else forwarded)
  {
    assert trace[..turns + 1] == trace[..turns] + [trace[turns]];
    FilterMapSnoc(trace[..turns], trace[turns], Payload());
  }

  /** A reconnection that succeeds leaves no failure pending. */
  method ReopenRx(attempts: nat -> Attempt, pending: nat) returns (r: OpenResult, retries: nat)
    requires pending == 0
    ensures ReopensAs(Rx, attempts, r) && (r == Opened ==> retries == 0)
  {
    retries := pending + 1;
    var tries;
    r, tries := ReopenStream(Rx, attempts, retries);
    if r == Opened {
      retries := 0;
    }
  }

  /** Forwards the data of every entry before the one that ends it, in order and once, and nothing
      else. */
  method RxWorkerLoop(trace: seq<ReadEvent>) returns (forwarded: seq<Bytes>, exit: RxExit, turns: nat)
    ensures RxAt(trace, turns, forwarded)
    ensures exit == RxRunning ==> turns == |trace|
    ensures exit != RxRunning ==> turns < |trace| && Ends(trace[turns], exit)
  {
    var retries := 0;
    forwarded, turns := [], 0;
    while turns < |trace|
      invariant retries == 0 && RxAt(trace, turns, forwarded)
    {
      var e := trace[turns];
      if e.ReadError? || (e.ReadOk? && e.bytes == []) {
        var r;
        r, retries := ReopenRx(e.attempts, retries);
        if r != Opened {
          return forwarded, RxReopenFailed(r), turns;
        }
        RxNext(trace, turns, forwarded);
      } else if e.WouldBlock? {
        RxNext(trace, turns, forwarded);
      } else {
        retries := 0;
        match ShouldForwardRxPayload(e.bytes) {
          case Reject(control) =>
            return forwarded, ControlFrameSeen(control), turns;
          case Skip =>
            RxNext(trace, turns, forwarded);
          case Forward =>
            if !e.alive {
              return forwarded, ReceiverGone, turns;
            }
            RxNext(trace, turns, forwarded);
            forwarded := forwarded + [e.bytes];
        }
      }
      turns := turns + 1;
    }
    exit := RxRunning;
  }

  // ---------------------------------------------------------------- sending

  /** Nanoseconds. */
  const TX_HEARTBEAT_INTERVAL: nat := 12_000_000_000

  datatype QueueAnswer = Packet(packet: Bytes) | Timeout | Disconnected

  datatype TxEvent = TxEvent(now: nat, queue: QueueAnswer, writes: bool, attempts: nat -> Attempt, rewrites: bool)

  /** A packet taken for sending on turn `turn` at time `at`. */
  datatype Choice = Choice(turn: nat, at: nat, packet: Bytes, heartbeat: bool)

  datatype TxExit = TxRunning | QueueClosed | TxReopenFailed(why: OpenResult) | RewriteFailed

  /** When the next heartbeat is due, at the head of turn `n`. */
  function Deadline(start: nat, trace: seq<TxEvent>, n: nat): nat
    requires n <= |trace|
  {
    if n == 0 then start + TX_HEARTBEAT_INTERVAL
    else
      var d := Deadline(start, trace, n - 1);
      if trace[n - 1].now >= d then trace[n - 1].now + TX_HEARTBEAT_INTERVAL else d
  }

  /** What turn `n` sends: the heartbeat if it is due, else what the queue gives. */
  function Chosen(start: nat, beat: Bytes, trace: seq<TxEvent>, n: nat): seq<Choice>
    requires n < |trace|
  {
    var e := trace[n];
    if e.now >= Deadline(start, trace, n) then [Choice(n, e.now, beat, true)]
    else if e.queue.Packet? then [Choice(n, e.now, e.queue.packet, false)]
    else []
  }

  /** All choices of the first `n` turns, in order. */
  function Choices(start: nat, beat: Bytes, trace: seq<TxEvent>, n: nat): (cs: seq<Choice>)
    requires n <= |trace|
    ensures forall i :: 0 <= i < |cs| ==> cs[i].turn < n
  {
    if n == 0 then [] else Choices(start, beat, trace, n - 1) + Chosen(start, beat, trace, n - 1)
  }

  function Packets(choices: seq<Choice>): seq<Bytes> {
    seq(|choices|, i requires 0 <= i < |choices| => choices[i].packet)
  }

  lemma {:induction false} DeadlinesOnlyMoveForward(start: nat, trace: seq<TxEvent>, m: nat, n: nat)
    requires m <= n <= |trace|
    ensures Deadline(start, trace, m) <= Deadline(start, trace, n)
  {
    if m < n {
      DeadlinesOnlyMoveForward(start, trace, m, n - 1);
    }
  }

  /** Choices are made on increasing turns, each as its turn prescribes. */
  ghost predicate InTurn(start: nat, beat: Bytes, trace: seq<TxEvent>, cs: seq<Choice>) {
    && (forall i :: 0 <= i < |cs| ==> cs[i].turn < |trace| && Chosen(start, beat, trace, cs[i].turn) == [cs[i]])
    && (forall i, j :: 0 <= i < j < |cs| ==> cs[i].turn < cs[j].turn)
  }

  lemma {:induction false} ChoicesAreTurns(start: nat, beat: Bytes, trace: seq<TxEvent>, n: nat)
    requires n <= |trace|
    ensures InTurn(start, beat, trace, Choices(start, beat, trace, n))
  {
    if n > 0 {
      ChoicesAreTurns(start, beat, trace, n - 1);
      InTurnNext(start, beat, trace, Choices(start, beat, trace, n - 1), n - 1);
    }
  }

  lemma InTurnNext(start: nat, beat: Bytes, trace: seq<TxEvent>, cs: seq<Choice>, turn: nat)
    requires turn < |trace| && InTurn(start, beat, trace, cs)
    requires forall i :: 0 <= i < |cs| ==> cs[i].turn < turn
    ensures InTurn(start, beat, trace, cs + Chosen(start, beat, trace, turn))
  {
  }

  predicate HeartbeatDue(start: nat, trace: seq<TxEvent>, turn: nat) {
    turn < |trace| && trace[turn].now >= Deadline(start, trace, turn)
  }

  /** A due heartbeat is always taken before queued data. */
  lemma DueHeartbeatsGoFirst(start: nat, beat: Bytes, trace: seq<TxEvent>, n: nat)
    requires n <= |trace|
    ensures forall c :: c in Choices(start, beat, trace, n) ==> (c.heartbeat <==> HeartbeatDue(start, trace, c.turn))
    ensures forall turn :: 0 <= turn < n && HeartbeatDue(start, trace, turn) ==>
              Choice(turn, trace[turn].now, beat, true) in Choices(start, beat, trace, n)
  {
    ChoicesAreTurns(start, beat, trace, n);
    forall turn | 0 <= turn < n && HeartbeatDue(start, trace, turn)
      ensures Choice(turn, trace[turn].now, beat, true) in Choices(start, beat, trace, n)
    {
      ChoiceIsKept(start, beat, trace, turn, n);
    }
  }

  lemma {:induction false} ChoiceIsKept(start: nat, beat: Bytes, trace: seq<TxEvent>, turn: nat, n: nat)
    requires turn < n <= |trace|
    ensures forall c :: c in Chosen(start, beat, trace, turn) ==> c in Choices(start, beat, trace, n)
  {
    if turn < n - 1 {
      ChoiceIsKept(start, beat, trace, turn, n - 1);
    }
  }

  /** Whatever is sent that is no heartbeat is the packet taken from the queue on its turn, unchanged; and
      every packet taken from the queue on a turn without a heartbeat is sent. */
  lemma DequeuedPacketsAreSent(start: nat, beat: Bytes, trace: seq<TxEvent>, n: nat)
    requires n <= |trace|
    ensures forall c :: c in Choices(start, beat, trace, n) ==>
              && c.turn < n && c.at == trace[c.turn].now
              && (if c.heartbeat then c.packet == beat else trace[c.turn].queue == Packet(c.packet))
    ensures forall turn :: 0 <= turn < n && !HeartbeatDue(start, trace, turn) && trace[turn].queue.Packet? ==>
              Choice(turn, trace[turn].now, trace[turn].queue.packet, false) in Choices(start, beat, trace, n)
  {
    ChoicesAreTurns(start, beat, trace, n);
    forall turn | 0 <= turn < n && !HeartbeatDue(start, trace, turn) && trace[turn].queue.Packet?
      ensures Choice(turn, trace[turn].now, trace[turn].queue.packet, false) in Choices(start, beat, trace, n)
    {
      ChoiceIsKept(start, beat, trace, turn, n);
    }
  }

  /** The packets taken from the queue on turns without a heartbeat, in order. */
  ghost function Dequeued(start: nat, trace: seq<TxEvent>, n: nat): seq<Bytes>
    requires n <= |trace|
  {
    if n == 0 then []
    else
      Dequeued(start, trace, n - 1)
      + if !HeartbeatDue(start, trace, n - 1) && trace[n - 1].queue.Packet? then [trace[n - 1].queue.packet] else []
  }

  function DataOf(): Choice -> Option<Bytes> {
    (c: Choice) => if c.heartbeat then None else Some(c.packet)
  }

  lemma DataNext(cs: seq<Choice>, here: seq<Choice>, data: seq<Bytes>)
    requires |here| <= 1 && FilterMap(cs, DataOf()) == data
    ensures FilterMap(cs + here, DataOf()) == data + if here == [] || here[0].heartbeat then [] else [here[0].packet]
  {
    if here == [] {
      assert cs + here == cs;
    } else {
      assert here == [here[0]];
      FilterMapSnoc(cs, here[0], DataOf());
    }
  }

  lemma ChoicesNext(start: nat, beat: Bytes, trace: seq<TxEvent>, n: nat)
    requires n < |trace|
    ensures Choices(start, beat, trace, n + 1) == Choices(start, beat, trace, n) + Chosen(start, beat, trace, n)
    ensures |Chosen(start, beat, trace, n)| <= 1
  {
  }

  lemma DequeuedNext(start: nat, beat: Bytes, trace: seq<TxEvent>, n: nat)
    requires n < |trace|
    ensures var here := Chosen(start, beat, trace, n);
            |here| <= 1 && Dequeued(start, trace, n + 1)
            == Dequeued(start, trace, n) + if here == [] || here[0].heartbeat then [] else [here[0].packet]
  {
  }

  ghost predicate DataIsIn(start: nat, beat: Bytes, trace: seq<TxEvent>, n: nat) {
    n <= |trace| && FilterMap(Choices(start, beat, trace, n), DataOf()) == Dequeued(start, trace, n)
  }

  lemma DataIsInNext(start: nat, beat: Bytes, trace: seq<TxEvent>, n: nat)
    requires n < |trace| && DataIsIn(start, beat, trace, n)
    ensures DataIsIn(start, beat, trace, n + 1)
  {
    ChoicesNext(start, beat, trace, n);
    DequeuedNext(start, beat, trace, n);
    DataNext(Choices(start, beat, trace, n), Chosen(start, beat, trace, n), Dequeued(start, trace, n));
  }

  /** The packets sent that are no heartbeats are exactly those, in order, each once. */
  lemma {:induction false} DataIsDequeued(start: nat, beat: Bytes, trace: seq<TxEvent>, n: nat)
    requires n <= |trace|
    ensures DataIsIn(start, beat, trace, n)
  {
    if n > 0 {
      DataIsDequeued(start, beat, trace, n - 1);
      DataIsInNext(start, beat, trace, n - 1);
    }
  }

  /** Two heartbeats are never closer than twelve seconds, and the first is not earlier than twelve
      seconds after the start. */
  lemma HeartbeatPacing(start: nat, beat: Bytes, trace: seq<TxEvent>, n: nat, i: nat, j: nat)
    requires n <= |trace| && j < |Choices(start, beat, trace, n)| && Choices(start, beat, trace, n)[j].heartbeat
    ensures var cs := Choices(start, beat, trace, n);
            && cs[j].at >= start + 12_000_000_000
            && (i < j && cs[i].heartbeat ==> cs[j].at >= cs[i].at + 12_000_000_000)
  {
    ChoicesAreTurns(start, beat, trace, n);
    var cs := Choices(start, beat, trace, n);
    assert Chosen(start, beat, trace, cs[j].turn) == [cs[j]];
    DeadlinesOnlyMoveForward(start, trace, 0, cs[j].turn);
    if i < j && cs[i].heartbeat {
      assert Chosen(start, beat, trace, cs[i].turn) == [cs[i]];
      DeadlinesOnlyMoveForward(start, trace, cs[i].turn + 1, cs[j].turn);
    }
  }

  /** The heartbeat at `i` is the last one. */
  ghost predicate IsLastBeat(cs: seq<Choice>, i: nat) {
    i < |cs| && cs[i].heartbeat && forall j :: i < j < |cs| ==> !cs[j].heartbeat
  }

  /** The deadline is twelve seconds after the last heartbeat, or after the start if there was none. */
  ghost predicate SetByLastBeat(start: nat, cs: seq<Choice>, deadline: nat) {
    if forall i :: 0 <= i < |cs| ==> !cs[i].heartbeat then deadline == start + 12_000_000_000
    else exists i: nat :: IsLastBeat(cs, i) && deadline == cs[i].at + 12_000_000_000
  }

  /** Another choice moves the deadline exactly if it is a heartbeat. */
  lemma LastBeatNext(start: nat, cs: seq<Choice>, c: Choice, deadline: nat)
    requires SetByLastBeat(start, cs, deadline)
    ensures SetByLastBeat(start, cs + [c], if c.heartbeat then c.at + 12_000_000_000 else deadline)
  {
    var after := cs + [c];
    if c.heartbeat {
      assert after[|cs|] == c && IsLastBeat(after, |cs|);
    } else if i: nat :| IsLastBeat(cs, i) && deadline == cs[i].at + 12_000_000_000 {
      assert after[i] == cs[i] && IsLastBeat(after, i);
    } else {
      assert forall i :: 0 <= i < |after| ==> !after[i].heartbeat;
    }
  }

  lemma {:induction false} DeadlineOrigin(start: nat, beat: Bytes, trace: seq<TxEvent>, n: nat)
    requires n <= |trace|
    ensures SetByLastBeat(start, Choices(start, beat, trace, n), Deadline(start, trace, n))
  {
    if n > 0 {
      DeadlineOrigin(start, beat, trace, n - 1);
      ChoicesNext(start, beat, trace, n - 1);
      var before, here := Choices(start, beat, trace, n - 1), Chosen(start, beat, trace, n - 1);
      if here == [] {
        assert before + here == before;
      } else {
        assert here == [here[0]];
        LastBeatNext(start, before, here[0], Deadline(start, trace, n - 1));
      }
    }
  }

  /** The turn's packet goes out: on the first write, or after one reconnection. */
  ghost predicate Delivered(e: TxEvent) {
    e.writes || (ReopensAs(Tx, e.attempts, Opened) && e.rewrites)
  }

  /** The turn's packet is lost, for the given reason. */
  ghost predicate Lost(e: TxEvent, exit: TxExit) {
    && !e.writes
    && match exit
       case TxReopenFailed(why) => why != Opened && ReopensAs(Tx, e.attempts, why)
       case RewriteFailed => ReopensAs(Tx, e.attempts, Opened) && !e.rewrites
       case _ => false
  }

  /** A packet is delivered by the first write, or by a second one after one of five tries reopened the stream;
      otherwise it is lost. */
  lemma DeliveryMeans(e: TxEvent, exit: TxExit)
    ensures Delivered(e) ==> e.writes || (Settled(Tx, e.attempts, 5, Opened) && e.rewrites)
    ensures Lost(e, exit) ==>
              && !e.writes
              && (exit == RewriteFailed ==> Settled(Tx, e.attempts, 5, Opened) && !e.rewrites)
              && (exit != RewriteFailed ==>
                    exit.TxReopenFailed? && exit.why != Opened && Settled(Tx, e.attempts, 5, exit.why))
  {
    if Delivered(e) && !e.writes {
      ReopeningsAreSettled(Tx, e.attempts, Opened);
    }
    if Lost(e, exit) {
      ReopeningsAreSettled(Tx, e.attempts, if exit.TxReopenFailed? then exit.why else Opened);
    }
  }

  ghost predicate AllDelivered(trace: seq<TxEvent>, cs: seq<Choice>) {
    forall i :: 0 <= i < |cs| ==> cs[i].turn < |trace| && Delivered(trace[cs[i].turn])
  }

  /** Writes the turn's packet; a packet that goes out leaves no failure pending. */
  method SendPacket(e: TxEvent, pending: nat) returns (failure: Option<TxExit>, retries: nat)
    requires pending == 0
    ensures failure.None? ==> Delivered(e) && retries == 0
    ensures failure.Some? ==> Lost(e, failure.value)
  {
    if e.writes {
      return None, 0;
    }
    retries := pending + 1;
    var r, tries := ReopenStream(Tx, e.attempts, retries);
    assert ReopensAs(Tx, e.attempts, r);
    if r != Opened {
      return Some(TxReopenFailed(r)), retries;
    }
    if !e.rewrites {
      return Some(RewriteFailed), retries;
    }
    return None, 0;
  }

  /** Everything chosen in the first `n` turns has been written, in order, each once. */
  ghost predicate Sent(start: nat, beat: Bytes, trace: seq<TxEvent>, n: nat, written: seq<Bytes>) {
    && n <= |trace|
    && written == Packets(Choices(start, beat, trace, n))
    && AllDelivered(trace, Choices(start, beat, trace, n))
  }

  /** The same, except for the last choice, which is lost. */
  ghost predicate SentButLast(start: nat, beat: Bytes, trace: seq<TxEvent>, n: nat, written: seq<Bytes>, exit: TxExit) {
    && 0 < n <= |trace|
    && var cs := Choices(start, beat, trace, n);
       && cs != [] && cs[|cs| - 1].turn == n - 1 && Lost(trace[n - 1], exit)
       && written == Packets(cs[..|cs| - 1])
       && AllDelivered(trace, cs[..|cs| - 1])
  }

  lemma IdleTurn(start: nat, beat: Bytes, trace: seq<TxEvent>, n: nat, written: seq<Bytes>)
    requires n < |trace| && Sent(start, beat, trace, n, written) && Chosen(start, beat, trace, n) == []
    ensures Sent(start, beat, trace, n + 1, written)
  {
    assert Choices(start, beat, trace, n) + [] == Choices(start, beat, trace, n);
  }

  lemma SentTurn(start: nat, beat: Bytes, trace: seq<TxEvent>, n: nat, written: seq<Bytes>)
    requires n < |trace| && Sent(start, beat, trace, n, written) && Chosen(start, beat, trace, n) != []
    requires Delivered(trace[n])
    ensures Sent(start, beat, trace, n + 1, written + [Chosen(start, beat, trace, n)[0].packet])
  {
    PacketsSnoc(Choices(start, beat, trace, n), Chosen(start, beat, trace, n)[0]);
  }

  lemma LostTurn(start: nat, beat: Bytes, trace: seq<TxEvent>, n: nat, written: seq<Bytes>, exit: TxExit)
    requires n < |trace| && Sent(start, beat, trace, n, written) && Chosen(start, beat, trace, n) != []
    requires Lost(trace[n], exit)
    ensures SentButLast(start, beat, trace, n + 1, written, exit)
  {
    var before := Choices(start, beat, trace, n);
    assert (before + Chosen(start, beat, trace, n))[..|before|] == before;
  }

  datatype Taken = TakenPacket(packet: Bytes) | TakenNothing | TakenClosed

  /** Takes what one turn sends and moves the deadline. */
  method TakePacket(start: nat, beat: Bytes, trace: seq<TxEvent>, turn: nat, nextHeartbeat: nat)
    returns (taken: Taken, nextHeartbeat': nat)
    requires turn < |trace| && nextHeartbeat == Deadline(start, trace, turn)
    ensures nextHeartbeat' == Deadline(start, trace, turn + 1)
    ensures taken.TakenPacket? <==> Chosen(start, beat, trace, turn) != []
    ensures taken.TakenPacket? ==> Chosen(start, beat, trace, turn)[0].packet == taken.packet
    ensures taken.TakenClosed? ==> trace[turn].queue == Disconnected && !HeartbeatDue(start, trace, turn)
  {
    var e := trace[turn];
    nextHeartbeat' := nextHeartbeat;
    if e.now >= nextHeartbeat {
      nextHeartbeat' := e.now + TX_HEARTBEAT_INTERVAL;
      taken := TakenPacket(beat);
    } else {
      match e.queue {
        case Packet(p) =>
          taken := TakenPacket(p);
        case Timeout =>
          taken := TakenNothing;
        case Disconnected =>
          taken := TakenClosed;
      }
    }
  }

  /** How the loop ended: nothing is missing, or the last choice. */
  ghost predicate TxEnds(start: nat, beat: Bytes, trace: seq<TxEvent>, written: seq<Bytes>, exit: TxExit, turns: nat) {
    match exit
    case TxRunning => turns == |trace| && Sent(start, beat, trace, turns, written)
    case QueueClosed =>
      && 0 < turns <= |trace| && Sent(start, beat, trace, turns, written)
      && trace[turns - 1].queue == Disconnected && !HeartbeatDue(start, trace, turns - 1)
    case _ => SentButLast(start, beat, trace, turns, written, exit)
  }

  /** One turn of the loop. */
  method TxTurn(start: nat, beat: Bytes, trace: seq<TxEvent>, turn: nat, nextHeartbeat: nat, pending: nat,
                ghost written: seq<Bytes>)
    returns (sent: seq<Bytes>, exit: TxExit, nextHeartbeat': nat, retries: nat)
    requires turn < |trace| && nextHeartbeat == Deadline(start, trace, turn) && pending == 0
    requires Sent(start, beat, trace, turn, written)
    ensures nextHeartbeat' == Deadline(start, trace, turn + 1)
    ensures exit == TxRunning ==> Sent(start, beat, trace, turn + 1, written + sent) && retries == 0
    ensures exit != TxRunning ==> sent == [] && TxEnds(start, beat, trace, written, exit, turn + 1)
  {
    var taken;
    sent, retries := [], pending;
    taken, nextHeartbeat' := TakePacket(start, beat, trace, turn, nextHeartbeat);
    if !taken.TakenPacket? {
      IdleTurn(start, beat, trace, turn, written);
      assert written + [] == written;
      exit := if taken.TakenClosed? then QueueClosed else TxRunning;
      return;
    }
    var failure;
    failure, retries := SendPacket(trace[turn], pending);
    if failure.Some? {
      LostTurn(start, beat, trace, turn, written, failure.value);
      exit := failure.value;
      return;
    }
    SentTurn(start, beat, trace, turn, written);
    sent, exit := [taken.packet], TxRunning;
  }

  /** The completed writes are the choices, in order, each once; the last choice is missing exactly
      when the loop ends in an error. */
  method TxWorkerLoop(start: nat, beat: Bytes, trace: seq<TxEvent>)
    returns (written: seq<Bytes>, exit: TxExit, turns: nat)
    ensures TxEnds(start, beat, trace, written, exit, turns)
  {
    var retries := 0;
    var nextHeartbeat := start + TX_HEARTBEAT_INTERVAL;
    written, turns := [], 0;
    while turns < |trace|
      invariant retries == 0 && Sent(start, beat, trace, turns, written)
      invariant nextHeartbeat == Deadline(start, trace, turns)
    {
      var sent;
      sent, exit, nextHeartbeat, retries := TxTurn(start, beat, trace, turns, nextHeartbeat, retries, written);
      turns := turns + 1;
      if exit != TxRunning {
        return;
      }
      written := written + sent;
    }
    exit := TxRunning;
  }

  lemma PacketsSnoc(cs: seq<Choice>, c: Choice)
    ensures Packets(cs + [c]) == Packets(cs) + [c.packet]
  {
  }
}
