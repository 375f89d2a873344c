/**
 One port of a transfer: a sender thread, its receiver thread and the connections between them
 (SenderThread.cpp, ReceiverThread.cpp, util/ThreadTransferHistory.cpp).

 A connection may break at any byte and the two sides notice at different times, so the sender's
 newest connection, the one the receiver is reading, and the one the last blocks were written to
 are numbered separately.  Each action is a guard `CanX` and an effect `DoX`; `Inv` is what every
 action keeps.
 */
module Link {
  import opened Protocol
  import opened Blocks

  /** CONNECT, READ_LOCAL_CHECKPOINT, SEND_SETTINGS to SEND_BLOCKS, READ_RECEIVER_CMD, PROCESS_ERR_CMD, END.
      Processing an ERR command walks through checkpoints [next, upto) of the receiver's list; `Blocked`
      is waiting inside setGlobalCheckpoint for the failed thread to stop using its history. */
  datatype SenderPhase =
    | Connecting | ReadingCheckpoint | Sending | Awaiting
    | Applying(next: nat, upto: nat) | Blocked(next: nat, upto: nat) | Ended

  /** ACCEPT_WITH_TIMEOUT, READ_NEXT_CMD and PROCESS_FILE_CMD, WAIT_FOR_FINISH_OR_NEW_CHECKPOINT (and the
      gap before a broken wait is marked RUNNING again), SEND_DONE_CMD, END. */
  datatype ReceiverPhase = Accepting | Receiving | Waiting | Marking | Finishing | Gone

  datatype ThreadStatus = RUNNING | WAITING | FINISHED

  /** The last-block fields of the receiver's checkpoint. */
  datatype Part = Part(seqId: int, offset: int, received: int)
  const NO_PART := Part(0, 0, 0)

  datatype OnConn<+T> = OnConn(conn: nat, msg: T)
  datatype ErrMsg = ErrMsg(from: nat, upto: nat)

  datatype Thread = Thread(
    port: nat,
    // sender thread and its history
    sender: SenderPhase, history: seq<Block>, inHand: Option<Block>, clean: bool,
    last: Option<Checkpoint>, globalCheckpoint: bool, applied: nat, success: bool,
    // connections
    sConn: nat, rConn: nat, pipeConn: nat, flow: seq<Block>, doneInFlight: bool,
    checkpointOn: Option<OnConn<Checkpoint>>, errOn: Option<OnConn<ErrMsg>>, doneOn: Option<nat>,
    // receiver thread
    receiver: ReceiverPhase, done: seq<Block>, unverified: seq<Block>, part: Part,
    status: ThreadStatus, checkpointIndex: nat, pending: nat, rError: bool, decided: bool)

  /** Everything the sender has put, or is putting, on this port and not taken back. */
  ghost function All(t: Thread): seq<Block> { t.history + Hand(t.inHand) }
  ghost function Hand(h: Option<Block>): seq<Block> { if h.Some? then [h.value] else [] }

  function LocalCheckpoint(t: Thread): Checkpoint {
    Checkpoint(t.port, |t.done|, t.part.seqId, t.part.offset, t.part.received, true)
  }

  /** The receiver reads, or may yet read, the connection that carries `flow`. */
  ghost predicate OnPipe(t: Thread) {
    && t.receiver != Gone
    && (t.rConn < t.pipeConn || (t.rConn == t.pipeConn && t.receiver in {Receiving, Waiting, Finishing}))
  }

  ghost predicate Idle(s: SenderPhase) { s in {Connecting, ReadingCheckpoint, Awaiting, Ended} }

  // ---------------------------------------------------------------- invariant

  ghost predicate ConnInv(t: Thread) {
    && t.rConn <= t.sConn && t.pipeConn <= t.sConn
    && (t.sender in {Sending, Awaiting} || t.sender.Applying? || t.sender.Blocked? ==> t.pipeConn == t.sConn > 0)
    && (t.sender == ReadingCheckpoint ==> t.pipeConn < t.sConn && !t.clean)
    && (t.sender == Connecting && t.clean ==> t.sConn == 0)
    && (t.sConn == 0 ==> t.history == [] && t.inHand == None && t.flow == [] && !t.doneInFlight)
    && (t.rConn == 0 ==> t.done == [] && t.unverified == [] && t.part == NO_PART && t.pending == 0)
    && (t.rConn == 0 ==> t.receiver in {Accepting, Gone})
    && (t.rConn < t.pipeConn ==> t.rConn == 0 && t.pipeConn == 1)
    && (t.checkpointOn.Some? ==> t.checkpointOn.value.conn <= t.rConn)
    && (t.errOn.Some? ==> t.errOn.value.conn <= t.pipeConn)
    && (t.errOn.Some? && t.errOn.value.conn == t.sConn ==> Idle(t.sender))
    && (t.inHand.Some? ==> t.sender == Sending)
  }

  ghost predicate ContentInv(t: Thread) {
    && (!t.globalCheckpoint ==> t.done <= All(t))
    && (OnPipe(t) ==> t.done + t.unverified + t.flow == All(t))
    && (t.globalCheckpoint ==> t.receiver == Gone && t.history == t.done)
    && (t.receiver == Receiving && t.rConn > t.pipeConn ==> t.unverified == [])
    && (t.sender == ReadingCheckpoint && t.checkpointOn.Some? && t.checkpointOn.value.conn == t.sConn ==>
          t.checkpointOn.value.msg == LocalCheckpoint(t))
  }

  /** The partial block was reported by the last applied checkpoint, or is the first block not completed. */
  ghost predicate Stale(t: Thread) {
    t.last.Some? && t.last.value.numBlocks == |t.done|
    && t.part == Part(t.last.value.lastBlockSeqId, t.last.value.lastBlockOffset, t.last.value.lastBlockReceivedBytes)
  }
  ghost predicate Live(t: Thread) {
    |t.done| < |All(t)| &&
    var b := All(t)[|t.done|];
    t.part.seqId == b.seqId && t.part.offset == b.offset && t.part.received < b.size
  }
  ghost predicate PartInv(t: Thread) {
    && 0 <= t.part.received
    && (t.last.Some? ==> 0 <= t.last.value.numBlocks <= |t.done|)
    && (t.part.received > 0 && !t.globalCheckpoint ==> Stale(t) || Live(t))
    && (t.receiver in {Receiving, Waiting} && t.unverified != [] ==> t.part.received == 0)
  }

  ghost predicate PhaseInv(t: Thread) {
    && (t.doneInFlight ==> Idle(t.sender))
    && (t.receiver in {Waiting, Marking, Finishing} ==>
          && t.rConn == t.pipeConn > 0 && Idle(t.sender) && !t.doneInFlight && t.flow == []
          && t.done + t.unverified == t.history)
    && (t.receiver in {Waiting, Marking} ==> t.status == WAITING)
    && (t.receiver in {Accepting, Receiving} ==> t.status == RUNNING || t.decided)
    && (t.receiver in {Finishing, Gone} ==> t.status == FINISHED)
    && (t.receiver == Finishing ==> t.decided)
    && (t.doneOn.Some? || t.success ==> t.decided)
    && (t.sender.Applying? || t.sender.Blocked? ==> t.flow == [])
  }

  /** Up to which checkpoint of the list the receiver may believe its sender to be. */
  ghost predicate IndexInv(t: Thread) {
    && t.checkpointIndex <= t.applied && t.checkpointIndex <= t.pending
    && (t.rConn != t.pipeConn ==> t.pending <= t.applied)
    && (t.rConn == t.pipeConn && t.pending > t.applied ==>
          && t.flow == [] && !t.doneInFlight
          && (Idle(t.sender) || ((t.sender.Applying? || t.sender.Blocked?) && t.pending <= t.sender.upto)))
    && (t.sender.Applying? ==> t.sender.next <= t.applied && t.sender.next <= t.sender.upto)
    && (t.sender.Blocked? ==> t.sender.next <= t.applied && t.sender.next < t.sender.upto)
    && (t.sender == Awaiting && t.errOn.Some? && t.errOn.value.conn == t.sConn ==>
          var e := t.errOn.value.msg;
          e.from <= t.applied && e.from <= e.upto && t.flow == [] && !t.doneInFlight
          && t.receiver !in {Waiting, Marking, Finishing}
          && (t.pending <= t.applied || t.pending <= e.upto))
  }

  ghost predicate Inv(t: Thread) {
    ConnInv(t) && ContentInv(t) && PartInv(t) && PhaseInv(t) && IndexInv(t)
  }

  function Start(port: nat): Thread {
    Thread(port, Connecting, [], None, true, None, false, 0, false,
           0, 0, 0, [], false, None, None, None,
           Accepting, [], [], NO_PART, RUNNING, 0, 0, false, false)
  }

  lemma StartInv(port: nat)
    ensures Inv(Start(port))
  {
  }

  // ---------------------------------------------------------------- sender actions

  predicate CanConnect(t: Thread) { t.sender == Connecting }
  /** A thread with an earlier error first waits for the receiver's checkpoint. */
  function DoConnect(t: Thread): Thread {
    if t.clean then t.(sConn := t.sConn + 1, sender := Sending, pipeConn := t.sConn + 1, flow := [],
                       doneInFlight := false)
    else t.(sConn := t.sConn + 1, sender := ReadingCheckpoint)
  }

  predicate CanLoseConnection(t: Thread) {
    t.sender in {ReadingCheckpoint, Sending, Awaiting} && t.inHand.None?
  }
  function DoLoseConnection(t: Thread): Thread { t.(sender := Connecting, clean := false) }

  predicate CanQuit(t: Thread) {
    t.sender in {Connecting, ReadingCheckpoint, Sending, Awaiting} && t.inHand.None?
  }
  function DoQuit(t: Thread): Thread { t.(sender := Ended) }

  predicate CanApplyLocal(t: Thread) {
    t.sender == ReadingCheckpoint && t.checkpointOn.Some? && t.checkpointOn.value.conn == t.sConn
  }
  /** setLocalCheckpoint: a rejected checkpoint ends the thread, any other truncates the history to it. */
  function DoApplyLocal(t: Thread): Thread
    requires CanApplyLocal(t)
  {
    var c := t.checkpointOn.value.msg;
    if Judge(|t.history|, t.last, c, false) == INVALID_CHECKPOINT || c.numBlocks < 0 then t.(sender := Ended)
    else t.(sender := Sending, history := t.history[..c.numBlocks], last := Some(c),
            pipeConn := t.sConn, flow := [], doneInFlight := false, checkpointOn := None)
  }

  predicate CanTake(t: Thread) { t.sender == Sending && t.inHand.None? }
  function DoTake(t: Thread, b: Block): Thread { t.(inHand := Some(b), flow := t.flow + [b]) }

  predicate CanAdd(t: Thread) { t.inHand.Some? }
  /** addSource after sendOneByteSource, whether or not the whole block could be written. */
  function DoAdd(t: Thread, written: bool): Thread
    requires CanAdd(t)
  {
    if t.globalCheckpoint then t.(inHand := None, last := None, sender := Ended)
    else
      t.(history := t.history + [t.inHand.value], inHand := None,
         sender := if written then Sending else Connecting, clean := t.clean && written)
  }

  /** getNextSource came back empty: the DONE command follows the blocks. */
  predicate CanSendDone(t: Thread) { t.sender == Sending && t.inHand.None? }
  function DoSendDone(t: Thread): Thread { t.(sender := Awaiting, doneInFlight := true) }

  predicate CanReadErr(t: Thread) { t.sender == Awaiting && t.errOn.Some? && t.errOn.value.conn == t.sConn }
  function DoReadErr(t: Thread): Thread
    requires CanReadErr(t)
  {
    t.(sender := Applying(t.errOn.value.msg.from, t.errOn.value.msg.upto), errOn := None)
  }

  predicate CanBlock(t: Thread) { t.sender.Applying? && t.sender.next < t.sender.upto }
  function DoBlock(t: Thread): Thread
    requires CanBlock(t)
  {
    t.(sender := Blocked(t.sender.next, t.sender.upto))
  }

  predicate CanUnblock(t: Thread) { t.sender.Blocked? }
  function DoUnblock(t: Thread): Thread
    requires CanUnblock(t)
  {
    t.(sender := Applying(t.sender.next + 1, t.sender.upto),
       applied := if t.applied <= t.sender.next then t.sender.next + 1 else t.applied)
  }

  predicate CanResume(t: Thread) { t.sender.Applying? && t.sender.next == t.sender.upto }
  function DoResume(t: Thread): Thread { t.(sender := Sending) }

  predicate CanReadDone(t: Thread) { t.sender == Awaiting && t.doneOn == Some(t.sConn) }
  function DoReadDone(t: Thread): Thread { t.(sender := Ended, success := true) }

  /** setGlobalCheckpoint on the history of the thread whose receiver died. */
  function GlobalVerdict(t: Thread, c: Checkpoint): Verdict { Judge(|t.history|, t.last, c, true) }
  function DoGlobal(t: Thread, c: Checkpoint): Thread {
    if GlobalVerdict(t, c) == INVALID_CHECKPOINT || c.numBlocks < 0 then t
    else t.(history := t.history[..c.numBlocks], globalCheckpoint := true, last := Some(c))
  }

  // ---------------------------------------------------------------- receiver actions

  predicate CanAccept(t: Thread, conn: nat) { t.receiver == Accepting && t.rConn < conn <= t.sConn }
  /** After an error the first thing on the new connection is the local checkpoint. */
  function DoAccept(t: Thread, conn: nat): Thread {
    t.(receiver := Receiving, rConn := conn, pending := t.checkpointIndex, unverified := [], rError := false,
       checkpointOn := if t.rError then Some(OnConn(conn, LocalCheckpoint(t))) else t.checkpointOn)
  }

  predicate CanReceive(t: Thread) { t.receiver == Receiving && t.rConn == t.pipeConn && t.flow != [] }

  /** processFileCmd to the end; with tagged encryption the block still awaits the next tag. */
  function DoReceiveBlock(t: Thread, tagged: bool): Thread
    requires CanReceive(t)
  {
    var b := t.flow[0];
    var t' := t.(flow := t.flow[1..], part := NO_PART, checkpointIndex := t.pending);
    if tagged then t'.(unverified := t.unverified + [b])
    else t'.(done := t.done + t.unverified + [b], unverified := [])
  }

  predicate CanVerify(t: Thread) { t.receiver == Receiving }
  function DoVerify(t: Thread): Thread { t.(done := t.done + t.unverified, unverified := []) }

  predicate CanReceivePart(t: Thread, received: int, trusted: bool) {
    CanReceive(t) && 0 <= received < t.flow[0].size && (trusted ==> t.unverified == [])
  }
  /** The connection broke `received` bytes into a block; only untagged, unchecksummed bytes are kept. */
  function DoReceivePart(t: Thread, received: int, trusted: bool): Thread
    requires CanReceivePart(t, received, trusted)
  {
    t.(receiver := Accepting, rError := true, checkpointIndex := t.pending,
       part := if trusted then Part(t.flow[0].seqId, t.flow[0].offset, received) else NO_PART)
  }

  predicate CanFail(t: Thread) { t.receiver in {Receiving, Waiting, Finishing} }
  /** Any other failure; `inHeader` means a block header had begun to arrive. */
  function DoFail(t: Thread, inHeader: bool): Thread {
    t.(receiver := if t.receiver == Waiting then Marking else Accepting, rError := true,
       part := if inHeader && CanReceive(t) then NO_PART else t.part)
  }

  predicate CanMark(t: Thread) { t.receiver == Marking }
  function DoMark(t: Thread): Thread { t.(receiver := Accepting, status := RUNNING) }

  predicate CanReceiveDone(t: Thread) {
    t.receiver == Receiving && t.rConn == t.pipeConn && t.flow == [] && t.doneInFlight
  }
  function DoReceiveDone(t: Thread): Thread {
    t.(receiver := Waiting, status := WAITING, doneInFlight := false, checkpointIndex := t.pending)
  }

  /** New checkpoints were listed while waiting: they go out in an ERR command. */
  predicate CanSendErr(t: Thread, listed: nat) { t.receiver == Waiting && t.checkpointIndex < listed }
  function DoSendErr(t: Thread, listed: nat): Thread {
    t.(receiver := Receiving, status := RUNNING, pending := listed,
       errOn := Some(OnConn(t.rConn, ErrMsg(t.checkpointIndex, listed))))
  }

  /** No unseen checkpoint and, as the caller checks, no other thread RUNNING. */
  predicate CanDecide(t: Thread, listed: nat) { t.receiver == Waiting && t.checkpointIndex >= listed }
  function DoDecide(t: Thread): Thread {
    t.(receiver := Finishing, status := FINISHED, decided := true, doneOn := Some(t.rConn))
  }

  /** finishWithError, or leaving on a non-retryable socket error without adding a checkpoint. */
  predicate CanDie(t: Thread) { t.receiver in {Accepting, Receiving} }
  function DoDie(t: Thread): Thread { t.(receiver := Gone, status := FINISHED) }

  // ---------------------------------------------------------------- every action keeps the invariant

  lemma ConnectKeeps(t: Thread)
    requires Inv(t) && CanConnect(t)
    ensures Inv(DoConnect(t))
  {
    if t.clean {
      var t' := DoConnect(t);
      assert t.rConn == 0 && t.done == [] && t.unverified == [] && All(t') == [];
    }
  }

  lemma LoseConnectionKeeps(t: Thread)
    requires Inv(t) && CanLoseConnection(t)
    ensures Inv(DoLoseConnection(t))
  {
  }

  lemma QuitKeeps(t: Thread)
    requires Inv(t) && CanQuit(t)
    ensures Inv(DoQuit(t))
  {
  }

  lemma ApplyLocalKeeps(t: Thread)
    requires Inv(t) && CanApplyLocal(t)
    ensures Inv(DoApplyLocal(t))
  {
    if DoApplyLocal(t).sender == Sending { AcceptLocalKeeps(t); }
  }

  lemma AcceptLocalKeeps(t: Thread)
    requires Inv(t) && CanApplyLocal(t) && DoApplyLocal(t).sender == Sending
    ensures Inv(DoApplyLocal(t))
  {
    assert All(t) == t.history;
    var t' := DoApplyLocal(t);
    assert t'.history == t.done && All(t') == t.done;
    if OnPipe(t') { assert t'.done + t'.unverified + t'.flow == All(t'); }
  }

  lemma TakeKeeps(t: Thread, b: Block)
    requires Inv(t) && CanTake(t)
    ensures Inv(DoTake(t, b))
  {
    if OnPipe(t) {
      assert t.done + t.unverified + (t.flow + [b]) == (t.done + t.unverified + t.flow) + [b];
      assert t.history + [] == t.history;
    }
  }

  lemma AddKeeps(t: Thread, written: bool)
    requires Inv(t) && CanAdd(t)
    ensures Inv(DoAdd(t, written))
  {
    assert t.history + [t.inHand.value] + [] == All(t);
  }

  lemma SendDoneKeeps(t: Thread)
    requires Inv(t) && CanSendDone(t)
    ensures Inv(DoSendDone(t))
  {
  }

  lemma ReadErrKeeps(t: Thread)
    requires Inv(t) && CanReadErr(t)
    ensures Inv(DoReadErr(t))
  {
  }

  lemma BlockKeeps(t: Thread)
    requires Inv(t) && CanBlock(t)
    ensures Inv(DoBlock(t))
  {
  }

  lemma UnblockKeeps(t: Thread)
    requires Inv(t) && CanUnblock(t)
    ensures Inv(DoUnblock(t))
  {
  }

  lemma ResumeKeeps(t: Thread)
    requires Inv(t) && CanResume(t)
    ensures Inv(DoResume(t))
  {
  }

  lemma ReadDoneKeeps(t: Thread)
    requires Inv(t) && CanReadDone(t)
    ensures Inv(DoReadDone(t))
  {
  }

  lemma AcceptKeeps(t: Thread, conn: nat)
    requires Inv(t) && CanAccept(t, conn)
    ensures Inv(DoAccept(t, conn))
  {
  }

  lemma ReceiveBlockKeeps(t: Thread, tagged: bool)
    requires Inv(t) && CanReceive(t)
    ensures Inv(DoReceiveBlock(t, tagged))
  {
  }

  lemma VerifyKeeps(t: Thread)
    requires Inv(t) && CanVerify(t)
    ensures Inv(DoVerify(t))
  {
  }

  lemma ReceivePartKeeps(t: Thread, received: int, trusted: bool)
    requires Inv(t) && CanReceivePart(t, received, trusted)
    ensures Inv(DoReceivePart(t, received, trusted))
  {
  }

  lemma FailKeeps(t: Thread, inHeader: bool)
    requires Inv(t) && CanFail(t)
    ensures Inv(DoFail(t, inHeader))
  {
  }

  lemma MarkKeeps(t: Thread)
    requires Inv(t) && CanMark(t)
    ensures Inv(DoMark(t))
  {
  }

  lemma ReceiveDoneKeeps(t: Thread)
    requires Inv(t) && CanReceiveDone(t)
    ensures Inv(DoReceiveDone(t))
  {
    assert t.history + [] == t.history;
    assert t.done + t.unverified + [] == t.done + t.unverified;
  }

  lemma SendErrKeeps(t: Thread, listed: nat)
    requires Inv(t) && CanSendErr(t, listed)
    ensures Inv(DoSendErr(t, listed))
  {
  }

  lemma DecideKeeps(t: Thread, listed: nat)
    requires Inv(t) && CanDecide(t, listed)
    ensures Inv(DoDecide(t))
  {
  }

  lemma DieKeeps(t: Thread)
    requires Inv(t) && CanDie(t)
    ensures Inv(DoDie(t))
  {
  }

  lemma GlobalKeeps(t: Thread, c: Checkpoint)
    requires Inv(t) && t.receiver == Gone && c == LocalCheckpoint(t)
    ensures Inv(DoGlobal(t, c))
  {
  }

  /** The actions that take no block, return none and deliver none. */
  datatype Move =
    | Connect | LoseConnection | Quit | ReadErr | Resume | ReadDone
    | Accept(conn: nat) | Verify | Fail(inHeader: bool) | Mark | ReceiveDone | SendErr

  predicate CanMove(t: Thread, m: Move, listed: nat) {
    match m
    case Connect => CanConnect(t)
    case LoseConnection => CanLoseConnection(t)
    case Quit => CanQuit(t)
    case ReadErr => CanReadErr(t)
    case Resume => CanResume(t)
    case ReadDone => CanReadDone(t)
    case Accept(conn) => CanAccept(t, conn)
    case Verify => CanVerify(t)
    case Fail(_) => CanFail(t)
    case Mark => CanMark(t)
    case ReceiveDone => CanReceiveDone(t)
    case SendErr => CanSendErr(t, listed)
  }

  function DoMove(t: Thread, m: Move, listed: nat): Thread
    requires CanMove(t, m, listed)
  {
    match m
    case Connect => DoConnect(t)
    case LoseConnection => DoLoseConnection(t)
    case Quit => DoQuit(t)
    case ReadErr => DoReadErr(t)
    case Resume => DoResume(t)
    case ReadDone => DoReadDone(t)
    case Accept(conn) => DoAccept(t, conn)
    case Verify => DoVerify(t)
    case Fail(inHeader) => DoFail(t, inHeader)
    case Mark => DoMark(t)
    case ReceiveDone => DoReceiveDone(t)
    case SendErr => DoSendErr(t, listed)
  }

  lemma MoveKeeps(t: Thread, m: Move, listed: nat)
    requires Inv(t) && CanMove(t, m, listed)
    ensures Inv(DoMove(t, m, listed))
  {
    match m
    case Connect => ConnectKeeps(t);
    case LoseConnection => LoseConnectionKeeps(t);
    case Quit => QuitKeeps(t);
    case ReadErr => ReadErrKeeps(t);
    case Resume => ResumeKeeps(t);
    case ReadDone => ReadDoneKeeps(t);
    case Accept(conn) => AcceptKeeps(t, conn);
    case Verify => VerifyKeeps(t);
    case Fail(inHeader) => FailKeeps(t, inHeader);
    case Mark => MarkKeeps(t);
    case ReceiveDone => ReceiveDoneKeeps(t);
    case SendErr => SendErrKeeps(t, listed);
  }

  // ---------------------------------------------------------------- what that means for a checkpoint

  /**
   Whenever a sender thread applies a local checkpoint, the receiver's completed blocks are exactly the
   first `numBlocks` entries of the history, in order; neither the size check nor the order check of
   the history can fire.
   */
  lemma CompletedArePrefix(t: Thread)
    requires Inv(t) && CanApplyLocal(t)
    ensures var c := t.checkpointOn.value.msg;
            && c.numBlocks == |t.done| <= |t.history|
            && t.history[..c.numBlocks] == t.done
            && (t.last.Some? ==> c.numBlocks >= t.last.value.numBlocks)
  {
    assert All(t) == t.history;
    if t.globalCheckpoint {
      assert t.history[..|t.done|] == t.done;
    }
  }

  /** The one way a reachable checkpoint is refused: same block as last time, different byte count. */
  lemma LocalRejectedOnlyOnRecount(t: Thread)
    requires Inv(t) && CanApplyLocal(t)
    ensures var c := t.checkpointOn.value.msg;
            Judge(|t.history|, t.last, c, false) == INVALID_CHECKPOINT <==>
              && t.last.Some? && t.last.value.numBlocks == c.numBlocks
              && t.last.value.lastBlockSeqId == c.lastBlockSeqId
              && t.last.value.lastBlockOffset == c.lastBlockOffset
              && t.last.value.lastBlockReceivedBytes != c.lastBlockReceivedBytes
  {
    CompletedArePrefix(t);
  }

  /**
   A dead receiver's checkpoint, the first time it is applied, is refused exactly when it also counts the
   block the sender has not yet added to its history, or recounts the block of the last local checkpoint.
   */
  lemma GlobalRejectedIff(t: Thread, c: Checkpoint)
    requires Inv(t) && t.receiver == Gone && !t.globalCheckpoint && c == LocalCheckpoint(t)
    ensures GlobalVerdict(t, c) == INVALID_CHECKPOINT <==>
              || (t.inHand.Some? && t.done == All(t))
              || (&& t.last.Some? && t.last.value.numBlocks == |t.done|
                  && t.last.value.lastBlockSeqId == t.part.seqId && t.last.value.lastBlockOffset == t.part.offset
                  && t.last.value.lastBlockReceivedBytes != t.part.received)
  {
    if |t.done| > |t.history| { assert t.done[..|All(t)|] == All(t); }
  }
}
