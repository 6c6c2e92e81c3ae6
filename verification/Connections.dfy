/** The close protocol of a network connection: handlers, timers and the queued closing. */
module Connections {

  datatype State = Open | RequestClose | Closing | Closed

  /** What a finished operation reports. */
  datatype IoError = NoError | Aborted | Failed

  /** Where starting an operation throws, if it does. */
  datatype Fault = NoFault | AtTimer | AtStart

  /** The read that is under way: of a header or of a body. */
  datatype ReadOp = NoRead | Header | Body

  /** What the protocol does with the connection while it handles a message. */
  datatype Reply = Close | Message(fault: Fault)

  const NETWORKMESSAGE_MAXSIZE: int := 15340

  /** A timer: whether it runs, and how many of its expiries still wait to be handled. */
  datatype Timer = Timer(armed: bool, expired: nat) {
    function Cancel(): Timer { this.(armed := false) }
    function Start(): Timer { this.(armed := true) }
    function Expire(): Timer { if armed then Timer(false, expired + 1) else this }
    function Handled(): Timer { if expired > 0 then this.(expired := expired - 1) else this }
    predicate Live() { armed || expired > 0 }
    function Work(): nat { 3 * expired + if armed then 4 else 0 }
  }

  class Connection {
    var state: State
    var pendingRead: int
    var pendingWrite: int
    var readError: bool
    var writeError: bool
    var receivedFirst: bool
    var hasProtocol: bool
    var refCount: nat
    var socketOpen: bool
    var readTimer: Timer
    var writeTimer: Timer
    /** What other threads owe: close tasks, finished operations, repeated releases. */
    var closeTasks: nat
    var reading: ReadOp
    var writing: nat
    var releases: nat
    /** What has happened: protocols made and released, releases that went through. */
    ghost var made: nat
    ghost var protocolsReleased: nat
    ghost var deleted: nat
    /** A send failed before its timer ran. */
    ghost var lostWrite: bool

    constructor ()
      ensures Valid() && state == Open && !lostWrite && pendingRead == 0 && pendingWrite == 0 && !hasProtocol
      ensures reading == NoRead && writing == 0 && readTimer == writeTimer == Timer(false, 0) && refCount == 0 && !receivedFirst
    {
      state, pendingRead, pendingWrite, readError, writeError := Open, 0, 0, false, false;
      receivedFirst, hasProtocol, refCount, socketOpen := false, false, 0, true;
      readTimer, writeTimer := Timer(false, 0), Timer(false, 0);
      closeTasks, reading, writing, releases := 0, NoRead, 0, 0;
      made, protocolsReleased, deleted, lostWrite := 0, 0, 0, false;
    }

    /** Holds even inside a handler. */
    ghost predicate Base()
      reads this
    {
      // a close task is queued exactly while a close is requested
      && closeTasks == (if state == RequestClose then 1 else 0)
      // the connection and its protocol are released at most once
      && releases + deleted == (if state == Closed then 1 else 0)
      && made <= 1 && made == protocolsReleased + (if hasProtocol then 1 else 0)
      && (hasProtocol ==> state == Open || state == RequestClose)
      && (state == Open && !hasProtocol ==> made == 0)
      // pending operations
      && 0 <= pendingRead <= 1 && 0 <= pendingWrite <= 1 && writing <= 1
      && (!socketOpen ==> pendingRead == 0 && pendingWrite == 0)
      && (state == Closed ==> !socketOpen)
    }

    /** A pending write is under way, or its timer runs, or it was lost. */
    ghost predicate Watched()
      reads this
    {
      pendingWrite == 1 && !lostWrite ==> writing == 1 || writeTimer.Live()
    }

    /** Holds between the handlers. */
    ghost predicate Valid()
      reads this
    {
      && Base() && Watched()
      && (state == Open && !hasProtocol ==> !receivedFirst)
      && (state == Open ==> socketOpen && !readError && !writeError)
      && (state == Open && reading != NoRead ==> pendingRead == 1)
      && (state == Open && writing == 1 ==> pendingWrite == 1)
      && (state == Closing ==> pendingWrite == 1 && !writeError)
    }

    /** Nothing is queued, under way or timed. */
    predicate Quiescent()
      reads this
    {
      closeTasks == 0 && reading == NoRead && writing == 0 && !readTimer.Live() && !writeTimer.Live()
    }

    /** A write is pending that neither its completion nor its timer will end. */
    ghost predicate Orphaned()
      reads this
    {
      pendingWrite == 1 && !writeError && writing == 0 && !writeTimer.Live()
    }

    /** The read timer is sure to close the socket: it has expired, or no read is under way that could still cancel it. */
    ghost predicate ReadTimerCloses()
      reads this
    {
      (pendingRead > 0 || readError) && (readTimer.expired > 0 || (readTimer.armed && reading == NoRead))
    }

    /** The connection is to be closed, but may never be. */
    ghost predicate MayStay()
      reads this
    {
      (state == RequestClose || state == Closing) && Orphaned() && !ReadTimerCloses()
    }

    /** Nothing that is under way can close the connection any more. */
    ghost predicate Stuck()
      reads this
    {
      MayStay() && reading == NoRead && !readTimer.Live()
    }

    /** How much the queued events can still do once a close has been requested. */
    ghost function Outstanding(): nat
      reads this
    {
      2 * closeTasks + 3 * writing + (if reading == NoRead then 0 else 3) + readTimer.Work() + writeTimer.Work()
    }

    method CloseConnection()
      requires Base()
      modifies this`state, this`closeTasks
      ensures Base() && (Watched() ==> Valid()) && state == if old(state) == Closed then Closed else RequestClose
      ensures (old(Valid()) ==> Valid()) && (old(Stuck()) ==> Stuck())
    {
      if state == Closed || state == RequestClose { return; }
      state := RequestClose;
      closeTasks := closeTasks + 1;
    }

    method CloseSocket()
      requires Base()
      modifies this`pendingRead, this`pendingWrite, this`socketOpen
      ensures Base() && Watched() && !socketOpen && pendingRead == 0 && pendingWrite == 0
    {
      if socketOpen {
        pendingRead, pendingWrite, socketOpen := 0, 0, false;
      }
    }

    method CloseConnectionTask()
      requires Valid() && closeTasks > 0
      modifies this`state, this`closeTasks, this`hasProtocol, this`pendingRead, this`pendingWrite, this`socketOpen,
               this`releases, this`deleted, this`protocolsReleased
      ensures Valid() && old(state) == RequestClose
      ensures state == if old(pendingWrite == 0 || writeError) then Closed else Closing
      ensures made == protocolsReleased && Outstanding() < old(Outstanding())
      ensures MayStay() == old(MayStay()) && (old(MayStay()) ==> state == Closing) && (old(Stuck()) ==> Stuck())
    {
      closeTasks := closeTasks - 1;
      if state != RequestClose { return; }
      ReleaseProtocol();
      state := Closing;
      if pendingWrite == 0 || writeError {
        CloseSocket();
        ReleaseConnection();
        state := Closed;
      }
    }

    method ReleaseProtocol()
      modifies this`hasProtocol, this`protocolsReleased
      ensures !hasProtocol && protocolsReleased == old(protocolsReleased) + if old(hasProtocol) then 1 else 0
    {
      if hasProtocol {
        protocolsReleased := protocolsReleased + 1;
        hasProtocol := false;
      }
    }

    /** Tries again later while something still refers to the connection. */
    method ReleaseConnection()
      modifies this`releases, this`deleted
      ensures releases + deleted == old(releases + deleted) + 1
      ensures deleted == old(deleted) + if refCount == 0 then 1 else 0
    {
      if refCount > 0 {
        releases := releases + 1;
      } else {
        deleted := deleted + 1;
      }
    }

    method ReleaseAgain()
      requires Valid() && releases > 0
      modifies this`releases, this`deleted
      ensures Valid() && state == Closed && deleted == (if refCount == 0 then 1 else 0)
    {
      releases := releases - 1;
      ReleaseConnection();
    }

    /** Starts to read; the timer runs unless setting it throws. */
    method StartRead(op: ReadOp, fault: Fault, logError: bool)
      requires Base() && op != NoRead && socketOpen && pendingRead == 0
      modifies this`pendingRead, this`readTimer, this`reading, this`state, this`closeTasks
      ensures Base() && pendingRead == 1 && reading == (if fault == NoFault then op else old(reading))
      ensures readTimer == (if fault == AtTimer then old(readTimer).Cancel() else old(readTimer).Start())
      ensures state == (if fault == NoFault || !logError || old(state) == Closed then old(state) else RequestClose)
    {
      pendingRead := pendingRead + 1;
      readTimer := readTimer.Cancel();
      if fault != AtTimer {
        readTimer := readTimer.Start();
        if fault != AtStart {
          reading := op;
        }
      }
      if fault != NoFault && logError {
        CloseConnection();
      }
    }

    method AcceptConnection(protocol: bool, fault: Fault, logError: bool)
      requires Valid() && state == Open && pendingRead == 0 && !hasProtocol
      modifies this`pendingRead, this`readTimer, this`reading, this`state, this`closeTasks, this`hasProtocol, this`made
      ensures Valid() && pendingRead == 1 && hasProtocol == protocol && reading == (if fault == NoFault then Header else old(reading))
      ensures state == if fault == NoFault || !logError then Open else RequestClose
      ensures readTimer == (if fault == AtTimer then old(readTimer).Cancel() else old(readTimer).Start())
    {
      if protocol {
        hasProtocol, made := true, made + 1;
      }
      StartRead(Header, fault, logError);
    }

    method HandleReadError(error: IoError)
      requires Base()
      modifies this`state, this`closeTasks, this`readError
      ensures Base() && readError
      ensures state == if error == Aborted || old(state) == Closed then old(state) else RequestClose
    {
      if error != Aborted {
        CloseConnection();
      }
      readError := true;
    }

    /** What the end of any read does first: the timer is cancelled, an error is noted, and a connection that is
        not to be kept is asked to close.
     */
    method EndRead(failed: bool, error: IoError) returns (keep: bool)
      requires Valid() && reading != NoRead
      modifies this`state, this`closeTasks, this`reading, this`readTimer, this`readError
      ensures Valid() && reading == NoRead && readTimer == old(readTimer).Cancel()
      ensures keep == (old(state) == Open && !failed) && (keep ==> state == Open && pendingRead == 1)
      ensures !keep ==> state == if old(state) == Closed then Closed else RequestClose
      ensures old(state) != Open ==> Outstanding() < old(Outstanding())
      ensures old(state) != Open && MayStay() ==> old(MayStay())
      ensures old(MayStay()) && (old(pendingRead > 0 || readError) || !old(readTimer).Live()) ==> Stuck()
    {
      reading := NoRead;
      readTimer := readTimer.Cancel();
      if failed {
        HandleReadError(error);
      }
      keep := state == Open && !readError;
      if !keep {
        CloseConnection();
      }
    }

    /** The header of a packet has come, or failed to; `size` is what it says. */
    method ParseHeader(error: IoError, size: int, tooMany: bool, fault: Fault, logError: bool)
      requires Valid() && reading == Header
      modifies this`state, this`closeTasks, this`reading, this`readTimer, this`readError, this`pendingRead
      ensures Valid() && (old(state) != Open ==> Outstanding() < old(Outstanding()))
      ensures old(state) != Open && MayStay() ==> old(MayStay())
      ensures old(MayStay()) && (old(pendingRead > 0 || readError) || !old(readTimer).Live()) ==> Stuck()
      ensures var bad := error != NoError || size <= 0 || size >= NETWORKMESSAGE_MAXSIZE - 16;
        && state == (if old(state) == Closed then Closed
                     else if bad || tooMany || old(state) != Open || (fault != NoFault && logError) then RequestClose
                     else Open)
        && reading == (if bad || tooMany || old(state) != Open || fault != NoFault then NoRead else Body)
        && (readTimer.armed ==> !bad && !tooMany && old(state) == Open && fault != AtTimer)
        && readTimer.expired == old(readTimer).expired
    {
      var keep := EndRead(error != NoError || size <= 0 || size >= NETWORKMESSAGE_MAXSIZE - 16, error);
      if !keep { return; }
      if tooMany {
        CloseConnection();
        return;
      }
      pendingRead := pendingRead - 1;
      StartRead(Body, fault, logError);
    }

    /** How far a write has got. */
    ghost predicate Started(fault: Fault, writing0: nat, timer0: Timer, lost0: bool)
      reads this
    {
      && writing == (if fault == NoFault then writing0 + 1 else writing0)
      && writeTimer == (if fault == AtTimer then timer0.Cancel() else timer0.Start())
      && lostWrite == (lost0 || fault == AtTimer)
    }

    method Send(fault: Fault) returns (ok: bool)
      requires Valid()
      modifies this`pendingWrite, this`writeTimer, this`writing, this`lostWrite
      ensures Valid() && ok == (state == Open)
      ensures if ok && old(pendingWrite) == 0
              then pendingWrite == 1 && Started(fault, old(writing), old(writeTimer), old(lostWrite))
              else pendingWrite == old(pendingWrite) && writing == old(writing) && writeTimer == old(writeTimer) && lostWrite == old(lostWrite)
      ensures old(Stuck()) ==> Stuck()
    {
      if state != Open || writeError {
        return false;
      }
      if pendingWrite == 0 {
        InternalSend(fault);
      }
      return true;
    }

    method InternalSend(fault: Fault)
      requires Valid() && state == Open && pendingWrite == 0
      modifies this`pendingWrite, this`writeTimer, this`writing, this`lostWrite
      ensures Valid() && pendingWrite == 1 && Started(fault, old(writing), old(writeTimer), old(lostWrite))
    {
      pendingWrite := pendingWrite + 1;
      writeTimer := writeTimer.Cancel();
      if fault == AtTimer {
        lostWrite := true;
        return;
      }
      writeTimer := writeTimer.Start();
      if fault != AtStart {
        writing := writing + 1;
      }
    }

    /** What the protocol does with the connection while it handles a message. */
    method Receive(replies: seq<Reply>)
      requires Valid() && state == Open && hasProtocol && pendingRead == 0 && reading == NoRead
      modifies this`state, this`closeTasks, this`pendingWrite, this`writeTimer, this`writing, this`lostWrite
      ensures Valid() && state == if Close in replies then RequestClose else Open
      ensures if old(pendingWrite) == 0 && replies != [] && replies[0].Message?
              then pendingWrite == 1 && Started(replies[0].fault, old(writing), old(writeTimer), old(lostWrite))
              else pendingWrite == old(pendingWrite) && writing == old(writing) && writeTimer == old(writeTimer) && lostWrite == old(lostWrite)
    {
      for i := 0 to |replies|
        invariant Valid() && state == if Close in replies[..i] then RequestClose else Open
        invariant if i > 0 && old(pendingWrite) == 0 && replies[0].Message?
                  then pendingWrite == 1 && Started(replies[0].fault, old(writing), old(writeTimer), old(lostWrite))
                  else pendingWrite == old(pendingWrite) && writing == old(writing) && writeTimer == old(writeTimer) && lostWrite == old(lostWrite)
        invariant i > 0 && replies[0] == Close ==> state == RequestClose
      {
        assert replies[..i + 1] == replies[..i] + [replies[i]];
        match replies[i]
        case Close => CloseConnection();
        case Message(f) => var _ := Send(f);
      }
      assert replies[..|replies|] == replies;
    }

    /** The first packet makes the protocol if there is none yet. */
    method MeetProtocol(canMake: bool) returns (ok: bool)
      requires Valid() && state == Open && reading == NoRead
      modifies this`receivedFirst, this`hasProtocol, this`made, this`state, this`closeTasks
      ensures Valid() && receivedFirst && ok == hasProtocol == (old(hasProtocol) || canMake)
      ensures state == if ok then Open else RequestClose
    {
      ok := true;
      if !receivedFirst {
        receivedFirst := true;
        if !hasProtocol {
          if !canMake {
            CloseConnection();
            return false;
          }
          hasProtocol, made := true, made + 1;
        }
      }
    }

    /** Hands a packet to the protocol, which the first packet may still have to make, and reads on. */
    method TakeMessage(canMake: bool, replies: seq<Reply>, fault: Fault, logError: bool)
      requires Valid() && state == Open && pendingRead == 1 && reading == NoRead
      modifies this`state, this`closeTasks, this`reading, this`readTimer, this`pendingRead, this`receivedFirst,
               this`hasProtocol, this`made, this`pendingWrite, this`writeTimer, this`writing, this`lostWrite
      ensures Valid() && receivedFirst && hasProtocol == (old(hasProtocol) || canMake)
      ensures state == if !hasProtocol || Close in replies || (fault != NoFault && logError) then RequestClose else Open
      ensures hasProtocol ==> pendingRead == 1 && reading == if fault == NoFault then Header else NoRead
      ensures if hasProtocol && old(pendingWrite) == 0 && replies != [] && replies[0].Message?
              then pendingWrite == 1 && Started(replies[0].fault, old(writing), old(writeTimer), old(lostWrite))
              else pendingWrite == old(pendingWrite) && writing == old(writing) && lostWrite == old(lostWrite)
    {
      pendingRead := pendingRead - 1;
      var ok := MeetProtocol(canMake);
      if !ok { return; }
      Receive(replies);
      StartRead(Header, fault, logError);
    }

    /** The body of a packet has come; `replies` is what the protocol then does, if there is one or one can be made. */
    method ParsePacket(error: IoError, canMake: bool, replies: seq<Reply>, fault: Fault, logError: bool)
      requires Valid() && reading == Body
      modifies this`state, this`closeTasks, this`reading, this`readTimer, this`readError, this`pendingRead, this`receivedFirst,
               this`hasProtocol, this`made, this`pendingWrite, this`writeTimer, this`writing, this`lostWrite
      ensures Valid() && (old(state) != Open ==> Outstanding() < old(Outstanding()) && lostWrite == old(lostWrite))
      ensures old(state) != Open && MayStay() ==> old(MayStay())
      ensures old(MayStay()) && (old(pendingRead > 0 || readError) || !old(readTimer).Live()) ==> Stuck()
      ensures error != NoError || old(state) != Open ==>
        state == (if old(state) == Closed then Closed else RequestClose) && reading == NoRead && lostWrite == old(lostWrite)
      ensures error == NoError && old(state) == Open ==>
        && receivedFirst && hasProtocol == (old(hasProtocol) || canMake)
        && state == (if !hasProtocol || Close in replies || (fault != NoFault && logError) then RequestClose else Open)
        && (hasProtocol ==> reading == if fault == NoFault then Header else NoRead)
    {
      var keep := EndRead(error != NoError, error);
      if !keep { return; }
      TakeMessage(canMake, replies, fault, logError);
    }

    method HandleWriteError(error: IoError)
      requires Base()
      modifies this`state, this`closeTasks, this`writeError
      ensures Base() && writeError
      ensures state == if error == Aborted || old(state) == Closed then old(state) else RequestClose
    {
      if error != Aborted {
        CloseConnection();
      }
      writeError := true;
    }

    /** A write has finished. */
    method OnWriteOperation(error: IoError)
      requires Valid() && writing > 0
      modifies this`state, this`closeTasks, this`writing, this`writeTimer, this`writeError, this`pendingRead, this`pendingWrite, this`socketOpen
      ensures Valid() && pendingWrite == 0 && (old(state) != Open ==> Outstanding() < old(Outstanding()))
      ensures state == if old(state) == Closed then Closed else if old(state) == Open && error == NoError then Open else RequestClose
      ensures socketOpen == (state == Open) && !MayStay() && writing == old(writing) - 1 && writeTimer == old(writeTimer).Cancel()
    {
      writing := writing - 1;
      writeTimer := writeTimer.Cancel();
      if error != NoError {
        HandleWriteError(error);
      }
      if state != Open || writeError {
        CloseSocket();
        CloseConnection();
        return;
      }
      pendingWrite := pendingWrite - 1;
    }

    method OnReadTimeout()
      requires Valid() && readTimer.expired > 0
      modifies this`state, this`closeTasks, this`readTimer, this`pendingRead, this`pendingWrite, this`socketOpen
      ensures Valid() && Outstanding() < old(Outstanding())
      ensures if old(pendingRead > 0 || readError)
              then !socketOpen && state == if old(state) == Closed then Closed else RequestClose
              else state == old(state) && socketOpen == old(socketOpen)
      ensures MayStay() ==> old(MayStay())
      ensures old(MayStay()) ==> MayStay() && pendingRead == old(pendingRead)
      ensures readTimer == old(readTimer).Handled()
    {
      readTimer := readTimer.Handled();
      if pendingRead > 0 || readError {
        CloseSocket();
        CloseConnection();
      }
    }

    method OnWriteTimeout()
      requires Valid() && writeTimer.expired > 0
      modifies this`state, this`closeTasks, this`writeTimer, this`pendingRead, this`pendingWrite, this`socketOpen
      ensures Valid() && Outstanding() < old(Outstanding())
      ensures if old(pendingWrite > 0 || writeError)
              then !socketOpen && state == if old(state) == Closed then Closed else RequestClose
              else state == old(state) && socketOpen == old(socketOpen)
      ensures !MayStay() && writeTimer == old(writeTimer).Handled()
    {
      writeTimer := writeTimer.Handled();
      if pendingWrite > 0 || writeError {
        CloseSocket();
        CloseConnection();
      }
    }

    method ExpireReadTimer()
      requires Valid()
      modifies this`readTimer
      ensures Valid() && (old(readTimer).armed ==> Outstanding() < old(Outstanding()))
      ensures MayStay() ==> old(MayStay())
      ensures old(MayStay()) && pendingRead == 0 && !readError ==> MayStay()
      ensures old(Stuck()) ==> Stuck()
      ensures readTimer == old(readTimer).Expire()
    {
      readTimer := readTimer.Expire();
    }

    method ExpireWriteTimer()
      requires Valid()
      modifies this`writeTimer
      ensures Valid() && (old(writeTimer).armed ==> Outstanding() < old(Outstanding()))
      ensures MayStay() == old(MayStay()) && Stuck() == old(Stuck()) && writeTimer == old(writeTimer).Expire()
    {
      writeTimer := writeTimer.Expire();
    }

    lemma DrainFacts()
      requires Valid()
      ensures closeTasks == (if state == RequestClose then 1 else 0)
      ensures pendingRead >= 0 && (state == Closing ==> pendingWrite == 1)
      ensures state == Closed ==> pendingWrite == 0
      ensures Quiescent() && state == Closing ==> lostWrite && Stuck()
    {
    }

    /** Once a close is requested, the events run out, in whatever order they come and with whatever errors;
        the connection is then closed if it could not stay from the start.
     */
    method Drain()
      requires Valid() && state != Open
      modifies this
      ensures Valid() && Quiescent() && (state == Closed || state == Closing)
      ensures state == Closed <==> pendingWrite == 0
      ensures !old(MayStay()) || !old(lostWrite) ==> state == Closed
      ensures state == Closing ==> Stuck()
    {
      hide Valid, Base, Watched, Outstanding, MayStay, Stuck;
      DrainFacts();
      while
        invariant Valid() && state != Open && lostWrite == old(lostWrite) && (MayStay() ==> old(MayStay()))
        invariant closeTasks == (if state == RequestClose then 1 else 0)
        decreases Outstanding()
      {
        case closeTasks > 0 =>
          CloseConnectionTask();
          DrainFacts();
        case reading == Header =>
          var error: IoError, size: int, tooMany: bool, fault: Fault, logError: bool := *, *, *, *, *;
          ParseHeader(error, size, tooMany, fault, logError);
          DrainFacts();
        case reading == Body =>
          var error: IoError, canMake: bool, replies: seq<Reply>, fault: Fault, logError: bool := *, *, *, *, *;
          ParsePacket(error, canMake, replies, fault, logError);
          DrainFacts();
        case writing > 0 =>
          var error: IoError := *;
          OnWriteOperation(error);
          DrainFacts();
        case readTimer.armed =>
          ExpireReadTimer();
          DrainFacts();
        case writeTimer.armed =>
          ExpireWriteTimer();
          DrainFacts();
        case readTimer.expired > 0 =>
          OnReadTimeout();
          DrainFacts();
        case writeTimer.expired > 0 =>
          OnWriteTimeout();
          DrainFacts();
      }
      DrainFacts();
    }

    /** From every state that may stay there is a way to stay: the timer expires in vain, or is cancelled by the
        end of a read, and the close task finds the write pending.
     */
    method Stay()
      requires Valid() && MayStay()
      modifies this
      ensures Valid() && Quiescent() && state == Closing && Stuck()
    {
      hide Valid, Base, Watched, Outstanding;
      DrainFacts();
      if pendingRead == 0 && !readError {
        ExpireReadTimer();
        while readTimer.expired > 0
          invariant Valid() && MayStay() && pendingRead == 0 && !readError && !readTimer.armed
          decreases readTimer.expired
        {
          OnReadTimeout();
        }
      }
      if reading == Header {
        ParseHeader(Aborted, 0, false, NoFault, false);
      } else if reading == Body {
        ParsePacket(Aborted, false, [], NoFault, false);
      }
      DrainFacts();
      if state == RequestClose {
        CloseConnectionTask();
        DrainFacts();
      }
    }

    /** Whether what the event reports is under way. */
    ghost predicate Due(event: Event)
      reads this
    {
      match event
      case CloseTask => closeTasks > 0
      case HeaderRead(_, _, _, _, _) => reading == Header
      case BodyRead(_, _, _, _, _) => reading == Body
      case Written(_) => writing > 0
      case ReadTimeout => readTimer.expired > 0
      case WriteTimeout => writeTimer.expired > 0
      case Release => releases > 0
      case _ => true
    }

    /** The state after an event that is due. */
    ghost function Next(event: Event): State
      reads this
    {
      var asked := if state == Closed then Closed else RequestClose;
      match event
      case CloseRequested => asked
      case CloseTask => if pendingWrite == 0 || writeError then Closed else Closing
      case HeaderRead(error, size, tooMany, fault, logError) =>
        if error == NoError && 0 < size < NETWORKMESSAGE_MAXSIZE - 16 && !tooMany && state == Open && (fault == NoFault || !logError) then Open
        else asked
      case BodyRead(error, canMake, replies, fault, logError) =>
        if error == NoError && state == Open && (hasProtocol || canMake) && Close !in replies && (fault == NoFault || !logError) then Open
        else asked
      case Written(error) => if error == NoError && state == Open then Open else asked
      case ReadTimeout => if pendingRead > 0 || readError then asked else state
      case WriteTimeout => if pendingWrite > 0 || writeError then asked else state
      case _ => state
    }

    /** One event, in any state; an event that is not due does nothing, and one that is cannot come again. */
    method Handle(event: Event)
      requires Valid()
      modifies this
      ensures Valid() && (state == Open ==> old(state) == Open) && (old(state) == Closed ==> state == Closed)
      ensures old(Stuck()) ==> Stuck()
      ensures state == (if old(Due(event)) then old(Next(event)) else old(state)) && MayFollow(old(state), event, state)
      ensures !old(Due(event)) ==> unchanged(this)
      ensures old(Due(event)) && event.Written? ==> writing == pendingWrite == 0
      ensures old(Due(event)) && event.ReadTimeout? ==> readTimer == old(readTimer).Handled()
      ensures old(Due(event)) && event.WriteTimeout? ==> writeTimer == old(writeTimer).Handled()
      ensures event.ExpireRead? ==> readTimer == old(readTimer).Expire()
      ensures event.ExpireWrite? ==> writeTimer == old(writeTimer).Expire()
      ensures event.SendRequested? && old(state == Open && pendingWrite == 0) ==>
        pendingWrite == 1 && Started(event.fault, old(writing), old(writeTimer), old(lostWrite))
      ensures event.Refer? ==> refCount == event.count
      ensures old(Due(event)) && event.Release? ==> deleted == if refCount == 0 then 1 else 0
    {
      hide Valid, Base, Watched, MayStay, Stuck, Outstanding, Started;
      StuckFacts();
      match event
      case CloseRequested => CloseConnection();
      case CloseTask => if closeTasks > 0 { CloseConnectionTask(); }
      case HeaderRead(error, size, tooMany, fault, logError) =>
        if reading == Header { ParseHeader(error, size, tooMany, fault, logError); }
      case BodyRead(error, canMake, replies, fault, logError) =>
        if reading == Body { ParsePacket(error, canMake, replies, fault, logError); }
      case SendRequested(fault) => var _ := Send(fault);
      case Written(error) => if writing > 0 { OnWriteOperation(error); }
      case ExpireRead => ExpireReadTimer();
      case ExpireWrite => ExpireWriteTimer();
      case ReadTimeout => if readTimer.expired > 0 { OnReadTimeout(); }
      case WriteTimeout => if writeTimer.expired > 0 { OnWriteTimeout(); }
      case Release => if releases > 0 { ReleaseAgain(); }
      case Refer(count) => Refer(count);
    }

    /** How many others refer to the connection. */
    method Refer(count: nat)
      requires Valid()
      modifies this`refCount
      ensures Valid() && refCount == count && (old(Stuck()) ==> Stuck())
    {
      refCount := count;
    }

    lemma StuckFacts()
      requires Valid()
      ensures Base() && (closeTasks > 0 <==> state == RequestClose)
      ensures Stuck() ==>
        state != Open && state != Closed && reading == NoRead && writing == 0 && !readTimer.Live() && !writeTimer.Live()
      ensures pendingWrite >= 0 && (state == Open ==> !writeError) && (state == Closed ==> pendingWrite == 0)
      ensures releases > 0 ==> state == Closed
    {
    }

    /** Any run keeps what is valid: at most one close task, one release of the protocol and one of the
        connection; a closed connection stays closed, and one that is stuck is never closed.
     */
    method Run(events: seq<Event>) returns (ghost states: seq<State>)
      requires Valid()
      modifies this
      ensures |states| == |events| + 1 && states[0] == old(state) && states[|events|] == state
      ensures forall i :: 0 <= i < |events| ==> MayFollow(states[i], events[i], states[i + 1])
      ensures Valid() && closeTasks <= 1 && protocolsReleased <= 1 && deleted <= 1
      ensures (closeTasks == 1 <==> state == RequestClose) && (deleted + releases == 1 <==> state == Closed)
      ensures 0 <= pendingRead <= 1 && 0 <= pendingWrite <= 1
      ensures old(state) == Closed ==> state == Closed
      ensures old(Stuck()) ==> Stuck() && state != Closed
    {
      hide Valid, Base, Watched, Due, Next, MayFollow;
      states := [state];
      for i := 0 to |events|
        invariant |states| == i + 1 && states[0] == old(state) && states[i] == state
        invariant forall k :: 0 <= k < i ==> MayFollow(states[k], events[k], states[k + 1])
        invariant Valid() && (old(state) == Closed ==> state == Closed) && (old(Stuck()) ==> Stuck())
      {
        Handle(events[i]);
        states := states + [state];
      }
      RunFacts();
    }

    lemma RunFacts()
      requires Valid()
      ensures closeTasks <= 1 && protocolsReleased <= 1 && deleted <= 1
      ensures (closeTasks == 1 <==> state == RequestClose) && (deleted + releases == 1 <==> state == Closed)
      ensures 0 <= pendingRead <= 1 && 0 <= pendingWrite <= 1
    {
    }
  }

  /** Everything that can happen to a connection. */
  datatype Event =
    | CloseRequested
    | CloseTask
    | HeaderRead(error: IoError, size: int, tooMany: bool, fault: Fault, logError: bool)
    | BodyRead(error: IoError, canMake: bool, replies: seq<Reply>, fault: Fault, logError: bool)
    | SendRequested(fault: Fault)
    | Written(error: IoError)
    | ExpireRead
    | ExpireWrite
    | ReadTimeout
    | WriteTimeout
    | Release
    | Refer(count: nat)

  /** The ways from state to state: a close is asked for and then carried out by its task, at once or after the last write; nothing
      else closes a connection, and a request to close never goes unheard.
   */
  predicate MayFollow(from: State, event: Event, to: State) {
    var asked := if from == Closed then Closed else RequestClose;
    match event
    case CloseRequested => to == asked
    case CloseTask => if from == RequestClose then to == Closing || to == Closed else to == from
    case HeaderRead(_, _, _, _, _) => to == from || to == asked
    case BodyRead(_, _, _, _, _) => to == from || to == asked
    case Written(_) => to == from || to == asked
    case ReadTimeout => to == from || to == asked
    case WriteTimeout => to == from || to == asked
    case _ => to == from
  }

  /** A send whose timer cannot be set leaves a pending write that nothing will finish: a connection that
      is then closed by its peer waits for it for ever.
   */
  method LostWriteStaysClosing() returns (c: Connection)
    ensures fresh(c) && c.Valid() && c.state == Closing && c.Quiescent() && c.Stuck()
  {
    c := new Connection();
    c.AcceptConnection(true, NoFault, false);
    var _ := c.Send(AtTimer);
    c.ParseHeader(Failed, 0, false, NoFault, false);
    c.CloseConnectionTask();
  }
}
