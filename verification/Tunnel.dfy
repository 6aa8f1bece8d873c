/** Copying a stream into a tunnel through one buffer that two goroutines hand to
    each other, and out of the tunnel into a stream at the other end. */
module Tunnel {

  type Bytes = seq<bv8>

  datatype Message = Data(bytes: Bytes) | Eof

  /** How a read of the near stream ended, besides bringing some bytes. */
  datatype ReadEnd = More | EndOfFile | ReadError

  /** streamToTunnel: about to hand the buffer over, waiting for a result, sending
      the first `n` bytes of the buffer, sending the end, returned. */
  datatype Sender = Offer | Await | Sending(n: nat, end: ReadEnd) | SendEof | Returned

  /** asyncReadStream: waiting for the buffer, in a read that fills it, about to
      pass on a result, returned. */
  datatype Reader = Idle | Filling | Filled(n: nat, end: ReadEnd) | Exited

  /** `read` is all that was read of the near stream, `written` all that was
      written to the far one, which goes on while `writing`. `done` says that the
      other direction is finished, `broken` that the tunnel takes no more messages,
      `lost` that some were dropped, and `abandoned` that the near end has given up
      on what it was reading. */
  datatype State = State(
    sender: Sender,
    reader: Reader,
    buffer: Bytes,
    read: Bytes,
    wire: seq<Message>,
    written: Bytes,
    writing: bool,
    done: bool,
    broken: bool,
    lost: bool,
    abandoned: bool)

  datatype Action =
    | HandOver
    | Scribble(buffer: Bytes)
    | FinishRead(buffer: Bytes, n: nat, end: ReadEnd)
    | PassResult
    | SeeDone
    | GiveUpResult
    | Send
    | SendEnd
    | CloseBuffer
    | FinishOther
    | Break(kept: nat)
    | Receive(writes: bool)

  predicate Enabled(s: State, a: Action) {
    match a
    case HandOver => s.sender.Offer? && s.reader.Idle?
    // while a read is going on, the buffer may hold anything
    case Scribble(buffer) => s.reader.Filling? && |buffer| == |s.buffer|
    case FinishRead(buffer, n, _) => s.reader.Filling? && |buffer| == |s.buffer| && n <= |buffer|
    case PassResult => s.sender.Await? && s.reader.Filled?
    case SeeDone => s.sender.Await? && s.done
    case GiveUpResult => s.sender.Returned? && s.reader.Filled?
    case Send => s.sender.Sending? && s.sender.n <= |s.buffer|
    case SendEnd => s.sender.SendEof?
    case CloseBuffer => s.sender.Returned? && s.reader.Idle?
    case FinishOther => true
    case Break(kept) => kept <= |s.wire|
    case Receive(_) => s.writing && s.wire != []
  }

  function Exec(s: State, a: Action): State
    requires Enabled(s, a)
  {
    match a
    case HandOver => s.(sender := Await, reader := Filling)
    case Scribble(buffer) => s.(buffer := buffer)
    case FinishRead(buffer, n, end) => s.(buffer := buffer, reader := Filled(n, end), read := s.read + buffer[..n])
    case PassResult =>
      s.(sender := Sending(s.reader.n, s.reader.end), reader := if s.reader.end.More? then Idle else Exited)
    case SeeDone => s.(sender := SendEof, abandoned := true)
    case GiveUpResult => s.(reader := Exited)
    case Send =>
      if s.broken then s.(sender := Returned, abandoned := true)
      else s.(wire := s.wire + [Data(s.buffer[..s.sender.n])], sender := if s.sender.end.More? then Offer else SendEof)
    case SendEnd =>
      s.(wire := if s.broken then s.wire else s.wire + [Eof], sender := Returned)
    case CloseBuffer => s.(reader := Exited)
    case FinishOther => s.(done := true)
    case Break(kept) => s.(broken := true, wire := s.wire[..kept], lost := s.lost || kept < |s.wire|)
    case Receive(writes) =>
      match s.wire[0]
      case Eof => s.(wire := s.wire[1..], writing := false)
      case Data(bytes) =>
        if writes then s.(wire := s.wire[1..], written := s.written + bytes)
        else s.(wire := s.wire[1..], writing := false, lost := true)
  }

  predicate Initial(s: State) {
    s == State(Offer, Idle, s.buffer, [], [], [], true, s.done, false, false, false)
  }

  function Payload(wire: seq<Message>): Bytes {
    if wire == [] then []
    else
      var last := wire[|wire| - 1];
      Payload(wire[..|wire| - 1]) + (if last.Data? then last.bytes else [])
  }

  /** What has been read and is not in the tunnel yet. */
  function InHand(s: State): Bytes {
    if s.sender.Sending? && s.sender.n <= |s.buffer| then s.buffer[..s.sender.n]
    else if s.reader.Filled? && s.reader.n <= |s.buffer| then s.buffer[..s.reader.n]
    else []
  }

  /* ----- What every step keeps ----- */

  /** Whose the buffer is. */
  predicate TurnsOk(s: State) {
    && (s.sender.Offer? ==> s.reader.Idle?)
    && (s.sender.Await? ==> s.reader.Filling? || s.reader.Filled?)
    && (s.sender.Sending? ==> s.sender.n <= |s.buffer| && s.reader == (if s.sender.end.More? then Idle else Exited))
    && (s.reader.Filled? ==> s.reader.n <= |s.buffer|)
    && (s.reader.Filling? || s.reader.Filled? ==> s.sender.Await? || s.abandoned)
    && (s.abandoned ==> (s.sender.SendEof? || s.sender.Returned?) && (s.done || s.broken))
  }

  /** Everything that was read is written, in the tunnel, or in hand, as long as
      nothing was given up; and nothing else is, whatever happens. */
  predicate BytesOk(s: State) {
    && s.written <= s.read
    && (s.writing ==> s.written + Payload(s.wire) <= s.read)
    && (s.writing && s.lost ==> s.broken)
    && (!s.lost && !s.abandoned ==> s.written + Payload(s.wire) + InHand(s) == s.read)
  }

  /** The end is announced after everything else. */
  predicate EndsOk(s: State) {
    && (forall i | 0 <= i < |s.wire| :: s.wire[i].Eof? ==> i == |s.wire| - 1 && s.sender.Returned?)
    && (!s.writing && !s.lost ==> s.wire == [] && s.sender.Returned?)
  }

  /** A sender that has returned has announced the end, unless the tunnel broke. */
  predicate AnnouncedOk(s: State) {
    s.sender.Returned? && !s.broken ==> !s.writing || (s.wire != [] && s.wire[|s.wire| - 1].Eof?)
  }

  predicate Inv(s: State) {
    TurnsOk(s) && BytesOk(s) && EndsOk(s) && AnnouncedOk(s)
  }

  lemma {:induction false} PayloadFirst(wire: seq<Message>)
    requires wire != []
    ensures Payload(wire) == (if wire[0].Data? then wire[0].bytes else []) + Payload(wire[1..])
  {
    var n := |wire| - 1;
    if n > 0 {
      PayloadFirst(wire[..n]);
      assert wire[1..][..n - 1] == wire[..n][1..];
    }
  }

  lemma {:induction false} PayloadPrefix(wire: seq<Message>, kept: nat)
    requires kept <= |wire|
    ensures Payload(wire[..kept]) <= Payload(wire)
  {
    if kept < |wire| {
      PayloadPrefix(wire[..|wire| - 1], kept);
      assert wire[..|wire| - 1][..kept] == wire[..kept];
    } else {
      assert wire[..kept] == wire;
    }
  }

  lemma TurnsStep(s: State, a: Action)
    requires TurnsOk(s) && Enabled(s, a)
    ensures TurnsOk(Exec(s, a))
  {
  }

  lemma EndsStep(s: State, a: Action)
    requires EndsOk(s) && Enabled(s, a)
    ensures EndsOk(Exec(s, a))
  {
  }

  lemma AnnouncedStep(s: State, a: Action)
    requires AnnouncedOk(s) && Enabled(s, a)
    ensures AnnouncedOk(Exec(s, a))
  {
  }

  lemma SendStep(s: State)
    requires TurnsOk(s) && BytesOk(s) && Enabled(s, Send)
    ensures BytesOk(Exec(s, Send))
  {
    var wire' := s.wire + [Data(s.buffer[..s.sender.n])];
    assert wire'[..|s.wire|] == s.wire;
    assert s.written + Payload(wire') == s.written + Payload(s.wire) + InHand(s);
  }

  lemma BreakStep(s: State, kept: nat)
    requires BytesOk(s) && Enabled(s, Break(kept))
    ensures BytesOk(Exec(s, Break(kept)))
  {
    PayloadPrefix(s.wire, kept);
    assert s.written + Payload(s.wire[..kept]) <= s.written + Payload(s.wire);
    if kept == |s.wire| {
      assert s.wire[..kept] == s.wire;
    }
  }

  lemma Regroup(a: Bytes, b: Bytes, c: Bytes)
    ensures a + (b + c) == (a + b) + c
  {
  }

  lemma ReceiveDataStep(s: State)
    requires BytesOk(s) && Enabled(s, Receive(true)) && s.wire[0].Data?
    ensures BytesOk(Exec(s, Receive(true)))
  {
    PayloadFirst(s.wire);
    var s' := Exec(s, Receive(true));
    Regroup(s.written, s.wire[0].bytes, Payload(s.wire[1..]));
    assert s'.written + Payload(s'.wire) == s.written + Payload(s.wire);
    assert s'.written <= s'.written + Payload(s'.wire);
  }

  lemma ReceiveStep(s: State, writes: bool)
    requires BytesOk(s) && Enabled(s, Receive(writes))
    ensures BytesOk(Exec(s, Receive(writes)))
  {
    if s.wire[0].Eof? {
      PayloadFirst(s.wire);
      assert Payload(s.wire) == Payload(s.wire[1..]);
    } else if writes {
      ReceiveDataStep(s);
    }
  }

  lemma SendEndStep(s: State)
    requires TurnsOk(s) && BytesOk(s) && Enabled(s, SendEnd)
    ensures BytesOk(Exec(s, SendEnd))
  {
    assert (s.wire + [Eof])[..|s.wire|] == s.wire;
  }

  lemma FinishReadStep(s: State, a: Action)
    requires TurnsOk(s) && BytesOk(s) && Enabled(s, a) && a.FinishRead?
    ensures BytesOk(Exec(s, a))
  {
    assert s.read <= s.read + a.buffer[..a.n];
  }

  lemma BytesStep(s: State, a: Action)
    requires TurnsOk(s) && BytesOk(s) && Enabled(s, a)
    ensures BytesOk(Exec(s, a))
  {
    match a {
      case FinishRead(_, _, _) => FinishReadStep(s, a);
      case Send => SendStep(s);
      case SendEnd => SendEndStep(s);
      case Break(kept) => BreakStep(s, kept);
      case Receive(writes) => ReceiveStep(s, writes);
      case _ =>
    }
  }

  /** The states that a list of actions leads through. */
  ghost predicate IsRun(states: seq<State>, acts: seq<Action>) {
    && |states| == |acts| + 1 && Initial(states[0])
    && forall i {:trigger acts[i]} | 0 <= i < |acts| ::
         Enabled(states[i], acts[i]) && states[i + 1] == Exec(states[i], acts[i])
  }

  ghost predicate Reachable(s: State) {
    exists states, acts :: IsRun(states, acts) && s == states[|acts|]
  }

  lemma {:induction false} RunKeepsInv(states: seq<State>, acts: seq<Action>, k: nat)
    requires IsRun(states, acts) && k <= |acts|
    ensures Inv(states[k])
  {
    if k > 0 {
      RunKeepsInv(states, acts, k - 1);
      var a := acts[k - 1];
      TurnsStep(states[k - 1], a);
      BytesStep(states[k - 1], a);
      EndsStep(states[k - 1], a);
      AnnouncedStep(states[k - 1], a);
    }
  }

  lemma ReachableOk(s: State)
    requires Reachable(s)
    ensures Inv(s)
  {
    var states, acts :| IsRun(states, acts) && s == states[|acts|];
    RunKeepsInv(states, acts, |acts|);
  }

  /* ----- The stream comes through ----- */

  /** What is written at the far end is what was read at the near one, so far. */
  lemma WrittenIsPrefix(s: State)
    requires Reachable(s)
    ensures s.written <= s.read
  {
    ReachableOk(s);
  }

  /** If nothing broke, and nothing was given up, then once the far end has seen
      the end of the stream all of it is written. */
  lemma EverythingArrives(s: State)
    requires Reachable(s) && !s.writing && !s.lost && !s.abandoned
    ensures s.sender.Returned? && s.written == s.read
  {
    ReachableOk(s);
  }

  /** The end is announced, for whatever reason the sender returns: unless the
      tunnel broke, it is the last message, or the far end has stopped writing. */
  lemma EndIsAnnounced(s: State)
    requires Reachable(s) && s.sender.Returned? && !s.broken
    ensures !s.writing || (s.wire != [] && s.wire[|s.wire| - 1] == Eof)
  {
    ReachableOk(s);
  }

  /** What was read is only given up when the other direction is finished or the
      tunnel broke, and only lost when the tunnel broke or the far stream did. */
  lemma GivesUpForAReason(s: State)
    requires Reachable(s)
    ensures s.abandoned ==> s.done || s.broken
    ensures s.lost ==> s.broken || !s.writing
  {
    ReachableOk(s);
  }

  /** The buffer is never filled while it is being sent. */
  lemma BufferIsNotShared(s: State)
    requires Reachable(s)
    ensures !(s.sender.Sending? && (s.reader.Filling? || s.reader.Filled?))
  {
    ReachableOk(s);
  }

  /** Neither goroutine waits for the other for ever: a buffer that is offered is
      taken, and a reader that is left behind returns after its read. */
  lemma NobodyIsStuck(s: State)
    requires Reachable(s)
    ensures s.sender.Offer? ==> Enabled(s, HandOver)
    ensures s.sender.Await? ==> s.reader.Filling? || Enabled(s, PassResult)
    ensures s.sender.Returned? ==>
              s.reader.Exited? || s.reader.Filling? || Enabled(s, GiveUpResult) || Enabled(s, CloseBuffer)
  {
    ReachableOk(s);
  }

  /* ----- The end comes through ----- */

  /** What the two ends do on their own once the near stream has ended: pass on the
      result, send it and the end, and take in what is on the wire. */
  predicate Handling(a: Action) {
    a.PassResult? || a.Send? || a.SendEnd? || a == Receive(true)
  }

  /** The near stream has ended, and nothing was broken, given up or lost. */
  predicate Ending(s: State) {
    && !s.broken && !s.abandoned && !s.lost
    && match s.sender
       case Await => s.reader.Filled? && !s.reader.end.More?
       case Sending(_, end) => !end.More?
       case SendEof => true
       case Returned => true
       case Offer => false
  }

  /** The steps that are left. */
  function Left(s: State): nat {
    |s.wire| +
    match s.sender
    case Await => 5
    case Sending(_, _) => 4
    case SendEof => 2
    case _ => 0
  }

  lemma HandlingStep(s: State, a: Action)
    requires Inv(s) && Ending(s) && Enabled(s, a) && Handling(a)
    ensures Inv(Exec(s, a)) && Ending(Exec(s, a)) && Left(Exec(s, a)) < Left(s) && Exec(s, a).read == s.read
  {
    TurnsStep(s, a);
    BytesStep(s, a);
    EndsStep(s, a);
    AnnouncedStep(s, a);
  }

  /** Such steps, in any order, for as long as there is one. */
  ghost predicate Schedule(s: State, acts: seq<Action>)
    decreases |acts|
  {
    if acts == [] then forall a | Handling(a) :: !Enabled(s, a)
    else Handling(acts[0]) && Enabled(s, acts[0]) && Schedule(Exec(s, acts[0]), acts[1..])
  }

  function After(s: State, acts: seq<Action>): State
    decreases |acts|
  {
    if acts == [] || !Enabled(s, acts[0]) then s else After(Exec(s, acts[0]), acts[1..])
  }

  lemma {:induction false} ScheduleDelivers(s: State, acts: seq<Action>)
    requires Inv(s) && Ending(s) && Schedule(s, acts)
    ensures |acts| <= Left(s)
    ensures var t := After(s, acts); !t.writing && t.written == t.read == s.read
    decreases |acts|
  {
    if acts == [] {
      assert !(Handling(PassResult) && Enabled(s, PassResult)) && !(Handling(Send) && Enabled(s, Send));
      assert !(Handling(SendEnd) && Enabled(s, SendEnd)) && !(Handling(Receive(true)) && Enabled(s, Receive(true)));
      assert s.sender.Returned?;
    } else {
      HandlingStep(s, acts[0]);
      ScheduleDelivers(Exec(s, acts[0]), acts[1..]);
    }
  }

  /** Once the near stream has ended with nothing broken, given up or lost, all of
      it is written at the far end, which stops waiting, within a bounded number of
      steps in whatever order. */
  lemma EndComesThrough(s: State, acts: seq<Action>)
    requires Reachable(s) && Ending(s) && Schedule(s, acts)
    ensures |acts| <= |s.wire| + 5
    ensures var t := After(s, acts); !t.writing && t.written == t.read == s.read
  {
    ReachableOk(s);
    ScheduleDelivers(s, acts);
  }

  lemma {:induction false} SomeSchedule(s: State) returns (acts: seq<Action>)
    requires Inv(s) && Ending(s)
    ensures Schedule(s, acts)
    decreases Left(s)
  {
    if a :| Handling(a) && Enabled(s, a) {
      HandlingStep(s, a);
      var rest := SomeSchedule(Exec(s, a));
      acts := [a] + rest;
      assert acts[1..] == rest;
    } else {
      acts := [];
    }
  }

  /** A read that ends leads there. */
  lemma ReadEnds(s: State, a: Action)
    requires Reachable(s) && Enabled(s, a) && a.FinishRead? && !a.end.More?
    requires !s.broken && !s.abandoned && !s.lost
    ensures Ending(Exec(s, a)) && Exec(s, a).read == s.read + a.buffer[..a.n]
  {
    ReachableOk(s);
  }

  /* ----- Any stream, from its beginning ----- */

  ghost predicate LeadsBy(s: State, acts: seq<Action>, t: State)
    decreases |acts|
  {
    if acts == [] then t == s else Enabled(s, acts[0]) && LeadsBy(Exec(s, acts[0]), acts[1..], t)
  }

  lemma {:induction false} StepFirst(s: State, a: Action, acts: seq<Action>, t: State)
    requires Enabled(s, a) && LeadsBy(Exec(s, a), acts, t)
    ensures LeadsBy(s, [a] + acts, t)
  {
    assert ([a] + acts)[1..] == acts;
  }

  function Concat(chunks: seq<Bytes>): Bytes {
    if chunks == [] then [] else chunks[0] + Concat(chunks[1..])
  }

  /** The loops are up, and all that was read is written. */
  predicate UpToDate(s: State) {
    && s.sender.Offer? && s.reader.Idle? && s.wire == [] && s.writing && s.written == s.read
    && !s.broken && !s.lost && !s.abandoned
  }

  /** A buffer that starts with the chunk. */
  function FilledWith(s: State, chunk: Bytes): (buffer: Bytes)
    requires |chunk| <= |s.buffer|
    ensures |buffer| == |s.buffer| && buffer[..|chunk|] == chunk
  {
    chunk + s.buffer[|chunk|..]
  }

  /** One read that does not end the stream: the buffer comes and goes, and the
      bytes are at the far end. */
  lemma ChunkComesThrough(s: State, chunk: Bytes) returns (t: State)
    requires UpToDate(s) && |chunk| <= |s.buffer|
    ensures LeadsBy(s, [HandOver, FinishRead(FilledWith(s, chunk), |chunk|, More), PassResult, Send, Receive(true)], t)
    ensures UpToDate(t) && t.read == s.read + chunk && |t.buffer| == |s.buffer|
  {
    var read := FinishRead(FilledWith(s, chunk), |chunk|, More);
    var s1 := Exec(s, HandOver);
    var s2 := Exec(s1, read);
    var s3 := Exec(s2, PassResult);
    var s4 := Exec(s3, Send);
    assert s4.wire == [Data(chunk)];
    t := Exec(s4, Receive(true));
    assert LeadsBy(t, [], t);
    StepFirst(s4, Receive(true), [], t);
    StepFirst(s3, Send, [Receive(true)], t);
    StepFirst(s2, PassResult, [Send, Receive(true)], t);
    StepFirst(s1, read, [PassResult, Send, Receive(true)], t);
    StepFirst(s, HandOver, [read, PassResult, Send, Receive(true)], t);
  }

  lemma {:induction false} LeadsOn(s: State, acts: seq<Action>, t: State, more: seq<Action>, u: State)
    requires LeadsBy(s, acts, t) && LeadsBy(t, more, u)
    ensures LeadsBy(s, acts + more, u)
    decreases |acts|
  {
    if acts == [] {
      assert acts + more == more;
    } else {
      LeadsOn(Exec(s, acts[0]), acts[1..], t, more, u);
      assert (acts + more)[1..] == acts[1..] + more;
    }
  }

  lemma LastChunkIsSent(s: State, chunk: Bytes, end: ReadEnd) returns (t: State)
    requires UpToDate(s) && |chunk| <= |s.buffer| && !end.More?
    ensures LeadsBy(s, [HandOver, FinishRead(FilledWith(s, chunk), |chunk|, end), PassResult, Send, SendEnd], t)
    ensures t.writing && t.wire == [Data(chunk), Eof] && t.written == s.read && t.read == s.read + chunk
  {
    var read := FinishRead(FilledWith(s, chunk), |chunk|, end);
    var s1 := Exec(s, HandOver);
    var s2 := Exec(s1, read);
    var s3 := Exec(s2, PassResult);
    var s4 := Exec(s3, Send);
    assert s4.wire == [Data(chunk)];
    t := Exec(s4, SendEnd);
    assert t.wire == [Data(chunk), Eof];
    assert LeadsBy(t, [], t);
    StepFirst(s4, SendEnd, [], t);
    StepFirst(s3, Send, [SendEnd], t);
    StepFirst(s2, PassResult, [Send, SendEnd], t);
    StepFirst(s1, read, [PassResult, Send, SendEnd], t);
    StepFirst(s, HandOver, [read, PassResult, Send, SendEnd], t);
  }

  lemma LastChunkComesThrough(s: State, chunk: Bytes, end: ReadEnd) returns (acts: seq<Action>, t: State)
    requires UpToDate(s) && |chunk| <= |s.buffer| && !end.More?
    ensures LeadsBy(s, acts, t) && !t.writing && t.written == t.read == s.read + chunk
  {
    var first := [HandOver, FinishRead(FilledWith(s, chunk), |chunk|, end), PassResult, Send, SendEnd];
    var s1 := LastChunkIsSent(s, chunk, end);
    var s2 := Exec(s1, Receive(true));
    assert s2.wire == [Eof];
    t := Exec(s2, Receive(true));
    assert LeadsBy(t, [], t);
    StepFirst(s2, Receive(true), [], t);
    StepFirst(s1, Receive(true), [Receive(true)], t);
    acts := first + [Receive(true), Receive(true)];
    LeadsOn(s, first, s1, [Receive(true), Receive(true)], t);
  }

  /** Whatever the near stream brings, in whatever pieces, the tunnel can copy all of
      it and end. */
  lemma {:induction false} AnyStreamComesThrough(s: State, chunks: seq<Bytes>, last: Bytes, end: ReadEnd)
    returns (acts: seq<Action>, t: State)
    requires UpToDate(s) && |last| <= |s.buffer| && !end.More?
    requires forall i | 0 <= i < |chunks| :: |chunks[i]| <= |s.buffer|
    ensures LeadsBy(s, acts, t) && !t.writing && t.written == t.read == s.read + Concat(chunks) + last
    decreases |chunks|
  {
    if chunks == [] {
      acts, t := LastChunkComesThrough(s, last, end);
      assert s.read + [] == s.read;
    } else {
      var s' := ChunkComesThrough(s, chunks[0]);
      var first := [HandOver, FinishRead(FilledWith(s, chunks[0]), |chunks[0]|, More), PassResult, Send, Receive(true)];
      var rest;
      rest, t := AnyStreamComesThrough(s', chunks[1..], last, end);
      LeadsOn(s, first, s', rest, t);
      acts := first + rest;
      Regroup(s.read, chunks[0], Concat(chunks[1..]));
    }
  }

  /** When the other direction is finished, a sender that waits for a read stops
      waiting and announces the end, unless the tunnel broke. */
  lemma OtherDirectionEnds(s: State)
    requires Reachable(s) && s.sender.Await? && !s.broken
    ensures Enabled(s, FinishOther) && Enabled(Exec(s, FinishOther), SeeDone)
    ensures var s' := Exec(Exec(s, FinishOther), SeeDone);
      Enabled(s', SendEnd) && Exec(s', SendEnd).sender.Returned? && Exec(s', SendEnd).wire == s.wire + [Eof]
  {
  }

  /** A send that fails ends the loop at once. */
  lemma FailedSendReturns(s: State)
    requires Reachable(s) && s.sender.Sending? && s.broken
    ensures Enabled(s, Send) && Exec(s, Send).sender.Returned? && Exec(s, Send).wire == s.wire
  {
    ReachableOk(s);
  }

  /** Once the sender has returned, so does the reader, after the read it is in. */
  lemma ReaderReturns(s: State) returns (acts: seq<Action>, t: State)
    requires Reachable(s) && s.sender.Returned?
    ensures LeadsBy(s, acts, t) && |acts| <= 2 && t.reader.Exited?
  {
    ReachableOk(s);
    acts, t := [], s;
    if s.reader.Filling? {
      var read := FinishRead(s.buffer, 0, More);
      var s1 := Exec(s, read);
      t := Exec(s1, GiveUpResult);
      assert LeadsBy(t, [], t);
      StepFirst(s1, GiveUpResult, [], t);
      StepFirst(s, read, [GiveUpResult], t);
      acts := [read, GiveUpResult];
    } else if !s.reader.Exited? {
      var a := if s.reader.Filled? then GiveUpResult else CloseBuffer;
      t := Exec(s, a);
      assert LeadsBy(t, [], t);
      StepFirst(s, a, [], t);
      acts := [a];
    }
  }
}
