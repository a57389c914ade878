/** The multiplexed output of one run: two pumps share the connection under `writeMu`,
    the handler writes the exit frame once both are done, the client reads it all back. */
module RunStream {
  import opened Frames
  import opened Prelude
  import Runs

  datatype Stream = Out | Err

  function Tag(t: Stream): uint8 { if t.Out? then STREAM_STDOUT else STREAM_STDERR }

  /** Where one pump stands: reading, waiting for the mutex with a chunk, or inside the mutex. */
  datatype Phase =
    | Idle | Waiting(chunk: seq<uint8>) | Locked(chunk: seq<uint8>) | HeaderOut(chunk: seq<uint8>) | Written | Finished

  datatype ExitPhase = Running | ExitHeaderOut(payload: seq<uint8>) | Exited(payload: seq<uint8>)

  /** `log` lists the frames written whole; `readOut` and `readErr` what the pumps took from the worker. */
  datatype State = State(
    wire: seq<uint8>, holder: Option<Stream>, out: Phase, err: Phase,
    log: seq<Frame>, readOut: seq<seq<uint8>>, readErr: seq<seq<uint8>>, exit: ExitPhase)
  {
    function Phase(t: Stream): Phase { if t.Out? then out else err }
    function Read(t: Stream): seq<seq<uint8>> { if t.Out? then readOut else readErr }
    function At(t: Stream, p: Phase): State { if t.Out? then this.(out := p) else this.(err := p) }
    function Took(t: Stream, chunk: seq<uint8>): State {
      if t.Out? then this.(readOut := readOut + [chunk]) else this.(readErr := readErr + [chunk])
    }
  }

  datatype Event =
    | TakeChunk(t: Stream, chunk: seq<uint8>)
    | Lock(t: Stream)
    | WriteHeader(t: Stream)
    | WritePayload(t: Stream)
    | Unlock(t: Stream)
    | EndOfOutput(t: Stream)
    | WriteExitHeader(payload: seq<uint8>)
    | WriteExitPayload

  const BUFFER := 4096

  /** A batch run has two pumps; a terminal run has only the first. */
  function Init(tty: bool): State {
    State([], None, Idle, if tty then Finished else Idle, [], [], [], Running)
  }

  function Next(s: State, e: Event): State {
    match e
    case TakeChunk(t, chunk) =>
      if s.Phase(t).Idle? && 0 < |chunk| <= BUFFER then s.Took(t, chunk).At(t, Waiting(chunk)) else s
    case Lock(t) =>
      if s.Phase(t).Waiting? && s.holder.None? then s.At(t, Locked(s.Phase(t).chunk)).(holder := Some(t)) else s
    case WriteHeader(t) =>
      if s.Phase(t).Locked? then
        var f := Frame(Tag(t), s.Phase(t).chunk);
        s.At(t, HeaderOut(f.payload)).(wire := s.wire + Header(f))
      else s
    case WritePayload(t) =>
      if s.Phase(t).HeaderOut? then
        var f := Frame(Tag(t), s.Phase(t).chunk);
        s.At(t, Written).(wire := s.wire + f.payload, log := s.log + [f])
      else s
    case Unlock(t) =>
      if s.Phase(t).Written? then s.At(t, Idle).(holder := None) else s
    case EndOfOutput(t) =>
      if s.Phase(t).Idle? then s.At(t, Finished) else s
    case WriteExitHeader(payload) =>
      if s.out.Finished? && s.err.Finished? && s.exit.Running? && |payload| < UINT32 then
        s.(wire := s.wire + Header(Frame(STREAM_EXIT, payload)), exit := ExitHeaderOut(payload))
      else s
    case WriteExitPayload =>
      if s.exit.ExitHeaderOut? then
        s.(wire := s.wire + s.exit.payload, log := s.log + [Frame(STREAM_EXIT, s.exit.payload)], exit := Exited(s.exit.payload))
      else s
  }

  /** The payloads of one stream type, in order. */
  function Chunks(fs: seq<Frame>, tag: uint8): seq<seq<uint8>> {
    if fs == [] then []
    else (if fs[0].streamType == tag then [fs[0].payload] else []) + Chunks(fs[1..], tag)
  }

  lemma {:induction false} ChunksConcat(a: seq<Frame>, b: seq<Frame>, tag: uint8)
    ensures Chunks(a + b, tag) == Chunks(a, tag) + Chunks(b, tag)
  {
    if a == [] {
      assert a + b == b;
    } else {
      assert (a + b)[1..] == a[1..] + b;
      ChunksConcat(a[1..], b, tag);
    }
  }

  predicate DataFrame(f: Frame) {
    |f.payload| <= BUFFER && (f.streamType == STREAM_STDOUT || f.streamType == STREAM_STDERR)
  }

  predicate InCritical(p: Phase) { p.Locked? || p.HeaderOut? || p.Written? }

  /** The chunk a pump has taken but not yet put on the wire whole. */
  function InFlight(p: Phase): seq<seq<uint8>> {
    match p
    case Waiting(c) => [c]
    case Locked(c) => [c]
    case HeaderOut(c) => [c]
    case _ => []
  }

  /** The frame whose header is out and whose payload is still to come. */
  function Pending(s: State): Option<Frame> {
    if s.out.HeaderOut? then Some(Frame(STREAM_STDOUT, s.out.chunk))
    else if s.err.HeaderOut? then Some(Frame(STREAM_STDERR, s.err.chunk))
    else if s.exit.ExitHeaderOut? then Some(Frame(STREAM_EXIT, s.exit.payload))
    else None
  }

  function Started(pending: Option<Frame>): seq<uint8> {
    if pending.Some? then Header(pending.value) else []
  }

  /** The frames before the exit frame. */
  function Data(s: State): seq<Frame> {
    if s.exit.Exited? && s.log != [] then s.log[..|s.log| - 1] else s.log
  }

  /** The mutex holder is the one pump inside, and the exit frame waits for both pumps. */
  ghost predicate ControlInv(s: State) {
    && (s.holder == Some(Out) <==> InCritical(s.out))
    && (s.holder == Some(Err) <==> InCritical(s.err))
    && (!s.exit.Running? ==> s.out.Finished? && s.err.Finished? && |s.exit.payload| < UINT32)
  }

  /** What a pump has read is what its frames carry, plus the chunk it still holds. */
  ghost predicate PumpInv(s: State, t: Stream) {
    && s.Read(t) == Chunks(Data(s), Tag(t)) + InFlight(s.Phase(t))
    && forall c :: c in InFlight(s.Phase(t)) ==> |c| <= BUFFER
  }

  ghost predicate LogInv(s: State) {
    && PumpInv(s, Out) && PumpInv(s, Err)
    && (forall f :: f in Data(s) ==> DataFrame(f))
    && (s.exit.Exited? ==> s.log == Data(s) + [Frame(STREAM_EXIT, s.exit.payload)])
  }

  ghost predicate WireInv(s: State) {
    s.wire == EncodeAll(s.log) + Started(Pending(s))
  }

  ghost predicate Inv(s: State) {
    ControlInv(s) && LogInv(s) && WireInv(s)
  }

  /** Appending the payload of the frame whose header is out completes that frame. */
  lemma FrameCompleted(log: seq<Frame>, f: Frame)
    ensures EncodeAll(log) + Header(f) + f.payload == EncodeAll(log + [f])
  {
    EncodeAllConcat(log, [f]);
    assert EncodeAll([f]) == Header(f) + f.payload;
  }

  lemma LogGrows(log: seq<Frame>, f: Frame, tag: uint8)
    ensures Chunks(log + [f], tag) == Chunks(log, tag) + if f.streamType == tag then [f.payload] else []
  {
    ChunksConcat(log, [f], tag);
    assert Chunks([f], tag) == if f.streamType == tag then [f.payload] else [];
  }

  lemma StepKeepsControl(s: State, e: Event)
    requires ControlInv(s)
    ensures ControlInv(Next(s, e))
  {
  }

  /** Steps that write nothing. */
  lemma SilentStep(s: State, e: Event)
    requires ControlInv(s) && WireInv(s) && (e.TakeChunk? || e.Lock? || e.Unlock? || e.EndOfOutput?)
    ensures WireInv(Next(s, e))
  {
    SilentOnWire(s, e);
    SilentOnHeaders(s, e);
  }

  lemma SilentOnWire(s: State, e: Event)
    requires e.TakeChunk? || e.Lock? || e.Unlock? || e.EndOfOutput?
    ensures Next(s, e).wire == s.wire && Next(s, e).log == s.log
  {
  }

  lemma SilentOnHeaders(s: State, e: Event)
    requires e.TakeChunk? || e.Lock? || e.Unlock? || e.EndOfOutput?
    ensures Pending(Next(s, e)) == Pending(s)
  {
  }

  lemma ExitKeepsWire(s: State, e: Event)
    requires ControlInv(s) && WireInv(s) && (e.WriteExitHeader? || e.WriteExitPayload?)
    ensures WireInv(Next(s, e))
  {
    if e.WriteExitPayload? && s.exit.ExitHeaderOut? {
      FrameCompleted(s.log, Frame(STREAM_EXIT, s.exit.payload));
    } else if e.WriteExitHeader? {
      assert Pending(s) == None || Next(s, e) == s;
    }
  }

  lemma StepKeepsWire(s: State, e: Event)
    requires ControlInv(s) && WireInv(s)
    ensures WireInv(Next(s, e))
  {
    match e
    case WriteHeader(t) =>
      if s.Phase(t).Locked? {
        HeaderKeepsWire(s, t);
      }
    case WritePayload(t) =>
      if s.Phase(t).HeaderOut? {
        PayloadKeepsWire(s, t);
      }
    case WriteExitHeader(_) => ExitKeepsWire(s, e);
    case WriteExitPayload => ExitKeepsWire(s, e);
    case _ => SilentStep(s, e);
  }

  lemma HeaderKeepsWire(s: State, t: Stream)
    requires ControlInv(s) && WireInv(s) && s.Phase(t).Locked?
    ensures WireInv(Next(s, WriteHeader(t)))
  {
    assert Pending(s) == None;
    assert Pending(Next(s, WriteHeader(t))) == Some(Frame(Tag(t), s.Phase(t).chunk));
  }

  lemma PayloadKeepsWire(s: State, t: Stream)
    requires ControlInv(s) && WireInv(s) && s.Phase(t).HeaderOut?
    ensures WireInv(Next(s, WritePayload(t)))
  {
    var f := Frame(Tag(t), s.Phase(t).chunk);
    assert Pending(s) == Some(f);
    FrameCompleted(s.log, f);
    var s' := Next(s, WritePayload(t));
    assert Pending(s') == None;
    assert s'.wire == EncodeAll(s.log) + Header(f) + f.payload;
  }

  /** A step that moves no chunk and no frame keeps the log invariant. */
  lemma QuietStep(s: State, s': State)
    requires LogInv(s) && s'.log == s.log && s'.readOut == s.readOut && s'.readErr == s.readErr
    requires InFlight(s'.out) == InFlight(s.out) && InFlight(s'.err) == InFlight(s.err)
    requires s'.exit == s.exit || (!s'.exit.Exited? && !s.exit.Exited?)
    ensures LogInv(s')
  {
    assert Data(s') == Data(s);
    assert PumpInv(s, Out) && PumpInv(s, Err);
    assert s'.Read(Out) == Chunks(Data(s'), Tag(Out)) + InFlight(s'.Phase(Out));
    assert s'.Read(Err) == Chunks(Data(s'), Tag(Err)) + InFlight(s'.Phase(Err));
  }

  lemma TakeKeepsLog(s: State, t: Stream, chunk: seq<uint8>)
    requires LogInv(s) && s.Phase(t).Idle? && |chunk| <= BUFFER
    ensures LogInv(s.Took(t, chunk).At(t, Waiting(chunk)))
  {
    var s' := s.Took(t, chunk).At(t, Waiting(chunk));
    assert Data(s') == Data(s);
    assert PumpInv(s, Out) && PumpInv(s, Err);
    assert s.Read(t) + [chunk] == Chunks(Data(s), Tag(t)) + InFlight(Waiting(chunk));
    assert PumpInv(s', t) && PumpInv(s', if t.Out? then Err else Out);
  }

  /** Completing a frame moves its chunk from in flight to the log. */
  lemma FrameMoves(s: State, s': State, t: Stream, f: Frame)
    requires LogInv(s) && !s.exit.Exited? && !s'.exit.Exited?
    requires f.streamType == Tag(t) && InFlight(s.Phase(t)) == [f.payload] && InFlight(s'.Phase(t)) == []
    requires forall u :: u != t ==> s'.Phase(u) == s.Phase(u)
    requires s'.log == s.log + [f] && s'.readOut == s.readOut && s'.readErr == s.readErr
    ensures LogInv(s')
  {
    assert PumpInv(s, Out) && PumpInv(s, Err) && f.payload in InFlight(s.Phase(t));
    LogGrows(s.log, f, STREAM_STDOUT);
    LogGrows(s.log, f, STREAM_STDERR);
    forall u ensures PumpInv(s', u) {
      assert s'.Read(u) == s.Read(u);
      if u == t {
        assert s'.Read(t) == Chunks(s'.log, Tag(t)) + [];
      } else {
        assert Chunks(s.log, Tag(u)) + [] == Chunks(s.log, Tag(u));
      }
    }
  }

  lemma ExitKeepsLog(s: State)
    requires ControlInv(s) && LogInv(s) && s.exit.ExitHeaderOut?
    ensures LogInv(Next(s, WriteExitPayload))
  {
    var s' := Next(s, WriteExitPayload);
    assert Data(s') == Data(s);
    assert PumpInv(s, Out) && PumpInv(s, Err);
    assert PumpInv(s', Out) && PumpInv(s', Err);
  }

  /** A pump moving between phases with the same chunk in flight, whatever happens to mutex and wire. */
  lemma PhaseMoves(s: State, t: Stream, p: Phase, holder: Option<Stream>, wire: seq<uint8>)
    requires LogInv(s) && InFlight(p) == InFlight(s.Phase(t))
    ensures LogInv(s.At(t, p).(holder := holder, wire := wire))
  {
    QuietStep(s, s.At(t, p).(holder := holder, wire := wire));
  }

  lemma PumpMovesKeepLog(s: State, e: Event)
    requires ControlInv(s) && LogInv(s) && (e.Lock? || e.WriteHeader? || e.Unlock? || e.EndOfOutput?)
    ensures LogInv(Next(s, e))
  {
    var s', t := Next(s, e), e.t;
    if s' != s {
      PhaseMoves(s, t, s'.Phase(t), s'.holder, s'.wire);
    }
  }

  lemma StepKeepsLog(s: State, e: Event)
    requires ControlInv(s) && LogInv(s)
    ensures LogInv(Next(s, e))
  {
    match e
    case TakeChunk(t, chunk) =>
      if s.Phase(t).Idle? && 0 < |chunk| <= BUFFER {
        TakeKeepsLog(s, t, chunk);
      }
    case WritePayload(t) =>
      if s.Phase(t).HeaderOut? {
        FrameMoves(s, Next(s, e), t, Frame(Tag(t), s.Phase(t).chunk));
      }
    case WriteExitPayload =>
      if s.exit.ExitHeaderOut? {
        ExitKeepsLog(s);
      }
    case WriteExitHeader(_) => QuietStep(s, Next(s, e));
    case _ => PumpMovesKeepLog(s, e);
  }

  lemma InvAlways(tty: bool, events: seq<Event>)
    ensures Inv(Runs.Exec(Next, Init(tty), events))
  {
    assert Inv(Init(tty));
    forall s, e | Inv(s) ensures Inv(Next(s, e)) {
      StepKeepsControl(s, e);
      StepKeepsLog(s, e);
      StepKeepsWire(s, e);
    }
    Runs.InvariantHolds(Next, s => Inv(s), Init(tty), events);
  }

  /** For every interleaving: once the exit frame is out, the wire decodes to data frames followed by
      exactly one exit frame, and each stream's frames carry what its pump read, in order. */
  lemma MultiplexedStreamDecodes(tty: bool, events: seq<Event>)
    ensures var s := Runs.Exec(Next, Init(tty), events);
            s.exit.Exited? ==>
              && ParseAll(s.wire) == (Data(s) + [Frame(3, s.exit.payload)], EOF)
              && (forall f :: f in Data(s) ==> |f.payload| <= 4096 && (f.streamType == 1 || f.streamType == 2))
              && Chunks(Data(s), 1) == s.readOut
              && Chunks(Data(s), 2) == s.readErr
  {
    InvAlways(tty, events);
    var s := Runs.Exec(Next, Init(tty), events);
    if s.exit.Exited? {
      CodecInverts(s.log);
      assert s.wire == EncodeAll(s.log);
    }
  }

  /** The pump inside the mutex can always take its next step, so the mutex is always given back. */
  lemma HolderNeverStuck(tty: bool, events: seq<Event>)
    ensures var s := Runs.Exec(Next, Init(tty), events);
            s.holder.Some? ==>
              var t := s.holder.value;
              Next(Next(Next(s, WriteHeader(t)), WritePayload(t)), Unlock(t)).holder.None?
  {
    InvAlways(tty, events);
    var s := Runs.Exec(Next, Init(tty), events);
    if s.holder.Some? {
      ThreeSteps(s, s.holder.value);
    }
  }

  lemma ThreeSteps(s: State, t: Stream)
    requires InCritical(s.Phase(t))
    ensures Next(Next(Next(s, WriteHeader(t)), WritePayload(t)), Unlock(t)).holder.None?
  {
  }

  // ---------------------------------------------------------------------------
  // The client's receive loop
  // ---------------------------------------------------------------------------

  /** How the client's call ends: with the exit frame, with an assumed exit code 0, or with an error. */
  datatype Ending = ExitFrame(payload: seq<uint8>) | AssumedSuccess | StreamError

  datatype Received = Received(out: seq<uint8>, err: seq<uint8>, ending: Ending)

  /** `parses` tells which exit payloads decode; one that does not is an error. */
  function Receive(fs: seq<Frame>, error: ReadError, parses: seq<uint8> -> bool): Received {
    if fs == [] then Received([], [], if error == EOF then AssumedSuccess else StreamError)
    else
      var f := fs[0];
      if f.streamType == STREAM_EXIT then Received([], [], ExitEnding(f.payload, parses))
      else
        var r := Receive(fs[1..], error, parses);
        if f.streamType == STREAM_STDOUT then r.(out := f.payload + r.out)
        else if f.streamType == STREAM_STDERR then r.(err := f.payload + r.err)
        else r
  }

  function ExitEnding(payload: seq<uint8>, parses: seq<uint8> -> bool): Ending {
    if parses(payload) then ExitFrame(payload) else StreamError
  }

  /** What the client makes of a stream that ends, or breaks off, after `data`. */
  function ReceiveFrom(data: seq<uint8>, broken: bool, parses: seq<uint8> -> bool): Received {
    Receive(ParseAll(data).0, Seen(ParseAll(data).1, broken), parses)
  }

  function After(out: seq<uint8>, err: seq<uint8>, r: Received): Received {
    Received(out + r.out, err + r.err, r.ending)
  }

  /** What one frame at the head of the stream does to the result. */
  function Handle(f: Frame, later: Received, parses: seq<uint8> -> bool): Received {
    if f.streamType == STREAM_EXIT then Received([], [], ExitEnding(f.payload, parses))
    else if f.streamType == STREAM_STDOUT then After(f.payload, [], later)
    else if f.streamType == STREAM_STDERR then After([], f.payload, later)
    else later
  }

  lemma ReceiveStep(data: seq<uint8>, broken: bool, parses: seq<uint8> -> bool)
    ensures match Parse(data)
            case Got(f, rest) => ReceiveFrom(data, broken, parses) == Handle(f, ReceiveFrom(rest, broken, parses), parses)
            case Failed(e) => ReceiveFrom(data, broken, parses) ==
                              Received([], [], if Seen(e, broken) == EOF then AssumedSuccess else StreamError)
  {
    match Parse(data)
    case Got(f, rest) =>
      var (fs, e) := ParseAll(rest);
      assert ParseAll(data) == ([f] + fs, e);
      assert ([f] + fs)[1..] == fs;
      ReceiveCons([f] + fs, Seen(e, broken), parses);
    case Failed(_) =>
  }

  lemma AfterAfter(out: seq<uint8>, err: seq<uint8>, out': seq<uint8>, err': seq<uint8>, r: Received)
    ensures After(out, err, After(out', err', r)) == After(out + out', err + err', r)
  {
    ConcatAssociates(out, out', r.out);
    ConcatAssociates(err, err', r.err);
  }

  method ClientReceive(reader: FrameReader, parses: seq<uint8> -> bool)
    returns (out: seq<uint8>, err: seq<uint8>, ending: Ending)
    modifies reader.r
    ensures Received(out, err, ending) == ReceiveFrom(old(reader.r.data), reader.r.broken, parses)
    ensures forall fs, payload, tail ::
              old(reader.r.data) == EncodeAll(fs) + (Encode(Frame(3, payload)) + tail) && |payload| < 0x1_0000_0000
              && (forall f: Frame :: f in fs ==> |f.payload| < 0x1_0000_0000 && f.streamType != 3) ==>
                && out == Flatten(Chunks(fs, 1)) && err == Flatten(Chunks(fs, 2))
                && ending == if parses(payload) then ExitFrame(payload) else StreamError
  {
    out, err := [], [];
    assert After([], [], ReceiveFrom(reader.r.data, reader.r.broken, parses)) ==
           ReceiveFrom(reader.r.data, reader.r.broken, parses);
    while true
      invariant After(out, err, ReceiveFrom(reader.r.data, reader.r.broken, parses)) ==
                ReceiveFrom(old(reader.r.data), reader.r.broken, parses)
      decreases |reader.r.data|
    {
      ReceiveStep(reader.r.data, reader.r.broken, parses);
      var result := reader.ReadFrame();
      assert out + [] == out && err + [] == err;
      if result.Failed? {
        ending := if result.error == EOF then AssumedSuccess else StreamError;
        break;
      }
      var f := result.frame;
      if f.streamType == STREAM_STDOUT {
        AfterAfter(out, err, f.payload, [], ReceiveFrom(result.rest, reader.r.broken, parses));
        out := out + f.payload;
      } else if f.streamType == STREAM_STDERR {
        AfterAfter(out, err, [], f.payload, ReceiveFrom(result.rest, reader.r.broken, parses));
        err := err + f.payload;
      } else if f.streamType == STREAM_EXIT {
        ending := if parses(f.payload) then ExitFrame(f.payload) else StreamError;
        break;
      }
    }
    forall fs, payload, tail
      | old(reader.r.data) == EncodeAll(fs) + (Encode(Frame(3, payload)) + tail) && |payload| < 0x1_0000_0000
        && (forall f: Frame :: f in fs ==> |f.payload| < 0x1_0000_0000 && f.streamType != 3)
      ensures ReceiveFrom(old(reader.r.data), reader.r.broken, parses) ==
              Received(Flatten(Chunks(fs, 1)), Flatten(Chunks(fs, 2)), if parses(payload) then ExitFrame(payload) else StreamError)
    {
      ReceiveUpToExit(fs, payload, tail, reader.r.broken, parses);
    }
  }

  /** Whatever comes before and after it, the first exit frame ends the call. */
  lemma ReceiveUpToExit(fs: seq<Frame>, payload: seq<uint8>, tail: seq<uint8>, broken: bool, parses: seq<uint8> -> bool)
    requires forall f: Frame :: f in fs ==> |f.payload| < 0x1_0000_0000 && f.streamType != 3
    requires |payload| < 0x1_0000_0000
    ensures ReceiveFrom(EncodeAll(fs) + (Encode(Frame(3, payload)) + tail), broken, parses) ==
            Received(Flatten(Chunks(fs, 1)), Flatten(Chunks(fs, 2)), if parses(payload) then ExitFrame(payload) else StreamError)
  {
    var exit := Frame(3, payload);
    var (later, error) := ParseAll(tail);
    ParsePastFrames(fs, Encode(exit) + tail);
    ParseFirst(exit, tail);
    ReceiveData(fs, [exit] + later, Seen(error, broken), parses);
    assert ([exit] + later)[0] == exit;
    assert Flatten(Chunks(fs, 1)) + [] == Flatten(Chunks(fs, 1)) && Flatten(Chunks(fs, 2)) + [] == Flatten(Chunks(fs, 2));
  }

  function Flatten(chunks: seq<seq<uint8>>): seq<uint8> {
    if chunks == [] then [] else chunks[0] + Flatten(chunks[1..])
  }

  ghost predicate NoExit(fs: seq<Frame>) {
    forall f :: f in fs ==> f.streamType != STREAM_EXIT
  }

  /** Frames before `tail` put their payloads before what `tail` gives; other types than output are skipped. */
  lemma {:induction false} ReceiveData(fs: seq<Frame>, tail: seq<Frame>, error: ReadError, parses: seq<uint8> -> bool)
    requires NoExit(fs)
    ensures Receive(fs + tail, error, parses) ==
            After(Flatten(Chunks(fs, STREAM_STDOUT)), Flatten(Chunks(fs, STREAM_STDERR)), Receive(tail, error, parses))
  {
    if fs == [] {
      assert fs + tail == tail;
      EmptyAfter(Receive(tail, error, parses));
    } else {
      var f, gs := fs[0], fs[1..];
      assert f in fs && (fs + tail)[1..] == gs + tail && [f] + gs == fs;
      ReceiveData(gs, tail, error, parses);
      FlattenCons(f, gs, STREAM_STDOUT);
      FlattenCons(f, gs, STREAM_STDERR);
      var out, err := Flatten(Chunks(gs, STREAM_STDOUT)), Flatten(Chunks(gs, STREAM_STDERR));
      assert Receive(fs + tail, error, parses) == Handle(f, Receive(gs + tail, error, parses), parses) by {
        ReceiveCons(fs + tail, error, parses);
      }
      AfterAfter(if f.streamType == STREAM_STDOUT then f.payload else [], if f.streamType == STREAM_STDERR then f.payload else [],
                 out, err, Receive(tail, error, parses));
    }
  }

  lemma EmptyAfter(r: Received)
    ensures After([], [], r) == r
  {
  }

  lemma ReceiveCons(fs: seq<Frame>, error: ReadError, parses: seq<uint8> -> bool)
    requires fs != []
    ensures Receive(fs, error, parses) == Handle(fs[0], Receive(fs[1..], error, parses), parses)
  {
    var later := Receive(fs[1..], error, parses);
    assert [] + later.out == later.out && [] + later.err == later.err;
  }

  lemma FlattenCons(f: Frame, fs: seq<Frame>, tag: uint8)
    ensures Flatten(Chunks([f] + fs, tag)) == (if f.streamType == tag then f.payload else []) + Flatten(Chunks(fs, tag))
  {
    assert ([f] + fs)[1..] == fs;
    assert ([f.payload] + Chunks(fs, tag))[1..] == Chunks(fs, tag);
    assert [] + Chunks(fs, tag) == Chunks(fs, tag) && [] + Flatten(Chunks(fs, tag)) == Flatten(Chunks(fs, tag));
  }

  /** End to end: the client's two outputs are the bytes the two pumps read, and the ending is the exit frame's,
      even if the connection breaks right behind it. */
  lemma ClientSeesTheRun(tty: bool, events: seq<Event>, broken: bool, parses: seq<uint8> -> bool)
    ensures var s := Runs.Exec(Next, Init(tty), events);
            s.exit.Exited? ==>
              ReceiveFrom(s.wire, broken, parses) ==
              Received(Flatten(s.readOut), Flatten(s.readErr),
                       if parses(s.exit.payload) then ExitFrame(s.exit.payload) else StreamError)
  {
    MultiplexedStreamDecodes(tty, events);
    var s := Runs.Exec(Next, Init(tty), events);
    if s.exit.Exited? {
      ReceiveData(Data(s), [Frame(STREAM_EXIT, s.exit.payload)], Seen(EOF, broken), parses);
      assert Flatten(s.readOut) + [] == Flatten(s.readOut) && Flatten(s.readErr) + [] == Flatten(s.readErr);
    }
  }

  /** A connection cut before the end of a finished run never shows an exit frame. The client reports an assumed
      success exactly when the stream just ends, and does so between frames or right behind a header. */
  lemma CutRunAtClient(tty: bool, events: seq<Event>, k: nat, broken: bool, parses: seq<uint8> -> bool)
    ensures var s := Runs.Exec(Next, Init(tty), events);
            s.exit.Exited? && k < |s.wire| ==>
              var m := CompleteWithin(s.log, k);
              var cut := k - |EncodeAll(s.log[..m])|;
              ReceiveFrom(s.wire[..k], broken, parses) ==
              Received(Flatten(Chunks(s.log[..m], STREAM_STDOUT)), Flatten(Chunks(s.log[..m], STREAM_STDERR)),
                       if !broken && (cut == 0 || cut == 5) then AssumedSuccess else StreamError)
  {
    InvAlways(tty, events);
    var s := Runs.Exec(Next, Init(tty), events);
    if s.exit.Exited? && k < |s.wire| {
      LogFacts(s, CompleteWithin(s.log, k));
      TruncationIsSafe(s.log, k);
      ReceiveOnly(s.log[..CompleteWithin(s.log, k)], Seen(ParseAll(s.wire[..k]).1, broken), parses);
    }
  }

  /** The frames of a finished run: all fit the wire, and none but the last is an exit frame. */
  lemma LogFacts(s: State, m: nat)
    requires Inv(s) && s.exit.Exited? && m <= |s.log|
    ensures s.wire == EncodeAll(s.log) && (forall f :: f in s.log ==> Small(f)) && (m < |s.log| ==> NoExit(s.log[..m]))
  {
    forall f | f in s.log ensures Small(f) {
      assert f in Data(s) || f == Frame(STREAM_EXIT, s.exit.payload);
    }
    forall f | m < |s.log| && f in s.log[..m] ensures f.streamType != STREAM_EXIT {
      assert f in Data(s);
    }
  }

  lemma ReceiveOnly(fs: seq<Frame>, error: ReadError, parses: seq<uint8> -> bool)
    requires NoExit(fs)
    ensures Receive(fs, error, parses) ==
            Received(Flatten(Chunks(fs, STREAM_STDOUT)), Flatten(Chunks(fs, STREAM_STDERR)),
                     if error == EOF then AssumedSuccess else StreamError)
  {
    ReceiveData(fs, [], error, parses);
    assert fs + [] == fs;
    assert Flatten(Chunks(fs, STREAM_STDOUT)) + [] == Flatten(Chunks(fs, STREAM_STDOUT));
    assert Flatten(Chunks(fs, STREAM_STDERR)) + [] == Flatten(Chunks(fs, STREAM_STDERR));
  }
}
