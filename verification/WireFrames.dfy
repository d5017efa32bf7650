/** The incremental length-prefixed frame parser of a member's profile channel. */
module WireFrames {
  import opened Basics
  import opened AccountingWire

  const HEADER := 4
  const MAX_FRAME := 1_048_576
  const MAX_TIMEOUT := 60_000

  lemma HeaderLimit()
    ensures Limit(HEADER) == 0x1_0000_0000
  {
    assert Limit(1) == 256 && Limit(2) == 65_536 && Limit(3) == 16_777_216;
  }

  function Packet(frame: seq<Byte>): seq<Byte> {
    BigEndian(|frame|, HEADER) + frame
  }

  /* ----- the channel ----- */

  datatype Operation = NoOperation | Reading | Writing

  /** `received` is the part of the current frame, header included, that has arrived; the deadlines
      are those of the pending operation and of that frame. */
  datatype Channel = Channel(
    terminal: bool, operation: Operation, received: seq<Byte>, ready: Option<seq<Byte>>, receiveAfterWrite: bool,
    deadline: Option<nat>, incoming: Option<nat>)

  const OPEN: Channel := Channel(false, NoOperation, [], None, false, None, None)

  /** What a step tells the caller of the pending operation. */
  datatype Signal = Quiet | Delivered(frame: seq<Byte>) | Refused

  function Closed(c: Channel): Channel {
    c.(terminal := true, operation := NoOperation, received := [], ready := None, deadline := None, incoming := None)
  }

  function Completed(c: Channel, frame: seq<Byte>): (Channel, Signal) {
    if c.operation == Reading
    then (c.(received := [], incoming := None, operation := NoOperation, deadline := None, receiveAfterWrite := false), Delivered(frame))
    else (c.(received := [], incoming := None, ready := Some(frame)), Quiet)
  }

  function FrameLength(received: seq<Byte>): nat
    requires HEADER <= |received|
  {
    ReadBig(received[..HEADER])
  }

  /** The channel once `all` of the current frame's bytes have arrived. */
  function Extended(c: Channel, all: seq<Byte>, max: nat): (Channel, Signal) {
    if |all| < HEADER then (c.(received := all), Quiet)
    else if FrameLength(all) < 1 || FrameLength(all) > max || HEADER + FrameLength(all) < |all| then (Closed(c), Refused)
    else if |all| == HEADER + FrameLength(all) then Completed(c, all[HEADER..])
    else (c.(received := all), Quiet)
  }

  /** The frame's clock starts with its first data and later data does not set it back. */
  function Clocked(c: Channel, due: nat): Channel {
    if c.incoming.None? then c.(incoming := Some(due)) else c
  }

  /** `due` is one timeout from now. */
  function Fed(c: Channel, chunk: seq<Byte>, max: nat, due: nat): (Channel, Signal) {
    if c.terminal then (c, Quiet)
    else if c.ready.Some? || (c.operation == NoOperation && !c.receiveAfterWrite) then (Closed(c), Refused)
    else Extended(Clocked(c, due), c.received + chunk, max)
  }

  function ReadBegun(c: Channel, due: nat): (Channel, Signal) {
    if c.terminal then (c, Refused)
    else if c.operation != NoOperation then (Closed(c), Refused)
    else if c.ready.Some? then (c.(ready := None, receiveAfterWrite := false, deadline := None), Delivered(c.ready.value))
    else (c.(operation := Reading, receiveAfterWrite := false, deadline := Some(due)), Quiet)
  }

  function WriteBegun(c: Channel, bytes: seq<Byte>, max: nat, due: nat): (Channel, Signal) {
    if bytes == [] || |bytes| > max then (if c.terminal then c else Closed(c), Refused)
    else if c.terminal then (c, Refused)
    else if c.operation != NoOperation then (Closed(c), Refused)
    else (c.(operation := Writing, receiveAfterWrite := true, deadline := Some(due)), Quiet)
  }

  function WriteEnded(c: Channel, failed: bool): Channel {
    if c.terminal then c else if failed then Closed(c) else c.(operation := NoOperation, deadline := None)
  }

  predicate Due(timer: Option<nat>, now: nat) {
    timer.Some? && timer.value <= now
  }

  /** The timers fire. */
  function TimedOut(c: Channel, now: nat): Channel {
    if Due(c.deadline, now) || Due(c.incoming, now) then Closed(c) else c
  }

  class FramedSocket {
    const maxFrame: nat
    const timeout: nat
    var terminal: bool
    var operation: Operation
    var header: array<Byte>
    var headerUsed: nat
    var body: array?<Byte>
    var bodyUsed: nat
    var ready: Option<seq<Byte>>
    var receiveAfterWrite: bool
    var deadline: Option<nat>
    var incomingDeadline: Option<nat>

    ghost predicate Valid()
      reads this, header, body
    {
      && header.Length == HEADER && headerUsed <= HEADER
      && (terminal ==> operation == NoOperation && ready.None? && deadline.None? && incomingDeadline.None?)
      && (!terminal ==>
            && (headerUsed < HEADER ==> body == null && bodyUsed == 0)
            && (headerUsed == HEADER ==>
                  && body != null && body != header && bodyUsed < body.Length
                  && body.Length == ReadBig(header[..]) && 1 <= body.Length <= maxFrame))
    }

    ghost function Received(): seq<Byte>
      reads this, header, body
      requires Valid() && !terminal
    {
      header[..headerUsed] + if body == null then [] else body[..bodyUsed]
    }

    ghost function View(): Channel
      reads this, header, body
      requires Valid()
    {
      Channel(terminal, operation, if terminal then [] else Received(), ready, receiveAfterWrite, deadline, incomingDeadline)
    }

    constructor (maxFrame: nat, timeout: nat)
      requires 1 <= maxFrame <= MAX_FRAME && 1 <= timeout <= MAX_TIMEOUT
      ensures Valid() && this.maxFrame == maxFrame && this.timeout == timeout && View() == OPEN
    {
      this.maxFrame, this.timeout := maxFrame, timeout;
      deadline, incomingDeadline := None, None;
      terminal, operation, ready, receiveAfterWrite := false, NoOperation, None, false;
      header := new Byte[HEADER](_ => 0);
      headerUsed, body, bodyUsed := 0, null, 0;
    }

    method Close()
      requires Valid() && !terminal
      modifies this
      ensures Valid() && View() == Closed(old(View()))
    {
      terminal, operation, ready, body := true, NoOperation, None, null;
      deadline, incomingDeadline := None, None;
    }

    /** Copies as much of the chunk as the header still needs. */
    method FillHeader(chunk: seq<Byte>) returns (offset: nat)
      requires Valid() && !terminal && headerUsed < HEADER
      modifies this, header
      ensures header == old(header) && header.Length == HEADER && body == null && bodyUsed == 0
      ensures headerUsed <= HEADER && offset <= |chunk|
      ensures offset == Min(HEADER - old(headerUsed), |chunk|) && headerUsed == old(headerUsed) + offset
      ensures header[..headerUsed] == old(header[..headerUsed]) + chunk[..offset]
      ensures terminal == old(terminal) && operation == old(operation) && ready == old(ready) && receiveAfterWrite == old(receiveAfterWrite)
      ensures deadline == old(deadline) && incomingDeadline == old(incomingDeadline)
    {
      offset := Min(HEADER - headerUsed, |chunk|);
      forall i | 0 <= i < offset {
        header[headerUsed + i] := chunk[i];
      }
      headerUsed := headerUsed + offset;
    }

    /** Copies as much of the chunk as the body still needs. */
    method FillBody(chunk: seq<Byte>, from: nat) returns (offset: nat)
      requires header.Length == HEADER && headerUsed == HEADER && body != null && body != header && bodyUsed <= body.Length && from <= |chunk|
      modifies this`bodyUsed, body
      ensures bodyUsed <= body.Length && from <= offset <= |chunk|
      ensures offset == from + Min(body.Length - old(bodyUsed), |chunk| - from) && bodyUsed == old(bodyUsed) + (offset - from)
      ensures body[..bodyUsed] == old(body[..bodyUsed]) + chunk[from..offset]
      ensures header[..] == old(header[..])
    {
      var count := Min(body.Length - bodyUsed, |chunk| - from);
      forall i | 0 <= i < count {
        body[bodyUsed + i] := chunk[from + i];
      }
      bodyUsed := bodyUsed + count;
      offset := from + count;
    }

    method OnData(chunk: seq<Byte>, now: nat) returns (signal: Signal)
      requires Valid()
      modifies this, header, body
      ensures Valid() && (View(), signal) == Fed(old(View()), chunk, maxFrame, now + timeout)
    {
      if terminal {
        return Quiet;
      }
      if ready.Some? || (operation == NoOperation && !receiveAfterWrite) {
        Close();
        return Refused;
      }
      if incomingDeadline.None? {
        incomingDeadline := Some(now + timeout);
      }
      ghost var all, before := Received() + chunk, View();
      if headerUsed < HEADER {
        assert all == header[..headerUsed] + chunk;
        signal := TakeHeader(chunk, before, all);
      } else {
        assert header[..headerUsed] == header[..] && chunk[0..] == chunk;
        signal := TakeBody(chunk, 0, before, all);
      }
    }

    /** The header part of a chunk, then whatever is left of it. */
    method TakeHeader(chunk: seq<Byte>, ghost c: Channel, ghost all: seq<Byte>) returns (signal: Signal)
      requires Valid() && !terminal && ready.None? && headerUsed < HEADER
      requires all == header[..headerUsed] + chunk
      requires c == Channel(false, operation, c.received, None, receiveAfterWrite, deadline, incomingDeadline)
      modifies this, header
      ensures Valid() && (View(), signal) == Extended(c, all, maxFrame)
    {
      var offset := FillHeader(chunk);
      assert chunk == chunk[..offset] + chunk[offset..];
      assert all == header[..headerUsed] + chunk[offset..];
      if headerUsed < HEADER {
        assert all == header[..headerUsed] == Received();
        return Quiet;
      }
      assert header[..headerUsed] == header[..] == all[..HEADER];
      var length := ReadHeader();
      if length < 1 || length > maxFrame {
        Abandon();
        return Refused;
      }
      body := new Byte[length](_ => 0);
      assert all == header[..] + body[..bodyUsed] + chunk[offset..];
      signal := TakeBody(chunk, offset, c, all);
    }

    /** The body part of a chunk; the header is complete. */
    method TakeBody(chunk: seq<Byte>, from: nat, ghost c: Channel, ghost all: seq<Byte>) returns (signal: Signal)
      requires !terminal && ready.None? && header.Length == HEADER && headerUsed == HEADER && from <= |chunk|
      requires body != null && body != header && bodyUsed < body.Length
      requires body.Length == ReadBig(header[..]) && 1 <= body.Length <= maxFrame
      requires all == header[..] + body[..bodyUsed] + chunk[from..]
      requires c == Channel(false, operation, c.received, None, receiveAfterWrite, deadline, incomingDeadline)
      modifies this, body
      ensures Valid() && (View(), signal) == Extended(c, all, maxFrame)
    {
      var end := FillBody(chunk, from);
      assert chunk[from..] == chunk[from..end] + chunk[end..];
      assert all == header[..] + body[..bodyUsed] + chunk[end..];
      assert all[..HEADER] == header[..] && FrameLength(all) == body.Length;
      if end != |chunk| {
        Abandon();
        return Refused;
      }
      assert chunk[end..] == [] && all == header[..] + body[..bodyUsed];
      if bodyUsed == body.Length {
        assert all[HEADER..] == body[..];
        signal := Complete();
        return;
      }
      assert header[..headerUsed] == header[..];
      return Quiet;
    }

    method Abandon()
      requires header.Length == HEADER && headerUsed <= HEADER
      modifies this
      ensures Valid() && View() == Channel(true, NoOperation, [], None, old(receiveAfterWrite), None, None)
    {
      terminal, operation, ready, body := true, NoOperation, None, null;
      deadline, incomingDeadline := None, None;
    }

    /** Hands a whole frame to the waiting reader, or keeps it. */
    method Complete() returns (signal: Signal)
      requires !terminal && ready.None? && body != null
      modifies this
      ensures Valid()
      ensures forall c: Channel | !c.terminal && c.ready.None? && c.operation == old(operation) && c.deadline == old(deadline)
                  && c.receiveAfterWrite == old(receiveAfterWrite) ::
                (View(), signal) == Completed(c, old(body[..]))
    {
      var bytes := body[..];
      header := new Byte[HEADER](_ => 0);
      headerUsed, body, bodyUsed, incomingDeadline := 0, null, 0, None;
      if operation == Reading {
        receiveAfterWrite, operation, deadline := false, NoOperation, None;
        assert Received() == [];
        return Delivered(bytes);
      }
      ready := Some(bytes);
      assert Received() == [];
      return Quiet;
    }

    method ReadHeader() returns (length: nat)
      requires header.Length == HEADER
      ensures length == ReadBig(header[..])
    {
      length := 0;
      for i := 0 to HEADER
        invariant length == ReadBig(header[..i])
      {
        assert header[..i + 1][..i] == header[..i];
        length := length * 256 + header[i];
      }
      assert header[..HEADER] == header[..];
    }

    method Read(now: nat) returns (signal: Signal)
      requires Valid()
      modifies this
      ensures Valid() && (View(), signal) == ReadBegun(old(View()), now + timeout)
    {
      if terminal {
        return Refused;
      }
      if operation != NoOperation {
        Close();
        return Refused;
      }
      receiveAfterWrite := false;
      if ready.Some? {
        var bytes := ready.value;
        ready, deadline := None, None;
        return Delivered(bytes);
      }
      operation, deadline := Reading, Some(now + timeout);
      return Quiet;
    }

    method Write(bytes: seq<Byte>, now: nat) returns (signal: Signal, packet: seq<Byte>)
      requires Valid()
      modifies this
      ensures Valid() && (View(), signal) == WriteBegun(old(View()), bytes, maxFrame, now + timeout)
      ensures packet == if signal == Quiet then Packet(bytes) else []
    {
      packet := [];
      if bytes == [] || |bytes| > maxFrame {
        if !terminal {
          Close();
        }
        return Refused, [];
      }
      if terminal {
        return Refused, [];
      }
      if operation != NoOperation {
        Close();
        return Refused, [];
      }
      operation, receiveAfterWrite, deadline := Writing, true, Some(now + timeout);
      return Quiet, BigEndian(|bytes|, HEADER) + bytes;
    }

    method OnWritten(failed: bool)
      requires Valid()
      modifies this
      ensures Valid() && View() == WriteEnded(old(View()), failed)
    {
      if terminal {
        return;
      }
      if failed {
        Close();
      } else {
        operation, deadline := NoOperation, None;
      }
    }

    method OnTimers(now: nat)
      requires Valid()
      modifies this
      ensures Valid() && View() == TimedOut(old(View()), now)
    {
      if Due(deadline, now) || Due(incomingDeadline, now) {
        Close();
      }
    }
  }

  /* ----- any chunking gives the same frames ----- */

  /** Bytes that arrive together, one timeout before `due`. */
  datatype Piece = Piece(bytes: seq<Byte>, due: nat)

  function Concat(pieces: seq<Piece>): seq<Byte> {
    if pieces == [] then [] else pieces[0].bytes + Concat(pieces[1..])
  }

  function FedAll(c: Channel, pieces: seq<Piece>, max: nat): (Channel, seq<Signal>)
    decreases |pieces|
  {
    if pieces == [] then (c, [])
    else
      var (next, signal) := Fed(c, pieces[0].bytes, max, pieces[0].due);
      var (last, rest) := FedAll(next, pieces[1..], max);
      (last, [signal] + rest)
  }

  lemma PacketLength(frame: seq<Byte>, max: nat)
    requires 1 <= |frame| <= max <= MAX_FRAME
    ensures |Packet(frame)| == HEADER + |frame| && FrameLength(Packet(frame)) == |frame| && Packet(frame)[HEADER..] == frame
  {
    HeaderLimit();
    ReadAfterWrite(|frame|, HEADER);
    assert Packet(frame)[..HEADER] == BigEndian(|frame|, HEADER);
  }

  /** A partial packet waits. */
  lemma PrefixWaits(c: Channel, chunk: seq<Byte>, frame: seq<Byte>, max: nat, due: nat)
    requires 1 <= |frame| <= max <= MAX_FRAME
    requires !c.terminal && c.ready.None? && (c.operation != NoOperation || c.receiveAfterWrite)
    requires c.received + chunk < Packet(frame)
    ensures Fed(c, chunk, max, due) == (Clocked(c, due).(received := c.received + chunk), Quiet)
  {
    PacketLength(frame, max);
    var all := c.received + chunk;
    if HEADER <= |all| {
      assert all[..HEADER] == Packet(frame)[..HEADER];
    }
  }

  /** However a packet is cut into pieces, the channel ends as if it had arrived whole, and the
      waiting reader gets the frame with the last piece and nothing before. */
  lemma {:induction false} ChunkingIsInvisible(c: Channel, pieces: seq<Piece>, frame: seq<Byte>, max: nat)
    requires 1 <= |frame| <= max <= MAX_FRAME
    requires !c.terminal && c.ready.None? && (c.operation != NoOperation || c.receiveAfterWrite)
    requires forall x | x in pieces :: x.bytes != []
    requires c.received < Packet(frame) && c.received + Concat(pieces) == Packet(frame)
    ensures var (last, signals) := FedAll(c, pieces, max);
      && last == Completed(c, frame).0
      && |signals| == |pieces| > 0 && signals[|signals| - 1] == Completed(c, frame).1
      && forall i | 0 <= i < |signals| - 1 :: signals[i] == Quiet
    decreases |pieces|
  {
    PacketLength(frame, max);
    assert pieces == [] ==> c.received + Concat(pieces) == c.received;
    if pieces != [] {
      var all := c.received + pieces[0].bytes;
      assert c.received + Concat(pieces) == all + Concat(pieces[1..]);
      if pieces[1..] == [] {
        assert all == Packet(frame);
      } else {
        assert pieces[1..][0] in pieces;
        assert |Concat(pieces[1..])| > 0;
        assert all < Packet(frame);
        PrefixWaits(c, pieces[0].bytes, frame, max, pieces[0].due);
        assert forall x | x in pieces[1..] :: x in pieces;
        ChunkingIsInvisible(Clocked(c, pieces[0].due).(received := all), pieces[1..], frame, max);
      }
    }
  }

  /* ----- conservation over a whole session ----- */

  datatype Event = Data(chunk: seq<Byte>) | Read | Write(bytes: seq<Byte>) | Written(failed: bool) | Timers

  datatype Timed = Timed(event: Event, at: nat)

  datatype Limits = Limits(maxFrame: nat, timeout: nat)

  /** `arrived`, `stamps` (each byte's time of arrival), `delivered` and `began` (the start of the
      last operation) are history variables. */
  datatype Session = Session(channel: Channel, arrived: seq<Byte>, stamps: seq<nat>, delivered: seq<seq<Byte>>, began: nat, last: nat)

  function Delivering(s: Session, signal: Signal): seq<seq<Byte>> {
    if signal.Delivered? then s.delivered + [signal.frame] else s.delivered
  }

  /** Time only moves forward: an event stamped earlier does not occur, nor does the end of a write
      when none is pending. */
  function Step(s: Session, e: Timed, l: Limits): Session {
    if e.at < s.last then s
    else
      var due, now := e.at + l.timeout, s.(last := e.at);
      match e.event
      case Data(chunk) =>
        var (channel, signal) := Fed(s.channel, chunk, l.maxFrame, due);
        now.(channel := channel, arrived := s.arrived + chunk, stamps := s.stamps + seq(|chunk|, _ => e.at), delivered := Delivering(s, signal))
      case Read =>
        var (channel, signal) := ReadBegun(s.channel, due);
        now.(channel := channel, delivered := Delivering(s, signal), began := e.at)
      case Write(bytes) => now.(channel := WriteBegun(s.channel, bytes, l.maxFrame, due).0, began := e.at)
      case Written(failed) => if s.channel.operation == Writing then now.(channel := WriteEnded(s.channel, failed)) else now
      case Timers => now.(channel := TimedOut(s.channel, e.at))
  }

  function Run(s: Session, events: seq<Timed>, l: Limits): Session
    decreases |events|
  {
    if events == [] then s else Run(Step(s, events[0], l), events[1..], l)
  }

  const START: Session := Session(OPEN, [], [], [], 0, 0)

  function Packets(frames: seq<seq<Byte>>): seq<Byte> {
    if frames == [] then [] else Packets(frames[..|frames| - 1]) + Packet(frames[|frames| - 1])
  }

  /** What arrived is the delivered packets, the frame held ready, and the part under way. */
  ghost predicate Conserved(s: Session, max: nat) {
    && Packets(s.delivered) <= s.arrived
    && (forall f | f in s.delivered :: 1 <= |f| <= max)
    && (!s.channel.terminal ==>
          && s.arrived == Packets(s.delivered) + (if s.channel.ready.Some? then Packet(s.channel.ready.value) else []) + s.channel.received
          && (s.channel.ready.Some? ==> s.channel.received == [] && 1 <= |s.channel.ready.value| <= max))
    && (s.channel.terminal ==> s.channel.ready.None?)
  }

  lemma PacketsAppend(frames: seq<seq<Byte>>, f: seq<Byte>)
    ensures Packets(frames + [f]) == Packets(frames) + Packet(f)
  {
    assert (frames + [f])[..|frames|] == frames;
  }

  lemma CompleteIsPacket(all: seq<Byte>)
    requires HEADER <= |all| && |all| == HEADER + FrameLength(all)
    ensures Packet(all[HEADER..]) == all
  {
    WriteAfterRead(all[..HEADER]);
    assert all == all[..HEADER] + all[HEADER..];
  }

  /** What one chunk can do to an open channel. */
  lemma FedCases(c: Channel, chunk: seq<Byte>, max: nat, due: nat)
    requires !c.terminal && c.ready.None?
    ensures var (next, signal) := Fed(c, chunk, max, due);
      var all := c.received + chunk;
      || (next == Closed(c) && signal == Refused)
      || (next == Clocked(c, due).(received := all) && signal == Quiet)
      || (&& HEADER <= |all| && 1 <= FrameLength(all) <= max && |all| == HEADER + FrameLength(all)
          && (next, signal) == Completed(c, all[HEADER..]))
  {
  }

  lemma DataConserves(s: Session, chunk: seq<Byte>, at: nat, l: Limits)
    requires Conserved(s, l.maxFrame) && s.last <= at
    ensures Conserved(Step(s, Timed(Data(chunk), at), l), l.maxFrame)
  {
    hide Packets, Packet, Fed, FrameLength, Extended;
    var c := s.channel;
    if c.terminal || c.ready.Some? {
      FedIntoClosed(c, chunk, l.maxFrame, at + l.timeout);
    } else {
      var all := c.received + chunk;
      FedCases(c, chunk, l.maxFrame, at + l.timeout);
      assert s.arrived + chunk == Packets(s.delivered) + all;
      if HEADER <= |all| && |all| == HEADER + FrameLength(all) {
        CompleteIsPacket(all);
        PacketsAppend(s.delivered, all[HEADER..]);
      }
    }
  }

  lemma FedIntoClosed(c: Channel, chunk: seq<Byte>, max: nat, due: nat)
    requires c.terminal || c.ready.Some?
    ensures Fed(c, chunk, max, due) == if c.terminal then (c, Quiet) else (Closed(c), Refused)
  {
  }

  lemma StepConserves(s: Session, e: Timed, l: Limits)
    requires Conserved(s, l.maxFrame)
    ensures Conserved(Step(s, e, l), l.maxFrame)
  {
    hide Packets, Packet, Fed;
    if s.last <= e.at {
      match e.event {
        case Data(chunk) => DataConserves(s, chunk, e.at, l);
        case Read =>
          if s.channel.ready.Some? {
            PacketsAppend(s.delivered, s.channel.ready.value);
          }
        case _ =>
      }
    }
  }

  lemma {:induction false} RunConserves(s: Session, events: seq<Timed>, l: Limits)
    requires Conserved(s, l.maxFrame)
    ensures Conserved(Run(s, events, l), l.maxFrame)
    decreases |events|
  {
    hide Conserved, Step;
    if events != [] {
      StepConserves(s, events[0], l);
      RunConserves(Step(s, events[0], l), events[1..], l);
    }
  }

  /** In every session the frames delivered are exactly the packets that arrived, in order: none is
      lost, repeated, merged or cut, and an open channel accounts for every byte. */
  lemma NothingLostOrInvented(events: seq<Timed>, l: Limits)
    ensures Conserved(Run(START, events, l), l.maxFrame)
  {
    hide Run, Step;
    RunConserves(START, events, l);
  }

  /* ----- nothing waits without a clock ----- */

  /** An open channel's pending operation falls due one timeout after it began, and a frame under
      way no later than one timeout after its first byte, however its bytes are spread. */
  ghost predicate Punctual(s: Session, l: Limits) {
    var c := s.channel;
    && |s.stamps| == |s.arrived| && (forall i | 0 <= i < |s.stamps| :: s.stamps[i] <= s.last)
    && (c.terminal ==> c.received == [] && c.operation == NoOperation)
    && |c.received| <= |s.arrived|
    && c.deadline == (if c.operation == NoOperation then None else Some(s.began + l.timeout))
    && (c.incoming.Some? ==> c.incoming.value <= s.last + l.timeout)
    && (c.received != [] ==> c.incoming.Some? && c.incoming.value <= s.stamps[|s.arrived| - |c.received|] + l.timeout)
  }

  lemma DataIsPunctual(s: Session, chunk: seq<Byte>, at: nat, l: Limits)
    requires Punctual(s, l) && s.last <= at
    ensures Punctual(Step(s, Timed(Data(chunk), at), l), l)
  {
    hide Fed;
    var c := s.channel;
    if c.terminal || c.ready.Some? {
      FedIntoClosed(c, chunk, l.maxFrame, at + l.timeout);
    } else {
      FedCases(c, chunk, l.maxFrame, at + l.timeout);
    }
  }

  lemma StepIsPunctual(s: Session, e: Timed, l: Limits)
    requires Punctual(s, l)
    ensures Punctual(Step(s, e, l), l)
  {
    hide Fed;
    if s.last <= e.at && e.event.Data? {
      DataIsPunctual(s, e.event.chunk, e.at, l);
    }
  }

  lemma {:induction false} RunIsPunctual(s: Session, events: seq<Timed>, l: Limits)
    requires Punctual(s, l)
    ensures Punctual(Run(s, events, l), l)
    decreases |events|
  {
    hide Punctual, Step;
    if events != [] {
      StepIsPunctual(s, events[0], l);
      RunIsPunctual(Step(s, events[0], l), events[1..], l);
    }
  }

  /** Whenever the timers have run, an open channel's operation began less than a timeout ago and
      so did the frame under way: dripping bytes buys no time. */
  lemma NothingOutstaysItsDeadline(events: seq<Timed>, l: Limits, now: nat)
    ensures var s := Run(START, events, l);
      var after := Step(s, Timed(Timers, now), l).channel;
      s.last <= now && !after.terminal ==>
        && after == s.channel
        && (after.operation != NoOperation ==> now < s.began + l.timeout)
        && |after.received| <= |s.arrived| == |s.stamps|
        && (after.received != [] ==> now < s.stamps[|s.arrived| - |after.received|] + l.timeout)
  {
    hide Run;
    RunIsPunctual(START, events, l);
  }

  /* ----- an exchange completes ----- */

  /** An idle open channel that sends a request within the limit is given the whole answer, whether
      the answer's pieces arrive before or after the read is asked for, and is idle again. */
  lemma ExchangeCompletes(bytes: seq<Byte>, frame: seq<Byte>, pieces: seq<Piece>, receiveAfterWrite: bool, max: nat, due: nat)
    requires 1 <= |bytes| <= max <= MAX_FRAME && 1 <= |frame| <= max
    requires Concat(pieces) == Packet(frame) && forall x | x in pieces :: x.bytes != []
    ensures var idle := OPEN.(receiveAfterWrite := receiveAfterWrite);
      var (writing, sent) := WriteBegun(idle, bytes, max, due);
      var written := WriteEnded(writing, false);
      var (held, quiet) := FedAll(written, pieces, max);
      var (waiting, waits) := ReadBegun(written, due);
      var (ended, signals) := FedAll(waiting, pieces, max);
      && sent == Quiet && waits == Quiet && |signals| == |pieces| > 0 && |quiet| == |pieces|
      && ReadBegun(held, due) == (OPEN, Delivered(frame))
      && signals[|signals| - 1] == Delivered(frame) && ended == OPEN
  {
    hide Packet, Fed;
    var idle := OPEN.(receiveAfterWrite := receiveAfterWrite);
    var written := WriteEnded(WriteBegun(idle, bytes, max, due).0, false);
    var waiting := ReadBegun(written, due).0;
    PacketLength(frame, max);
    assert [] + Concat(pieces) == Packet(frame);
    ChunkingIsInvisible(written, pieces, frame, max);
    ChunkingIsInvisible(waiting, pieces, frame, max);
  }

  /* ----- nothing unasked is kept ----- */

  /** An open channel holds bytes or a frame only while an operation is pending or an answer is due,
      and a write makes one due; a frame held leaves no bytes over. */
  predicate Solicited(c: Channel) {
    !c.terminal ==>
      && (c.received != [] || c.ready.Some? ==> c.operation != NoOperation || c.receiveAfterWrite)
      && (c.operation == Writing ==> c.receiveAfterWrite)
      && (c.ready.Some? ==> c.received == [])
  }

  lemma StepKeepsSolicited(s: Session, e: Timed, l: Limits)
    requires Solicited(s.channel)
    ensures Solicited(Step(s, e, l).channel)
  {
    hide ReadBig;
  }

  lemma {:induction false} RunKeepsSolicited(s: Session, events: seq<Timed>, l: Limits)
    requires Solicited(s.channel)
    ensures Solicited(Run(s, events, l).channel)
    decreases |events|
  {
    hide Solicited, Step;
    if events != [] {
      StepKeepsSolicited(s, events[0], l);
      RunKeepsSolicited(Step(s, events[0], l), events[1..], l);
    }
  }

  /** In every session nothing is kept that was not asked for, and data that comes with no operation
      pending and no answer due closes the channel. */
  lemma UnaskedDataCloses(events: seq<Timed>, l: Limits, chunk: seq<Byte>, at: nat)
    ensures var c := Run(START, events, l).channel;
      && Solicited(c)
      && (!c.terminal && c.operation == NoOperation && !c.receiveAfterWrite ==>
            && c.received == [] && c.ready.None?
            && Fed(c, chunk, l.maxFrame, at + l.timeout) == (Closed(c), Refused))
  {
    hide Run, Step;
    RunKeepsSolicited(START, events, l);
  }
}
