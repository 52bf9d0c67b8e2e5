/**
 The client's side of a decode: `next` hands out entries, and reads through a caller's buffers
 reassemble each entry from DATA frames.
 */
module ArchiveSession {
  import opened Common
  import opened Bytes
  import opened Protocol
  import opened Worker
  import opened InventoryReception

  datatype Session = Session(
    ch: Channel, entries: nat, active: Option<nat>, started: bool, finished: bool, requests: seq<Frame>)

  datatype Contents = Contents(pending: seq<byte>, offset: nat, ended: bool)

  const DECODE_REQUEST := Frame(DECODE, [])

  /** What the outside decides during one `next`: an interruption before it, whether DECODE can be
      written, and how the wait for the child's exit ends. */
  datatype Outside = Outside(stop: Option<ImportError>, writable: bool, exit: Result<()>)

  // ---------------------------------------------------------------- the two operations

  function Next(s: Session, o: Outside): (Session, Result<Option<nat>>) {
    if o.stop.Some? then (s, Err(o.stop.value))
    else if s.active.Some? then (s, Err(Corrupt))
    else if s.finished then (s, Ok(None))
    else if !s.started && !o.writable then (s, Err(Io)) else
    var s1 := if s.started then s else s.(started := true, requests := s.requests + [DECODE_REQUEST]);
    match Receive(s1.ch)
    case Err(e) => (s1, Err(e))
    case Ok((f, ch)) =>
      var s2 := s1.(ch := ch);
      if f.tag == COMPLETE then
        if f.payload != [] then (s2, Err(Corrupt))
        else if o.exit.Err? then (s2, Err(o.exit.error))
        else (s2.(finished := true), Ok(None))
      else if f.tag != BEGIN then (s2, Err(Corrupt)) else
      match ReadIndex(f.payload)
      case Err(e) => (s2, Err(e))
      case Ok(i) => if i >= s.entries then (s2, Err(Corrupt)) else (s2.(active := Some(i)), Ok(Some(i)))
  }

  /** One `read` into a buffer with `room` bytes: the new state and the bytes it put there. */
  function Read(s: Session, c: Contents, room: nat): (Session, Contents, Result<seq<byte>>)
    requires c.offset <= |c.pending|
  {
    if room == 0 || c.ended then (s, c, Ok([]))
    else if c.offset < |c.pending| then Serve(s, c, room) else
    match Receive(s.ch)
    case Err(e) => (s, c, Err(e))
    case Ok((f, ch)) =>
      var s1 := s.(ch := ch);
      if f.tag == END then
        match ReadIndex(f.payload)
        case Err(e) => (s1, c, Err(e))
        case Ok(i) =>
          if Some(i) != s.active then (s1, c, Err(Corrupt))
          else (s1.(active := None), c.(ended := true), Ok([]))
      else if f.tag != DATA || f.payload == [] then (s1, c, Err(Corrupt))
      else Serve(s1, c.(pending := f.payload, offset := 0), room)
  }

  function Serve(s: Session, c: Contents, room: nat): (Session, Contents, Result<seq<byte>>)
    requires c.offset <= |c.pending|
  {
    var n := if room < |c.pending| - c.offset then room else |c.pending| - c.offset;
    (s, c.(offset := c.offset + n), Ok(c.pending[c.offset..c.offset + n]))
  }

  /** Why `next` fails: an interruption; an entry still open; DECODE could not be written; nothing came, for
      the channel's reason; the child's exit; or a frame that does not belong there. */
  lemma {:induction false} WhyNextFails(s: Session, o: Outside)
    ensures
      var r := Next(s, o).1;
      if o.stop.Some? then r == Err(o.stop.value)
      else if s.active.Some? then r == Err(Corrupt)
      else if s.finished then r == Ok(None)
      else if !s.started && !o.writable then r == Err(Io)
      else if Receive(s.ch).Err? then r == Err(Receive(s.ch).error)
      else
        var f := s.ch.frames[0];
        if f == Frame(COMPLETE, []) then r == (if o.exit.Ok? then Ok(None) else Err(o.exit.error))
        else if f.tag == BEGIN && |f.payload| == 8 && FromLittleEndian(f.payload) < s.entries
        then r == Ok(Some(FromLittleEndian(f.payload)))
        else r == Err(Corrupt)
  {
  }

  /** Why a read fails: nothing came, for the channel's reason, or a frame that is neither the next bytes of
      the entry nor its end. */
  lemma {:induction false} WhyReadFails(s: Session, c: Contents, room: nat)
    requires c.offset <= |c.pending|
    ensures
      var r := Read(s, c, room).2;
      r.Err? <==>
        && room > 0 && !c.ended && c.offset == |c.pending|
        && (Receive(s.ch).Err? ||
            var f := s.ch.frames[0];
            !(f.tag == DATA && f.payload != []) && !(s.active.Some? && f.tag == END && ReadIndex(f.payload) == Ok(s.active.value)))
    ensures
      var r := Read(s, c, room).2;
      r.Err? ==> r.error == if Receive(s.ch).Err? then Receive(s.ch).error else Corrupt
  {
  }

  // ---------------------------------------------------------------- as objects

  class ArchiveSession {
    var ch: Channel
    var entries: nat
    var active: Option<nat>
    var started: bool
    var finished: bool
    var requests: seq<Frame>

    ghost function State(): Session
      reads this
    {
      Session(ch, entries, active, started, finished, requests)
    }

    constructor (ch: Channel, entries: nat)
      ensures State() == Session(ch, entries, None, false, false, [])
    {
      this.ch, this.entries := ch, entries;
      active, started, finished, requests := None, false, false, [];
    }

    method Advance(o: Outside) returns (r: Result<Option<nat>>)
      modifies this
      ensures (State(), r) == Next(old(State()), o)
    {
      if o.stop.Some? { return Err(o.stop.value); }
      if active.Some? { return Err(Corrupt); }
      if finished { return Ok(None); }
      if !started {
        if !o.writable { return Err(Io); }
        requests := requests + [DECODE_REQUEST];
        started := true;
      }
      var got := Receive(ch);
      if got.Err? { return Err(got.error); }
      var (f, rest) := got.value;
      ch := rest;
      if f.tag == COMPLETE {
        if f.payload != [] { return Err(Corrupt); }
        if o.exit.Err? { return Err(o.exit.error); }
        finished := true;
        return Ok(None);
      }
      if f.tag != BEGIN { return Err(Corrupt); }
      var index := ReadIndex(f.payload);
      if index.Err? { return Err(index.error); }
      if index.value >= entries { return Err(Corrupt); }
      active := Some(index.value);
      r := Ok(Some(index.value));
    }
  }

  class EntryReader {
    const session: ArchiveSession
    var pending: seq<byte>
    var offset: nat
    var ended: bool

    ghost predicate Valid()
      reads this
    {
      offset <= |pending|
    }

    ghost function State(): Contents
      reads this
    {
      Contents(pending, offset, ended)
    }

    constructor (session: ArchiveSession)
      ensures Valid() && State() == Contents([], 0, false) && this.session == session
    {
      this.session := session;
      pending, offset, ended := [], 0, false;
    }

    /** Fills the front of the buffer with the next bytes of the entry and leaves the rest of it alone. */
    method ReadContents(buffer: array<byte>) returns (r: Result<nat>)
      requires Valid()
      modifies this, session, buffer
      ensures Valid()
      ensures
        var (s, c, served) := old(Read(session.State(), State(), buffer.Length));
        && session.State() == s && State() == c
        && match served
           case Err(e) => r == Err(e) && buffer[..] == old(buffer[..])
           case Ok(bytes) => r == Ok(|bytes|) && |bytes| <= buffer.Length
                             && buffer[..] == bytes + old(buffer[..])[|bytes|..]
    {
      if buffer.Length == 0 || ended { return Ok(0); }
      if offset == |pending| {
        var got := Receive(session.ch);
        if got.Err? { return Err(got.error); }
        var (f, rest) := got.value;
        session.ch := rest;
        if f.tag == END {
          var index := ReadIndex(f.payload);
          if index.Err? { return Err(index.error); }
          if Some(index.value) != session.active { return Err(Corrupt); }
          session.active := None;
          ended := true;
          return Ok(0);
        }
        if f.tag != DATA || f.payload == [] { return Err(Corrupt); }
        pending, offset := f.payload, 0;
      }
      var n := if buffer.Length < |pending| - offset then buffer.Length else |pending| - offset;
      CopyFront(buffer, pending[offset..offset + n]);
      offset := offset + n;
      r := Ok(n);
    }
  }

  method CopyFront(buffer: array<byte>, bytes: seq<byte>)
    requires |bytes| <= buffer.Length
    modifies buffer
    ensures buffer[..] == bytes + old(buffer[..])[|bytes|..]
  {
    var i := 0;
    while i < |bytes|
      invariant 0 <= i <= |bytes|
      invariant buffer[..i] == bytes[..i]
      invariant buffer[i..] == old(buffer[..])[i..]
    {
      buffer[i] := bytes[i];
      i := i + 1;
    }
    assert buffer[..] == buffer[..i] + buffer[i..];
  }

  // ---------------------------------------------------------------- a caller's run

  /** One entry as the caller got it: the DATA payloads behind it, the bytes handed over so far, and
      whether the caller has seen its clean end. */
  datatype Handed = Handed(index: nat, chunks: seq<seq<byte>>, bytes: seq<byte>, ended: bool)

  datatype Caller = Caller(
    session: Session, reading: Contents, log: seq<Handed>, consumed: seq<Frame>, failed: bool, error: Option<ImportError>)

  datatype Call = CallNext(o: Outside) | CallRead(room: nat)

  function Popped(before: Session, after: Session): seq<Frame> {
    var n := |before.ch.frames| - |after.ch.frames|;
    if 0 <= n <= |before.ch.frames| then before.ch.frames[..n] else []
  }

  function DoNext(c: Caller, o: Outside): Caller {
    var (s, r) := Next(c.session, o);
    var c1 := c.(session := s, consumed := c.consumed + Popped(c.session, s));
    match r
    case Err(e) => c1.(failed := true, error := Some(e))
    case Ok(None) => c1
    case Ok(Some(i)) => c1.(reading := Contents([], 0, false), log := c.log + [Handed(i, [], [], false)])
  }

  function DoRead(c: Caller, room: nat): Caller {
    if c.log == [] || c.reading.offset > |c.reading.pending| then c else
    var (s, reading, r) := Read(c.session, c.reading, room);
    var popped := Popped(c.session, s);
    var c1 := c.(session := s, reading := reading, consumed := c.consumed + popped);
    match r
    case Err(e) => c1.(failed := true, error := Some(e))
    case Ok(bytes) =>
      var last := c.log[|c.log| - 1];
      var chunks := last.chunks + if popped != [] && popped[0].tag == DATA then [popped[0].payload] else [];
      c1.(log := c.log[..|c.log| - 1] + [Handed(last.index, chunks, last.bytes + bytes, reading.ended)])
  }

  function Do(c: Caller, call: Call): Caller {
    if c.failed then c else
    match call
    case CallNext(o) => DoNext(c, o)
    case CallRead(room) => DoRead(c, room)
  }

  /** Any calls in any order; the first error ends the run. */
  function Run(ch: Channel, entries: nat, calls: seq<Call>): Caller {
    if calls == [] then
      Caller(Session(ch, entries, None, false, false, []), Contents([], 0, false), [], [], false, None)
    else
      Do(Run(ch, entries, calls[..|calls| - 1]), calls[|calls| - 1])
  }

  // ---------------------------------------------------------------- safety against any worker

  /** The frames that account for what was handed over. */
  function HandedFrames(h: Handed): seq<Frame> {
    PartialFrames(h.index, h.chunks) + if h.ended then [Frame(END, Index(h.index))] else []
  }

  function Transcript(log: seq<Handed>): seq<Frame> {
    if log == [] then [] else Transcript(log[..|log| - 1]) + HandedFrames(log[|log| - 1])
  }

  ghost predicate LogInv(c: Caller) {
    && (forall i :: 0 <= i < |c.log| - 1 ==> c.log[i].ended)
    && (forall i :: 0 <= i < |c.log| ==>
          && c.log[i].index < c.session.entries && c.log[i].index < TWO_64
          && (forall k :: 0 <= k < |c.log[i].chunks| ==> c.log[i].chunks[k] != [])
          && (c.log[i].ended ==> c.log[i].bytes == Concat(c.log[i].chunks)))
  }

  /** The open entry, if any, is the last one handed out, and the bytes it still owes are pending. */
  ghost predicate OpenInv(c: Caller) {
    if c.log == [] then c.session.active == None else
    var last := c.log[|c.log| - 1];
    && c.session.active == (if last.ended then None else Some(last.index))
    && c.reading.ended == last.ended
    && c.reading.offset <= |c.reading.pending|
    && last.bytes + c.reading.pending[c.reading.offset..] == Concat(last.chunks)
    && (last.ended ==> c.reading.offset == |c.reading.pending|)
  }

  ghost predicate Inv(c: Caller, start: seq<Frame>) {
    && c.consumed + c.session.ch.frames == start
    && c.consumed == Transcript(c.log) + (if c.session.finished then [Frame(COMPLETE, [])] else [])
    && (c.session.finished ==> c.session.active == None)
    && (c.log != [] || c.session.finished ==> c.session.started)
    && LogInv(c) && OpenInv(c)
  }

  lemma {:induction false} ReceivedOne(ch: Channel)
    requires Receive(ch).Ok?
    ensures
      var (f, ch') := Receive(ch).value;
      ch.frames == [f] + ch'.frames && f.tag != FAILURE && ch.frames[..|ch.frames| - |ch'.frames|] == [f]
  {
  }

  lemma {:induction false} ReadIndexIs(f: Frame, i: nat)
    requires ReadIndex(f.payload) == Ok(i)
    ensures f.payload == Index(i) && i < TWO_64
  {
    WriteBack(f.payload);
    Widths();
  }

  /** What one successful `next` does before the end: it takes COMPLETE, or a BEGIN for a known entry. */
  lemma {:induction false} NextIs(c: Caller, o: Outside)
    requires !DoNext(c, o).failed && !c.session.finished
    ensures c.session.active == None && c.session.ch.frames != []
    ensures
      var f, c' := c.session.ch.frames[0], DoNext(c, o);
      && c.session.ch.frames == [f] + c'.session.ch.frames && c'.consumed == c.consumed + [f]
      && c'.session.started && c'.session.entries == c.session.entries
      && if c'.session.finished then
           && f == Frame(COMPLETE, []) && o.exit.Ok?
           && c'.log == c.log && c'.reading == c.reading && c'.session.active == None
         else
           && f.tag == BEGIN && ReadIndex(f.payload).Ok? && ReadIndex(f.payload).value < c.session.entries
           && c'.session.active == Some(ReadIndex(f.payload).value) && c'.reading == Contents([], 0, false)
           && c'.log == c.log + [Handed(ReadIndex(f.payload).value, [], [], false)]
  {
    ReceivedOne(c.session.ch);
  }

  lemma {:induction false} NextKeeps(c: Caller, o: Outside, start: seq<Frame>)
    requires Inv(c, start) && !DoNext(c, o).failed
    ensures Inv(DoNext(c, o), start)
  {
    var c' := DoNext(c, o);
    if c.session.finished {
      assert c' == c by { assert c.consumed + [] == c.consumed; }
    } else {
      NextIs(c, o);
      var f := c.session.ch.frames[0];
      if c'.session.finished {
        DecodeEnds(c, c', f, start);
      } else {
        EntryStarts(c, c', f, ReadIndex(f.payload).value);
        EntryOpened(c, c', f, start);
      }
    }
  }

  lemma {:induction false} DecodeEnds(c: Caller, c': Caller, f: Frame, start: seq<Frame>)
    requires Inv(c, start) && !c.session.finished && c'.session.finished && c'.session.started
    requires c.session.ch.frames == [f] + c'.session.ch.frames && c'.consumed == c.consumed + [f]
    requires f == Frame(COMPLETE, []) && c'.log == c.log && c'.reading == c.reading
    requires c'.session.active == c.session.active == None && c'.session.entries == c.session.entries
    ensures Inv(c', start)
  {
    assert c'.consumed + c'.session.ch.frames == c.consumed + ([f] + c'.session.ch.frames);
  }

  lemma {:induction false} EntryOpened(c: Caller, c': Caller, f: Frame, start: seq<Frame>)
    requires Inv(c, start) && !c.session.finished && !c'.session.finished && c'.session.started
    requires c.session.ch.frames == [f] + c'.session.ch.frames && c'.consumed == c.consumed + [f]
    requires Transcript(c'.log) == Transcript(c.log) + [f] && LogInv(c') && OpenInv(c')
    ensures Inv(c', start)
  {
    assert c'.consumed + c'.session.ch.frames == c.consumed + ([f] + c'.session.ch.frames);
  }

  lemma {:induction false} EntryStarts(c: Caller, c': Caller, f: Frame, i: nat)
    requires LogInv(c) && OpenInv(c) && c.session.active == None && i < c.session.entries == c'.session.entries
    requires f.tag == BEGIN && ReadIndex(f.payload) == Ok(i)
    requires c'.log == c.log + [Handed(i, [], [], false)]
    requires c'.reading == Contents([], 0, false) && c'.session.active == Some(i)
    ensures Transcript(c'.log) == Transcript(c.log) + [f] && LogInv(c') && OpenInv(c')
  {
    var h := Handed(i, [], [], false);
    ReadIndexIs(f, i);
    assert c'.log[..|c.log|] == c.log;
    assert HandedFrames(h) == [f];
    assert forall k :: 0 <= k < |c.log| ==> c'.log[k] == c.log[k];
  }

  lemma {:induction false} ConcatSnoc(chunks: seq<seq<byte>>, x: seq<byte>)
    ensures Concat(chunks + [x]) == Concat(chunks) + x
  {
    assert (chunks + [x])[..|chunks|] == chunks;
  }

  /** Serving bytes moves them from what is owed to what was handed over. */
  lemma {:induction false} ServedBytes(bytes: seq<byte>, pending: seq<byte>, offset: nat, n: nat)
    requires offset + n <= |pending|
    ensures bytes + pending[offset..offset + n] + pending[offset + n..] == bytes + pending[offset..]
  {
  }

  lemma {:induction false} LogGrows(c: Caller, h: Handed, h': Handed, added: seq<Frame>)
    requires c.log != [] && c.log[|c.log| - 1] == h && HandedFrames(h') == HandedFrames(h) + added
    ensures Transcript(c.log[..|c.log| - 1] + [h']) == Transcript(c.log) + added
  {
    var init := c.log[..|c.log| - 1];
    assert (init + [h'])[..|init|] == init;
  }

  lemma {:induction false} ReadKeeps(c: Caller, room: nat, start: seq<Frame>)
    requires Inv(c, start) && !c.failed && !DoRead(c, room).failed
    ensures Inv(DoRead(c, room), start)
  {
    if c.log == [] || room == 0 || c.reading.ended {
      if c.log != [] {
        var last := c.log[|c.log| - 1];
        assert last.chunks + [] == last.chunks && last.bytes + [] == last.bytes;
        assert DoRead(c, room) == c by {
          assert c.log[..|c.log| - 1] + [last] == c.log;
          assert c.consumed + [] == c.consumed;
        }
      }
    } else if c.reading.offset < |c.reading.pending| {
      ReadPending(c, room, start);
    } else {
      ReadFrame(c, room, start);
    }
  }

  lemma {:induction false} ReadPending(c: Caller, room: nat, start: seq<Frame>)
    requires Inv(c, start) && c.log != [] && room > 0 && !c.reading.ended && !c.failed
    requires c.reading.offset < |c.reading.pending|
    ensures !DoRead(c, room).failed && Inv(DoRead(c, room), start)
  {
    var c', last := DoRead(c, room), c.log[|c.log| - 1];
    var (s, reading, r) := Read(c.session, c.reading, room);
    var h' := c'.log[|c.log| - 1];
    assert Popped(c.session, s) == [] && c'.consumed == c.consumed;
    assert h' == Handed(last.index, last.chunks, last.bytes + r.value, false) by {
      assert last.chunks + [] == last.chunks;
    }
    ServedBytes(last.bytes, c.reading.pending, c.reading.offset, |r.value|);
    assert HandedFrames(h') == HandedFrames(last) + [];
    LogGrows(c, last, h', []);
  }

  /** The state after a read that took the frame `f` and leaves `h` as the last entry. */
  lemma {:induction false} TookFrame(c: Caller, c': Caller, f: Frame, h: Handed, start: seq<Frame>)
    requires Inv(c, start) && c.log != [] && !c.session.finished
    requires c.session.ch.frames == [f] + c'.session.ch.frames && c'.consumed == c.consumed + [f]
    requires c'.log == c.log[..|c.log| - 1] + [h] && HandedFrames(h) == HandedFrames(c.log[|c.log| - 1]) + [f]
    requires c'.session.entries == c.session.entries && !c'.session.finished && c'.session.started
    requires LogInv(c') && OpenInv(c')
    ensures Inv(c', start)
  {
    LogGrows(c, c.log[|c.log| - 1], h, [f]);
    assert c'.consumed + c'.session.ch.frames == c.consumed + ([f] + c'.session.ch.frames);
  }

  /** What a read that needs a frame does with it: the active entry's END closes it, DATA is served from its front. */
  lemma {:induction false} ReadIs(c: Caller, room: nat)
    requires c.log != [] && room > 0 && !c.reading.ended
    requires c.reading.offset == |c.reading.pending| && !DoRead(c, room).failed
    ensures c.session.ch.frames != []
    ensures
      var f, last, init := c.session.ch.frames[0], c.log[|c.log| - 1], c.log[..|c.log| - 1];
      var c' := DoRead(c, room);
      && c.session.ch.frames == [f] + c'.session.ch.frames && c'.consumed == c.consumed + [f]
      && (f.tag == END ==>
           && ReadIndex(f.payload).Ok? && c.session.active == Some(ReadIndex(f.payload).value)
           && c'.session == c.session.(ch := c'.session.ch, active := None)
           && c'.reading == c.reading.(ended := true)
           && c'.log == init + [Handed(last.index, last.chunks, last.bytes, true)])
      && (f.tag != END ==>
           var n := if room < |f.payload| then room else |f.payload|;
           && f.tag == DATA && f.payload != []
           && c'.session == c.session.(ch := c'.session.ch)
           && c'.reading == Contents(f.payload, n, false)
           && c'.log == init + [Handed(last.index, last.chunks + [f.payload], last.bytes + f.payload[0..n], false)])
  {
    ReceivedOne(c.session.ch);
    var last := c.log[|c.log| - 1];
    assert last.chunks + [] == last.chunks && last.bytes + [] == last.bytes;
  }

  lemma {:induction false} ReadFrame(c: Caller, room: nat, start: seq<Frame>)
    requires Inv(c, start) && c.log != [] && room > 0 && !c.reading.ended
    requires c.reading.offset == |c.reading.pending| && !DoRead(c, room).failed
    ensures Inv(DoRead(c, room), start)
  {
    var c', last, f := DoRead(c, room), c.log[|c.log| - 1], c.session.ch.frames[0];
    ReadIs(c, room);
    var h := c'.log[|c.log| - 1];
    assert last.bytes == Concat(last.chunks) by {
      assert last.bytes + c.reading.pending[c.reading.offset..] == last.bytes;
    }
    if f.tag == END {
      ReadIndexIs(f, last.index);
      EntryEnds(last, h, f);
    } else {
      EntryGrows(last, h, f, c'.reading.offset);
    }
    OneMoreFrame(c, c', h);
    TookFrame(c, c', f, h, start);
  }

  lemma {:induction false} OneMoreFrame(c: Caller, c': Caller, h: Handed)
    requires LogInv(c) && c.log != [] && c'.session.entries == c.session.entries
    requires c'.log == c.log[..|c.log| - 1] + [h] && h.index == c.log[|c.log| - 1].index
    requires forall k :: 0 <= k < |h.chunks| ==> h.chunks[k] != []
    requires h.ended ==> h.bytes == Concat(h.chunks)
    ensures LogInv(c')
  {
    assert forall i :: 0 <= i < |c.log| - 1 ==> c'.log[i] == c.log[i];
  }

  lemma {:induction false} EntryEnds(last: Handed, h: Handed, f: Frame)
    requires !last.ended && f == Frame(END, Index(last.index)) && h == last.(ended := true)
    ensures HandedFrames(h) == HandedFrames(last) + [f]
  {
  }

  lemma {:induction false} EntryGrows(last: Handed, h: Handed, f: Frame, n: nat)
    requires !last.ended && f.tag == DATA && f.payload != [] && n <= |f.payload| && last.bytes == Concat(last.chunks)
    requires h == Handed(last.index, last.chunks + [f.payload], last.bytes + f.payload[0..n], false)
    requires forall k :: 0 <= k < |last.chunks| ==> last.chunks[k] != []
    ensures HandedFrames(h) == HandedFrames(last) + [f]
    ensures h.bytes + f.payload[n..] == Concat(h.chunks)
    ensures forall k :: 0 <= k < |h.chunks| ==> h.chunks[k] != []
  {
    ConcatSnoc(last.chunks, f.payload);
    ServedBytes(last.bytes, f.payload, 0, n);
    assert f.payload[0..] == f.payload;
  }

  lemma {:induction false} EntriesKept(c: Caller, call: Call)
    ensures Do(c, call).session.entries == c.session.entries
  {
  }

  lemma {:induction false} CallKeeps(c: Caller, call: Call, start: seq<Frame>)
    requires Inv(c, start) && !c.failed && !Do(c, call).failed
    ensures Inv(Do(c, call), start)
  {
    match call {
      case CallNext(o) => NextKeeps(c, o, start);
      case CallRead(room) => ReadKeeps(c, room, start);
    }
  }

  /** Call `k` ended the archive: it took an empty COMPLETE from the channel, and the child's exit was a success. */
  ghost predicate EndedBy(ch: Channel, entries: nat, calls: seq<Call>, k: nat)
    requires k < |calls|
  {
    var before, after := Run(ch, entries, calls[..k]), Run(ch, entries, calls[..k + 1]);
    && calls[k].CallNext? && calls[k].o.exit.Ok?
    && !before.session.finished && after.session.finished
    && before.session.ch.frames != [] && before.session.ch.frames[0] == Frame(COMPLETE, [])
    && after.session.ch.frames == before.session.ch.frames[1..]
  }

  /** A read never ends the archive, and `next` ends it only by COMPLETE and a successful exit. */
  lemma {:induction false} FinishingCall(c: Caller, call: Call)
    requires !c.failed && !Do(c, call).failed && !c.session.finished && Do(c, call).session.finished
    ensures call.CallNext? && call.o.exit.Ok?
    ensures c.session.ch.frames != [] && c.session.ch.frames[0] == Frame(COMPLETE, [])
    ensures Do(c, call).session.ch.frames == c.session.ch.frames[1..]
  {
    if call.CallNext? {
      NextIs(c, call.o);
    } else {
      ReadNeverFinishes(c, call.room);
    }
  }

  lemma {:induction false} ReadNeverFinishes(c: Caller, room: nat)
    ensures DoRead(c, room).session.finished == c.session.finished
  {
  }

  lemma {:induction false} EndedEarlier(ch: Channel, entries: nat, calls: seq<Call>, k: nat)
    requires calls != [] && k < |calls| - 1 && EndedBy(ch, entries, calls[..|calls| - 1], k)
    ensures EndedBy(ch, entries, calls, k)
  {
    var init := calls[..|calls| - 1];
    assert init[..k] == calls[..k] && init[..k + 1] == calls[..k + 1] && init[k] == calls[k];
  }

  /** A finished archive was ended by one call of `next`, which saw COMPLETE and then a successful exit. */
  lemma {:induction false} FinishedByExit(ch: Channel, entries: nat, calls: seq<Call>)
    requires !Run(ch, entries, calls).failed && Run(ch, entries, calls).session.finished
    ensures exists k :: 0 <= k < |calls| && EndedBy(ch, entries, calls, k)
  {
    var n := |calls| - 1;
    var init, before := calls[..n], Run(ch, entries, calls[..n]);
    if before.session.finished {
      FinishedByExit(ch, entries, init);
      var k :| 0 <= k < |init| && EndedBy(ch, entries, init, k);
      EndedEarlier(ch, entries, calls, k);
    } else {
      assert calls[..n + 1] == calls;
      FinishingCall(before, calls[n]);
      assert EndedBy(ch, entries, calls, n);
    }
  }

  /** Against any worker whatever, up to the first error: the frames consumed are exactly a BEGIN, the
      DATA and the END of each entry handed out, one entry at a time, each with an index in the
      inventory; the bytes handed over are those payloads, in order; and only an empty COMPLETE
      followed by a successful exit ends it. */
  lemma {:induction false} SafeAgainstAnyWorker(ch: Channel, entries: nat, calls: seq<Call>)
    requires !Run(ch, entries, calls).failed
    ensures Inv(Run(ch, entries, calls), ch.frames)
    ensures Run(ch, entries, calls).session.entries == entries
    ensures Run(ch, entries, calls).session.finished ==>
              exists k :: 0 <= k < |calls| && EndedBy(ch, entries, calls, k)
  {
    if calls != [] {
      var before := Run(ch, entries, calls[..|calls| - 1]);
      SafeAgainstAnyWorker(ch, entries, calls[..|calls| - 1]);
      CallKeeps(before, calls[|calls| - 1], ch.frames);
      EntriesKept(before, calls[|calls| - 1]);
    }
    if Run(ch, entries, calls).session.finished { FinishedByExit(ch, entries, calls); }
  }

  /** DECODE goes out at most once, whatever fails and however often the caller tries again. */
  lemma {:induction false} DecodeSentOnce(s: Session, os: seq<Outside>)
    requires s.requests == if s.started then [DECODE_REQUEST] else []
    ensures NextMany(s, os).requests == if NextMany(s, os).started then [DECODE_REQUEST] else []
  {
    if os != [] { DecodeSentOnce(s, os[..|os| - 1]); }
  }

  function NextMany(s: Session, os: seq<Outside>): Session {
    if os == [] then s else Next(NextMany(s, os[..|os| - 1]), os[|os| - 1]).0
  }
}
