/**
 The other half of the transfer: against an honest worker whose whole output arrives, a caller that
 keeps calling gets every entry of a decode that completes, and of one that fails everything up to the
 failure and then the worker's own error, and no other error ever.
 */
module Progress {
  import opened Common
  import opened Bytes
  import opened Protocol
  import opened Worker
  import opened InventoryReception
  import opened ArchiveSession
  import opened Transfer

  /** The decode of a worker, to whatever end. */
  function Whole(es: seq<Emission>, ending: Ending): seq<Frame> { Stream(es) + EndingFrames(ending) }

  predicate Known(es: seq<Emission>, ending: Ending, entries: nat) {
    && HonestRun(es, ending) && (forall i :: 0 <= i < |es| ==> es[i].index < entries)
    && (ending.FailedInside? ==> ending.index < entries)
  }

  function FailureFrame(ending: Ending): Frame
    requires !ending.Completed?
  {
    Frame(FAILURE, ending.report)
  }

  // ---------------------------------------------------------------- the next frame

  lemma {:induction false} Behind(a: seq<Frame>, x: seq<Frame>, rest: seq<Frame>, fs: seq<Frame>)
    requires (a + x) + rest == a + fs
    ensures fs == x + rest
  {
    assert fs == (a + fs)[|a|..];
    assert ((a + x) + rest)[|a|..] == x + rest;
  }

  /** Between entries: the next entry's BEGIN, or after the last the beginning of the end. */
  lemma {:induction false} FrameBetween(es: seq<Emission>, ending: Ending, n: nat, rest: seq<Frame>)
    requires n <= |es| && Stream(es[..n]) + rest == Whole(es, ending)
    ensures rest != []
    ensures rest[0] == if n < |es| then Frame(BEGIN, Index(es[n].index)) else EndingFrames(ending)[0]
  {
    assert [] + rest == rest;
    if n < |es| {
      var fs := StreamFrom(es, n, EndingFrames(ending));
      assert Stream(es[..n]) + [] == Stream(es[..n]);
      Behind(Stream(es[..n]), [], rest, fs);
      assert EmitFrames(es[n])[0] == fs[0];
    } else {
      assert es[..n] == es;
      assert Stream(es) + [] == Stream(es);
      Behind(Stream(es), [], rest, EndingFrames(ending));
    }
  }

  /** Inside an entry: its next chunk, or its END. */
  lemma {:induction false} FrameInside(h: Handed, es: seq<Emission>, ending: Ending, n: nat, rest: seq<Frame>)
    requires n < |es| && !h.ended && h.index == es[n].index && h.chunks <= es[n].chunks
    requires (Stream(es[..n]) + HandedFrames(h)) + rest == Whole(es, ending)
    ensures rest != []
    ensures rest[0] == if |h.chunks| < |es[n].chunks| then Frame(DATA, es[n].chunks[|h.chunks|]) else Frame(END, Index(h.index))
  {
    var fs, x, y, m := StreamFrom(es, n, EndingFrames(ending)), HandedFrames(h), EmitFrames(es[n]), |h.chunks|;
    Behind(Stream(es[..n]), x, rest, fs);
    assert |x| == 1 + m && |y| == 2 + |es[n].chunks|;
    assert y[1 + m] == fs[1 + m];
    assert fs[1 + m] == rest[0];
  }

  /** Inside the entry that the worker broke off: its next chunk, or the failure. */
  lemma {:induction false} FrameBroken(h: Handed, es: seq<Emission>, ending: Ending, rest: seq<Frame>)
    requires !h.ended && ending.FailedInside? && h.index == ending.index && h.chunks <= ending.chunks
    requires (Stream(es) + HandedFrames(h)) + rest == Whole(es, ending)
    ensures rest != []
    ensures rest[0] == if |h.chunks| < |ending.chunks| then Frame(DATA, ending.chunks[|h.chunks|]) else FailureFrame(ending)
  {
    var x, y, m := HandedFrames(h), EndingFrames(ending), |h.chunks|;
    Behind(Stream(es), x, rest, y);
    assert |x| == 1 + m && |y| == 2 + |ending.chunks|;
    assert y[1 + m] == rest[0];
  }

  /** What the caller will find at the head of the channel. */
  ghost predicate Expects(c: Caller, es: seq<Emission>, ending: Ending) {
    && c.session.ch.frames != []
    && var f := c.session.ch.frames[0];
       if c.session.active == None then
         && |c.log| <= |es|
         && f == if |c.log| < |es| then Frame(BEGIN, Index(es[|c.log|].index)) else EndingFrames(ending)[0]
       else
         || (f.tag == DATA && f.payload != []) || f == Frame(END, Index(c.session.active.value))
         || (!ending.Completed? && f == FailureFrame(ending))
  }

  lemma {:induction false} ExpectsBetween(c: Caller, es: seq<Emission>, ending: Ending)
    requires Inv(c, Whole(es, ending)) && HonestRun(es, ending) && !c.session.finished && c.session.active == None
    ensures Expects(c, es, ending)
  {
    assert c.consumed == Transcript(c.log);
    assert c.log == [] || c.log[|c.log| - 1].ended;
    LogAccounts(c);
    WholeEntriesMatch(c.log, es, ending);
    FrameBetween(es, ending, |c.log|, c.session.ch.frames);
  }

  /** Where the frames of an open entry stand in the stream. */
  lemma {:induction false} OpenPlace(log: seq<Handed>, es: seq<Emission>, ending: Ending)
    requires HonestRun(es, ending) && log != [] && !log[|log| - 1].ended && Accounted(log)
    requires AllWhole(log[..|log| - 1]) && Transcript(log) <= Whole(es, ending)
    ensures
      var n := |log| - 1;
      && n <= |es| && Transcript(log) == Stream(es[..n]) + HandedFrames(log[n])
      && (n < |es| ==> log[n].index == es[n].index && log[n].chunks <= es[n].chunks)
      && (n == |es| ==> ending.FailedInside? && log[n].index == ending.index && log[n].chunks <= ending.chunks)
  {
    var n := |log| - 1;
    TranscriptLast(log, Whole(es, ending));
    AccountedInit(log);
    WholeEntriesMatch(log[..n], es, ending);
    PlaceOf(log[n], es, ending, n);
  }

  lemma {:induction false} PlaceOf(h: Handed, es: seq<Emission>, ending: Ending, n: nat)
    requires HonestRun(es, ending) && n <= |es| && h.index < TWO_64 && !h.ended
    requires Stream(es[..n]) + HandedFrames(h) <= Whole(es, ending)
    ensures n < |es| ==> h.index == es[n].index && h.chunks <= es[n].chunks
    ensures n == |es| ==> ending.FailedInside? && h.index == ending.index && h.chunks <= ending.chunks
  {
    if n < |es| {
      assert Honest(es[n]);
      NextEntryMatches(h, es, n, EndingFrames(ending));
    } else {
      assert es[..n] == es;
      PrefixDrop(Stream(es), HandedFrames(h), EndingFrames(ending));
      BrokenEntryMatches(h, ending);
    }
  }

  lemma {:induction false} ExpectsInside(c: Caller, es: seq<Emission>, ending: Ending)
    requires Inv(c, Whole(es, ending)) && HonestRun(es, ending) && !c.session.finished && c.session.active.Some?
    ensures Expects(c, es, ending)
  {
    var n := |c.log| - 1;
    assert c.consumed == Transcript(c.log);
    LogAccounts(c);
    OpenPlace(c.log, es, ending);
    NextInside(c.log[n], es, ending, n, c.session.ch.frames);
  }

  lemma {:induction false} NextInside(h: Handed, es: seq<Emission>, ending: Ending, n: nat, rest: seq<Frame>)
    requires HonestRun(es, ending) && n <= |es| && !h.ended && (Stream(es[..n]) + HandedFrames(h)) + rest == Whole(es, ending)
    requires n < |es| ==> h.index == es[n].index && h.chunks <= es[n].chunks
    requires n == |es| ==> ending.FailedInside? && h.index == ending.index && h.chunks <= ending.chunks
    ensures rest != []
    ensures
      || (rest[0].tag == DATA && rest[0].payload != []) || rest[0] == Frame(END, Index(h.index))
      || (!ending.Completed? && rest[0] == FailureFrame(ending))
  {
    if n < |es| {
      assert Honest(es[n]);
      FrameInside(h, es, ending, n, rest);
    } else {
      assert es[..n] == es;
      FrameBroken(h, es, ending, rest);
    }
  }

  // ---------------------------------------------------------------- the one error

  /** What the client makes of the worker's failure report. */
  function Reported(report: seq<byte> -> Option<ImportError>, ending: Ending): ImportError
    requires !ending.Completed?
  {
    match report(ending.report) case Some(e) => e case None => Corrupt
  }

  /** A failure of the caller's is the worker's own, as reported. */
  predicate WorkersError(c: Caller, ending: Ending) {
    !ending.Completed? && c.error == Some(Reported(c.session.ch.report, ending))
  }

  /** A call that asks for nothing wrong: `next` only between entries, with nothing stopping it. */
  predicate Polite(c: Caller, call: Call) {
    call.CallNext? ==> c.session.active == None && call.o.stop == None && call.o.writable && call.o.exit.Ok?
  }

  lemma {:induction false} NextOutcome(c: Caller, o: Outside, es: seq<Emission>, ending: Ending)
    requires !c.failed && Polite(c, CallNext(o)) && !c.session.finished && Expects(c, es, ending)
    requires Known(es, ending, c.session.entries)
    ensures DoNext(c, o).failed ==> WorkersError(DoNext(c, o), ending)
  {
    var f := c.session.ch.frames[0];
    if |c.log| < |es| {
      assert Honest(es[|c.log|]);
      IndexReadsBack(es[|c.log|].index);
    } else if ending.FailedInside? {
      assert f == Frame(BEGIN, Index(ending.index));
      IndexReadsBack(ending.index);
    }
  }

  lemma {:induction false} ReadOutcome(c: Caller, room: nat, es: seq<Emission>, ending: Ending)
    requires !c.failed && c.log != [] && c.session.active.Some? && c.session.active.value < TWO_64 && Expects(c, es, ending)
    requires c.reading.offset == |c.reading.pending|
    ensures DoRead(c, room).failed ==> WorkersError(DoRead(c, room), ending)
  {
    IndexReadsBack(c.session.active.value);
  }

  lemma {:induction false} CallOutcome(c: Caller, call: Call, es: seq<Emission>, ending: Ending)
    requires Inv(c, Whole(es, ending)) && Known(es, ending, c.session.entries) && !c.failed && Polite(c, call)
    ensures Do(c, call).failed ==> WorkersError(Do(c, call), ending)
  {
    match call {
      case CallNext(o) =>
        if !c.session.finished {
          ExpectsBetween(c, es, ending);
          NextOutcome(c, o, es, ending);
        }
      case CallRead(room) =>
        if c.log != [] && !c.reading.ended && c.reading.offset == |c.reading.pending| {
          assert c.session.active.Some? && c.session.active.value < TWO_64 && !c.session.finished;
          ExpectsInside(c, es, ending);
          ReadOutcome(c, room, es, ending);
        }
    }
  }

  // ---------------------------------------------------------------- and an end

  function Weight(fs: seq<Frame>): nat { if fs == [] then 0 else 1 + |fs[0].payload| + Weight(fs[1..]) }

  /** What is still to come: a bound on the calls that can make headway. */
  function Owed(c: Caller): int { Weight(c.session.ch.frames) + |c.reading.pending| - c.reading.offset }

  /** A call that asks for something: `next` before the end, or a read into some room while an entry is open. */
  predicate Useful(c: Caller, call: Call) {
    match call
    case CallNext(_) => !c.session.finished && c.session.active == None
    case CallRead(room) => room > 0 && c.session.active.Some?
  }

  lemma {:induction false} NextPays(c: Caller, o: Outside)
    requires !DoNext(c, o).failed && !c.session.finished && c.reading.offset <= |c.reading.pending|
    ensures Owed(DoNext(c, o)) < Owed(c) && DoNext(c, o).reading.offset <= |DoNext(c, o).reading.pending|
  {
    NextIs(c, o);
    var f, c' := c.session.ch.frames[0], DoNext(c, o);
    assert c.session.ch.frames[1..] == c'.session.ch.frames;
  }

  lemma {:induction false} ReadPays(c: Caller, room: nat)
    requires c.log != [] && room > 0 && !c.reading.ended && c.reading.offset <= |c.reading.pending|
    requires !DoRead(c, room).failed
    ensures Owed(DoRead(c, room)) < Owed(c) && DoRead(c, room).reading.offset <= |DoRead(c, room).reading.pending|
  {
    if c.reading.offset == |c.reading.pending| {
      ReadIs(c, room);
      assert c.session.ch.frames[1..] == DoRead(c, room).session.ch.frames;
    }
  }

  lemma {:induction false} OffsetInside(c: Caller, start: seq<Frame>)
    requires Inv(c, start) && c.session.active.Some?
    ensures c.log != [] && !c.reading.ended && c.reading.offset <= |c.reading.pending|
  {
  }

  /** The caller's state with its reader inside its pending bytes, before the first entry too. */
  lemma {:induction false} CallPays(c: Caller, call: Call, start: seq<Frame>)
    requires Inv(c, start) && !c.failed && !Do(c, call).failed && c.reading.offset <= |c.reading.pending|
    ensures Do(c, call).reading.offset <= |Do(c, call).reading.pending|
    ensures Useful(c, call) ==> Owed(Do(c, call)) < Owed(c)
  {
    match call {
      case CallNext(o) => if !c.session.finished { NextPays(c, o); }
      case CallRead(room) =>
        if c.session.active.Some? && room > 0 {
          OffsetInside(c, start);
          ReadPays(c, room);
        }
    }
  }

  /** Every call is polite, and useful until the end or an error has been seen. */
  predicate Diligent(ch: Channel, entries: nat, calls: seq<Call>) {
    forall k :: 0 <= k < |calls| ==>
      var c := Run(ch, entries, calls[..k]);
      c.failed || (Polite(c, calls[k]) && (c.session.finished || Useful(c, calls[k])))
  }

  lemma {:induction false} DiligentBefore(ch: Channel, entries: nat, calls: seq<Call>)
    requires calls != [] && Diligent(ch, entries, calls)
    ensures Diligent(ch, entries, calls[..|calls| - 1])
  {
    var init := calls[..|calls| - 1];
    forall k | 0 <= k < |init| ensures
      var c := Run(ch, entries, init[..k]);
      c.failed || (Polite(c, init[k]) && (c.session.finished || Useful(c, init[k])))
    {
      assert init[..k] == calls[..k] && init[k] == calls[k];
    }
  }

  /** No error so far but the worker's, and otherwise each call has paid at least one off what was owed. */
  predicate OnTrack(c: Caller, ending: Ending, made: nat, start: nat) {
    if c.failed then WorkersError(c, ending)
    else c.reading.offset <= |c.reading.pending| && (c.session.finished || Owed(c) + made <= start)
  }

  lemma {:induction false} FinishedStays(c: Caller, call: Call, start: seq<Frame>)
    requires Inv(c, start) && !c.failed && c.session.finished
    ensures Do(c, call).session.finished
  {
  }

  lemma {:induction false} DiligentStep(c: Caller, call: Call, es: seq<Emission>, ending: Ending, made: nat, start: nat)
    requires Inv(c, Whole(es, ending)) && Known(es, ending, c.session.entries) && !c.failed && OnTrack(c, ending, made, start)
    requires Polite(c, call) && (c.session.finished || Useful(c, call))
    ensures OnTrack(Do(c, call), ending, made + 1, start)
  {
    CallOutcome(c, call, es, ending);
    if !Do(c, call).failed {
      CallPays(c, call, Whole(es, ending));
      if c.session.finished { FinishedStays(c, call, Whole(es, ending)); }
    }
  }

  lemma {:induction false} RunLast(ch: Channel, entries: nat, calls: seq<Call>)
    requires calls != []
    ensures Run(ch, entries, calls) == Do(Run(ch, entries, calls[..|calls| - 1]), calls[|calls| - 1])
  {
  }

  lemma {:induction false} DiligentRun(ch: Channel, entries: nat, calls: seq<Call>, es: seq<Emission>, ending: Ending)
    requires Known(es, ending, entries) && ch.frames == Whole(es, ending) && Diligent(ch, entries, calls)
    ensures OnTrack(Run(ch, entries, calls), ending, |calls|, Weight(ch.frames))
  {
    if calls != [] {
      var n := |calls| - 1;
      var init, c := calls[..n], Run(ch, entries, calls[..n]);
      DiligentBefore(ch, entries, calls);
      DiligentRun(ch, entries, init, es, ending);
      RunLast(ch, entries, calls);
      if !c.failed {
        SafeAgainstAnyWorker(ch, entries, init);
        assert Polite(c, calls[n]) && (c.session.finished || Useful(c, calls[n]));
        DiligentStep(c, calls[n], es, ending, n, Weight(ch.frames));
      }
    }
  }

  lemma {:induction false} ReportStays(ch: Channel, entries: nat, calls: seq<Call>)
    ensures Run(ch, entries, calls).session.ch.report == ch.report
  {
    if calls != [] {
      ReportStays(ch, entries, calls[..|calls| - 1]);
      ReportKept(Run(ch, entries, calls[..|calls| - 1]), calls[|calls| - 1]);
    }
  }

  lemma {:induction false} ReportKept(c: Caller, call: Call)
    ensures Do(c, call).session.ch.report == c.session.ch.report
  {
  }

  /**
   A caller that keeps making headway sees no error from an honest worker whose output arrives whole but
   the one the worker reported, and after finitely many calls it has seen the end: of a decode that
   completed every entry, in order, with all of its bytes, and of one that failed that very error.
   */
  lemma {:induction false} EverythingArrives(ch: Channel, entries: nat, calls: seq<Call>, es: seq<Emission>, ending: Ending)
    requires Known(es, ending, entries) && ch.frames == Whole(es, ending) && Diligent(ch, entries, calls)
    ensures var c := Run(ch, entries, calls);
      && (c.failed ==> !ending.Completed? && c.error == Some(Reported(ch.report, ending)))
      && (!c.failed ==> Faithfully(c, es, ending))
      && (|calls| > Weight(ch.frames) ==>
            && (c.failed <==> !ending.Completed?) && (c.session.finished || c.failed)
            && (ending.Completed? ==>
                  && |c.log| == |es|
                  && forall i :: 0 <= i < |es| ==> c.log[i].index == es[i].index && c.log[i].bytes == Concat(es[i].chunks)))
  {
    var c := Run(ch, entries, calls);
    DiligentRun(ch, entries, calls, es, ending);
    ReportStays(ch, entries, calls);
    if !c.failed {
      DecodePhase(ch, entries, calls, es, ending);
      assert forall i :: 0 <= i < |c.log| ==> EntryFaithful(c.log[i], es, ending, i);
    }
  }
}
