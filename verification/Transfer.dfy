/**
 From the decoder's reads to the caller's buffers: an honest worker's output, shared with its
 heartbeat and cut off after any byte, as the client's caller sees it.
 */
module Transfer {
  import opened Common
  import opened Bytes
  import opened Protocol
  import opened Worker
  import opened InventoryReception
  import opened ArchiveSession

  /** How a decode ends: COMPLETE, or a FAILURE between entries or in the middle of one. */
  datatype Ending =
    | Completed
    | FailedBetween(report: seq<byte>)
    | FailedInside(index: nat, chunks: seq<seq<byte>>, report: seq<byte>)

  function EndingFrames(e: Ending): seq<Frame> {
    match e
    case Completed => [Frame(COMPLETE, [])]
    case FailedBetween(report) => [Frame(FAILURE, report)]
    case FailedInside(index, chunks, report) => PartialFrames(index, chunks) + [Frame(FAILURE, report)]
  }

  function Stream(es: seq<Emission>): seq<Frame> {
    if es == [] then [] else Stream(es[..|es| - 1]) + EmitFrames(es[|es| - 1])
  }

  /** Everything an honest worker writes, besides its heartbeats. */
  function Output(j: Json, inv: Inventory, es: seq<Emission>, ending: Ending): seq<Frame> {
    [Frame(READY, GREETING)] + InventoryFrames(j, inv) + (Stream(es) + EndingFrames(ending))
  }

  predicate HonestEnding(e: Ending) {
    match e
    case Completed => true
    case FailedBetween(report) => |report| <= MAX_FRAME
    case FailedInside(index, chunks, report) => index < TWO_64 && |report| <= MAX_FRAME && ProperChunks(chunks)
  }

  predicate HonestRun(es: seq<Emission>, ending: Ending) {
    (forall i :: 0 <= i < |es| ==> Honest(es[i])) && HonestEnding(ending)
  }

  // ---------------------------------------------------------------- one reading of the decode stream

  /** The stream from its `k`-th entry on begins with that entry. */
  lemma {:induction false} StreamAt(es: seq<Emission>, k: nat, tail: seq<Frame>)
    requires k < |es|
    ensures Stream(es[..k]) + EmitFrames(es[k]) <= Stream(es) + tail
  {
    var init, last := es[..|es| - 1], EmitFrames(es[|es| - 1]);
    assert Stream(init) + last + tail == Stream(init) + (last + tail);
    if k < |es| - 1 {
      StreamAt(init, k, last + tail);
      assert init[..k] == es[..k] && init[k] == es[k];
    }
  }

  /** The frames from the `k`-th entry on. */
  ghost function StreamFrom(es: seq<Emission>, k: nat, tail: seq<Frame>): (fs: seq<Frame>)
    requires k < |es|
    ensures Stream(es) + tail == Stream(es[..k]) + fs && EmitFrames(es[k]) <= fs
  {
    StreamAt(es, k, tail);
    (Stream(es) + tail)[|Stream(es[..k])|..]
  }

  lemma {:induction false} PrefixesAgree(x: seq<Frame>, y: seq<Frame>, fs: seq<Frame>, i: nat)
    requires x <= fs && y <= fs && i < |x| && i < |y|
    ensures x[i] == y[i]
  {
    assert x[i] == fs[i] && y[i] == fs[i];
  }

  lemma {:induction false} HandedAt(h: Handed)
    ensures
      var x, m := HandedFrames(h), |h.chunks|;
      && |x| == 1 + m + (if h.ended then 1 else 0) && x[0] == Frame(BEGIN, Index(h.index))
      && (forall i :: 0 <= i < m ==> x[1 + i] == Frame(DATA, h.chunks[i])) && (h.ended ==> x[1 + m].tag == END)
  {
  }

  lemma {:induction false} EmittedAt(e: Emission)
    ensures
      var y, n := EmitFrames(e), |e.chunks|;
      && |y| == 2 + n && y[0] == Frame(BEGIN, Index(e.index))
      && (forall i :: 0 <= i < n ==> y[1 + i] == Frame(DATA, e.chunks[i])) && y[1 + n].tag == END
  {
  }

  /** An entry's frames match those at the head of the stream only if it is that entry. */
  lemma {:induction false} EntryMatches(h: Handed, e: Emission, fs: seq<Frame>)
    requires h.index < TWO_64 && e.index < TWO_64
    requires HandedFrames(h) <= fs && EmitFrames(e) <= fs
    ensures h.index == e.index
    ensures if h.ended then h.chunks == e.chunks else h.chunks <= e.chunks
  {
    var x, y, m, n := HandedFrames(h), EmitFrames(e), |h.chunks|, |e.chunks|;
    HandedAt(h);
    EmittedAt(e);
    PrefixesAgree(x, y, fs, 0);
    Widths();
    LittleEndianInjective(h.index, e.index, 8);
    forall i: nat | i < |x| && i < |y| ensures x[i] == y[i] { PrefixesAgree(x, y, fs, i); }
    assert m <= n;
    assert h.ended ==> m == n;
    forall i | 0 <= i < m ensures h.chunks[i] == e.chunks[i] { assert x[1 + i] == y[1 + i]; }
  }

  /** No whole entry hides in an ending. */
  lemma {:induction false} NoEntryInEnding(h: Handed, ending: Ending)
    requires h.ended
    ensures !(HandedFrames(h) <= EndingFrames(ending))
  {
    var x, y, m := HandedFrames(h), EndingFrames(ending), |h.chunks|;
    assert x[0].tag == BEGIN && x[1 + m].tag == END;
    assert y[0].tag != BEGIN || (1 + m < |y| ==> y[1 + m].tag != END);
  }

  lemma {:induction false} PrefixDrop(a: seq<Frame>, x: seq<Frame>, y: seq<Frame>)
    requires a + x <= a + y
    ensures x <= y
  {
    assert x == (a + x)[|a|..] == (a + y)[|a|..][..|x|];
  }

  lemma {:induction false} TranscriptLast(log: seq<Handed>, all: seq<Frame>)
    requires log != [] && Transcript(log) <= all
    ensures Transcript(log) == Transcript(log[..|log| - 1]) + HandedFrames(log[|log| - 1])
    ensures Transcript(log[..|log| - 1]) <= all
  {
    PrefixTrans(Transcript(log[..|log| - 1]), Transcript(log), all);
  }

  lemma {:induction false} StreamSnoc(es: seq<Emission>, n: nat)
    requires n < |es|
    ensures Stream(es[..n + 1]) == Stream(es[..n]) + EmitFrames(es[n])
  {
    assert es[..n + 1][..n] == es[..n];
  }

  lemma {:induction false} NoMoreEntries(h: Handed, es: seq<Emission>, n: nat, ending: Ending)
    requires h.ended && n <= |es| && Stream(es[..n]) + HandedFrames(h) <= Stream(es) + EndingFrames(ending)
    ensures n < |es|
  {
    if n == |es| {
      assert es[..n] == es;
      PrefixDrop(Stream(es), HandedFrames(h), EndingFrames(ending));
      NoEntryInEnding(h, ending);
    }
  }

  lemma {:induction false} NextWholeEntry(h: Handed, es: seq<Emission>, n: nat, ending: Ending)
    requires h.ended && h.index < TWO_64 && HonestRun(es, ending)
    requires n <= |es| && Stream(es[..n]) + HandedFrames(h) <= Stream(es) + EndingFrames(ending)
    ensures n < |es| && h.index == es[n].index && h.chunks == es[n].chunks
    ensures Stream(es[..n]) + HandedFrames(h) == Stream(es[..n + 1])
  {
    NoMoreEntries(h, es, n, ending);
    assert Honest(es[n]);
    NextEntryMatches(h, es, n, EndingFrames(ending));
    StreamSnoc(es, n);
  }

  predicate AllWhole(log: seq<Handed>) { forall i :: 0 <= i < |log| ==> log[i].ended && log[i].index < TWO_64 }

  predicate Agree(log: seq<Handed>, es: seq<Emission>) {
    |log| <= |es| && forall i :: 0 <= i < |log| ==> log[i].index == es[i].index && log[i].chunks == es[i].chunks
  }

  lemma {:induction false} AgreeNext(log: seq<Handed>, es: seq<Emission>)
    requires log != [] && |log| <= |es| && Agree(log[..|log| - 1], es)
    requires log[|log| - 1].index == es[|log| - 1].index && log[|log| - 1].chunks == es[|log| - 1].chunks
    ensures Agree(log, es)
  {
    assert forall i :: 0 <= i < |log| - 1 ==> log[..|log| - 1][i] == log[i];
  }

  lemma {:induction false} AllWholeInit(log: seq<Handed>)
    requires log != [] && AllWhole(log)
    ensures AllWhole(log[..|log| - 1]) && log[|log| - 1].ended && log[|log| - 1].index < TWO_64
  {
  }

  lemma {:induction false} TranscriptMatches(log: seq<Handed>, es: seq<Emission>, ending: Ending)
    requires Transcript(log) <= Stream(es) + EndingFrames(ending) && AllWhole(log) && HonestRun(es, ending)
    ensures Agree(log, es) && Transcript(log) == Stream(es[..|log|])
  {
    if log != [] {
      var n := |log| - 1;
      AllWholeInit(log);
      TranscriptLast(log, Stream(es) + EndingFrames(ending));
      TranscriptMatches(log[..n], es, ending);
      NextWholeEntry(log[n], es, n, ending);
      AgreeNext(log, es);
    }
  }

  /** An entry handed out after the first `n` whole ones is the next one, or the beginning of it. */
  lemma {:induction false} NextEntryMatches(h: Handed, es: seq<Emission>, n: nat, tail: seq<Frame>)
    requires n < |es| && h.index < TWO_64 && es[n].index < TWO_64
    requires Stream(es[..n]) + HandedFrames(h) <= Stream(es) + tail
    ensures h.index == es[n].index
    ensures if h.ended then h.chunks == es[n].chunks && HandedFrames(h) == EmitFrames(es[n]) else h.chunks <= es[n].chunks
  {
    var fs := StreamFrom(es, n, tail);
    PrefixDrop(Stream(es[..n]), HandedFrames(h), fs);
    EntryMatches(h, es[n], fs);
  }

  /** COMPLETE comes only after the last entry. */
  lemma {:induction false} CompleteIsLast(log: seq<Handed>, es: seq<Emission>, ending: Ending)
    requires Transcript(log) + [Frame(COMPLETE, [])] <= Stream(es) + EndingFrames(ending)
    requires AllWhole(log) && HonestRun(es, ending)
    ensures |log| == |es| && ending.Completed?
  {
    assert Transcript(log) <= Stream(es) + EndingFrames(ending);
    TranscriptMatches(log, es, ending);
    var done, tail := Frame(COMPLETE, []), EndingFrames(ending);
    var rest := if |log| < |es| then StreamFrom(es, |log|, tail) else tail;
    assert |log| < |es| ==> rest[0].tag == BEGIN;
    assert |log| == |es| ==> es[..|log|] == es;
    PrefixDrop(Stream(es[..|log|]), [done], rest);
    assert rest[0] == done;
  }

  // ---------------------------------------------------------------- opening on a cut channel

  function More(ch: Channel, extra: seq<Frame>): Channel { ch.(frames := ch.frames + extra) }

  lemma {:induction false} CollectMonotone(j: Json, limits: Limits, ch: Channel, inv: Inventory, charged: nat, extra: seq<Frame>)
    requires Collect(j, limits, ch, inv, charged).Ok?
    ensures
      var (out, ch') := Collect(j, limits, ch, inv, charged).value;
      Collect(j, limits, More(ch, extra), inv, charged) == Ok((out, More(ch', extra)))
    decreases |ch.frames|
  {
    var (f, next) := Receive(ch).value;
    assert More(ch, extra).frames[0] == f && More(ch, extra).frames[1..] == More(next, extra).frames;
    var taken := Take(j, limits, inv, charged, f);
    if taken.value.Some? {
      CollectMonotone(j, limits, next, taken.value.value, charged + |f.payload|, extra);
    }
  }

  lemma {:induction false} OpenMonotone(j: Json, limits: Limits, ch: Channel, extra: seq<Frame>)
    requires Open(j, limits, ch).Ok?
    ensures
      var (inv, ch') := Open(j, limits, ch).value;
      Open(j, limits, More(ch, extra)) == Ok((inv, More(ch', extra)))
  {
    var ch1 := ch.(frames := ch.frames[1..]);
    var ch2 := ch1.(frames := ch1.frames[1..]);
    assert More(ch, extra).frames[0] == ch.frames[0] && More(ch, extra).frames[1..] == More(ch1, extra).frames;
    assert More(ch1, extra).frames[0] == ch1.frames[0] && More(ch1, extra).frames[1..] == More(ch2, extra).frames;
    var container := j.container.read(ch1.frames[0].payload).value;
    CollectMonotone(j, limits, ch2, Inventory(container, [], []), 0, extra);
  }

  // ---------------------------------------------------------------- what arrives

  lemma {:induction false} EmitFits(e: Emission)
    requires Honest(e)
    ensures AllFit(EmitFrames(e)) && BEAT !in EmitFrames(e)
  {
    EmittedAt(e);
  }

  lemma {:induction false} StreamFits(es: seq<Emission>)
    requires forall i :: 0 <= i < |es| ==> Honest(es[i])
    ensures AllFit(Stream(es)) && BEAT !in Stream(es)
  {
    if es != [] {
      StreamFits(es[..|es| - 1]);
      EmitFits(es[|es| - 1]);
      FitsAppend(Stream(es[..|es| - 1]), EmitFrames(es[|es| - 1]));
    }
  }

  lemma {:induction false} OutputFits(j: Json, inv: Inventory, limits: Limits, es: seq<Emission>, ending: Ending)
    requires Sendable(j, inv, limits) && HonestRun(es, ending)
    ensures AllFit(Output(j, inv, es, ending)) && BEAT !in Output(j, inv, es, ending)
  {
    StreamFits(es);
    assert BEAT !in EndingFrames(ending) && AllFit(EndingFrames(ending)) by { EndingFits(ending); }
    FitsAppend(Stream(es), EndingFrames(ending));
    FitsAppend([Frame(READY, GREETING)] + InventoryFrames(j, inv), Stream(es) + EndingFrames(ending));
    FitsAppend([Frame(READY, GREETING)], InventoryFrames(j, inv));
    assert BEAT !in InventoryFrames(j, inv);
  }

  lemma {:induction false} EndingFits(ending: Ending)
    requires HonestEnding(ending)
    ensures AllFit(EndingFrames(ending)) && BEAT !in EndingFrames(ending)
  {
  }

  lemma {:induction false} WrittenFits(ws: seq<Write>)
    requires AllFit(WorkerFrames(ws))
    ensures AllFit(Written(ws))
  {
    if ws != [] {
      var own := if ws[0].ByHeart? then [] else [ws[0].frame];
      FitsAppend(own, WorkerFrames(ws[1..]));
      WrittenFits(ws[1..]);
      assert Written(ws) == [FrameOf(ws[0])] + Written(ws[1..]);
      FitsAppend([FrameOf(ws[0])], Written(ws[1..]));
    }
  }

  /** Frame streams decode uniquely: from any byte prefix of the shared output, whatever the
      heartbeats did, the reader forwards a prefix of the worker's own frames; from all of it, all. */
  lemma {:induction false} ForwardedFrames(ws: seq<Write>, p: seq<byte>)
    requires AllFit(WorkerFrames(ws)) && BEAT !in WorkerFrames(ws)
    requires p <= EncodeAll(Written(ws))
    ensures DropBeats(ReadAll(p).0) <= WorkerFrames(ws) && ReadAll(p).1 == Io
    ensures p == EncodeAll(Written(ws)) ==> DropBeats(ReadAll(p).0) == WorkerFrames(ws)
  {
    var fs := Written(ws);
    var k := WholeFrames(fs, |p|);
    WrittenFits(ws);
    PrefixReads(fs, p);
    BeatsDropOut(ws);
    DropPrefix(fs, k);
    if p == EncodeAll(fs) { StreamReads(fs); }
  }

  lemma {:induction false} DropPrefix(fs: seq<Frame>, k: nat)
    requires k <= |fs|
    ensures DropBeats(fs[..k]) <= DropBeats(fs)
  {
    DropAppend(fs[..k], fs[k..]);
    assert fs == fs[..k] + fs[k..];
  }

  // ---------------------------------------------------------------- the whole way

  /** The `i`-th entry handed out is the `i`-th emitted, or the one the worker broke off: what was handed
      over is the beginning of its bytes, and if it was seen to end, all of them, of exactly the
      declared length. */
  predicate EntryFaithful(h: Handed, es: seq<Emission>, ending: Ending, i: nat) {
    && i <= |es|
    && (i < |es| ==> h.index == es[i].index && h.bytes <= Concat(es[i].chunks))
    && (i == |es| ==> ending.FailedInside? && h.index == ending.index && h.bytes <= Concat(ending.chunks))
    && (h.ended ==> i < |es| && h.bytes == Concat(es[i].chunks) && |h.bytes| == es[i].declared)
  }

  predicate AllFaithful(log: seq<Handed>, es: seq<Emission>, ending: Ending) {
    forall i :: 0 <= i < |log| ==> EntryFaithful(log[i], es, ending, i)
  }

  lemma {:induction false} FaithfulNext(log: seq<Handed>, es: seq<Emission>, ending: Ending)
    requires log != [] && AllFaithful(log[..|log| - 1], es, ending) && EntryFaithful(log[|log| - 1], es, ending, |log| - 1)
    ensures AllFaithful(log, es, ending)
  {
    assert forall i :: 0 <= i < |log| - 1 ==> log[..|log| - 1][i] == log[i];
  }

  /** What a run of the caller may claim about the worker's decode. */
  ghost predicate Faithfully(c: Caller, es: seq<Emission>, ending: Ending) {
    && AllFaithful(c.log, es, ending)
    && (c.session.finished ==>
          |c.log| == |es| && ending.Completed? && forall i :: 0 <= i < |c.log| ==> c.log[i].ended)
  }

  /** Entries whose DATA payloads account for their bytes once they have ended. */
  predicate Accounted(log: seq<Handed>) {
    forall i :: 0 <= i < |log| ==> log[i].index < TWO_64 && (log[i].ended ==> log[i].bytes == Concat(log[i].chunks))
  }

  lemma {:induction false} AgreedIsFaithful(log: seq<Handed>, es: seq<Emission>, ending: Ending)
    requires Agree(log, es) && AllWhole(log) && Accounted(log) && HonestRun(es, ending)
    ensures AllFaithful(log, es, ending)
  {
    forall i | 0 <= i < |log| ensures EntryFaithful(log[i], es, ending, i) {
      assert Honest(es[i]);
    }
  }

  /** A log of whole entries, read against the worker's stream. */
  lemma {:induction false} WholeEntriesMatch(log: seq<Handed>, es: seq<Emission>, ending: Ending)
    requires HonestRun(es, ending) && Accounted(log) && AllWhole(log)
    requires Transcript(log) <= Stream(es) + EndingFrames(ending)
    ensures |log| <= |es| && Transcript(log) == Stream(es[..|log|]) && AllFaithful(log, es, ending)
  {
    TranscriptMatches(log, es, ending);
    AgreedIsFaithful(log, es, ending);
  }

  lemma {:induction false} DecodePhase(ch: Channel, entries: nat, calls: seq<Call>, es: seq<Emission>, ending: Ending)
    requires HonestRun(es, ending) && ch.frames <= Stream(es) + EndingFrames(ending)
    requires !Run(ch, entries, calls).failed
    ensures Faithfully(Run(ch, entries, calls), es, ending)
  {
    SafeAgainstAnyWorker(ch, entries, calls);
    MatchesStream(Run(ch, entries, calls), ch.frames, es, ending);
  }

  lemma {:induction false} LogAccounts(c: Caller)
    requires LogInv(c)
    ensures Accounted(c.log) && (c.log != [] ==> AllWhole(c.log[..|c.log| - 1]))
    ensures c.log == [] || c.log[|c.log| - 1].ended ==> AllWhole(c.log)
  {
  }

  lemma {:induction false} MatchesStream(c: Caller, start: seq<Frame>, es: seq<Emission>, ending: Ending)
    requires Inv(c, start) && HonestRun(es, ending) && start <= Stream(es) + EndingFrames(ending)
    ensures Faithfully(c, es, ending)
  {
    var all := Stream(es) + EndingFrames(ending);
    PrefixTrans(c.consumed, start, all);
    PrefixTrans(Transcript(c.log), c.consumed, all);
    LogAccounts(c);
    if c.log == [] || c.log[|c.log| - 1].ended {
      if c.session.finished { CompleteIsLast(c.log, es, ending); }
      WholeEntriesMatch(c.log, es, ending);
      assert c.session.finished ==> forall i :: 0 <= i < |c.log| ==> c.log[i].ended;
    } else {
      assert !c.session.finished;
      OpenBytes(c);
      OpenEntryMatches(c.log, es, ending);
    }
  }

  lemma {:induction false} OpenBytes(c: Caller)
    requires OpenInv(c) && c.log != []
    ensures c.log[|c.log| - 1].bytes <= Concat(c.log[|c.log| - 1].chunks)
  {
  }

  lemma {:induction false} OpenEntryMatches(log: seq<Handed>, es: seq<Emission>, ending: Ending)
    requires HonestRun(es, ending) && log != [] && !log[|log| - 1].ended && Accounted(log)
    requires AllWhole(log[..|log| - 1]) && log[|log| - 1].bytes <= Concat(log[|log| - 1].chunks)
    requires Transcript(log) <= Stream(es) + EndingFrames(ending)
    ensures AllFaithful(log, es, ending)
  {
    var n := |log| - 1;
    TranscriptLast(log, Stream(es) + EndingFrames(ending));
    AccountedInit(log);
    assert n <= |es| && Transcript(log[..n]) == Stream(es[..n]) && AllFaithful(log[..n], es, ending) by {
      WholeEntriesMatch(log[..n], es, ending);
    }
    assert EntryFaithful(log[n], es, ending, n) by { OpenEntryIs(log[n], es, n, ending); }
    FaithfulNext(log, es, ending);
  }

  lemma {:induction false} AccountedInit(log: seq<Handed>)
    requires log != [] && Accounted(log)
    ensures Accounted(log[..|log| - 1]) && log[|log| - 1].index < TWO_64
  {
  }

  lemma {:induction false} OpenEntryIs(h: Handed, es: seq<Emission>, n: nat, ending: Ending)
    requires HonestRun(es, ending) && n <= |es| && h.index < TWO_64 && !h.ended && h.bytes <= Concat(h.chunks)
    requires Stream(es[..n]) + HandedFrames(h) <= Stream(es) + EndingFrames(ending)
    ensures EntryFaithful(h, es, ending, n)
  {
    if n < |es| {
      assert Honest(es[n]);
      NextEntryMatches(h, es, n, EndingFrames(ending));
      ConcatPrefix(h.chunks, es[n].chunks);
      PrefixTrans(h.bytes, Concat(h.chunks), Concat(es[n].chunks));
    } else {
      assert es[..n] == es;
      PrefixDrop(Stream(es), HandedFrames(h), EndingFrames(ending));
      BrokenEntryMatches(h, ending);
      ConcatPrefix(h.chunks, ending.chunks);
      PrefixTrans(h.bytes, Concat(h.chunks), Concat(ending.chunks));
    }
  }

  /** An entry that opens where the stream ends is the one the worker broke off. */
  lemma {:induction false} BrokenEntryMatches(h: Handed, ending: Ending)
    requires h.index < TWO_64 && !h.ended && HonestEnding(ending) && HandedFrames(h) <= EndingFrames(ending)
    ensures ending.FailedInside? && h.index == ending.index && h.chunks <= ending.chunks
  {
    var x, y := HandedFrames(h), EndingFrames(ending);
    assert x[0] == Frame(BEGIN, Index(h.index)) && x[0] == y[0];
    Widths();
    LittleEndianInjective(h.index, ending.index, 8);
    var rest := DataFrames(ending.chunks) + [Frame(FAILURE, ending.report)];
    assert DataFrames(h.chunks) == x[1..] && rest == y[1..];
    ChunksMatch(h.chunks, ending.chunks, Frame(FAILURE, ending.report));
  }

  lemma {:induction false} DataTail(chunks: seq<seq<byte>>)
    requires chunks != []
    ensures DataFrames(chunks)[1..] == DataFrames(chunks[1..])
  {
  }

  lemma {:induction false} ChunksMatch(a: seq<seq<byte>>, b: seq<seq<byte>>, f: Frame)
    requires f.tag != DATA && DataFrames(a) <= DataFrames(b) + [f]
    ensures a <= b
    decreases |a|
  {
    if a != [] {
      assert DataFrames(a)[0] == (DataFrames(b) + [f])[0];
      assert b != [];
      DataTail(a);
      DataTail(b);
      assert (DataFrames(b) + [f])[1..] == DataFrames(b)[1..] + [f];
      ChunksMatch(a[1..], b[1..], f);
      assert a == [a[0]] + a[1..] && b == [b[0]] + b[1..];
    }
  }

  lemma {:induction false} ConcatPrefix(a: seq<seq<byte>>, b: seq<seq<byte>>)
    requires a <= b
    ensures Concat(a) <= Concat(b)
  {
    if |a| < |b| {
      ConcatPrefix(a, b[..|b| - 1]);
      assert Concat(b) == Concat(b[..|b| - 1]) + b[|b| - 1];
    } else {
      assert a == b;
    }
  }

  /** End to end: for every split of the decoder's reads, every heartbeat interleaving, every byte
      prefix `p` of the worker's output, every point `cut` at which the client stops listening and every
      sequence of caller calls and buffer sizes without an error, the inventory is the worker's; every
      entry seen to end cleanly has exactly that entry's bytes, of exactly its declared length, in emit
      order; and only a complete decode looks complete. */
  lemma {:induction false} EndToEnd(
      j: Json, limits: Limits, inv: Inventory, es: seq<Emission>, ending: Ending,
      ws: seq<Write>, p: seq<byte>, cut: nat, ch: Channel, calls: seq<Call>)
    requires FaithfulJson(j) && Sendable(j, inv, limits) && HonestRun(es, ending)
    requires limits.maxEntries < TWO_64 && limits.maxIndexBytes < TWO_64
    requires WorkerFrames(ws) == Output(j, inv, es, ending)
    requires p <= EncodeAll(Written(ws))
    requires cut <= |DropBeats(ReadAll(p).0)| && ch.frames == DropBeats(ReadAll(p).0)[..cut]
    requires Open(j, limits, ch).Ok?
    requires !Run(Open(j, limits, ch).value.1, |inv.entries|, calls).failed
    ensures Open(j, limits, ch).value.0 == inv
    ensures Faithfully(Run(Open(j, limits, ch).value.1, |inv.entries|, calls), es, ending)
  {
    OutputFits(j, inv, limits, es, ending);
    ForwardedFrames(ws, p);
    PrefixTrans(ch.frames, DropBeats(ReadAll(p).0), WorkerFrames(ws));
    OpensOnPrefix(j, limits, inv, ch, Stream(es) + EndingFrames(ending));
    DecodePhase(Open(j, limits, ch).value.1, |inv.entries|, calls, es, ending);
  }

  /** A client that opens on any prefix of an honest output has the worker's inventory, and what is left
      of the channel is a prefix of the decode. */
  lemma {:induction false} OpensOnPrefix(j: Json, limits: Limits, inv: Inventory, ch: Channel, decode: seq<Frame>)
    requires FaithfulJson(j) && Sendable(j, inv, limits)
    requires limits.maxEntries < TWO_64 && limits.maxIndexBytes < TWO_64
    requires ch.frames <= [Frame(READY, GREETING)] + InventoryFrames(j, inv) + decode
    requires Open(j, limits, ch).Ok?
    ensures Open(j, limits, ch).value.0 == inv && Open(j, limits, ch).value.1.frames <= decode
  {
    var all := [Frame(READY, GREETING)] + InventoryFrames(j, inv) + decode;
    var extra := all[|ch.frames|..];
    assert More(ch, extra).frames == all;
    OpenMonotone(j, limits, ch, extra);
    HonestInventoryArrives(j, limits, inv, More(ch, extra), decode);
    assert Open(j, limits, ch).value.1.frames + extra == decode;
  }
}
