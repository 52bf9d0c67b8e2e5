/** The whole way, from the reads of the decoder's jobs to the buffers of the client's caller. */
module WholeWay {
  import opened Common
  import opened Bytes
  import opened Protocol
  import opened Worker
  import opened InventoryReception
  import opened ArchiveSession
  import opened Transfer
  import opened Progress
  import opened WorkerRun

  /** The frames of a process are the ones its writer can write, and none is a heartbeat. */
  lemma {:induction false} WrittenFrames(j: Json, o: Answers, x: Reached, report: seq<byte>, frames: seq<Frame>)
    requires ValidJobs(o.jobs) && Writes(j, o, x, report, frames)
    ensures AllFit(frames) && BEAT !in frames
  {
    if x.Refused? {
      RefusedFits(j, o, x.k, report);
    } else {
      WritesHonestly(j, o, x, report, frames);
      OutputFits(j, o.archive.value, RequestOf(o).value, EmittedBy(o, x), EndingOf(x, report));
    }
  }

  lemma {:induction false} RefusedFits(j: Json, o: Answers, k: nat, report: seq<byte>)
    requires ReachedBy(j, o, Refused(k)) && |report| <= MAX_FRAME
    ensures
      var fs := [HELLO] + InventoryOf(j, o)[..k] + [Frame(FAILURE, report)];
      AllFit(fs) && BEAT !in fs
  {
    var fs := [HELLO] + InventoryOf(j, o)[..k] + [Frame(FAILURE, report)];
    forall n | 0 <= n < |fs| ensures Fits(fs[n]) && fs[n] != BEAT {
      NoEndBefore(j, o, k, report, n);
      if 1 <= n <= k { SentFits(j, o.archive.value, RequestOf(o).value, k, n - 1); }
    }
  }

  /** What of a refused inventory was sent fits its frames. */
  lemma {:induction false} SentFits(j: Json, inv: Inventory, limits: Limits, k: nat, n: nat)
    requires k <= |InventoryFrames(j, inv)| && StopsInventory(j, inv, limits, k) && n < k
    ensures Fits(InventoryFrames(j, inv)[n])
  {
    var list := ListFrames(j, inv);
    if n > 0 { assert InventoryFrames(j, inv)[n] == list[..k - 1][n - 1]; }
  }

  /** An entry handed out is the job's: what was handed over is the beginning of what its reads gave, and
      if it was seen to end, all of it, of the declared length. */
  predicate OfJob(h: Handed, jobs: seq<Job>, i: nat) {
    && i < |jobs| && h.index == jobs[i].index && h.bytes <= Concat(Taken(jobs[i].feed))
    && (h.ended ==> h.bytes == Concat(Taken(jobs[i].feed)) && |h.bytes| == jobs[i].declared)
  }

  predicate AllOfJobs(log: seq<Handed>, jobs: seq<Job>) { forall i :: 0 <= i < |log| ==> OfJob(log[i], jobs, i) }

  /** What a caller may conclude about the jobs: its entries are theirs, in order, and an archive that
      looks complete is one whose every job was. */
  ghost predicate FaithfulToJobs(j: Json, o: Answers, c: Caller) {
    && |c.log| <= |o.jobs| && AllOfJobs(c.log, o.jobs)
    && (c.session.finished ==>
          Completes(j, o) && |c.log| == |o.jobs| && forall i :: 0 <= i < |c.log| ==> c.log[i].ended)
  }

  lemma {:induction false} EntryOfJob(j: Json, o: Answers, x: Reached, report: seq<byte>, h: Handed, i: nat)
    requires ReachedBy(j, o, x) && !x.Refused? && EntryFaithful(h, EmittedBy(o, x), EndingOf(x, report), i)
    ensures OfJob(h, o.jobs, i)
  {
    var es := EmittedBy(o, x);
    if i < |es| {
      assert es[i] == EmissionOf(o.jobs[i]);
    } else {
      var part := x.part.value;
      ConcatPrefix(part.chunks, Taken(o.jobs[i].feed));
      PrefixTrans(h.bytes, Concat(part.chunks), Concat(Taken(o.jobs[i].feed)));
    }
  }

  lemma {:induction false} LogOfJobs(j: Json, o: Answers, x: Reached, report: seq<byte>, log: seq<Handed>)
    requires ReachedBy(j, o, x) && !x.Refused? && AllFaithful(log, EmittedBy(o, x), EndingOf(x, report))
    ensures AllOfJobs(log, o.jobs) && |log| <= |o.jobs|
  {
    forall i | 0 <= i < |log| ensures OfJob(log[i], o.jobs, i) {
      assert EntryFaithful(log[i], EmittedBy(o, x), EndingOf(x, report), i);
      EntryOfJob(j, o, x, report, log[i], i);
    }
    if log != [] { assert OfJob(log[|log| - 1], o.jobs, |log| - 1); }
  }

  lemma {:induction false} JobsOf(j: Json, o: Answers, x: Reached, report: seq<byte>, c: Caller)
    requires ReachedBy(j, o, x) && !x.Refused? && Faithfully(c, EmittedBy(o, x), EndingOf(x, report))
    ensures FaithfulToJobs(j, o, c)
  {
    LogOfJobs(j, o, x, report, c.log);
    assert c.session.finished ==> x.Finished? && EmittedBy(o, x) == Emissions(o.jobs);
  }

  /** What the client listens to: some of what the reader forwards of some of the bytes. */
  ghost predicate Heard(ws: seq<Write>, p: seq<byte>, ch: Channel) {
    p <= EncodeAll(Written(ws)) && ch.frames <= DropBeats(ReadAll(p).0)
  }

  /**
   Whatever the jobs, however their reads are split, whatever fails in the worker, for every heartbeat
   interleaving, every byte prefix, every point at which the client stops listening and every sequence of
   calls and buffer sizes without an error: a client that opens with the limits it asked for has the
   archive's own inventory, and its caller's entries are the jobs' own, byte for byte.
   */
  lemma {:induction false} FromJobsToBuffers(
      j: Json, o: Answers, x: Reached, report: seq<byte>, frames: seq<Frame>,
      ws: seq<Write>, p: seq<byte>, limits: Limits, ch: Channel, calls: seq<Call>)
    requires FaithfulJson(j) && ValidJobs(o.jobs) && Writes(j, o, x, report, frames)
    requires WorkerFrames(ws) == frames && Heard(ws, p, ch)
    requires RequestOf(o).Ok? ==> limits == RequestOf(o).value
    requires Open(j, limits, ch).Ok?
    ensures Opens(j, o) && Open(j, limits, ch).value.0 == o.archive.value
    ensures
      var c := Run(Open(j, limits, ch).value.1, |o.archive.value.entries|, calls);
      !c.failed ==> FaithfulToJobs(j, o, c)
  {
    WrittenFrames(j, o, x, report, frames);
    ForwardedFrames(ws, p);
    PrefixTrans(ch.frames, DropBeats(ReadAll(p).0), frames);
    if x.Refused? {
      RefusedNeverOpens(j, o, x.k, report, frames, limits, ch);
    } else {
      OpensOnJobs(j, o, x, report, frames, ch);
      CallsOnJobs(j, o, x, report, frames, Open(j, limits, ch).value.1, calls);
    }
  }

  lemma {:induction false} OpensOnJobs(
      j: Json, o: Answers, x: Reached, report: seq<byte>, frames: seq<Frame>, ch: Channel)
    requires FaithfulJson(j) && Writes(j, o, x, report, frames) && !x.Refused? && ch.frames <= frames
    requires Open(j, RequestOf(o).value, ch).Ok?
    ensures
      var (inv, ch') := Open(j, RequestOf(o).value, ch).value;
      inv == o.archive.value && ch'.frames <= Stream(EmittedBy(o, x)) + EndingFrames(EndingOf(x, report))
  {
    OpensOnPrefix(j, RequestOf(o).value, o.archive.value, ch, Stream(EmittedBy(o, x)) + EndingFrames(EndingOf(x, report)));
  }

  lemma {:induction false} CallsOnJobs(
      j: Json, o: Answers, x: Reached, report: seq<byte>, frames: seq<Frame>, ch: Channel, calls: seq<Call>)
    requires ValidJobs(o.jobs) && Writes(j, o, x, report, frames) && !x.Refused?
    requires ch.frames <= Stream(EmittedBy(o, x)) + EndingFrames(EndingOf(x, report))
    ensures
      var c := Run(ch, |o.archive.value.entries|, calls);
      !c.failed ==> FaithfulToJobs(j, o, c)
  {
    var n := |o.archive.value.entries|;
    WritesHonestly(j, o, x, report, frames);
    if !Run(ch, n, calls).failed {
      DecodePhase(ch, n, calls, EmittedBy(o, x), EndingOf(x, report));
      JobsOf(j, o, x, report, Run(ch, n, calls));
    }
  }

  // ---------------------------------------------------------------- and everything arrives

  /** The client will take the inventory and the entries of such an archive. */
  predicate Welcome(j: Json, o: Answers) {
    && Opens(j, o) && WellIndexed(o.archive.value)
    && PayloadBytes(ListFrames(j, o.archive.value)) + 8 <= RequestOf(o).value.maxIndexBytes
    && forall i :: 0 <= i < |o.jobs| ==> o.jobs[i].index < |o.archive.value.entries|
  }

  lemma {:induction false} KnownEmissions(j: Json, o: Answers, x: Reached, report: seq<byte>, frames: seq<Frame>)
    requires ValidJobs(o.jobs) && Welcome(j, o) && Writes(j, o, x, report, frames)
    ensures !x.Refused? && Known(EmittedBy(o, x), EndingOf(x, report), |o.archive.value.entries|)
  {
    WritesHonestly(j, o, x, report, frames);
    var es := EmittedBy(o, x);
    forall i | 0 <= i < |es| ensures es[i].index < |o.archive.value.entries| { assert es[i] == EmissionOf(o.jobs[i]); }
  }

  /** All that the worker wrote has arrived. */
  ghost predicate HeardAll(ws: seq<Write>, ch: Channel) {
    ch.frames == DropBeats(ReadAll(EncodeAll(Written(ws))).0)
  }

  lemma {:induction false} AllArrives(
      j: Json, o: Answers, x: Reached, report: seq<byte>, frames: seq<Frame>, ws: seq<Write>, ch: Channel)
    requires ValidJobs(o.jobs) && Writes(j, o, x, report, frames) && WorkerFrames(ws) == frames && HeardAll(ws, ch)
    ensures ch.frames == frames
  {
    WrittenFrames(j, o, x, report, frames);
    ForwardedFrames(ws, EncodeAll(Written(ws)));
  }

  /** The client opens, and what is left on the channel is the whole decode. */
  lemma {:induction false} OpensWhole(j: Json, o: Answers, x: Reached, report: seq<byte>, frames: seq<Frame>, ch: Channel)
    requires FaithfulJson(j) && Welcome(j, o) && Writes(j, o, x, report, frames) && ch.frames == frames
    ensures Open(j, RequestOf(o).value, ch)
      == Ok((o.archive.value, ch.(frames := Whole(EmittedBy(o, x), EndingOf(x, report)))))
  {
    HonestInventoryArrives(j, RequestOf(o).value, o.archive.value, ch, Whole(EmittedBy(o, x), EndingOf(x, report)));
  }

  /**
   When all that the worker wrote arrives, the client opens with the archive's inventory, and a caller that
   keeps making headway sees no error but the worker's own: after finitely many calls it has every job's
   entry with all of its bytes if the worker completed, and otherwise the error that stopped the worker.
   */
  lemma {:induction false} EveryJobArrives(
      j: Json, o: Answers, x: Reached, report: seq<byte>, frames: seq<Frame>, ws: seq<Write>, ch: Channel, calls: seq<Call>)
    requires FaithfulJson(j) && ValidJobs(o.jobs) && Welcome(j, o) && Writes(j, o, x, report, frames)
    requires WorkerFrames(ws) == frames && HeardAll(ws, ch)
    requires !Completes(j, o) ==> ch.report(report) == Some(FailureOf(j, o))
    ensures
      var first := Open(j, RequestOf(o).value, ch);
      && first.Ok? && first.value.0 == o.archive.value
      && (Diligent(first.value.1, |o.archive.value.entries|, calls) ==>
            var c := Run(first.value.1, |o.archive.value.entries|, calls);
            && (c.failed ==> !Completes(j, o) && c.error == Some(FailureOf(j, o)))
            && (!c.failed ==> FaithfulToJobs(j, o, c))
            && (|calls| > Weight(first.value.1.frames) ==> if Completes(j, o) then c.session.finished && !c.failed else c.failed))
  {
    var es, ending, n := EmittedBy(o, x), EndingOf(x, report), |o.archive.value.entries|;
    AllArrives(j, o, x, report, frames, ws, ch);
    OpensWhole(j, o, x, report, frames, ch);
    KnownEmissions(j, o, x, report, frames);
    var ch' := ch.(frames := Whole(es, ending));
    if Diligent(ch', n, calls) {
      var c := Run(ch', n, calls);
      EverythingArrives(ch', n, calls, es, ending);
      assert ending.Completed? <==> Completes(j, o);
      if !c.failed { JobsOf(j, o, x, report, c); }
    }
  }

  // ---------------------------------------------------------------- a refused opening

  /** The client takes the items of a refused inventory as far as they come, and then the failure. */
  lemma {:induction false} CollectsUntilFailure(
      j: Json, limits: Limits, inv: Inventory, n: nat, i: nat, failure: Frame, ch: Channel, e: ImportError)
    requires FaithfulJson(j) && limits.maxIndexBytes < TWO_64
    requires |inv.blocks| <= |inv.entries| <= limits.maxEntries
    requires i <= n <= |ListFrames(j, inv)| && PayloadBytes(ListFrames(j, inv)[..n]) <= limits.maxIndexBytes
    requires ch.frames == ListFrames(j, inv)[i..n] + [failure] && failure.tag == FAILURE && ch.report(failure.payload) == Some(e)
    ensures Collect(j, limits, ch, FirstItems(inv, i), PayloadBytes(ListFrames(j, inv)[..i])) == Err(e)
    decreases n - i
  {
    if i < n {
      CollectsItem(j, limits, inv, n, i, failure, ch);
      CollectsUntilFailure(j, limits, inv, n, i + 1, failure, ch.(frames := ch.frames[1..]), e);
    } else {
      assert ch.frames[0] == failure;
    }
  }

  lemma {:induction false} CollectsItem(
      j: Json, limits: Limits, inv: Inventory, n: nat, i: nat, failure: Frame, ch: Channel)
    requires FaithfulJson(j) && limits.maxIndexBytes < TWO_64
    requires |inv.blocks| <= |inv.entries| <= limits.maxEntries
    requires i < n <= |ListFrames(j, inv)| && PayloadBytes(ListFrames(j, inv)[..n]) <= limits.maxIndexBytes
    requires ch.frames == ListFrames(j, inv)[i..n] + [failure]
    ensures
      var list, next := ListFrames(j, inv), ch.(frames := ch.frames[1..]);
      && next.frames == list[i + 1..n] + [failure]
      && Collect(j, limits, ch, FirstItems(inv, i), PayloadBytes(list[..i]))
         == Collect(j, limits, next, FirstItems(inv, i + 1), PayloadBytes(list[..i + 1]))
  {
    var list := ListFrames(j, inv);
    NextItem(list, i, n, failure);
    TakesItem(j, limits, inv, n, i);
    CollectStep(j, limits, ch, FirstItems(inv, i), PayloadBytes(list[..i]), FirstItems(inv, i + 1));
  }

  lemma {:induction false} NextItem(list: seq<Frame>, i: nat, n: nat, failure: Frame)
    requires i < n <= |list|
    ensures var fs := list[i..n] + [failure]; fs[0] == list[i] && fs[1..] == list[i + 1..n] + [failure]
  {
  }

  lemma {:induction false} TakesItem(j: Json, limits: Limits, inv: Inventory, n: nat, i: nat)
    requires FaithfulJson(j) && limits.maxIndexBytes < TWO_64
    requires |inv.blocks| <= |inv.entries| <= limits.maxEntries
    requires i < n <= |ListFrames(j, inv)| && PayloadBytes(ListFrames(j, inv)[..n]) <= limits.maxIndexBytes
    ensures
      var list := ListFrames(j, inv);
      && list[i].tag != FAILURE && PayloadBytes(list[..i + 1]) == PayloadBytes(list[..i]) + |list[i].payload|
      && Take(j, limits, FirstItems(inv, i), PayloadBytes(list[..i]), list[i]) == Ok(Some(FirstItems(inv, i + 1)))
  {
    var list := ListFrames(j, inv);
    NextPayload(list, i);
    WithinPart(list, n, i + 1);
    ItemAt(j, inv, i);
    if i < |inv.blocks| {
      TakeBlock(j, limits, inv, i, PayloadBytes(list[..i]));
    } else {
      TakeEntry(j, limits, inv, i - |inv.blocks|, PayloadBytes(list[..i]));
    }
  }

  lemma {:induction false} WithinPart(fs: seq<Frame>, n: nat, k: nat)
    requires k <= n <= |fs|
    ensures PayloadBytes(fs[..k]) <= PayloadBytes(fs[..n])
  {
    assert fs[..n][..k] == fs[..k];
    PayloadMonotone(fs[..n], k);
  }

  lemma {:induction false} ItemAt(j: Json, inv: Inventory, i: nat)
    requires i < |ListFrames(j, inv)|
    ensures i < |inv.blocks| ==> ListFrames(j, inv)[i] == Frame(BLOCK, j.block.write(inv.blocks[i]))
    ensures i >= |inv.blocks| ==>
      i - |inv.blocks| < |inv.entries| && ListFrames(j, inv)[i] == Frame(ENTRY, j.entry.write(inv.entries[i - |inv.blocks|]))
  {
  }

  lemma {:induction false} RefusedAtOnce(j: Json, limits: Limits, failure: Frame, ch: Channel, e: ImportError)
    requires ch.frames == [HELLO] + [failure] && failure.tag == FAILURE && ch.report(failure.payload) == Some(e)
    ensures Open(j, limits, ch) == Err(e)
  {
    assert ch.frames[0] == HELLO && ch.frames[1..] == [failure];
  }

  lemma {:induction false} RefusedLater(
      j: Json, limits: Limits, inv: Inventory, n: nat, failure: Frame, ch: Channel, e: ImportError)
    requires FaithfulJson(j) && limits.maxIndexBytes < TWO_64
    requires |inv.blocks| <= |inv.entries| <= limits.maxEntries
    requires n <= |ListFrames(j, inv)| && PayloadBytes(ListFrames(j, inv)[..n]) <= limits.maxIndexBytes
    requires ch.frames == [HELLO, ArchiveFrame(j, inv)] + (ListFrames(j, inv)[..n] + [failure])
    requires failure.tag == FAILURE && ch.report(failure.payload) == Some(e)
    ensures Open(j, limits, ch) == Err(e)
  {
    var list := ListFrames(j, inv);
    var ch2 := ch.(frames := ch.frames[1..][1..]);
    assert ch.frames[0] == HELLO && ch.frames[1..][0] == ArchiveFrame(j, inv);
    assert ch2.frames == list[0..n] + [failure];
    assert FirstItems(inv, 0) == Inventory(inv.container, [], []) && PayloadBytes(list[..0]) == 0;
    CollectsUntilFailure(j, limits, inv, n, 0, failure, ch2, e);
  }

  lemma {:induction false} RefusedFrames(j: Json, inv: Inventory, k: nat, failure: Frame)
    requires 0 < k <= |ListFrames(j, inv)| + 1
    ensures [HELLO] + InventoryFrames(j, inv)[..k] + [failure]
      == [HELLO, ArchiveFrame(j, inv)] + (ListFrames(j, inv)[..k - 1] + [failure])
  {
    var list := ListFrames(j, inv);
    assert InventoryFrames(j, inv)[..k] == [ArchiveFrame(j, inv)] + list[..k - 1];
  }

  /** A client to which all of a refused opening arrives fails with the error that the worker failed with. */
  lemma {:induction false} RefusalArrives(
      j: Json, o: Answers, k: nat, report: seq<byte>, frames: seq<Frame>, ws: seq<Write>, limits: Limits, ch: Channel)
    requires FaithfulJson(j) && ValidJobs(o.jobs) && Writes(j, o, Refused(k), report, frames)
    requires WorkerFrames(ws) == frames && HeardAll(ws, ch)
    requires RequestOf(o).Ok? ==> limits == RequestOf(o).value
    requires ch.report(report) == Some(FailureOf(j, o))
    ensures Open(j, limits, ch) == Err(FailureOf(j, o))
  {
    var failure, e := Frame(FAILURE, report), FailureOf(j, o);
    AllArrives(j, o, Refused(k), report, frames, ws, ch);
    if k == 0 {
      assert frames == [HELLO] + [failure];
      RefusedAtOnce(j, limits, failure, ch, e);
    } else {
      RefusedFrames(j, o.archive.value, k, failure);
      RefusedLater(j, limits, o.archive.value, k - 1, failure, ch, e);
    }
  }
}
