/**
 The decoder process from its first frame to its last: what it writes is an honest output, whole or
 ended by a failure, or an opening that was refused.
 */
module WorkerRun {
  import opened Common
  import opened Bytes
  import opened Protocol
  import opened Worker
  import opened InventoryReception
  import opened Transfer

  /** One entry the decoder emits, with the reads its stream will give. */
  datatype Job = Job(index: nat, declared: nat, feed: seq<Chunk>)

  /** What the outside answers, in the order it is asked. */
  datatype Answers = Answers(
    first: Result<Frame>, request: seq<byte> -> Option<Limits>, archive: Result<Inventory>,
    second: Result<Frame>, inspected: Result<()>, jobs: seq<Job>, trouble: Option<ImportError>, verified: Result<()>)

  predicate ValidJob(job: Job) {
    && job.index < TWO_64 && job.declared < TWO_64
    && forall i :: 0 <= i < |job.feed| && job.feed[i].Chunk? ==> |job.feed[i].data| <= MAX_FRAME
  }

  /** Why an entry fails: a total past 64 bits, or corruption. */
  ghost function JobError(job: Job): ImportError {
    if exists n: nat :: Overflows(job, n) then Limit else Corrupt
  }

  /** The read at which the total leaves 64 bits, if the declared length was not exceeded before it. */
  predicate Overflows(job: Job, n: nat) {
    && n < |Taken(job.feed)| && |Concat(Taken(job.feed)[..n])| <= job.declared
    && |Concat(Taken(job.feed)[..n + 1])| >= TWO_64
  }

  lemma {:induction false} OneJobError(job: Job, n: nat)
    requires job.declared < TWO_64 && StopsInside(job.feed, job.declared, n)
    ensures JobError(job) == StopError(job.feed, n)
  {
    if StopError(job.feed, n) == Limit {
      assert Overflows(job, n);
    } else if exists m: nat :: Overflows(job, m) {
      var m: nat :| Overflows(job, m);
      EntryStopsOnce(job.feed, job.declared, n, m);
      EntryStopsOnce(job.feed, job.declared, m, n);
    }
  }

  predicate ValidJobs(jobs: seq<Job>) { forall i :: 0 <= i < |jobs| ==> ValidJob(jobs[i]) }

  function EmissionOf(job: Job): Emission { Emission(job.index, job.declared, Taken(job.feed)) }

  predicate AllEmitted(jobs: seq<Job>) {
    forall i :: 0 <= i < |jobs| ==> Emits(jobs[i]) && Honest(EmissionOf(jobs[i]))
  }

  predicate Emits(job: Job) { EndsCleanly(job.feed) && |Concat(Taken(job.feed))| == job.declared }

  function Emissions(jobs: seq<Job>): (es: seq<Emission>)
    ensures |es| == |jobs|
  {
    seq(|jobs|, i requires 0 <= i < |jobs| => EmissionOf(jobs[i]))
  }

  /** An entry broken off: its index and the chunks that went out. */
  datatype Part = Part(index: nat, chunks: seq<seq<byte>>)

  function PartFrames(part: Option<Part>): seq<Frame> {
    if part.None? then [] else PartialFrames(part.value.index, part.value.chunks)
  }

  /** What is out of an entry that failed: its BEGIN, and its reads up to where it stops. */
  predicate PartOf(part: Part, job: Job) {
    && part.index == job.index && part.chunks <= Taken(job.feed) && ProperChunks(part.chunks)
    && StopsInside(job.feed, job.declared, |part.chunks|)
  }

  // ---------------------------------------------------------------- the decode

  method EmitJob(job: Job, out: Writer) returns (r: Result<()>, ghost part: Option<Part>)
    requires out.Valid() && ValidJob(job)
    modifies out
    ensures out.Valid()
    ensures r.Ok? <==> Emits(job)
    ensures r.Ok? ==> part == None && Honest(EmissionOf(job)) && out.frames == old(out.frames) + EmitFrames(EmissionOf(job))
    ensures r.Err? ==>
      part.Some? && PartOf(part.value, job) && r.error == JobError(job) && out.frames == old(out.frames) + PartFrames(part)
  {
    ghost var sent;
    r, sent := Emit(job.index, job.declared, job.feed, out);
    part := None;
    if r.Err? {
      ProperTaken(job.feed, sent);
      part := Some(Part(job.index, Taken(job.feed)[..sent]));
      OneJobError(job, sent);
    }
  }

  /** Emits the entries in order until one fails: whole entries, then at most the beginning of one. */
  method Decode(jobs: seq<Job>, out: Writer) returns (r: Result<()>, ghost done: nat, ghost part: Option<Part>)
    requires out.Valid() && ValidJobs(jobs)
    modifies out
    ensures out.Valid() && done <= |jobs|
    ensures AllEmitted(jobs[..done])
    ensures r.Ok? ==> done == |jobs| && part == None
    ensures r.Err? ==>
      done < |jobs| && !Emits(jobs[done]) && part.Some? && PartOf(part.value, jobs[done]) && r.error == JobError(jobs[done])
    ensures out.frames == old(out.frames) + (Stream(Emissions(jobs[..done])) + PartFrames(part))
  {
    done, part := 0, None;
    ghost var start := out.frames;
    r := Ok(());
    assert out.frames == start + (Stream(Emissions(jobs[..0])) + []);
    var i := 0;
    while i < |jobs|
      invariant 0 <= i == done <= |jobs| && out.Valid() && part == None && r.Ok?
      invariant AllEmitted(jobs[..i])
      invariant out.frames == start + Stream(Emissions(jobs[..i]))
    {
      assert ValidJob(jobs[i]);
      r, part := EmitJob(jobs[i], out);
      if r.Err? {
        Regroup(start, Stream(Emissions(jobs[..i])), PartFrames(part));
        return;
      }
      OneMore(jobs, i);
      Regroup(start, Stream(Emissions(jobs[..i])), EmitFrames(EmissionOf(jobs[i])));
      i, done := i + 1, done + 1;
    }
    assert jobs[..i] == jobs;
    assert Stream(Emissions(jobs)) + [] == Stream(Emissions(jobs));
  }

  lemma {:induction false} OneMore(jobs: seq<Job>, i: nat)
    requires i < |jobs| && AllEmitted(jobs[..i]) && Emits(jobs[i]) && Honest(EmissionOf(jobs[i]))
    ensures AllEmitted(jobs[..i + 1])
    ensures Stream(Emissions(jobs[..i + 1])) == Stream(Emissions(jobs[..i])) + EmitFrames(EmissionOf(jobs[i]))
  {
    var es := Emissions(jobs[..i + 1]);
    assert es[..i] == Emissions(jobs[..i]) && es[i] == EmissionOf(jobs[i]);
  }

  lemma {:induction false} ProperTaken(feed: seq<Chunk>, n: nat)
    requires n <= |Taken(feed)|
    requires forall i :: 0 <= i < |feed| && feed[i].Chunk? ==> |feed[i].data| <= MAX_FRAME
    ensures ProperChunks(Taken(feed)[..n])
  {
    forall k | 0 <= k < n ensures 0 < |Taken(feed)[k]| <= MAX_FRAME { TakenIs(feed, k); }
  }

  // ---------------------------------------------------------------- one run

  /** How far a run came: refused in its opening after `k` inventory frames, cut short after `done`
      whole entries and perhaps the beginning of the next, or finished. */
  datatype Reached =
    | Refused(k: nat)
    | CutShort(done: nat, part: Option<Part>)
    | Finished

  const HELLO := Frame(READY, GREETING)

  const MOST_ENTRIES: nat := 200_000
  const MOST_INDEX_BYTES: nat := 0x400_0000

  function RequestOf(o: Answers): Result<Limits> {
    match o.first
    case Err(e) => Err(e)
    case Ok(f) =>
      if f.tag != OPEN then Err(Corrupt) else
      match o.request(f.payload)
      case None => Err(Corrupt)
      case Some(limits) =>
        if limits.maxEntries > MOST_ENTRIES || limits.maxIndexBytes > MOST_INDEX_BYTES then Err(Limit) else Ok(limits)
  }

  function DecodeAsked(o: Answers): Result<()> {
    match o.second
    case Err(e) => Err(e)
    case Ok(f) => if f.tag != DECODE || f.payload != [] then Err(Corrupt) else o.inspected
  }

  /** The opening succeeds: the request and the archive are good, and the inventory is sendable within
      the limits that were asked for. */
  predicate Opens(j: Json, o: Answers) {
    RequestOf(o).Ok? && o.archive.Ok? && Sendable(j, o.archive.value, RequestOf(o).value)
  }

  /** When a run completes: the opening succeeds, every later answer is good and every entry emits. */
  predicate Completes(j: Json, o: Answers) {
    && Opens(j, o) && DecodeAsked(o).Ok?
    && (forall i :: 0 <= i < |o.jobs| ==> Emits(o.jobs[i])) && o.trouble.None? && o.verified.Ok?
  }

  /** The first job whose entry does not emit, or their number. */
  function FirstFailing(jobs: seq<Job>): nat {
    if jobs == [] then 0 else if Emits(jobs[0]) then 1 + FirstFailing(jobs[1..]) else 0
  }

  lemma {:induction false} FirstFailingIs(jobs: seq<Job>, n: nat)
    requires n <= |jobs| && (forall i :: 0 <= i < n ==> Emits(jobs[i])) && (n < |jobs| ==> !Emits(jobs[n]))
    ensures FirstFailing(jobs) == n
  {
    if n > 0 { FirstFailingIs(jobs[1..], n - 1); }
  }

  /** What a run that does not complete fails with: the first of the answers, in the order they are asked
      for, that does not allow it to go on. */
  ghost function FailureOf(j: Json, o: Answers): ImportError {
    if RequestOf(o).Err? then RequestOf(o).error
    else if o.archive.Err? then o.archive.error
    else if !Opens(j, o) then Limit
    else if DecodeAsked(o).Err? then DecodeAsked(o).error
    else if FirstFailing(o.jobs) < |o.jobs| then JobError(o.jobs[FirstFailing(o.jobs)])
    else if o.trouble.Some? then o.trouble.value
    else if o.verified.Err? then o.verified.error
    else Io
  }

  /** A request is good if and only if it is an OPEN that parses and asks for no more than the worker allows. */
  lemma {:induction false} RequestGuards(o: Answers)
    ensures o.first.Err? ==> RequestOf(o) == Err(o.first.error)
    ensures o.first.Ok? && (o.first.value.tag != OPEN || o.request(o.first.value.payload).None?) ==>
      RequestOf(o) == Err(Corrupt)
    ensures o.first.Ok? && o.first.value.tag == OPEN && o.request(o.first.value.payload).Some? ==>
      var limits := o.request(o.first.value.payload).value;
      RequestOf(o) ==
        if limits.maxEntries <= 200_000 && limits.maxIndexBytes <= 64 * 1024 * 1024 then Ok(limits) else Err(Limit)
  {
  }

  /** The decode is asked for by an empty DECODE, and then only an inventory that passes inspection is decoded. */
  lemma {:induction false} DecodeGuards(o: Answers)
    ensures o.second.Err? ==> DecodeAsked(o) == Err(o.second.error)
    ensures o.second.Ok? && o.second.value != Frame(DECODE, []) ==> DecodeAsked(o) == Err(Corrupt)
    ensures o.second == Ok(Frame(DECODE, [])) ==> DecodeAsked(o) == o.inspected
  {
  }

  /** The inventory frames that an opening is about; none are sent without a good request and archive. */
  function InventoryOf(j: Json, o: Answers): seq<Frame> {
    if RequestOf(o).Ok? && o.archive.Ok? then InventoryFrames(j, o.archive.value) else []
  }

  /** What a run has to show for itself, in terms of what it was given: a refused opening sent the
      archive's inventory up to where it was refused, a run cut short sent all of it, the entries of the
      first jobs, each whole, and of the one that failed BEGIN and its reads up to where it stopped. */
  predicate ReachedBy(j: Json, o: Answers, x: Reached) {
    match x
    case Refused(k) =>
      && !Opens(j, o)
      && if RequestOf(o).Ok? && o.archive.Ok? then
           k < |InventoryOf(j, o)| && StopsInventory(j, o.archive.value, RequestOf(o).value, k)
         else k == 0
    case CutShort(done, part) =>
      && Opens(j, o) && !Completes(j, o) && done <= |o.jobs| && AllEmitted(o.jobs[..done])
      && (part.Some? ==> done < |o.jobs| && !Emits(o.jobs[done]) && PartOf(part.value, o.jobs[done]))
      && (part.None? ==> done == if DecodeAsked(o).Ok? then |o.jobs| else 0)
      && (DecodeAsked(o).Err? ==> part.None?)
    case Finished => Completes(j, o) && AllEmitted(o.jobs)
  }

  /** The frames of a run, without the failure report that follows all but a finished one. */
  function RunFrames(j: Json, o: Answers, x: Reached): seq<Frame>
    requires ReachedBy(j, o, x)
  {
    match x
    case Refused(k) => [HELLO] + InventoryOf(j, o)[..k]
    case CutShort(done, part) => [HELLO] + InventoryOf(j, o) + (Stream(Emissions(o.jobs[..done])) + PartFrames(part))
    case Finished => [HELLO] + InventoryOf(j, o) + (Stream(Emissions(o.jobs)) + [Frame(COMPLETE, [])])
  }

  /** The opening: the greeting, and the inventory if the request and the archive are good. */
  method OpenArchive(j: Json, o: Answers, out: Writer) returns (r: Result<()>, ghost k: nat)
    requires out.Valid()
    modifies out
    ensures out.Valid()
    ensures r.Ok? <==> Opens(j, o)
    ensures r.Err? ==> r.error == FailureOf(j, o)
    ensures r.Ok? ==> k == |InventoryOf(j, o)|
    ensures r.Err? ==> ReachedBy(j, o, Refused(k))
    ensures k <= |InventoryOf(j, o)| && out.frames == old(out.frames) + ([HELLO] + InventoryOf(j, o)[..k])
  {
    ghost var start := out.frames;
    k := 0;
    var hello := out.WriteFrame(READY, GREETING);
    assert hello.Ok?;
    var request := RequestOf(o);
    if request.Err? { return Err(request.error), 0; }
    if o.archive.Err? { return Err(o.archive.error), 0; }
    r, k := SendInventory(j, o.archive.value, request.value, out);
    Regroup(start, [HELLO], InventoryOf(j, o)[..k]);
  }

  lemma {:induction false} FirstOfJobs(jobs: seq<Job>, n: nat)
    requires n <= |jobs| && AllEmitted(jobs[..n]) && (n < |jobs| ==> !Emits(jobs[n]))
    ensures FirstFailing(jobs) == n
  {
    forall i | 0 <= i < n ensures Emits(jobs[i]) { assert jobs[..n][i] == jobs[i]; }
    FirstFailingIs(jobs, n);
  }

  /** The decode once it is asked for, and COMPLETE if the source is still what it was. */
  method DecodeArchive(ghost j: Json, o: Answers, out: Writer) returns (r: Result<()>, ghost done: nat, ghost part: Option<Part>)
    requires out.Valid() && ValidJobs(o.jobs) && Opens(j, o)
    modifies out
    ensures out.Valid() && done <= |o.jobs|
    ensures r.Err? ==> r.error == FailureOf(j, o)
    ensures AllEmitted(o.jobs[..done])
    ensures part.Some? ==> done < |o.jobs| && !Emits(o.jobs[done]) && PartOf(part.value, o.jobs[done])
    ensures part.None? ==> done == if DecodeAsked(o).Ok? then |o.jobs| else 0
    ensures DecodeAsked(o).Err? ==> part.None?
    ensures r.Ok? <==>
      && DecodeAsked(o).Ok? && (forall i :: 0 <= i < |o.jobs| ==> Emits(o.jobs[i]))
      && o.trouble.None? && o.verified.Ok?
    ensures r.Ok? ==> done == |o.jobs| && out.frames == old(out.frames) + (Stream(Emissions(o.jobs)) + [Frame(COMPLETE, [])])
    ensures r.Err? ==> out.frames == old(out.frames) + (Stream(Emissions(o.jobs[..done])) + PartFrames(part))
  {
    ghost var start := out.frames;
    done, part := 0, None;
    assert start == start + (Stream(Emissions(o.jobs[..0])) + PartFrames(None));
    var asked := DecodeAsked(o);
    if asked.Err? { return asked, 0, None; }
    r, done, part := Decode(o.jobs, out);
    FirstOfJobs(o.jobs, done);
    if r.Err? { return; }
    assert o.jobs[..done] == o.jobs;
    if o.trouble.Some? { return Err(o.trouble.value), done, part; }
    if o.verified.Err? { return o.verified, done, part; }
    r := out.WriteFrame(COMPLETE, []);
    assert Stream(Emissions(o.jobs)) + [] == Stream(Emissions(o.jobs));
    Regroup(start, Stream(Emissions(o.jobs)), [Frame(COMPLETE, [])]);
  }

  /** One run. How far it comes is decided by the answers it gets, and so is all that it writes. */
  method RunWorker(j: Json, o: Answers, out: Writer) returns (r: Result<()>, ghost x: Reached)
    requires out.Valid() && ValidJobs(o.jobs)
    modifies out
    ensures out.Valid() && ReachedBy(j, o, x) && out.frames == old(out.frames) + RunFrames(j, o, x)
    ensures r.Ok? <==> x.Finished?
    ensures r.Err? ==> r.error == FailureOf(j, o)
  {
    ghost var start := out.frames;
    var opening;
    ghost var k;
    opening, k := OpenArchive(j, o, out);
    if opening.Err? { return opening, Refused(k); }
    assert InventoryOf(j, o)[..k] == InventoryOf(j, o);
    ghost var done, part;
    r, done, part := DecodeArchive(j, o, out);
    if r.Err? {
      x := CutShort(done, part);
      Regroup(start, [HELLO] + InventoryOf(j, o), Stream(Emissions(o.jobs[..done])) + PartFrames(part));
      return;
    }
    assert o.jobs[..done] == o.jobs;
    Regroup(start, [HELLO] + InventoryOf(j, o), Stream(Emissions(o.jobs)) + [Frame(COMPLETE, [])]);
    x := Finished;
  }

  /** A prefix that was sent had room for each of its frames. */
  lemma {:induction false} HadRoom(fs: seq<Frame>, spent: nat, limit: nat, n: nat, m: nat)
    requires m < n <= |fs| && AllFit(fs[..n]) && spent + PayloadBytes(fs[..n]) <= limit
    ensures Fits(fs[m]) && spent + PayloadBytes(fs[..m + 1]) <= limit
  {
    assert fs[..n][..m + 1] == fs[..m + 1] && fs[..n][m] == fs[m];
    PayloadMonotone(fs[..n], m + 1);
  }

  lemma {:induction false} ListStopsOnce(fs: seq<Frame>, spent: nat, limit: nat, n: nat, m: nat)
    requires StopsList(fs, spent, limit, n) && StopsList(fs, spent, limit, m)
    ensures n <= m
  {
    if m < n { HadRoom(fs, spent, limit, n, m); }
  }

  lemma {:induction false} HadLength(chunks: seq<seq<byte>>, declared: nat, n: nat, m: nat)
    requires m < n <= |chunks| && |Concat(chunks[..n])| <= declared
    ensures |Concat(chunks[..m + 1])| <= declared
  {
    assert chunks[..n][..m + 1] == chunks[..m + 1];
    ConcatMonotone(chunks[..n], m + 1);
  }

  lemma {:induction false} EntryStopsOnce(feed: seq<Chunk>, declared: nat, n: nat, m: nat)
    requires StopsInside(feed, declared, n) && StopsInside(feed, declared, m)
    ensures n <= m
  {
    if m < n { HadLength(Taken(feed), declared, n, m); }
  }

  lemma {:induction false} FailsOnce(jobs: seq<Job>, n: nat, m: nat)
    requires n < |jobs| && m <= |jobs| && !Emits(jobs[n]) && AllEmitted(jobs[..m])
    ensures m <= n
  {
    assert forall k :: 0 <= k < m ==> jobs[..m][k] == jobs[k];
  }

  lemma {:induction false} CutOnce(j: Json, o: Answers, x: Reached, y: Reached)
    requires x.CutShort? && y.CutShort? && ReachedBy(j, o, x) && ReachedBy(j, o, y)
    ensures x == y
  {
    if x.part.Some? { FailsOnce(o.jobs, x.done, y.done); }
    if y.part.Some? { FailsOnce(o.jobs, y.done, x.done); }
    if x.part.Some? && y.part.Some? {
      var job := o.jobs[x.done];
      EntryStopsOnce(job.feed, job.declared, |x.part.value.chunks|, |y.part.value.chunks|);
      EntryStopsOnce(job.feed, job.declared, |y.part.value.chunks|, |x.part.value.chunks|);
      assert x.part.value.chunks == Taken(job.feed)[..|x.part.value.chunks|] == y.part.value.chunks;
    }
  }

  lemma {:induction false} InventoryStopsOnce(j: Json, inv: Inventory, limits: Limits, n: nat, m: nat)
    requires StopsInventory(j, inv, limits, n) && StopsInventory(j, inv, limits, m)
    ensures n == m
  {
    if n > 0 {
      ListStopsOnce(ListFrames(j, inv), 0, limits.maxIndexBytes, n - 1, m - 1);
      ListStopsOnce(ListFrames(j, inv), 0, limits.maxIndexBytes, m - 1, n - 1);
    }
  }

  lemma {:induction false} RefusedOnce(j: Json, o: Answers, n: nat, m: nat)
    requires ReachedBy(j, o, Refused(n)) && ReachedBy(j, o, Refused(m))
    ensures n == m
  {
    if RequestOf(o).Ok? && o.archive.Ok? { InventoryStopsOnce(j, o.archive.value, RequestOf(o).value, n, m); }
  }

  /** The answers decide how far a run comes: there is one way to be reached by them, and so one sequence
      of frames. */
  lemma {:induction false} OneOutcome(j: Json, o: Answers, x: Reached, y: Reached)
    requires ReachedBy(j, o, x) && ReachedBy(j, o, y)
    ensures x == y
  {
    if x.Refused? && y.Refused? {
      RefusedOnce(j, o, x.k, y.k);
    } else if x.CutShort? && y.CutShort? {
      CutOnce(j, o, x, y);
    }
  }

  // ---------------------------------------------------------------- the process

  function EmittedBy(o: Answers, x: Reached): seq<Emission> {
    Emissions(if x.CutShort? && x.done <= |o.jobs| then o.jobs[..x.done] else o.jobs)
  }

  function EndingOf(x: Reached, report: seq<byte>): Ending {
    if !x.CutShort? then Completed
    else match x.part
      case None => FailedBetween(report)
      case Some(part) => FailedInside(part.index, part.chunks, report)
  }

  /** Everything the process writes: after a refused opening the failure report; otherwise the output of
      the archive's own inventory and of its first jobs, completed or ended by the report. */
  predicate Writes(j: Json, o: Answers, x: Reached, report: seq<byte>, frames: seq<Frame>) {
    && ReachedBy(j, o, x) && |report| <= MAX_FRAME
    && if x.Refused? then frames == [HELLO] + InventoryOf(j, o)[..x.k] + [Frame(FAILURE, report)]
       else frames == Output(j, o.archive.value, EmittedBy(o, x), EndingOf(x, report))
  }

  lemma {:induction false} RunWrites(j: Json, o: Answers, x: Reached, report: seq<byte>)
    requires ReachedBy(j, o, x) && |report| <= MAX_FRAME
    ensures Writes(j, o, x, report, RunFrames(j, o, x) + if x.Finished? then [] else [Frame(FAILURE, report)])
  {
    var opening, last := [HELLO] + InventoryOf(j, o), [Frame(FAILURE, report)];
    match x {
      case Refused(_) =>
      case CutShort(done, part) =>
        var es := Emissions(o.jobs[..done]);
        Regroup(opening, Stream(es) + PartFrames(part), last);
        Regroup(Stream(es), PartFrames(part), last);
        assert [] + last == last;
      case Finished => assert RunFrames(j, o, x) + [] == RunFrames(j, o, x);
    }
  }

  /** What was emitted is honest, so all of `Transfer` applies to what the process writes. */
  lemma {:induction false} WritesHonestly(j: Json, o: Answers, x: Reached, report: seq<byte>, frames: seq<Frame>)
    requires ValidJobs(o.jobs) && Writes(j, o, x, report, frames) && !x.Refused?
    ensures HonestRun(EmittedBy(o, x), EndingOf(x, report))
  {
    var jobs := if x.CutShort? then o.jobs[..x.done] else o.jobs;
    assert AllEmitted(jobs);
    forall i | 0 <= i < |jobs| ensures Honest(Emissions(jobs)[i]) { assert Honest(EmissionOf(jobs[i])); }
    if x.CutShort? && x.part.Some? { assert ValidJob(o.jobs[x.done]); }
  }

  /** The process: a run, and if it did not complete a report of why. */
  method Serve(j: Json, o: Answers, report: ImportError -> seq<byte>, out: Writer)
    returns (code: nat, ghost x: Reached, ghost said: seq<byte>)
    requires out.Valid() && out.frames == [] && ValidJobs(o.jobs) && forall e :: |report(e)| <= MAX_FRAME
    modifies out
    ensures out.Valid() && Writes(j, o, x, said, out.frames)
    ensures !Completes(j, o) ==> said == report(FailureOf(j, o))
    ensures code == 0 <==> Completes(j, o)
  {
    var r;
    r, x := RunWorker(j, o, out);
    assert [] + RunFrames(j, o, x) == RunFrames(j, o, x);
    if r.Err? {
      said := report(r.error);
      var written := out.WriteFrame(FAILURE, report(r.error));
      assert written.Ok?;
      RunWrites(j, o, x, said);
      code := 1;
    } else {
      said := report(Io);
      RunWrites(j, o, x, said);
      assert RunFrames(j, o, x) + [] == RunFrames(j, o, x);
      code := 0;
    }
  }

  /** A refused opening is never taken for an archive, however much of it arrives. */
  lemma {:induction false} RefusedNeverOpens(
      j: Json, o: Answers, k: nat, report: seq<byte>, frames: seq<Frame>, limits: Limits, ch: Channel)
    requires Writes(j, o, Refused(k), report, frames) && ch.frames <= frames
    ensures Open(j, limits, ch).Err?
  {
    if Open(j, limits, ch).Ok? {
      AcceptedInventory(j, limits, ch);
      var (got, ch') := Open(j, limits, ch).value;
      EndIsThere(j, limits, got, ch.frames, ch'.frames);
      var n :| 0 <= n < |ch.frames| && ch.frames[n].tag == INVENTORY_END;
      NoEndBefore(j, o, k, report, n);
      assert false;
    }
  }

  lemma {:induction false} EndIsThere(j: Json, limits: Limits, inv: Inventory, frames: seq<Frame>, rest: seq<Frame>)
    requires |frames| > 2 && TakenAs(j, limits, inv, frames[2..], rest)
    ensures exists n :: 0 <= n < |frames| && frames[n].tag == INVENTORY_END
  {
    var n := |frames[2..]| - |rest| - 1;
    assert frames[2..][n] == frames[n + 2];
  }

  lemma {:induction false} NoEndBefore(j: Json, o: Answers, k: nat, report: seq<byte>, n: nat)
    requires ReachedBy(j, o, Refused(k))
    ensures
      var fs := [HELLO] + InventoryOf(j, o)[..k] + [Frame(FAILURE, report)];
      n < |fs| ==> fs[n].tag != INVENTORY_END && fs[n] != BEAT
  {
    var fs := [HELLO] + InventoryOf(j, o)[..k] + [Frame(FAILURE, report)];
    if 1 <= n <= k {
      var f := InventoryFrames(j, o.archive.value)[n - 1];
      assert fs[n] == f;
      assert f.tag == ARCHIVE || f.tag == BLOCK || f.tag == ENTRY;
    }
  }
}
