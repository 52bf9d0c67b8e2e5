/**
 The decoder process: the frames it writes for an inventory and for each decoded entry, and the
 heartbeat thread that shares its output.
 */
module Worker {
  import opened Common
  import opened Bytes
  import opened Protocol

  /** A JSON codec for one type; its two halves are not modelled further. */
  datatype Codec<!T> = Codec(write: T -> seq<byte>, read: seq<byte> -> Option<T>)

  ghost predicate Faithful<T(!new)>(c: Codec<T>) { forall x: T :: c.read(c.write(x)) == Some(x) }

  datatype Block = Block(detail: seq<byte>)
  datatype Entry = Entry(index: nat, detail: seq<byte>)
  datatype Inventory = Inventory(container: nat, blocks: seq<Block>, entries: seq<Entry>)
  datatype Limits = Limits(maxEntries: nat, maxIndexBytes: nat)
  datatype Json = Json(container: Codec<nat>, block: Codec<Block>, entry: Codec<Entry>)

  ghost predicate FaithfulJson(j: Json) { Faithful(j.container) && Faithful(j.block) && Faithful(j.entry) }

  // ---------------------------------------------------------------- the inventory

  function Tagged(tag: byte, payloads: seq<seq<byte>>): (fs: seq<Frame>)
    ensures |fs| == |payloads|
  {
    seq(|payloads|, i requires 0 <= i < |payloads| => Frame(tag, payloads[i]))
  }

  function BlockPayloads(j: Json, blocks: seq<Block>): (ps: seq<seq<byte>>)
    ensures |ps| == |blocks|
  {
    seq(|blocks|, i requires 0 <= i < |blocks| => j.block.write(blocks[i]))
  }

  function EntryPayloads(j: Json, entries: seq<Entry>): (ps: seq<seq<byte>>)
    ensures |ps| == |entries|
  {
    seq(|entries|, i requires 0 <= i < |entries| => j.entry.write(entries[i]))
  }

  function BlockFrames(j: Json, inv: Inventory): seq<Frame> { Tagged(BLOCK, BlockPayloads(j, inv.blocks)) }

  function EntryFrames(j: Json, inv: Inventory): seq<Frame> { Tagged(ENTRY, EntryPayloads(j, inv.entries)) }

  function ArchiveFrame(j: Json, inv: Inventory): Frame { Frame(ARCHIVE, j.container.write(inv.container)) }

  function EndFrame(inv: Inventory): Frame { Frame(INVENTORY_END, Index(|inv.entries|)) }

  function ListFrames(j: Json, inv: Inventory): seq<Frame> {
    BlockFrames(j, inv) + EntryFrames(j, inv)
  }

  function InventoryFrames(j: Json, inv: Inventory): seq<Frame> {
    [ArchiveFrame(j, inv)] + ListFrames(j, inv) + [EndFrame(inv)]
  }

  function PayloadBytes(fs: seq<Frame>): nat {
    if fs == [] then 0 else PayloadBytes(fs[..|fs| - 1]) + |fs[|fs| - 1].payload|
  }

  /** What the worker is willing to send: it charges the blocks and entries, not the closing frame. */
  predicate Sendable(j: Json, inv: Inventory, limits: Limits) {
    && |inv.blocks| <= |inv.entries| <= limits.maxEntries
    && PayloadBytes(ListFrames(j, inv)) <= limits.maxIndexBytes
    && AllFit(InventoryFrames(j, inv))
  }

  lemma {:induction false} PayloadMonotone(fs: seq<Frame>, k: nat)
    requires k <= |fs|
    ensures PayloadBytes(fs[..k]) <= PayloadBytes(fs)
  {
    if k < |fs| {
      PayloadMonotone(fs[..|fs| - 1], k);
      assert fs[..|fs| - 1][..k] == fs[..k];
    } else {
      assert fs[..k] == fs;
    }
  }

  lemma {:induction false} PayloadAppend(a: seq<Frame>, b: seq<Frame>)
    ensures PayloadBytes(a + b) == PayloadBytes(a) + PayloadBytes(b)
  {
    if b == [] {
      assert a + b == a;
    } else {
      assert (a + b)[..|a + b| - 1] == a + b[..|b| - 1];
      PayloadAppend(a, b[..|b| - 1]);
    }
  }

  lemma {:induction false} NextPayload(fs: seq<Frame>, k: nat)
    requires k < |fs|
    ensures fs[..k + 1] == fs[..k] + [fs[k]]
    ensures PayloadBytes(fs[..k + 1]) == PayloadBytes(fs[..k]) + |fs[k].payload| <= PayloadBytes(fs)
    ensures AllFit(fs[..k + 1]) <==> AllFit(fs[..k]) && Fits(fs[k])
    ensures AllFit(fs) ==> Fits(fs[k])
  {
    assert fs[..k + 1][..k] == fs[..k];
    PayloadMonotone(fs, k + 1);
    FitsAppend(fs[..k], [fs[k]]);
    assert AllFit([fs[k]]) <==> Fits(fs[k]) by { assert [fs[k]][0] == fs[k]; }
  }

  /** The first frame of a list that the budget or the frame size refuses. */
  predicate StopsList(fs: seq<Frame>, spent: nat, limit: nat, n: nat) {
    && n < |fs| && AllFit(fs[..n]) && spent + PayloadBytes(fs[..n]) <= limit
    && (spent + PayloadBytes(fs[..n + 1]) > limit || !Fits(fs[n]))
  }

  /** Charges one payload and, if the budget allows, writes its frame. */
  method SendPayload(tag: byte, payload: seq<byte>, spent: nat, limit: nat, out: Writer) returns (r: Result<()>, bytes: nat)
    requires out.Valid()
    modifies out
    ensures out.Valid() && bytes == spent + |payload|
    ensures r == if bytes <= limit && Fits(Frame(tag, payload)) then Ok(()) else Err(Limit)
    ensures out.frames == old(out.frames) + if r.Ok? then [Frame(tag, payload)] else []
  {
    bytes := spent + |payload|;
    if bytes > limit { return Err(Limit), bytes; }
    r := out.WriteFrame(tag, payload);
  }

  /** Sends one list of payloads, charging each before it is written: `spent` is the bytes charged so
      far, and `sent` counts the frames that went out. */
  method SendPayloads(tag: byte, payloads: seq<seq<byte>>, spent: nat, limit: nat, out: Writer)
    returns (r: Result<()>, bytes: nat, sent: nat)
    requires out.Valid() && spent <= limit
    modifies out
    ensures out.Valid()
    ensures r.Ok? <==> spent + PayloadBytes(Tagged(tag, payloads)) <= limit && AllFit(Tagged(tag, payloads))
    ensures r.Ok? ==> sent == |payloads| && bytes == spent + PayloadBytes(Tagged(tag, payloads))
    ensures r.Err? ==> r.error == Limit && StopsList(Tagged(tag, payloads), spent, limit, sent)
    ensures sent <= |payloads| && out.frames == old(out.frames) + Tagged(tag, payloads)[..sent]
  {
    ghost var fs := Tagged(tag, payloads);
    bytes, sent := spent, 0;
    while sent < |payloads|
      invariant 0 <= sent <= |payloads| && out.Valid()
      invariant out.frames == old(out.frames) + fs[..sent]
      invariant bytes == spent + PayloadBytes(fs[..sent]) <= limit
      invariant AllFit(fs[..sent])
    {
      NextPayload(fs, sent);
      r, bytes := SendPayload(tag, payloads[sent], bytes, limit, out);
      if r.Err? { return; }
      Regroup(old(out.frames), fs[..sent], [fs[sent]]);
      sent := sent + 1;
    }
    assert fs[..sent] == fs;
    r := Ok(());
  }

  lemma {:induction false} Cut(a: seq<Frame>, b: seq<Frame>, n: nat)
    ensures n <= |a| ==> (a + b)[..n] == a[..n]
    ensures n <= |b| ==> (a + b)[..|a| + n] == a + b[..n]
  {
  }

  lemma {:induction false} StopsEarly(a: seq<Frame>, b: seq<Frame>, limit: nat, n: nat)
    requires StopsList(a, 0, limit, n)
    ensures StopsList(a + b, 0, limit, n)
  {
    Cut(a, b, n);
    Cut(a, b, n + 1);
  }

  lemma {:induction false} StopsLater(a: seq<Frame>, b: seq<Frame>, limit: nat, n: nat)
    requires AllFit(a) && StopsList(b, PayloadBytes(a), limit, n)
    ensures StopsList(a + b, 0, limit, |a| + n)
  {
    Cut(a, b, n);
    Cut(a, b, n + 1);
    PayloadAppend(a, b[..n]);
    PayloadAppend(a, b[..n + 1]);
    FitsAppend(a, b[..n]);
  }

  /** Sends the blocks and then the entries against one budget. */
  method SendLists(j: Json, inv: Inventory, limit: nat, out: Writer) returns (r: Result<()>, ghost sent: nat)
    requires out.Valid()
    modifies out
    ensures out.Valid()
    ensures r.Ok? <==> PayloadBytes(ListFrames(j, inv)) <= limit && AllFit(ListFrames(j, inv))
    ensures r.Ok? ==> sent == |ListFrames(j, inv)|
    ensures r.Err? ==> r.error == Limit && StopsList(ListFrames(j, inv), 0, limit, sent)
    ensures sent <= |ListFrames(j, inv)| && out.frames == old(out.frames) + ListFrames(j, inv)[..sent]
  {
    ghost var start, blocks, entries := out.frames, BlockFrames(j, inv), EntryFrames(j, inv);
    PayloadAppend(blocks, entries);
    FitsAppend(blocks, entries);
    var bytes, n;
    r, bytes, n := SendPayloads(BLOCK, BlockPayloads(j, inv.blocks), 0, limit, out);
    sent := n;
    if r.Err? {
      Cut(blocks, entries, n);
      StopsEarly(blocks, entries, limit, n);
      return;
    }
    assert blocks[..n] == blocks;
    r, bytes, n := SendPayloads(ENTRY, EntryPayloads(j, inv.entries), bytes, limit, out);
    sent := |blocks| + n;
    SentBoth(start, blocks, entries, n);
    if r.Err? { StopsLater(blocks, entries, limit, n); }
  }

  lemma {:induction false} SentBoth(start: seq<Frame>, a: seq<Frame>, b: seq<Frame>, n: nat)
    requires n <= |b|
    ensures (start + a) + b[..n] == start + (a + b)[..|a| + n]
    ensures n == |b| ==> |a| + n == |a + b|
  {
    Cut(a, b, n);
  }

  /** Where a refused inventory stops: before anything if its counts are bad, at an ARCHIVE frame that is
      too large, or at the first block or entry that the budget or the frame size refuses. */
  predicate StopsInventory(j: Json, inv: Inventory, limits: Limits, k: nat) {
    if |inv.entries| > limits.maxEntries || |inv.blocks| > |inv.entries| || !Fits(ArchiveFrame(j, inv)) then k == 0
    else k > 0 && StopsList(ListFrames(j, inv), 0, limits.maxIndexBytes, k - 1)
  }

  /** Writes the inventory frame by frame. It succeeds exactly for a sendable inventory, and has then
      written all its frames; refused, it has written the first `sent` of them and nothing else. */
  method SendInventory(j: Json, inv: Inventory, limits: Limits, out: Writer) returns (r: Result<()>, ghost sent: nat)
    requires out.Valid()
    modifies out
    ensures out.Valid()
    ensures r.Ok? <==> Sendable(j, inv, limits)
    ensures r.Ok? ==> sent == |InventoryFrames(j, inv)|
    ensures r.Err? ==> r.error == Limit && sent < |InventoryFrames(j, inv)| && StopsInventory(j, inv, limits, sent)
    ensures sent <= |InventoryFrames(j, inv)|
    ensures out.frames == old(out.frames) + InventoryFrames(j, inv)[..sent]
  {
    ghost var head, list, tail := [ArchiveFrame(j, inv)], ListFrames(j, inv), [EndFrame(inv)];
    FitsAppend(head, list);
    FitsAppend(head + list, tail);
    sent := 0;
    if |inv.entries| > limits.maxEntries || |inv.blocks| > |inv.entries| {
      return Err(Limit), 0;
    }
    r := out.WriteFrame(ARCHIVE, j.container.write(inv.container));
    if r.Err? { assert !Fits(head[0]); return; }
    ghost var n;
    r, n := SendLists(j, inv, limits.maxIndexBytes, out);
    sent := 1 + n;
    Regroup(old(out.frames), head, list[..n]);
    Cut(head, list, n);
    Cut(head + list, tail, sent);
    if r.Err? { return; }
    assert list[..n] == list;
    r := out.WriteFrame(INVENTORY_END, Index(|inv.entries|));
    sent := |head + list| + 1;
    Regroup(old(out.frames), head + list, tail);
    assert (head + list + tail)[..sent] == head + list + tail;
  }

  lemma {:induction false} FitsAppend(a: seq<Frame>, b: seq<Frame>)
    ensures AllFit(a + b) <==> AllFit(a) && AllFit(b)
  {
    if AllFit(a + b) {
      assert forall i :: 0 <= i < |a| ==> a[i] == (a + b)[i];
      assert forall i :: 0 <= i < |b| ==> b[i] == (a + b)[|a| + i];
    }
  }

  // ---------------------------------------------------------------- one decoded entry

  /** What one `read` of a decoder returns: some bytes, none at the end, or a failure. */
  datatype Chunk = Chunk(data: seq<byte>) | Broken

  /** An entry as decoded: its index, its declared length and the chunks its reads gave. */
  datatype Emission = Emission(index: nat, declared: nat, chunks: seq<seq<byte>>)

  function Concat(chunks: seq<seq<byte>>): seq<byte> {
    if chunks == [] then [] else Concat(chunks[..|chunks| - 1]) + chunks[|chunks| - 1]
  }

  function DataFrames(chunks: seq<seq<byte>>): (fs: seq<Frame>)
    ensures |fs| == |chunks|
  {
    seq(|chunks|, i requires 0 <= i < |chunks| => Frame(DATA, chunks[i]))
  }

  function EmitFrames(e: Emission): seq<Frame> {
    [Frame(BEGIN, Index(e.index))] + DataFrames(e.chunks) + [Frame(END, Index(e.index))]
  }

  predicate ProperChunks(chunks: seq<seq<byte>>) {
    forall i :: 0 <= i < |chunks| ==> 0 < |chunks[i]| <= MAX_FRAME
  }

  /** An emission as an honest worker makes one: whole, and of exactly the declared length. */
  predicate Honest(e: Emission) {
    ProperChunks(e.chunks) && |Concat(e.chunks)| == e.declared && e.index < TWO_64
  }

  /** The chunks up to the first empty read, failure or end of the list. */
  function Taken(feed: seq<Chunk>): seq<seq<byte>> {
    if feed == [] || feed[0].Broken? || feed[0].data == [] then [] else [feed[0].data] + Taken(feed[1..])
  }

  /** Whether the reads end in an end of file rather than a failure. */
  predicate EndsCleanly(feed: seq<Chunk>) {
    |Taken(feed)| < |feed| ==> feed[|Taken(feed)|].Chunk?
  }

  lemma {:induction false} TakenIs(feed: seq<Chunk>, k: nat)
    requires k < |Taken(feed)|
    ensures |Taken(feed)| <= |feed| && feed[k].Chunk? && feed[k].data == Taken(feed)[k] != []
  {
    if k > 0 { TakenIs(feed[1..], k - 1); } else if |Taken(feed)| > 1 { TakenIs(feed[1..], 0); }
  }

  lemma {:induction false} TakenStops(feed: seq<Chunk>)
    ensures |Taken(feed)| <= |feed|
    ensures |Taken(feed)| < |feed| ==> feed[|Taken(feed)|].Broken? || feed[|Taken(feed)|].data == []
  {
    if feed != [] && !feed[0].Broken? && feed[0].data != [] { TakenStops(feed[1..]); }
  }

  lemma {:induction false} ConcatMonotone(chunks: seq<seq<byte>>, k: nat)
    requires k <= |chunks|
    ensures |Concat(chunks[..k])| <= |Concat(chunks)|
  {
    if k < |chunks| {
      ConcatMonotone(chunks[..|chunks| - 1], k);
      assert chunks[..|chunks| - 1][..k] == chunks[..k];
    } else {
      assert chunks[..k] == chunks;
    }
  }

  /** The frames written once `k` chunks are out. */
  function PartialFrames(index: nat, chunks: seq<seq<byte>>): seq<Frame> {
    [Frame(BEGIN, Index(index))] + DataFrames(chunks)
  }

  /** Where a failed entry stops: at the first read that would exceed the declared length, or after the
      last one. */
  predicate StopsInside(feed: seq<Chunk>, declared: nat, n: nat) {
    var chunks := Taken(feed);
    && n <= |chunks| && |Concat(chunks[..n])| <= declared
    && (n < |chunks| ==> |Concat(chunks[..n + 1])| > declared)
  }

  /** A total past 64 bits is a limit; a broken read or a wrong length is corruption. */
  function StopError(feed: seq<Chunk>, n: nat): ImportError {
    if n < |Taken(feed)| && |Concat(Taken(feed)[..n + 1])| >= TWO_64 then Limit else Corrupt
  }

  /** Emits one entry. It succeeds exactly when the reads end cleanly with the declared length, and has
      then written BEGIN, one DATA frame per read and END; refused, it has written no END. */
  method Emit(index: nat, declared: nat, feed: seq<Chunk>, out: Writer) returns (r: Result<()>, ghost sent: nat)
    requires index < TWO_64 && declared < TWO_64 && out.Valid()
    requires forall i :: 0 <= i < |feed| && feed[i].Chunk? ==> |feed[i].data| <= MAX_FRAME
    modifies out
    ensures out.Valid()
    ensures r.Ok? <==> EndsCleanly(feed) && |Concat(Taken(feed))| == declared
    ensures r.Ok? ==>
              var e := Emission(index, declared, Taken(feed));
              Honest(e) && out.frames == old(out.frames) + EmitFrames(e)
    ensures r.Err? ==>
              && StopsInside(feed, declared, sent) && r.error == StopError(feed, sent)
              && out.frames == old(out.frames) + PartialFrames(index, Taken(feed)[..sent])
  {
    ghost var chunks, start := Taken(feed), out.frames;
    TakenStops(feed);
    r := out.WriteFrame(BEGIN, Index(index));
    var total, i := 0, 0;
    sent := 0;
    while true
      invariant 0 <= i == sent <= |chunks| && out.Valid()
      invariant total == |Concat(chunks[..i])| <= declared
      invariant out.frames == start + PartialFrames(index, chunks[..i])
      decreases |feed| - i
    {
      if i == |feed| { break; }
      NextRead(feed, i, index);
      if feed[i].Broken? { return Err(Corrupt), sent; }
      var data := feed[i].data;
      if data == [] { break; }
      if total + |data| >= TWO_64 { return Err(Limit), sent; }
      total := total + |data|;
      if total > declared { return Err(Corrupt), sent; }
      r := out.WriteFrame(DATA, data);
      Regroup(start, PartialFrames(index, chunks[..i]), [Frame(DATA, data)]);
      i, sent := i + 1, sent + 1;
    }
    assert i == |chunks| && chunks[..i] == chunks;
    if total != declared { return Err(Corrupt), sent; }
    r := out.WriteFrame(END, Index(index));
    Regroup(start, PartialFrames(index, chunks), [Frame(END, Index(index))]);
    ProperlyTaken(feed);
  }

  lemma {:induction false} ProperlyTaken(feed: seq<Chunk>)
    requires forall i :: 0 <= i < |feed| && feed[i].Chunk? ==> |feed[i].data| <= MAX_FRAME
    ensures ProperChunks(Taken(feed))
  {
    forall k | 0 <= k < |Taken(feed)| ensures 0 < |Taken(feed)[k]| <= MAX_FRAME { TakenIs(feed, k); }
  }

  /** The next read: the end of what is taken, or one more chunk of it. */
  lemma {:induction false} NextRead(feed: seq<Chunk>, i: nat, index: nat)
    requires i < |feed| && i <= |Taken(feed)|
    ensures i == |Taken(feed)| <==> feed[i].Broken? || feed[i].data == []
    ensures i < |Taken(feed)| ==>
      var chunks, data := Taken(feed), feed[i].data;
      && |Concat(chunks[..i + 1])| == |Concat(chunks[..i])| + |data| <= |Concat(chunks)|
      && PartialFrames(index, chunks[..i + 1]) == PartialFrames(index, chunks[..i]) + [Frame(DATA, data)]
  {
    var chunks := Taken(feed);
    TakenStops(feed);
    if i < |chunks| {
      TakenIs(feed, i);
      assert chunks[..i + 1][..i] == chunks[..i];
      ConcatMonotone(chunks, i + 1);
    }
  }

  // ---------------------------------------------------------------- the shared output

  /** One write under the lock: a frame of the worker's, or a beat. */
  datatype Write = ByWorker(frame: Frame) | ByHeart

  datatype Logged = Logged(at: nat, write: Write)

  function FrameOf(w: Write): Frame { if w.ByHeart? then BEAT else w.frame }

  function Written(ws: seq<Write>): (fs: seq<Frame>)
    ensures |fs| == |ws|
  {
    seq(|ws|, i requires 0 <= i < |ws| => FrameOf(ws[i]))
  }

  function WorkerFrames(ws: seq<Write>): seq<Frame> {
    if ws == [] then [] else (if ws[0].ByHeart? then [] else [ws[0].frame]) + WorkerFrames(ws[1..])
  }

  /** Dropping the beats leaves the worker's own frames, wherever the beats fell. */
  lemma {:induction false} BeatsDropOut(ws: seq<Write>)
    requires BEAT !in WorkerFrames(ws)
    ensures DropBeats(Written(ws)) == WorkerFrames(ws)
  {
    if ws != [] {
      BeatsDropOut(ws[1..]);
      assert Written(ws)[1..] == Written(ws[1..]);
    }
  }

  /** The one output of two threads, the decoder's and the heartbeat's, with the moment of the last write. */
  class Heartbeat {
    const interval: nat
    const started: nat
    var out: seq<byte>
    var lastWrite: nat
    ghost var log: seq<Logged>

    ghost function Writes(): (ws: seq<Write>)
      reads this
      ensures |ws| == |log|
    {
      var entries := log;
      seq(|entries|, i requires 0 <= i < |entries| => entries[i].write)
    }

    ghost function Before(i: nat): nat
      requires i <= |log|
      reads this
    {
      if i == 0 then started else log[i - 1].at
    }

    /** The output is whole frames in the order written, and every beat waited out the interval. */
    ghost predicate Valid()
      reads this
    {
      && out == EncodeAll(Written(Writes()))
      && lastWrite == Before(|log|)
      && (forall i :: 0 <= i < |log| && log[i].write.ByHeart? ==> log[i].at >= Before(i) + interval)
    }

    constructor (interval: nat, now: nat)
      ensures Valid() && log == [] && this.interval == interval && lastWrite == now
    {
      this.interval := interval;
      started := now;
      out := [];
      lastWrite := now;
      log := [];
    }

    ghost method Record(now: nat, w: Write)
      requires out == EncodeAll(Written(Writes())) + Encode(FrameOf(w))
      requires forall i :: 0 <= i < |log| && log[i].write.ByHeart? ==> log[i].at >= Before(i) + interval
      requires w.ByHeart? ==> now >= Before(|log|) + interval
      requires lastWrite == now
      modifies this`log
      ensures Valid() && log == old(log) + [Logged(now, w)]
    {
      ghost var before := Written(Writes());
      log := log + [Logged(now, w)];
      assert Written(Writes()) == before + [FrameOf(w)];
      EncodeAppend(before, [FrameOf(w)]);
      assert EncodeAll([FrameOf(w)]) == Encode(FrameOf(w)) + EncodeAll([]);
      assert forall i :: 0 <= i < |log| ==> Before(i) == old(Before(i));
    }

    /** The worker writes one frame: one write under one lock, which restarts the interval. */
    method WriteFrame(f: Frame, now: nat)
      requires Valid()
      modifies this
      ensures Valid() && log == old(log) + [Logged(now, ByWorker(f))] && lastWrite == now
    {
      out := out + Encode(f);
      lastWrite := now;
      Record(now, ByWorker(f));
    }

    /** The heartbeat thread wakes: it writes a beat only after a whole silent interval. */
    method Wake(now: nat) returns (beat: bool)
      requires Valid()
      modifies this
      ensures Valid()
      ensures beat <==> now >= old(lastWrite) + interval
      ensures log == old(log) + (if beat then [Logged(now, ByHeart)] else [])
      ensures lastWrite == if beat then now else old(lastWrite)
    {
      beat := now >= lastWrite + interval;
      if beat {
        out := out + Encode(BEAT);
        lastWrite := now;
        Record(now, ByHeart);
      }
    }
  }
}
