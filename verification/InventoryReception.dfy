/**
 How the client takes an inventory from the worker: READY, ARCHIVE, the blocks and entries, and
 INVENTORY_END, against the caller's limits.

 The channel is the frames the reader thread forwarded, followed by the error that ends it; a
 cancellation or timeout is a channel that ends there.
 */
module InventoryReception {
  import opened Common
  import opened Bytes
  import opened Protocol
  import opened Worker

  /** "arclain-import-v1" */
  const GREETING: seq<byte> := [97, 114, 99, 108, 97, 105, 110, 45, 105, 109, 112, 111, 114, 116, 45, 118, 49]

  /** What arrives on the channel: frames, then one error. `report` reads a FAILURE payload. */
  datatype Channel = Channel(frames: seq<Frame>, closing: ImportError, report: seq<byte> -> Option<ImportError>)

  function Receive(ch: Channel): Result<(Frame, Channel)> {
    if ch.frames == [] then Err(if ch.closing == Io then WorkerFailed else ch.closing) else
    var f := ch.frames[0];
    if f.tag == FAILURE then
      Err(match ch.report(f.payload) case Some(e) => e case None => Corrupt)
    else Ok((f, ch.(frames := ch.frames[1..])))
  }

  /** One frame of the inventory loop, `charged` payload bytes in: the inventory so far, or its end. */
  function Take(j: Json, limits: Limits, inv: Inventory, charged: nat, f: Frame): Result<Option<Inventory>> {
    if charged + |f.payload| >= TWO_64 || charged + |f.payload| > limits.maxIndexBytes then Err(Limit)
    else if f.tag == BLOCK then
      if inv.entries != [] || |inv.blocks| >= limits.maxEntries then Err(Limit) else
      match j.block.read(f.payload)
      case None => Err(Corrupt)
      case Some(b) => Ok(Some(inv.(blocks := inv.blocks + [b])))
    else if f.tag == ENTRY then
      if |inv.entries| >= limits.maxEntries then Err(Limit) else
      match j.entry.read(f.payload)
      case None => Err(Corrupt)
      case Some(e) => Ok(Some(inv.(entries := inv.entries + [e])))
    else if f.tag == INVENTORY_END then
      match ReadIndex(f.payload)
      case Err(e) => Err(e)
      case Ok(n) => if n != |inv.entries| then Err(Corrupt) else Ok(None)
    else Err(Corrupt)
  }

  function Collect(j: Json, limits: Limits, ch: Channel, inv: Inventory, charged: nat): Result<(Inventory, Channel)>
    decreases |ch.frames|
  {
    match Receive(ch)
    case Err(e) => Err(e)
    case Ok((f, ch')) =>
      match Take(j, limits, inv, charged, f)
      case Err(e) => Err(e)
      case Ok(None) => Ok((inv, ch'))
      case Ok(Some(inv')) => Collect(j, limits, ch', inv', charged + |f.payload|)
  }

  predicate WellIndexed(inv: Inventory) {
    forall i :: 0 <= i < |inv.entries| ==> inv.entries[i].index == i
  }

  function Open(j: Json, limits: Limits, ch: Channel): Result<(Inventory, Channel)> {
    match Receive(ch)
    case Err(e) => Err(e)
    case Ok((ready, ch1)) =>
      if ready.tag != READY || ready.payload != GREETING then Err(Corrupt) else
      match Receive(ch1)
      case Err(e) => Err(e)
      case Ok((archive, ch2)) =>
        if archive.tag != ARCHIVE then Err(Corrupt) else
        match j.container.read(archive.payload)
        case None => Err(Corrupt)
        case Some(container) =>
          match Collect(j, limits, ch2, Inventory(container, [], []), 0)
          case Err(e) => Err(e)
          case Ok((inv, ch3)) => if WellIndexed(inv) then Ok((inv, ch3)) else Err(Corrupt)
  }

  /** The same as a loop over the channel, as `ArchiveClient::open` runs it. */
  method ReceiveInventory(j: Json, limits: Limits, start: Channel, container: nat)
    returns (r: Result<(Inventory, Channel)>)
    ensures r == match Collect(j, limits, start, Inventory(container, [], []), 0)
                 case Err(e) => Err(e)
                 case Ok((inv, ch)) => if WellIndexed(inv) then Ok((inv, ch)) else Err(Corrupt)
  {
    var ch := start;
    var metadata: nat := 0;
    var blocks: seq<Block>, entries: seq<Entry> := [], [];
    ghost var whole := Collect(j, limits, start, Inventory(container, [], []), 0);
    while true
      invariant Collect(j, limits, ch, Inventory(container, blocks, entries), metadata) == whole
      decreases |ch.frames|
    {
      var got := Receive(ch);
      if got.Err? { return Err(got.error); }
      var (f, ch') := got.value;
      if metadata + |f.payload| >= TWO_64 { return Err(Limit); }
      metadata := metadata + |f.payload|;
      if metadata > limits.maxIndexBytes { return Err(Limit); }
      ch := ch';
      if f.tag == BLOCK {
        if entries != [] || |blocks| >= limits.maxEntries { return Err(Limit); }
        var parsed := j.block.read(f.payload);
        if parsed.None? { return Err(Corrupt); }
        blocks := blocks + [parsed.value];
      } else if f.tag == ENTRY {
        if |entries| >= limits.maxEntries { return Err(Limit); }
        var parsed := j.entry.read(f.payload);
        if parsed.None? { return Err(Corrupt); }
        entries := entries + [parsed.value];
      } else if f.tag == INVENTORY_END {
        var n := ReadIndex(f.payload);
        if n.Err? { return Err(n.error); }
        if n.value != |entries| { return Err(Corrupt); }
        break;
      } else {
        return Err(Corrupt);
      }
    }
    var i := 0;
    while i < |entries|
      invariant 0 <= i <= |entries|
      invariant forall k :: 0 <= k < i ==> entries[k].index == k
      invariant whole == Ok((Inventory(container, blocks, entries), ch))
    {
      if entries[i].index != i { return Err(Corrupt); }
      i := i + 1;
    }
    r := Ok((Inventory(container, blocks, entries), ch));
  }

  // ---------------------------------------------------------------- what is refused, and why

  /** A frame of the inventory is over the limit if its bytes or its item are too many, or if it is a block
      after an entry; otherwise it is corrupt if it cannot be read, miscounts, or does not belong there. */
  lemma {:induction false} WhyRefused(j: Json, limits: Limits, inv: Inventory, charged: nat, f: Frame)
    requires limits.maxIndexBytes < TWO_64
    ensures
      var over := charged + |f.payload| > limits.maxIndexBytes;
      var late := f.tag == BLOCK && (inv.entries != [] || |inv.blocks| >= limits.maxEntries);
      var many := f.tag == ENTRY && |inv.entries| >= limits.maxEntries;
      var bad := match f.tag
        case 4 => j.block.read(f.payload).None?
        case 5 => j.entry.read(f.payload).None?
        case 6 => f.payload != Index(|inv.entries|) || |inv.entries| >= TWO_64
        case _ => true;
      && (Take(j, limits, inv, charged, f) == Err(Limit) <==> over || late || many)
      && (Take(j, limits, inv, charged, f) == Err(Corrupt) <==> (!over && !late && !many && bad))
  {
    IndexIsEightBytes(f.payload);
    if |inv.entries| < TWO_64 { IndexReadsBack(|inv.entries|); }
  }

  lemma {:induction false} GreetingIs()
    ensures GREETING == Ascii("arclain-import-v1")
  {
  }

  /** A channel that has run dry gives the error that closed it, a broken pipe as a failed worker; and a
      reported failure gives the error reported. */
  lemma {:induction false} WhyNothingComes(ch: Channel)
    ensures Receive(ch).Err? <==> ch.frames == [] || ch.frames[0].tag == FAILURE
    ensures ch.frames == [] && ch.closing == Io ==> Receive(ch) == Err(WorkerFailed)
    ensures ch.frames == [] && ch.closing != Io ==> Receive(ch) == Err(ch.closing)
    ensures ch.frames != [] && ch.frames[0].tag == FAILURE && ch.report(ch.frames[0].payload).Some? ==>
              Receive(ch) == Err(ch.report(ch.frames[0].payload).value)
    ensures ch.frames != [] && ch.frames[0].tag == FAILURE && ch.report(ch.frames[0].payload).None? ==>
              Receive(ch) == Err(Corrupt)
  {
  }

  // ---------------------------------------------------------------- what an accepted inventory is

  /** `fs` is the blocks and then the entries of `inv`, each frame reading as its item. */
  ghost predicate Lists(j: Json, inv: Inventory, fs: seq<Frame>) {
    && |fs| == |inv.blocks| + |inv.entries|
    && (forall i :: 0 <= i < |inv.blocks| ==> fs[i].tag == BLOCK && j.block.read(fs[i].payload) == Some(inv.blocks[i]))
    && (forall i :: |inv.blocks| <= i < |fs| ==>
          fs[i].tag == ENTRY && j.entry.read(fs[i].payload) == Some(inv.entries[i - |inv.blocks|]))
  }

  ghost predicate WithinLimits(limits: Limits, inv: Inventory, fs: seq<Frame>) {
    && |inv.blocks| <= limits.maxEntries && |inv.entries| <= limits.maxEntries
    && PayloadBytes(fs) <= limits.maxIndexBytes
  }

  /** What was taken before `rest`: the lists of `inv`, then an end frame counting its entries. */
  ghost predicate TakenAs(j: Json, limits: Limits, inv: Inventory, frames: seq<Frame>, rest: seq<Frame>) {
    && |rest| < |frames| && frames[|frames| - |rest|..] == rest
    && var n := |frames| - |rest| - 1;
       && Lists(j, inv, frames[..n])
       && frames[n].tag == INVENTORY_END && ReadIndex(frames[n].payload) == Ok(|inv.entries|)
       && WithinLimits(limits, inv, frames[..n + 1])
  }

  lemma {:induction false} OneMoreBlock(j: Json, inv: Inventory, pre: seq<Frame>, f: Frame, b: Block)
    requires Lists(j, inv, pre) && inv.entries == [] && f.tag == BLOCK && j.block.read(f.payload) == Some(b)
    ensures Lists(j, inv.(blocks := inv.blocks + [b]), pre + [f])
  {
    assert forall i :: 0 <= i < |pre| ==> (pre + [f])[i] == pre[i];
  }

  lemma {:induction false} OneMoreEntry(j: Json, inv: Inventory, pre: seq<Frame>, f: Frame, e: Entry)
    requires Lists(j, inv, pre) && f.tag == ENTRY && j.entry.read(f.payload) == Some(e)
    ensures Lists(j, inv.(entries := inv.entries + [e]), pre + [f])
  {
    assert forall i :: 0 <= i < |pre| ==> (pre + [f])[i] == pre[i];
  }

  lemma {:induction false} TakeKeepsLists(j: Json, limits: Limits, inv: Inventory, pre: seq<Frame>, f: Frame)
    requires Lists(j, inv, pre) && WithinLimits(limits, inv, pre)
    requires Take(j, limits, inv, PayloadBytes(pre), f).Ok?
    ensures PayloadBytes(pre + [f]) == PayloadBytes(pre) + |f.payload| <= limits.maxIndexBytes
    ensures match Take(j, limits, inv, PayloadBytes(pre), f).value
            case None => f.tag == INVENTORY_END && ReadIndex(f.payload) == Ok(|inv.entries|)
            case Some(inv') => Lists(j, inv', pre + [f]) && WithinLimits(limits, inv', pre + [f])
                               && inv'.container == inv.container
  {
    assert (pre + [f])[..|pre|] == pre;
    if f.tag == BLOCK {
      OneMoreBlock(j, inv, pre, f, j.block.read(f.payload).value);
    } else if f.tag == ENTRY {
      OneMoreEntry(j, inv, pre, f, j.entry.read(f.payload).value);
    }
  }

  lemma {:induction false} CollectIsSound(j: Json, limits: Limits, ch: Channel, inv: Inventory, pre: seq<Frame>)
    requires Lists(j, inv, pre) && WithinLimits(limits, inv, pre)
    requires Collect(j, limits, ch, inv, PayloadBytes(pre)).Ok?
    ensures
      var (out, ch') := Collect(j, limits, ch, inv, PayloadBytes(pre)).value;
      TakenAs(j, limits, out, pre + ch.frames, ch'.frames) && out.container == inv.container
    decreases |ch.frames|
  {
    var (f, next) := Receive(ch).value;
    TakeKeepsLists(j, limits, inv, pre, f);
    assert pre + ch.frames == (pre + [f]) + next.frames;
    match Take(j, limits, inv, PayloadBytes(pre), f) {
      case Ok(Some(inv')) => CollectIsSound(j, limits, next, inv', pre + [f]);
      case Ok(None) => EndsHere(j, limits, inv, pre, f, next.frames);
    }
  }

  lemma {:induction false} EndsHere(j: Json, limits: Limits, inv: Inventory, pre: seq<Frame>, f: Frame, rest: seq<Frame>)
    requires Lists(j, inv, pre) && WithinLimits(limits, inv, pre + [f])
    requires f.tag == INVENTORY_END && ReadIndex(f.payload) == Ok(|inv.entries|)
    ensures TakenAs(j, limits, inv, pre + [f] + rest, rest)
  {
    var all := pre + [f] + rest;
    assert all[|all| - |rest|..] == rest;
    assert all[..|pre|] == pre && all[..|pre| + 1] == pre + [f];
  }

  /** Any inventory the client accepts, whatever the worker sent: blocks before entries, both counts
      within `max_entries`, entry i carrying index i, and all payload, the end frame's included, within
      `max_index_bytes`. */
  lemma {:induction false} AcceptedInventory(j: Json, limits: Limits, ch: Channel)
    requires Open(j, limits, ch).Ok?
    ensures
      var (inv, ch') := Open(j, limits, ch).value;
      && |ch.frames| > 2 && ch.frames[0] == Frame(READY, GREETING) && ch.frames[1].tag == ARCHIVE
      && j.container.read(ch.frames[1].payload) == Some(inv.container)
      && TakenAs(j, limits, inv, ch.frames[2..], ch'.frames)
      && WellIndexed(inv)
  {
    var ch2 := ch.(frames := ch.frames[1..][1..]);
    assert ch.frames[1..][1..] == ch.frames[2..];
    var container := j.container.read(ch.frames[1].payload).value;
    CollectIsSound(j, limits, ch2, Inventory(container, [], []), []);
    assert [] + ch2.frames == ch.frames[2..];
  }

  // ---------------------------------------------------------------- an honest inventory

  function FirstItems(inv: Inventory, k: nat): Inventory
    requires k <= |inv.blocks| + |inv.entries|
  {
    if k <= |inv.blocks| then inv.(blocks := inv.blocks[..k], entries := [])
    else inv.(entries := inv.entries[..k - |inv.blocks|])
  }

  lemma {:induction false} TakeBlock(j: Json, limits: Limits, inv: Inventory, k: nat, charged: nat)
    requires FaithfulJson(j) && k < |inv.blocks| <= limits.maxEntries && limits.maxIndexBytes < TWO_64
    requires charged + |j.block.write(inv.blocks[k])| <= limits.maxIndexBytes
    ensures Take(j, limits, FirstItems(inv, k), charged, Frame(BLOCK, j.block.write(inv.blocks[k])))
      == Ok(Some(FirstItems(inv, k + 1)))
  {
    assert inv.blocks[..k + 1] == inv.blocks[..k] + [inv.blocks[k]];
  }

  lemma {:induction false} TakeEntry(j: Json, limits: Limits, inv: Inventory, i: nat, charged: nat)
    requires FaithfulJson(j) && i < |inv.entries| <= limits.maxEntries && limits.maxIndexBytes < TWO_64
    requires charged + |j.entry.write(inv.entries[i])| <= limits.maxIndexBytes
    ensures Take(j, limits, FirstItems(inv, |inv.blocks| + i), charged, Frame(ENTRY, j.entry.write(inv.entries[i])))
      == Ok(Some(FirstItems(inv, |inv.blocks| + i + 1)))
  {
    assert inv.entries[..i + 1] == inv.entries[..i] + [inv.entries[i]];
    assert inv.blocks[..|inv.blocks|] == inv.blocks && inv.entries[..0] == [];
  }

  lemma {:induction false} TakeHonest(j: Json, limits: Limits, inv: Inventory, k: nat)
    requires FaithfulJson(j) && Sendable(j, inv, limits) && limits.maxIndexBytes < TWO_64
    requires k < |ListFrames(j, inv)|
    ensures
      var list := ListFrames(j, inv);
      && PayloadBytes(list[..k + 1]) == PayloadBytes(list[..k]) + |list[k].payload|
      && Take(j, limits, FirstItems(inv, k), PayloadBytes(list[..k]), list[k]) == Ok(Some(FirstItems(inv, k + 1)))
  {
    var list := ListFrames(j, inv);
    NextPayload(list, k);
    if k < |inv.blocks| {
      assert list[k] == Frame(BLOCK, j.block.write(inv.blocks[k]));
      TakeBlock(j, limits, inv, k, PayloadBytes(list[..k]));
    } else {
      var i := k - |inv.blocks|;
      assert list[k] == Frame(ENTRY, j.entry.write(inv.entries[i]));
      TakeEntry(j, limits, inv, i, PayloadBytes(list[..k]));
    }
  }

  lemma {:induction false} AllItems(inv: Inventory)
    ensures FirstItems(inv, |inv.blocks| + |inv.entries|) == inv
  {
    assert inv.entries[..|inv.entries|] == inv.entries && inv.blocks[..|inv.blocks|] == inv.blocks;
    assert |inv.entries| == 0 ==> inv.entries == [];
  }

  lemma {:induction false} EndHonest(j: Json, limits: Limits, inv: Inventory, ch: Channel, rest: seq<Frame>, charged: nat)
    requires |inv.entries| < TWO_64 && limits.maxIndexBytes < TWO_64
    requires ch.frames == [EndFrame(inv)] + rest
    ensures Collect(j, limits, ch, inv, charged) ==
            if charged + 8 <= limits.maxIndexBytes then Ok((inv, ch.(frames := rest))) else Err(Limit)
  {
    assert ch.frames[0] == EndFrame(inv) && ch.frames[1..] == rest;
    IndexReadsBack(|inv.entries|);
  }

  lemma {:induction false} CollectStep(j: Json, limits: Limits, ch: Channel, inv: Inventory, charged: nat, inv': Inventory)
    requires ch.frames != [] && ch.frames[0].tag != FAILURE
    requires Take(j, limits, inv, charged, ch.frames[0]) == Ok(Some(inv'))
    ensures Collect(j, limits, ch, inv, charged)
      == Collect(j, limits, ch.(frames := ch.frames[1..]), inv', charged + |ch.frames[0].payload|)
  {
  }

  lemma {:induction false} NextFrame(list: seq<Frame>, k: nat, end: Frame, rest: seq<Frame>)
    requires k < |list|
    ensures var fs := list[k..] + [end] + rest; fs[0] == list[k] && fs[1..] == list[k + 1..] + [end] + rest
  {
  }

  lemma {:induction false} HonestStep(j: Json, limits: Limits, inv: Inventory, ch: Channel, rest: seq<Frame>, k: nat)
    requires FaithfulJson(j) && Sendable(j, inv, limits) && limits.maxIndexBytes < TWO_64
    requires k < |ListFrames(j, inv)|
    requires ch.frames == ListFrames(j, inv)[k..] + [EndFrame(inv)] + rest
    ensures
      var list, next := ListFrames(j, inv), ch.(frames := ch.frames[1..]);
      && next.frames == list[k + 1..] + [EndFrame(inv)] + rest
      && Collect(j, limits, ch, FirstItems(inv, k), PayloadBytes(list[..k]))
         == Collect(j, limits, next, FirstItems(inv, k + 1), PayloadBytes(list[..k + 1]))
  {
    var list := ListFrames(j, inv);
    NextFrame(list, k, EndFrame(inv), rest);
    TakeHonest(j, limits, inv, k);
    CollectStep(j, limits, ch, FirstItems(inv, k), PayloadBytes(list[..k]), FirstItems(inv, k + 1));
  }

  /** After `k` of the honest list frames, collection goes on to accept exactly when the end frame's
      eight bytes still fit. */
  lemma {:induction false} CollectHonest(j: Json, limits: Limits, inv: Inventory, ch: Channel, rest: seq<Frame>, k: nat)
    requires FaithfulJson(j) && Sendable(j, inv, limits)
    requires limits.maxEntries < TWO_64 && limits.maxIndexBytes < TWO_64
    requires k <= |ListFrames(j, inv)|
    requires ch.frames == ListFrames(j, inv)[k..] + [EndFrame(inv)] + rest
    ensures
      var list := ListFrames(j, inv);
      Collect(j, limits, ch, FirstItems(inv, k), PayloadBytes(list[..k])) ==
        if PayloadBytes(list) + 8 <= limits.maxIndexBytes then Ok((inv, ch.(frames := rest))) else Err(Limit)
    decreases |inv.blocks| + |inv.entries| - k
  {
    var list := ListFrames(j, inv);
    if k == |list| {
      assert list[..k] == list && list[k..] == [];
      AllItems(inv);
      EndHonest(j, limits, inv, ch, rest, PayloadBytes(list));
    } else {
      HonestStep(j, limits, inv, ch, rest, k);
      CollectHonest(j, limits, inv, ch.(frames := ch.frames[1..]), rest, k + 1);
    }
  }

  /** An inventory the worker was willing to send arrives unchanged exactly when its entries carry
      their own positions and its payload leaves room for the end frame: the client charges those eight
      bytes to the budget and the worker does not. */
  lemma {:induction false} HonestInventoryArrives(j: Json, limits: Limits, inv: Inventory, ch: Channel, rest: seq<Frame>)
    requires FaithfulJson(j) && Sendable(j, inv, limits)
    requires limits.maxEntries < TWO_64 && limits.maxIndexBytes < TWO_64
    requires ch.frames == [Frame(READY, GREETING)] + InventoryFrames(j, inv) + rest
    ensures Open(j, limits, ch).Ok? <==>
            WellIndexed(inv) && PayloadBytes(ListFrames(j, inv)) + 8 <= limits.maxIndexBytes
    ensures Open(j, limits, ch).Ok? ==> Open(j, limits, ch).value == (inv, ch.(frames := rest))
    ensures PayloadBytes(ListFrames(j, inv)) + 8 > limits.maxIndexBytes ==> Open(j, limits, ch) == Err(Limit)
    ensures PayloadBytes(ListFrames(j, inv)) + 8 <= limits.maxIndexBytes && !WellIndexed(inv) ==>
            Open(j, limits, ch) == Err(Corrupt)
  {
    var list := ListFrames(j, inv);
    assert ch.frames[0] == Frame(READY, GREETING) && ch.frames[1] == ArchiveFrame(j, inv);
    var ch2 := ch.(frames := ch.frames[1..][1..]);
    assert ch2.frames == list[0..] + [EndFrame(inv)] + rest;
    assert FirstItems(inv, 0) == Inventory(inv.container, [], []) && PayloadBytes(list[..0]) == 0;
    CollectHonest(j, limits, inv, ch2, rest, 0);
  }

  /** The gap is real: here the worker sends an inventory that the client then refuses. */
  lemma {:induction false} EndFrameCanBeRefused(j: Json, ch: Channel)
    requires FaithfulJson(j) && |j.container.write(0)| <= MAX_FRAME
    requires
      ch.frames == [Frame(READY, GREETING)] + InventoryFrames(j, Inventory(0, [], []))
    ensures Sendable(j, Inventory(0, [], []), Limits(0, 7))
    ensures Open(j, Limits(0, 7), ch) == Err(Limit)
  {
    var inv, limits := Inventory(0, [], []), Limits(0, 7);
    assert ListFrames(j, inv) == [];
    assert AllFit(InventoryFrames(j, inv));
    assert ch.frames == [Frame(READY, GREETING)] + InventoryFrames(j, inv) + [];
    var ch2 := ch.(frames := ch.frames[1..][1..]);
    assert ch.frames[1] == ArchiveFrame(j, inv) && ch2.frames == [EndFrame(inv)];
  }
}
