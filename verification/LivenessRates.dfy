/**
 The rate windows of the archive client's watchdog: what the two counters hold, when a window closes,
 and what a kill for trickling says about the frames it judged.
 */
module LivenessRates {
  import opened Common
  import opened Liveness

  function Sum(s: seq<nat>): nat { if s == [] then 0 else Sum(s[..|s| - 1]) + s[|s| - 1] }

  // ---------------------------------------------------------------- the rate windows

  /** An upper bound on the waiting added so far: the waits are disjoint stretches of the clock. */
  function WaitBound(s: State): nat {
    match s.reader.pc
    case Began(at) => at
    case Reading(at) => at
    case Returned(at, _) => at
    case Cleared(at, _) => at
    case Counted(at, _) => at
    case Timed(_, waited) => SatSub(Sat(s.clock), waited)
    case _ => Sat(s.clock)
  }

  /** The counters are the sums of what the reader added; bytes run at most one frame ahead. */
  ghost predicate CountInv(s: State) {
    && s.a.waitMs == Sum(s.h.waits) <= WaitBound(s) <= Sat(s.clock)
    && s.a.bytes == Wrap(Sum(s.h.sizes))
    && |s.h.sizes| == |s.h.waits| + (if s.reader.pc.Counted? || s.reader.pc.Timed? then 1 else 0)
    && (s.reader.pc.Timed? ==> s.reader.pc.waited <= Sat(s.clock))
  }

  lemma {:induction false} BytesCounted(s: State, seen: Seen, hungUp: bool)
    requires CountInv(s) && s.reader.pc.Cleared? && s.reader.streaming
    ensures CountInv(ReaderStep(s, seen, hungUp))
  {
    var n := if s.reader.pc.seen.Data? then s.reader.pc.seen.size else 0;
    SumAppend(s.h.sizes, n);
  }

  lemma {:induction false} WaitCounted(s: State, seen: Seen, hungUp: bool)
    requires CountInv(s) && s.reader.pc.Timed?
    ensures CountInv(ReaderStep(s, seen, hungUp))
  {
    var s', waited := ReaderStep(s, seen, hungUp), s.reader.pc.waited;
    SumAppend(s.h.waits, waited);
    assert s.a.waitMs + waited <= U64_MAX;
    assert Wrap(s.a.waitMs + waited) == s.a.waitMs + waited;
    assert WaitBound(s') == Sat(s.clock);
  }

  lemma {:induction false} CountByWaiting(s: State, seen: Seen)
    requires CountInv(s) && AtWait(s.reader.pc)
    ensures CountInv(WaitingStep(s, seen))
  {
    WaitingFrame(s, seen);
  }

  lemma {:induction false} CountByAccounting(s: State, seen: Seen, hungUp: bool)
    requires CountInv(s) && !AtWait(s.reader.pc)
    ensures CountInv(AccountingStep(s, hungUp))
  {
    if s.reader.pc.Cleared? && s.reader.streaming {
      BytesCounted(s, seen, hungUp);
    } else if s.reader.pc.Timed? {
      WaitCounted(s, seen, hungUp);
    }
  }

  lemma {:induction false} CountsGrow(cfg: Config, s: State, act: Action)
    ensures s.h.waits <= Step(cfg, s, act).h.waits && s.h.sizes <= Step(cfg, s, act).h.sizes
  {
    match act {
      case Tick(_) =>
      case Read(seen, hungUp) => if AtWait(s.reader.pc) { WaitingFrame(s, seen); }
      case Watching(cancelled) => WatchFrame(cfg, s, cancelled);
      case _ => CallFrame(s, act);
    }
  }

  lemma {:induction false} CountByReader(s: State, seen: Seen, hungUp: bool)
    requires CountInv(s)
    ensures CountInv(ReaderStep(s, seen, hungUp))
  {
    if AtWait(s.reader.pc) { CountByWaiting(s, seen); } else { CountByAccounting(s, seen, hungUp); }
  }

  lemma {:induction false} CountByWatch(cfg: Config, s: State, cancelled: bool)
    requires CountInv(s)
    ensures CountInv(WatchStep(cfg, s, cancelled))
  {
    WatchFrame(cfg, s, cancelled);
  }

  lemma {:induction false} CountByCall(s: State, act: Action)
    requires CountInv(s)
    ensures CountInv(CallStep(s, act))
  {
    CallFrame(s, act);
  }

  lemma {:induction false} CountByTick(s: State, ms: nat)
    requires CountInv(s)
    ensures CountInv(s.(clock := s.clock + ms))
  {
  }

  lemma {:induction false} CountStep(cfg: Config, s: State, act: Action)
    requires CountInv(s)
    ensures CountInv(Step(cfg, s, act))
  {
    match act {
      case Tick(ms) => CountByTick(s, ms);
      case Read(seen, hungUp) => CountByReader(s, seen, hungUp);
      case Watching(cancelled) => CountByWatch(cfg, s, cancelled);
      case _ => CountByCall(s, act);
    }
  }

  lemma {:induction false} SumAppend(s: seq<nat>, n: nat)
    ensures Sum(s + [n]) == Sum(s) + n
    ensures Wrap(Wrap(Sum(s)) + n) == Wrap(Sum(s + [n]))
  {
    assert (s + [n])[..|s|] == s;
  }

  // ---------------------------------------------------------------- which frames count

  /** Whether an entry is streaming after these frames: a BEGIN without its END. */
  function Streaming(fs: seq<Seen>): bool {
    if fs == [] then false else
    var last := fs[|fs| - 1];
    last.Begin? || (!last.End? && Streaming(fs[..|fs| - 1]))
  }

  function Payload(v: Seen): nat { if v.Data? then v.size else 0 }

  /** The payloads of the frames that arrive while an entry streams, its END included. */
  function StreamedSizes(fs: seq<Seen>): seq<nat> {
    if fs == [] then [] else
    var init := fs[..|fs| - 1];
    StreamedSizes(init) + if Streaming(init) then [Payload(fs[|fs| - 1])] else []
  }

  /** The wait of one frame, by its two clock readings. */
  function Waited(m: (nat, nat)): nat { SatSub(Sat(m.1), Sat(m.0)) }

  predicate Pending(pc: ReaderPc) { pc.Returned? || pc.Cleared? || pc.Counted? || pc.Timed? || pc.Accounted? }

  function Before(fs: seq<Seen>): seq<Seen> { if fs == [] then [] else fs[..|fs| - 1] }

  /** The reader's flag says whether an entry streams, and what it has counted is what streamed. */
  ghost predicate StreamInv(s: State) {
    var pc, fs := s.reader.pc, s.h.frames;
    && (Pending(pc) ==> fs != [] && fs[|fs| - 1] == pc.seen)
    && s.reader.streaming == Streaming(if Pending(pc) then Before(fs) else fs)
    && s.h.sizes == StreamedSizes(if pc.Returned? || pc.Cleared? then Before(fs) else fs)
    && (pc.Counted? || pc.Timed? ==> s.reader.streaming)
    && (pc.Sending? ==> fs != [] && fs[|fs| - 1] == pc.seen)
    && (fs != [] && fs[|fs| - 1].Failed? ==> Pending(pc) || pc.Sending? || pc.Stopped?)
    && forall i :: 0 <= i < |fs| - 1 ==> !fs[i].Failed?
  }

  /** What the reader hands over: everything but heartbeats. */
  function NoBeats(fs: seq<Seen>): seq<Seen> {
    if fs == [] then [] else NoBeats(fs[..|fs| - 1]) + if fs[|fs| - 1].Beat? then [] else [fs[|fs| - 1]]
  }

  /** Every frame but a heartbeat is handed over once, in order; and no more is read once nobody takes them. */
  ghost predicate HandInv(s: State) {
    var pc := s.reader.pc;
    && (s.h.gone ==> pc.Stopped?)
    && (pc.Sending? ==> !pc.seen.Beat?)
    && (!s.h.gone ==> s.h.handed == NoBeats(if Pending(pc) || pc.Sending? then Before(s.h.frames) else s.h.frames))
  }

  lemma {:induction false} HandByWaiting(s: State, seen: Seen)
    requires AtWait(s.reader.pc) && StreamInv(s) && HandInv(s)
    ensures HandInv(WaitingStep(s, seen))
  {
    var s' := WaitingStep(s, seen);
    WaitingFrame(s, seen);
    if s.reader.pc.Reading? { assert Before(s'.h.frames) == s.h.frames; }
  }

  lemma {:induction false} HandByAccounting(s: State, hungUp: bool)
    requires !AtWait(s.reader.pc) && StreamInv(s) && HandInv(s)
    ensures HandInv(AccountingStep(s, hungUp))
  {
    AccountingFrame(s, hungUp);
  }

  lemma {:induction false} HandStep(cfg: Config, s: State, act: Action)
    requires StreamInv(s) && HandInv(s)
    ensures HandInv(Step(cfg, s, act))
  {
    if !act.Read? {
      FlowFrame(cfg, s, act);
    } else if AtWait(s.reader.pc) {
      HandByWaiting(s, act.seen);
    } else {
      HandByAccounting(s, act.hungUp);
    }
  }

  /** Each wait that was added is the time between the reader's two clock readings around its frame. */
  ghost predicate MeasureInv(s: State) {
    var pc := s.reader.pc;
    && (pc.Cleared? || pc.Counted? ==> pc.at == Sat(s.truth.readAt))
    && (pc.Timed? ==> pc.waited == Waited((s.truth.readAt, s.truth.timedAt)))
    && |s.h.waits| == |s.h.measured|
    && forall i :: 0 <= i < |s.h.waits| ==> s.h.waits[i] == Waited(s.h.measured[i])
  }

  lemma {:induction false} StreamByReturning(s: State, seen: Seen)
    requires s.reader.pc.Reading? && StreamInv(s)
    ensures StreamInv(WaitingStep(s, seen))
  {
    var s', fs := WaitingStep(s, seen), s.h.frames;
    OneMoreFrame(fs, seen);
    assert s'.h.frames == fs + [seen] && s'.h.sizes == s.h.sizes;
    assert s'.reader.pc.Returned? && s'.reader.pc.seen == seen && s'.reader.streaming == s.reader.streaming;
  }

  lemma {:induction false} OneMoreFrame(fs: seq<Seen>, seen: Seen)
    ensures Before(fs + [seen]) == fs && (fs + [seen])[|fs|] == seen
  {
  }

  lemma {:induction false} StreamByWaiting(s: State, seen: Seen)
    requires AtWait(s.reader.pc) && StreamInv(s)
    ensures StreamInv(WaitingStep(s, seen))
  {
    if s.reader.pc.Reading? { StreamByReturning(s, seen); } else { WaitingFrame(s, seen); }
  }

  lemma {:induction false} StreamByCounting(s: State, hungUp: bool)
    requires s.reader.pc.Cleared? && StreamInv(s)
    ensures StreamInv(AccountingStep(s, hungUp))
  {
    assert StreamedSizes(s.h.frames) == StreamedSizes(Before(s.h.frames))
      + if s.reader.streaming then [Payload(s.reader.pc.seen)] else [];
  }

  lemma {:induction false} StreamByHanding(s: State, hungUp: bool)
    requires !AtWait(s.reader.pc) && !s.reader.pc.Cleared? && StreamInv(s)
    ensures StreamInv(AccountingStep(s, hungUp))
  {
    AccountingFrame(s, hungUp);
  }

  lemma {:induction false} MeasureByWaiting(s: State, seen: Seen)
    requires AtWait(s.reader.pc) && MeasureInv(s) && MarkInv(Here(s))
    ensures MeasureInv(WaitingStep(s, seen))
  {
    WaitingFrame(s, seen);
  }

  lemma {:induction false} MeasureByCounting(s: State, hungUp: bool)
    requires (s.reader.pc.Cleared? || s.reader.pc.Counted?) && MeasureInv(s)
    ensures MeasureInv(AccountingStep(s, hungUp))
  {
  }

  lemma {:induction false} MeasureByAdding(s: State, hungUp: bool)
    requires s.reader.pc.Timed? && MeasureInv(s)
    ensures MeasureInv(AccountingStep(s, hungUp))
  {
    assert forall i :: 0 <= i < |s.h.waits| ==> AccountingStep(s, hungUp).h.waits[i] == s.h.waits[i];
  }

  lemma {:induction false} HandingMeasuresNothing(s: State, hungUp: bool)
    requires !AtWait(s.reader.pc) && !AtCount(s.reader.pc)
    ensures
      var s' := AccountingStep(s, hungUp);
      && s'.h.waits == s.h.waits && s'.h.measured == s.h.measured && !AtCount(s'.reader.pc)
  {
  }

  lemma {:induction false} MeasureByAccounting(s: State, hungUp: bool)
    requires !AtWait(s.reader.pc) && MeasureInv(s)
    ensures MeasureInv(AccountingStep(s, hungUp))
  {
    if s.reader.pc.Timed? {
      MeasureByAdding(s, hungUp);
    } else if AtCount(s.reader.pc) {
      MeasureByCounting(s, hungUp);
    } else {
      HandingMeasuresNothing(s, hungUp);
    }
  }

  lemma {:induction false} FlowFrame(cfg: Config, s: State, act: Action)
    requires !act.Read?
    ensures
      var s' := Step(cfg, s, act);
      && s'.reader == s.reader && s'.h.frames == s.h.frames && s'.h.sizes == s.h.sizes
      && s'.h.waits == s.h.waits && s'.h.measured == s.h.measured
      && s'.h.handed == s.h.handed && s'.h.gone == s.h.gone
      && s'.truth.readAt == s.truth.readAt && s'.truth.timedAt == s.truth.timedAt
  {
    match act {
      case Tick(_) =>
      case Watching(cancelled) => WatchFrame(cfg, s, cancelled);
      case _ => CallFrame(s, act);
    }
  }

  lemma {:induction false} StreamStep(cfg: Config, s: State, act: Action)
    requires StreamInv(s)
    ensures StreamInv(Step(cfg, s, act))
  {
    if !act.Read? {
      FlowFrame(cfg, s, act);
    } else if AtWait(s.reader.pc) {
      StreamByWaiting(s, act.seen);
    } else if s.reader.pc.Cleared? {
      StreamByCounting(s, act.hungUp);
    } else {
      StreamByHanding(s, act.hungUp);
    }
  }

  lemma {:induction false} MeasureStep(cfg: Config, s: State, act: Action)
    requires MeasureInv(s) && MarkInv(Here(s))
    ensures MeasureInv(Step(cfg, s, act))
  {
    if !act.Read? {
      FlowFrame(cfg, s, act);
    } else if AtWait(s.reader.pc) {
      MeasureByWaiting(s, act.seen);
    } else {
      MeasureByAccounting(s, act.hungUp);
    }
  }

  lemma {:induction false} FlowInEveryRun(cfg: Config, acts: seq<Action>)
    requires ValidConfig(cfg)
    ensures StreamInv(Run(cfg, acts)) && HandInv(Run(cfg, acts)) && MeasureInv(Run(cfg, acts))
  {
    if acts != [] {
      var init := acts[..|acts| - 1];
      FlowInEveryRun(cfg, init);
      Liveness.EveryRun(cfg, init);
      StreamStep(cfg, Run(cfg, init), acts[|acts| - 1]);
      HandStep(cfg, Run(cfg, init), acts[|acts| - 1]);
      MeasureStep(cfg, Run(cfg, init), acts[|acts| - 1]);
    }
  }

  /**
   In every run, between two turns of the reader, the byte counter is the payload of exactly the DATA
   frames of an entry that had begun and not ended, the wait counter the time between the clock readings
   around exactly those frames, every frame but a heartbeat has been handed over, in order, and a failed
   read was the last, as was one that nobody took.
   */
  lemma {:induction false} OnlyStreamingCounts(cfg: Config, acts: seq<Action>)
    requires ValidConfig(cfg) && !Pending(Run(cfg, acts).reader.pc)
    ensures
      var s := Run(cfg, acts);
      && s.h.sizes == StreamedSizes(s.h.frames) && s.a.bytes == Wrap(Sum(StreamedSizes(s.h.frames)))
      && |s.h.measured| == |s.h.sizes| == |s.h.waits|
      && s.a.waitMs == Sum(s.h.waits) && (forall i :: 0 <= i < |s.h.waits| ==> s.h.waits[i] == Waited(s.h.measured[i]))
      && s.reader.streaming == Streaming(s.h.frames)
      && (!s.h.gone && !s.reader.pc.Sending? ==> s.h.handed == NoBeats(s.h.frames))
      && (s.h.gone ==> !AtWait(s.reader.pc))
      && (forall i :: 0 <= i < |s.h.frames| && s.h.frames[i].Failed? ==> i == |s.h.frames| - 1 && !AtWait(s.reader.pc))
  {
    FlowInEveryRun(cfg, acts);
    EveryRun(cfg, acts);
  }

  /** One window after another: frames only accumulate, the bytes read cover every frame whose
      wait was read, and a window closes only after `stallMs` more waiting. */
  ghost predicate Follows(cfg: Config, prev: Close, cur: Close) {
    && prev.waits <= cur.waits && prev.sizes <= cur.sizes
    && |cur.waits| <= |cur.sizes|
    && Sum(cur.waits) >= Sat(Sum(prev.waits) + cfg.stallMs)
  }

  ghost predicate Windows(cfg: Config, closes: seq<Close>) {
    && |closes| > 0 && closes[0] == Close([], [])
    && forall i :: 0 < i < |closes| ==> Follows(cfg, closes[i - 1], closes[i])
  }

  /** The bytes carried fall short of the configured rate, in bytes a second, over the milliseconds waited:
      one byte more would not have exceeded it. The product saturates at 64 bits. */
  predicate TooSlow(cfg: Config, carried: nat, waited: nat) {
    (carried + 1) * 1000 <= cfg.minRate * waited && (carried + 1) * 1000 <= U64_MAX
  }

  lemma {:induction false} FloorIs(cfg: Config, carried: nat, waited: nat)
    ensures carried < Floor(cfg, waited) <==> TooSlow(cfg, carried, waited)
  {
    var q := Sat(cfg.minRate * waited);
    assert carried < q / 1000 <==> (carried + 1) * 1000 <= q;
  }

  /** What is judged when `cur` closes after `prev`. */
  ghost predicate Short(cfg: Config, prev: Close, cur: Close) {
    TooSlow(cfg, SatSub(Wrap(Sum(cur.sizes)), Wrap(Sum(prev.sizes))), SatSub(Sum(cur.waits), Sum(prev.waits)))
  }

  /** The watchdog's window variables are those of the last close. */
  ghost predicate WindowVars(cfg: Config, w: Watch, closes: seq<Close>)
    requires |closes| > 0
  {
    var last := closes[|closes| - 1];
    && w.windowWait == Sum(last.waits) && w.windowBytes == Wrap(Sum(last.sizes))
    && w.windowEnd == Sat(w.windowWait + cfg.stallMs)
    && (w.firstWindow <==> |closes| == 1)
  }

  ghost predicate Verdict(cfg: Config, w: Watch, closes: seq<Close>, reported: bool) {
    && (w.trickling ==> (w.pc.Decide? || w.pc.Exited?) && |closes| >= 3
                        && Short(cfg, closes[|closes| - 2], closes[|closes| - 1]))
    && (reported ==> w.pc.Exited? && (w.stalled || w.trickling))
  }

  ghost predicate RateInv(cfg: Config, s: State) {
    var w, h, n := s.watch, s.h, |s.h.closes|;
    && Windows(cfg, h.closes)
    && WindowVars(cfg, w, h.closes)
    && h.closes[n - 1].waits <= h.waits && h.closes[n - 1].sizes <= h.sizes
    && (w.pc.LoadBytes? ==>
          h.closes[n - 1].waits <= h.loadedWaits <= h.waits && w.wait == Sum(h.loadedWaits) >= w.windowEnd)
    && Verdict(cfg, w, h.closes, s.a.stalled)
  }

  /** The close of a window, and exactly when it kills. */
  lemma {:induction false} WindowCloses(cfg: Config, s: State)
    requires CountInv(s) && RateInv(cfg, s) && s.watch.pc.LoadBytes?
    ensures RateInv(cfg, CloseWindow(cfg, s))
    ensures
      var closes := CloseWindow(cfg, s).h.closes;
      CloseWindow(cfg, s).watch.trickling <==>
        |closes| >= 3 && Short(cfg, closes[|closes| - 2], closes[|closes| - 1])
  {
    FloorIs(cfg, SatSub(s.a.bytes, s.watch.windowBytes), SatSub(s.watch.wait, s.watch.windowWait));
    var s', n := CloseWindow(cfg, s), |s.h.closes|;
    var prev, cur := s.h.closes[n - 1], Close(s.h.loadedWaits, s.h.sizes);
    assert s'.h.closes[n - 1] == prev && s'.h.closes[n] == cur;
    assert Follows(cfg, prev, cur);
    assert Windows(cfg, s'.h.closes) by {
      forall i | 0 < i < |s'.h.closes| ensures Follows(cfg, s'.h.closes[i - 1], s'.h.closes[i]) {
        if i < n { assert Follows(cfg, s.h.closes[i - 1], s.h.closes[i]); }
      }
    }
  }

  /** Away from a close, the windows depend only on what the watchdog keeps. */
  lemma {:induction false} RateFrame(cfg: Config, s: State, s': State)
    requires RateInv(cfg, s)
    requires s'.h.closes == s.h.closes && s.h.waits <= s'.h.waits && s.h.sizes <= s'.h.sizes
    requires s'.watch.windowWait == s.watch.windowWait && s'.watch.windowBytes == s.watch.windowBytes
    requires s'.watch.windowEnd == s.watch.windowEnd && s'.watch.firstWindow == s.watch.firstWindow
    requires s'.watch.pc.LoadBytes? ==>
               || (s.watch.pc.LoadBytes? && s'.watch.wait == s.watch.wait && s'.h.loadedWaits == s.h.loadedWaits)
               || (s'.h.loadedWaits == s'.h.waits && s'.watch.wait == Sum(s'.h.waits) >= s'.watch.windowEnd)
    requires Verdict(cfg, s'.watch, s'.h.closes, s'.a.stalled)
    ensures RateInv(cfg, s')
  {
    var last := s.h.closes[|s.h.closes| - 1];
    PrefixTrans(last.waits, s.h.waits, s'.h.waits);
    PrefixTrans(last.sizes, s.h.sizes, s'.h.sizes);
    if s'.watch.pc.LoadBytes? && s.watch.pc.LoadBytes? && s'.h.loadedWaits == s.h.loadedWaits {
      PrefixTrans(s'.h.loadedWaits, s.h.waits, s'.h.waits);
    }
  }

  lemma {:induction false} JudgeKeepsCloses(cfg: Config, s: State, cancelled: bool)
    requires !AtPoll(s.watch.pc) && !s.watch.pc.LoadBytes?
    ensures
      var w, w', h, h' := s.watch, JudgeStep(cfg, s, cancelled).watch, s.h, JudgeStep(cfg, s, cancelled).h;
      && h'.closes == h.closes && h'.deltas == h.deltas
      && h'.loadedWaits == (if w.pc.LoadWait? then h.waits else h.loadedWaits)
      && w'.windowWait == w.windowWait && w'.windowBytes == w.windowBytes
      && w'.windowEnd == w.windowEnd && w'.firstWindow == w.firstWindow && w'.trickling == w.trickling
      && (w'.pc.LoadBytes? ==> w.pc.LoadWait? && w'.wait == s.a.waitMs >= w.windowEnd)
  {
  }

  lemma {:induction false} WatchKeepsWindows(cfg: Config, s: State, cancelled: bool)
    requires !s.watch.pc.LoadBytes?
    ensures
      var w, w', h, h' := s.watch, WatchStep(cfg, s, cancelled).watch, s.h, WatchStep(cfg, s, cancelled).h;
      && h'.closes == h.closes && h'.deltas == h.deltas
      && h'.loadedWaits == (if w.pc.LoadWait? then h.waits else h.loadedWaits)
      && w'.windowWait == w.windowWait && w'.windowBytes == w.windowBytes
      && w'.windowEnd == w.windowEnd && w'.firstWindow == w.firstWindow && (w'.trickling ==> w.trickling)
      && (w'.pc.LoadBytes? ==> w.pc.LoadWait? && w'.wait == s.a.waitMs >= w.windowEnd)
  {
    if AtPoll(s.watch.pc) {
      PollFrame(cfg, s);
      NotJudging(cfg, s);
    } else {
      JudgeKeepsCloses(cfg, s, cancelled);
    }
  }

  lemma {:induction false} NotJudging(cfg: Config, s: State)
    requires AtPoll(s.watch.pc)
    ensures
      var pc' := PollStep(cfg, s).watch.pc;
      AtPoll(pc') || pc'.Exited? || pc'.LoadDecoding?
  {
  }

  /** A trickle verdict stands from the close that made it until the poll after it begins. */
  lemma {:induction false} WatchKeepsVerdict(cfg: Config, s: State, cancelled: bool)
    requires !s.watch.pc.LoadBytes? && Verdict(cfg, s.watch, s.h.closes, s.a.stalled)
    ensures Verdict(cfg, WatchStep(cfg, s, cancelled).watch, s.h.closes, WatchStep(cfg, s, cancelled).a.stalled)
  {
    if AtPoll(s.watch.pc) { VerdictByPoll(cfg, s); } else { VerdictByJudge(cfg, s, cancelled); }
  }

  lemma {:induction false} VerdictByPoll(cfg: Config, s: State)
    requires AtPoll(s.watch.pc) && Verdict(cfg, s.watch, s.h.closes, s.a.stalled)
    ensures Verdict(cfg, PollStep(cfg, s).watch, s.h.closes, PollStep(cfg, s).a.stalled)
  {
    PollFrame(cfg, s);
  }

  lemma {:induction false} VerdictByJudge(cfg: Config, s: State, cancelled: bool)
    requires !AtPoll(s.watch.pc) && !s.watch.pc.LoadBytes? && Verdict(cfg, s.watch, s.h.closes, s.a.stalled)
    ensures Verdict(cfg, JudgeStep(cfg, s, cancelled).watch, s.h.closes, JudgeStep(cfg, s, cancelled).a.stalled)
  {
  }

  lemma {:induction false} RateByWatch(cfg: Config, s: State, cancelled: bool)
    requires CountInv(s) && RateInv(cfg, s) && !s.watch.pc.LoadBytes?
    ensures RateInv(cfg, WatchStep(cfg, s, cancelled))
  {
    WatchFrame(cfg, s, cancelled);
    WatchKeepsWindows(cfg, s, cancelled);
    WatchKeepsVerdict(cfg, s, cancelled);
    RateFrame(cfg, s, WatchStep(cfg, s, cancelled));
  }

  lemma {:induction false} RateDespiteOthers(cfg: Config, s: State, act: Action)
    requires CountInv(s) && RateInv(cfg, s) && !act.Watching?
    ensures RateInv(cfg, Step(cfg, s, act))
  {
    CountsGrow(cfg, s, act);
    OthersLeaveWatch(cfg, s, act);
    RateFrame(cfg, s, Step(cfg, s, act));
  }

  // ---------------------------------------------------------------- what the watchdog judged

  function Totals(ds: seq<(nat, nat)>): (nat, nat) {
    if ds == [] then (0, 0) else
    var t := Totals(ds[..|ds| - 1]);
    (t.0 + ds[|ds| - 1].0, t.1 + ds[|ds| - 1].1)
  }

  lemma {:induction false} TotalsAppend(ds: seq<(nat, nat)>, d: (nat, nat))
    ensures Totals(ds + [d]) == (Totals(ds).0 + d.0, Totals(ds).1 + d.1)
  {
    assert (ds + [d])[..|ds|] == ds;
  }

  /** The differences judged so far add up to the counters at the last close, the bytes as long as their
      counter has not wrapped. */
  ghost predicate DeltaInv(w: Watch, h: History) {
    && |h.deltas| + 1 == |h.closes|
    && Totals(h.deltas).0 == w.windowWait
    && (Sum(h.closes[|h.closes| - 1].sizes) <= U64_MAX ==> Totals(h.deltas).1 == w.windowBytes)
  }

  lemma {:induction false} DeltaCloses(cfg: Config, s: State)
    requires ValidConfig(cfg) && CountInv(s) && RateInv(cfg, s) && DeltaInv(s.watch, s.h) && s.watch.pc.LoadBytes?
    ensures DeltaInv(CloseWindow(cfg, s).watch, CloseWindow(cfg, s).h)
  {
    var s', w, last := CloseWindow(cfg, s), s.watch, s.h.closes[|s.h.closes| - 1];
    var d := (SatSub(w.wait, w.windowWait), SatSub(s.a.bytes, w.windowBytes));
    TotalsAppend(s.h.deltas, d);
    assert s'.h.deltas == s.h.deltas + [d] && s'.h.closes[|s.h.closes|] == Close(s.h.loadedWaits, s.h.sizes);
    SumOfPrefix(last.waits, s.h.loadedWaits);
    SumOfPrefix(last.sizes, s.h.sizes);
  }

  lemma {:induction false} DeltaFrame(cfg: Config, s: State, act: Action)
    requires !(act.Watching? && s.watch.pc.LoadBytes?) && DeltaInv(s.watch, s.h)
    ensures DeltaInv(Step(cfg, s, act).watch, Step(cfg, s, act).h)
  {
    if act.Watching? {
      WatchKeepsWindows(cfg, s, act.cancelled);
    } else {
      OthersLeaveWatch(cfg, s, act);
    }
  }

  lemma {:induction false} RateStep(cfg: Config, s: State, act: Action)
    requires CountInv(s) && RateInv(cfg, s)
    ensures RateInv(cfg, Step(cfg, s, act))
  {
    if !act.Watching? {
      RateDespiteOthers(cfg, s, act);
    } else if s.watch.pc.LoadBytes? {
      WindowCloses(cfg, s);
    } else {
      RateByWatch(cfg, s, act.cancelled);
    }
  }

  lemma {:induction false} DeltaStep(cfg: Config, s: State, act: Action)
    requires ValidConfig(cfg) && CountInv(s) && RateInv(cfg, s) && DeltaInv(s.watch, s.h)
    ensures DeltaInv(Step(cfg, s, act).watch, Step(cfg, s, act).h)
  {
    if act.Watching? && s.watch.pc.LoadBytes? { DeltaCloses(cfg, s); } else { DeltaFrame(cfg, s, act); }
  }

  // ---------------------------------------------------------------- every run

  ghost predicate Inv(cfg: Config, s: State) { CountInv(s) && RateInv(cfg, s) && DeltaInv(s.watch, s.h) }

  lemma {:induction false} StepKeeps(cfg: Config, s: State, act: Action)
    requires ValidConfig(cfg) && Inv(cfg, s)
    ensures Inv(cfg, Step(cfg, s, act))
  {
    CountStep(cfg, s, act);
    RateStep(cfg, s, act);
    DeltaStep(cfg, s, act);
  }

  lemma {:induction false} InitHolds(cfg: Config)
    requires ValidConfig(cfg)
    ensures Inv(cfg, Init(cfg))
  {
  }

  lemma {:induction false} EveryRun(cfg: Config, acts: seq<Action>)
    requires ValidConfig(cfg)
    ensures Inv(cfg, Run(cfg, acts))
  {
    if acts == [] {
      InitHolds(cfg);
    } else {
      EveryRun(cfg, acts[..|acts| - 1]);
      StepKeeps(cfg, Run(cfg, acts[..|acts| - 1]), acts[|acts| - 1]);
    }
  }

  /** The bytes of the window's own frames: those whose wait falls between the two closes. */
  ghost function Own(prev: Close, cur: Close): nat
    requires prev.waits <= cur.waits && |cur.waits| <= |cur.sizes|
  {
    Sum(cur.sizes[|prev.waits|..|cur.waits|])
  }

  /** The bytes a close took early: of frames whose wait it had not read. */
  ghost function Early(c: Close): nat
    requires |c.waits| <= |c.sizes|
  {
    Sum(c.sizes[|c.waits|..])
  }

  lemma {:induction false} SumConcat(a: seq<nat>, b: seq<nat>)
    ensures Sum(a + b) == Sum(a) + Sum(b)
  {
    if b == [] {
      assert a + b == a;
    } else {
      var b' := b[..|b| - 1];
      assert (a + b)[..|a + b| - 1] == a + b';
      SumConcat(a, b');
    }
  }

  /** What the test measures: the own bytes, plus those this close took early, less those the
      previous close had already taken. */
  lemma {:induction false} WindowBytes(cfg: Config, prev: Close, cur: Close)
    requires |prev.waits| <= |prev.sizes| && Follows(cfg, prev, cur)
    ensures Sum(cur.sizes) + Early(prev) == Sum(prev.sizes) + Own(prev, cur) + Early(cur)
  {
    var kp, k := |prev.waits|, |cur.waits|;
    SumSplit(prev.sizes, kp);
    SumSplit(cur.sizes, k);
    SumSplit(cur.sizes[..k], kp);
    assert cur.sizes[..k][..kp] == prev.sizes[..kp];
    assert cur.sizes[..k][kp..] == cur.sizes[kp..k];
  }

  lemma {:induction false} SumSplit(s: seq<nat>, k: nat)
    requires k <= |s|
    ensures Sum(s) == Sum(s[..k]) + Sum(s[k..])
  {
    assert s == s[..k] + s[k..];
    SumConcat(s[..k], s[k..]);
  }

  lemma {:induction false} SumOfPrefix(a: seq<nat>, b: seq<nat>)
    requires a <= b
    ensures Sum(a) <= Sum(b)
  {
    assert b[..|a|] == a;
    SumSplit(b, |a|);
  }

  /** The test, stated in the frames it judges. */
  lemma {:induction false} ShortMeans(cfg: Config, prev: Close, cur: Close)
    requires |prev.waits| <= |prev.sizes| && Follows(cfg, prev, cur)
    requires Sum(cur.sizes) <= U64_MAX
    ensures Own(prev, cur) + Early(cur) >= Early(prev) && Sum(cur.waits) >= Sum(prev.waits)
    ensures Short(cfg, prev, cur) <==>
            TooSlow(cfg, Own(prev, cur) + Early(cur) - Early(prev), Sum(cur.waits) - Sum(prev.waits))
  {
    WindowBytes(cfg, prev, cur);
    SumOfPrefix(prev.waits, cur.waits);
    SumOfPrefix(prev.sizes, cur.sizes);
    NoWrap(Sum(prev.sizes));
    NoWrap(Sum(cur.sizes));
  }

  lemma {:induction false} NoWrap(x: nat)
    requires x <= U64_MAX
    ensures Wrap(x) == x
  {
  }

  /** In every run, a poll that has loaded the wait goes on to close the window if and only if the waiting
      since the last close has reached `stallMs`. */
  lemma {:induction false} PollClosesWhenDue(cfg: Config, acts: seq<Action>, cancelled: bool)
    requires ValidConfig(cfg) && Run(cfg, acts).watch.pc.LoadWait?
    ensures
      var s, w' := Run(cfg, acts), Step(cfg, Run(cfg, acts), Watching(cancelled)).watch;
      && s.h.closes != [] && (w'.pc.LoadBytes? || w'.pc.Decide?)
      && (w'.pc.LoadBytes? <==> Sum(s.h.waits) >= Sat(Sum(s.h.closes[|s.h.closes| - 1].waits) + cfg.stallMs))
  {
    EveryRun(cfg, acts);
  }

  /** The rate is looked at only while a DECODE is open. */
  lemma {:induction false} RateOnlyWhileDecoding(cfg: Config, acts: seq<Action>, cancelled: bool)
    requires ValidConfig(cfg) && Run(cfg, acts).watch.pc.LoadDecoding?
    requires Run(cfg, acts).caller.Idle? || Run(cfg, acts).caller.Answering?
    ensures
      var s, w' := Run(cfg, acts), Step(cfg, Run(cfg, acts), Watching(cancelled)).watch;
      (w'.pc.LoadWait? <==> s.truth.decodeOpen) && (w'.pc.Decide? <==> !s.truth.decodeOpen)
  {
    Liveness.EveryRun(cfg, acts);
  }

  /** And in every run a close after the first gives a verdict if and only if the bytes counted since the
      close before, with one more, still fall short of the configured rate over the waiting since then. */
  lemma {:induction false} CloseDecides(cfg: Config, acts: seq<Action>, cancelled: bool)
    requires ValidConfig(cfg) && Run(cfg, acts).watch.pc.LoadBytes? && Sum(Run(cfg, acts).h.sizes) <= U64_MAX
    ensures
      var s, w' := Run(cfg, acts), Step(cfg, Run(cfg, acts), Watching(cancelled)).watch;
      && s.h.closes != []
      && var last := s.h.closes[|s.h.closes| - 1];
         && w'.pc.Decide? && last.sizes <= s.h.sizes && Sum(last.sizes) <= Sum(s.h.sizes)
         && Sum(last.waits) <= Sum(s.h.loadedWaits)
         && (w'.trickling <==>
               && |s.h.closes| >= 2
               && TooSlow(cfg, Sum(s.h.sizes) - Sum(last.sizes), Sum(s.h.loadedWaits) - Sum(last.waits)))
  {
    var s := Run(cfg, acts);
    EveryRun(cfg, acts);
    WindowCloses(cfg, s);
    var n, last := |s.h.closes|, s.h.closes[|s.h.closes| - 1];
    SumOfPrefix(last.sizes, s.h.sizes);
    SumOfPrefix(last.waits, s.h.loadedWaits);
    NoWrap(Sum(last.sizes));
    NoWrap(Sum(s.h.sizes));
    assert CloseWindow(cfg, s).h.closes[n] == Close(s.h.loadedWaits, s.h.sizes);
  }

  lemma {:induction false} ShortIsSlow(cfg: Config, prev: Close, cur: Close)
    requires |prev.waits| <= |prev.sizes| && Follows(cfg, prev, cur) && Sum(cur.sizes) <= U64_MAX && Short(cfg, prev, cur)
    ensures Sum(cur.waits) >= Sum(prev.waits)
    ensures (Own(prev, cur) + Early(cur)) * 1000 < cfg.minRate * (Sum(cur.waits) - Sum(prev.waits)) + Early(prev) * 1000
  {
    ShortMeans(cfg, prev, cur);
  }

  /** A kill for trickling, under every interleaving: at least one whole window came before, this
      window spans `stallMs` of waiting, and its own frames carried less than the floor plus what
      the previous close took early. (The bytes counter is 64 bits wide and assumed not to wrap.) */
  lemma {:induction false} TrickleIsConservative(cfg: Config, acts: seq<Action>)
    requires ValidConfig(cfg)
    requires Run(cfg, acts).watch.trickling
    requires Sum(Run(cfg, acts).h.sizes) <= U64_MAX
    ensures
      var closes := Run(cfg, acts).h.closes;
      var n := |closes|;
      && n >= 3 && Windows(cfg, closes)
      && |closes[n - 2].waits| <= |closes[n - 2].sizes|
      && var waited := Sum(closes[n - 1].waits) - Sum(closes[n - 2].waits);
         && waited >= SatSub(Sat(Sum(closes[n - 2].waits) + cfg.stallMs), Sum(closes[n - 2].waits))
         && (Own(closes[n - 2], closes[n - 1]) + Early(closes[n - 1])) * 1000
              < cfg.minRate * waited + Early(closes[n - 2]) * 1000
  {
    EveryRun(cfg, acts);
    var h := Run(cfg, acts).h;
    var n := |h.closes|;
    assert Follows(cfg, h.closes[n - 3], h.closes[n - 2]) && Follows(cfg, h.closes[n - 2], h.closes[n - 1]);
    SumOfPrefix(h.closes[n - 1].sizes, h.sizes);
    ShortIsSlow(cfg, h.closes[n - 2], h.closes[n - 1]);
  }

  /** No waiting and no byte is judged twice or lost: the differences the watchdog computed at the
      successive closes, saturating as they are, add up to the counters at the last close, which are
      the sums over the frames counted there. */
  lemma {:induction false} WindowsTelescope(cfg: Config, acts: seq<Action>)
    requires ValidConfig(cfg) && Sum(Run(cfg, acts).h.sizes) <= U64_MAX
    ensures
      var s := Run(cfg, acts);
      && |s.h.deltas| + 1 == |s.h.closes|
      && var last := s.h.closes[|s.h.closes| - 1];
         Totals(s.h.deltas) == (s.watch.windowWait, s.watch.windowBytes) == (Sum(last.waits), Sum(last.sizes))
  {
    EveryRun(cfg, acts);
    var s := Run(cfg, acts);
    var last := s.h.closes[|s.h.closes| - 1];
    SumOfPrefix(last.sizes, s.h.sizes);
    NoWrap(Sum(last.sizes));
  }

  /** A failure reported as timed out was earned by one of the two verdicts. */
  lemma {:induction false} TimeoutIsEarned(cfg: Config, acts: seq<Action>)
    requires ValidConfig(cfg) && Run(cfg, acts).a.stalled
    ensures
      var s := Run(cfg, acts);
      && s.watch.pc.Exited?
      && ((s.watch.stalled && StallEvidence(cfg, s.h.poll))
          || (s.watch.trickling && |s.h.closes| >= 3
              && Short(cfg, s.h.closes[|s.h.closes| - 2], s.h.closes[|s.h.closes| - 1])))
  {
    EveryRun(cfg, acts);
    Liveness.EveryRun(cfg, acts);
  }

  /** In every run the waiting counter is the exact sum of the waits, never wrapped and never more than
      the time elapsed, and the closes are windows in the sense of `Windows`. */
  lemma {:induction false} CountersInEveryRun(cfg: Config, acts: seq<Action>)
    requires ValidConfig(cfg)
    ensures
      var s := Run(cfg, acts);
      && s.a.waitMs == Sum(s.h.waits) <= s.clock
      && s.a.bytes == Wrap(Sum(s.h.sizes))
      && |s.h.waits| <= |s.h.sizes| <= |s.h.waits| + 1
      && Windows(cfg, s.h.closes)
  {
    EveryRun(cfg, acts);
  }
}
