/**
 The liveness accounting of the archive client: the reader, caller and watchdog
 threads of one session, as single atomic loads and stores over a shared clock.

 `Truth` and `History` are bookkeeping that no thread reads; they record what
 really happened so that the watchdog's verdicts can be compared with it.
 */
module Liveness {
  import opened Common

  const U64_MAX: nat := 0xFFFF_FFFF_FFFF_FFFF

  datatype Config = Config(stallMs: nat, minRate: nat)

  ghost predicate ValidConfig(cfg: Config) {
    cfg.stallMs <= U64_MAX && cfg.minRate <= U64_MAX
  }

  function Sat(x: nat): nat { if x <= U64_MAX then x else U64_MAX }

  /** `fetch_add` wraps around at 64 bits. */
  function Wrap(x: nat): nat { x % (U64_MAX + 1) }

  function SatSub(x: nat, y: nat): nat { if x < y then 0 else x - y }

  function Max(x: nat, y: nat): nat { if x < y then y else x }

  // ---------------------------------------------------------------- state

  /** The atomics the three threads share. `waiting == U64_MAX` means "not waiting". */
  datatype Atomics = Atomics(
    outstanding: bool, since: nat, waiting: nat, decoding: bool,
    waitMs: nat, bytes: nat, stalled: bool, done: bool)

  /** What `read_frame` returned, as far as the reader looks at it. */
  datatype Seen = Data(size: nat) | Begin | End | Beat | Other | Failed

  /** Where the reader is in one turn of its loop. */
  datatype ReaderPc =
    | Top
    | Began(at: nat)                     // the clock is read, the mark not yet stored
    | Reading(at: nat)                   // inside read_frame
    | Returned(at: nat, seen: Seen)      // read_frame is back, the mark still stands
    | Cleared(at: nat, seen: Seen)       // the mark is cleared
    | Counted(at: nat, seen: Seen)       // streaming: the payload bytes are added
    | Timed(seen: Seen, waited: nat)     // streaming: the wait is measured, not yet added
    | Accounted(seen: Seen)
    | Sending(seen: Seen)                // handing the frame over, which may take any time
    | Stopped

  datatype Reader = Reader(pc: ReaderPc, streaming: bool)

  /** Where the caller is inside `decode_sent` or `answered`. */
  datatype CallerPc = Idle | Marked(at: nat) | SinceStored | DecodingStored | Answering

  datatype WatchPc =
    | Poll | Clock | LoadOutstanding | LoadWaiting | LoadSince
    | LoadDecoding | LoadWait | LoadBytes | Decide | Exited

  datatype Watch = Watch(
    pc: WatchPc,
    now: nat, outstanding: bool, waiting: nat, stalled: bool, wait: nat, trickling: bool,
    windowEnd: nat, windowWait: nat, windowBytes: nat, firstWindow: bool,
    killed: bool)

  /** What really is the case. */
  datatype Truth = Truth(
    waitStart: Option<nat>,      // since when the reader has been in one wait for `read_frame`
    markStart: Option<nat>,      // the same, until the mark of that wait is cleared
    requestStart: Option<nat>,   // since when the current request has been sent and unanswered
    startUp: bool,               // the reader has not stored its first mark
    readAt: nat,                 // the clock when the reader last read it before a `read_frame`
    sentAt: nat,                 // the clock when `decode_sent` last read it; the spawn counts as sent at 0
    over: bool,                  // the caller has seen the decode through
    decodeOpen: bool,            // DECODE is the last thing the caller has sent, and not completed or answered
    timedAt: nat)                // the clock when the reader last measured a wait

  /** Everything but the watchdog, at one moment. */
  datatype Moment = Moment(clock: nat, a: Atomics, reader: ReaderPc, caller: CallerPc, truth: Truth)

  /** The frames counted when a rate window closed: those whose wait had been added
      when the wait was read, and those whose bytes had been added when the bytes were read. */
  datatype Close = Close(waits: seq<nat>, sizes: seq<nat>)

  datatype History = History(
    poll: Moment,                // the moment of the poll's clock reading
    quiet: bool,                 // no store to outstanding, since or waiting since that reading
    quietLoads: bool,            // `quiet`, as of the poll's last stall load
    frames: seq<Seen>,           // everything `read_frame` has returned
    handed: seq<Seen>,           // everything the reader has handed over
    gone: bool,                  // the other end of the channel was found gone
    measured: seq<(nat, nat)>,   // per streamed frame, the two clock readings of its wait
    waits: seq<nat>,             // per streamed frame, the wait added for it
    sizes: seq<nat>,             // per streamed frame, the payload bytes added for it
    loadedWaits: seq<nat>,       // `waits` when the watchdog last loaded the wait
    closes: seq<Close>,
    deltas: seq<(nat, nat)>)     // per close, the waiting and the bytes the watchdog judged

  datatype State = State(
    clock: nat, a: Atomics, reader: Reader, caller: CallerPc, truth: Truth, watch: Watch, h: History)

  function Here(s: State): Moment { Moment(s.clock, s.a, s.reader.pc, s.caller, s.truth) }

  /** The spawn is a request that READY will answer, and a wait that began with it. */
  function Init(cfg: Config): State {
    var a := Atomics(true, 0, 0, false, 0, 0, false, false);
    var t := Truth(Some(0), Some(0), Some(0), true, 0, 0, false, false, 0);
    State(0, a, Reader(Top, false), Idle, t,
          Watch(Poll, 0, false, 0, false, 0, false, cfg.stallMs, 0, 0, true, false),
          History(Moment(0, a, Top, Idle, t), false, false, [], [], false, [], [], [], [], [Close([], [])], []))
  }

  // ---------------------------------------------------------------- steps

  /** One atomic step. A step that is not enabled leaves the state unchanged. */
  datatype Action =
    | Tick(ms: nat)
    | Read(seen: Seen, hungUp: bool)     // the reader's next step; `seen` is used only when a read returns
    | CallDecodeSent | CallAnswered | CallComplete | CallDone
    | CallerNext
    | Watching(cancelled: bool)

  function At(s: State, pc: ReaderPc): State { s.(reader := s.reader.(pc := pc)) }

  predicate AtWait(pc: ReaderPc) { pc.Top? || pc.Began? || pc.Reading? || pc.Returned? }

  /** The half of a turn that waits for a frame. */
  function WaitingStep(s: State, seen: Seen): State {
    match s.reader.pc
    case Top =>
      var start := if s.truth.markStart.Some? then s.truth.markStart else Some(s.clock);
      At(s, Began(Sat(s.clock))).(truth := s.truth.(waitStart := start, markStart := start, readAt := s.clock))
    case Began(at) =>
      At(s, Reading(at)).(a := s.a.(waiting := at), truth := s.truth.(startUp := false), h := s.h.(quiet := false))
    case Reading(at) =>
      At(s, Returned(at, seen)).(truth := s.truth.(waitStart := None), h := s.h.(frames := s.h.frames + [seen]))
    case Returned(at, v) =>
      At(s, Cleared(at, v)).(a := s.a.(waiting := U64_MAX), truth := s.truth.(markStart := None), h := s.h.(quiet := false))
    case _ => s
  }

  /** The half that accounts for it and hands it over. */
  function AccountingStep(s: State, hungUp: bool): State {
    match s.reader.pc
    case Cleared(at, v) =>
      if !s.reader.streaming then At(s, Accounted(v)) else
      var n := if v.Data? then v.size else 0;
      At(s, Counted(at, v)).(a := s.a.(bytes := Wrap(s.a.bytes + n)), h := s.h.(sizes := s.h.sizes + [n]))
    case Counted(at, v) => At(s, Timed(v, SatSub(Sat(s.clock), at))).(truth := s.truth.(timedAt := s.clock))
    case Timed(v, waited) =>
      At(s, Accounted(v)).(a := s.a.(waitMs := Wrap(s.a.waitMs + waited)),
                           h := s.h.(waits := s.h.waits + [waited],
                                     measured := s.h.measured + [(s.truth.readAt, s.truth.timedAt)]))
    case Accounted(v) =>
      var streaming := if v.Begin? then true else if v.End? then false else s.reader.streaming;
      s.(reader := Reader(if v.Beat? then Top else Sending(v), streaming))
    case Sending(v) =>
      At(s, if hungUp || v.Failed? then Stopped else Top)
        .(h := s.h.(handed := s.h.handed + (if hungUp then [] else [v]), gone := s.h.gone || hungUp))
    case _ => s
  }

  function ReaderStep(s: State, seen: Seen, hungUp: bool): State {
    if AtWait(s.reader.pc) then WaitingStep(s, seen) else AccountingStep(s, hungUp)
  }

  function CallerStep(s: State): State {
    match s.caller
    case Idle => s
    case Marked(at) => s.(caller := SinceStored, a := s.a.(since := at), h := s.h.(quiet := false))
    case SinceStored => s.(caller := DecodingStored, a := s.a.(decoding := true))
    case DecodingStored => s.(caller := Idle, a := s.a.(outstanding := true), h := s.h.(quiet := false))
    case Answering =>
      s.(caller := Idle, a := s.a.(outstanding := false), truth := s.truth.(requestStart := None),
         h := s.h.(quiet := false))
  }

  function Floor(cfg: Config, waited: nat): nat { Sat(cfg.minRate * waited) / 1000 }

  /** The rate window closes on the wait loaded before and the bytes loaded now. */
  function CloseWindow(cfg: Config, s: State): State {
    var w, bytes := s.watch, s.a.bytes;
    var waited, carried := SatSub(w.wait, w.windowWait), SatSub(bytes, w.windowBytes);
    s.(watch := w.(pc := Decide, trickling := !w.firstWindow && carried < Floor(cfg, waited), firstWindow := false,
                   windowWait := w.wait, windowBytes := bytes, windowEnd := Sat(w.wait + cfg.stallMs)),
       h := s.h.(closes := s.h.closes + [Close(s.h.loadedWaits, s.h.sizes)], deltas := s.h.deltas + [(waited, carried)]))
  }

  predicate AtPoll(pc: WatchPc) {
    pc.Poll? || pc.Clock? || pc.LoadOutstanding? || pc.LoadWaiting? || pc.LoadSince?
  }

  /** The half of a poll that looks for a stall. */
  function PollStep(cfg: Config, s: State): State {
    var w := s.watch;
    match w.pc
    case Poll => s.(watch := w.(pc := if s.a.done then Exited else Clock, stalled := false, trickling := false))
    case Clock =>
      s.(watch := w.(pc := LoadOutstanding, now := Sat(s.clock)),
         h := s.h.(poll := Here(s), quiet := true, quietLoads := false))
    case LoadOutstanding => s.(watch := w.(pc := LoadWaiting, outstanding := s.a.outstanding))
    case LoadWaiting => s.(watch := w.(pc := LoadSince, waiting := s.a.waiting))
    case LoadSince =>
      var stalled := w.outstanding && w.waiting != U64_MAX
                     && SatSub(w.now, Max(w.waiting, s.a.since)) >= cfg.stallMs;
      s.(watch := w.(pc := LoadDecoding, stalled := stalled), h := s.h.(quietLoads := s.h.quiet))
    case _ => s
  }

  /** The half that looks at the rate and acts. */
  function JudgeStep(cfg: Config, s: State, cancelled: bool): State {
    var w := s.watch;
    match w.pc
    case LoadDecoding => s.(watch := w.(pc := if s.a.decoding then LoadWait else Decide))
    case LoadWait =>
      s.(watch := w.(pc := if s.a.waitMs >= w.windowEnd then LoadBytes else Decide, wait := s.a.waitMs),
         h := s.h.(loadedWaits := s.h.waits))
    case LoadBytes => CloseWindow(cfg, s)
    case Decide =>
      var kill := cancelled || w.stalled || w.trickling;
      s.(watch := w.(pc := if kill then Exited else Poll, killed := kill),
         a := s.a.(stalled := s.a.stalled || w.stalled || w.trickling))
    case _ => s
  }

  function WatchStep(cfg: Config, s: State, cancelled: bool): State {
    if AtPoll(s.watch.pc) then PollStep(cfg, s) else JudgeStep(cfg, s, cancelled)
  }

  /** The first step of `decode_sent` or `answered`, and the two single stores of the caller. */
  function Issue(s: State, act: Action): State {
    match act
    case CallDecodeSent =>
      var start := if s.truth.requestStart.Some? then s.truth.requestStart else Some(s.clock);
      s.(caller := Marked(Sat(s.clock)), truth := s.truth.(requestStart := start, sentAt := s.clock, decodeOpen := true))
    case CallAnswered => s.(caller := Answering, a := s.a.(decoding := false), truth := s.truth.(decodeOpen := false))
    case CallComplete => s.(a := s.a.(decoding := false), truth := s.truth.(decodeOpen := false))
    case CallDone => s.(a := s.a.(done := true), truth := s.truth.(over := true))
    case _ => s
  }

  function CallStep(s: State, act: Action): State {
    if act.CallerNext? then CallerStep(s) else if s.caller.Idle? then Issue(s, act) else s
  }

  function Step(cfg: Config, s: State, act: Action): State {
    match act
    case Tick(ms) => s.(clock := s.clock + ms)
    case Read(seen, hungUp) => ReaderStep(s, seen, hungUp)
    case Watching(cancelled) => WatchStep(cfg, s, cancelled)
    case _ => CallStep(s, act)
  }

  /** The state after a run: any interleaving of the three threads and the clock. */
  function Run(cfg: Config, acts: seq<Action>): State {
    if acts == [] then Init(cfg) else Step(cfg, Run(cfg, acts[..|acts| - 1]), acts[|acts| - 1])
  }

  // ---------------------------------------------------------------- what the marks mean

  /** The reader has a mark standing or is about to store one: from its clock reading to the clearing
      store, and before its first turn. In particular it is not handing a frame over. */
  predicate InMark(m: Moment) {
    m.reader.Began? || m.reader.Reading? || m.reader.Returned? || (m.reader.Top? && m.truth.startUp)
  }

  /** A request is open: recorded as outstanding, or in the middle of being sent. */
  predicate InRequest(m: Moment) {
    m.a.outstanding || m.caller.Marked? || m.caller.SinceStored? || m.caller.DecodingStored?
  }

  /** The wait ends when `read_frame` returns, and its mark when it is cleared; in between, and only
      there, the mark outlives the wait. */
  ghost predicate WaitInv(m: Moment) {
    var t := m.truth;
    && (t.markStart.Some? <==> InMark(m))
    && t.waitStart == (if m.reader.Returned? then None else t.markStart)
    && (t.startUp ==> t.markStart == Some(0) && (m.reader.Top? || m.reader.Began?))
    && (t.markStart.Some? && !t.startUp ==> t.markStart == Some(t.readAt) || t.markStart == Some(0))
    && (m.reader.Began? && !t.startUp ==> t.markStart == Some(t.readAt))
    && t.readAt <= m.clock
  }

  /** The mark is the clock reading of the wait it stands for, exactly; at start-up it is 0. */
  ghost predicate MarkInv(m: Moment) {
    && (m.reader.Began? || m.reader.Reading? || m.reader.Returned? ==> m.reader.at == Sat(m.truth.readAt))
    && m.a.waiting == (if m.reader.Reading? || m.reader.Returned? then Sat(m.truth.readAt)
                       else if m.truth.startUp then 0 else U64_MAX)
  }

  /** The request's mark is the clock reading of the last `decode_sent`, once stored. */
  ghost predicate RequestInv(m: Moment) {
    var t := m.truth;
    && (t.requestStart.Some? <==> InRequest(m))
    && t.sentAt <= m.clock
    && (t.requestStart.Some? ==> t.requestStart.value <= t.sentAt)
    && (m.a.outstanding ==> m.a.since == U64_MAX || t.requestStart.value <= m.a.since)
    && m.a.done == t.over
    && (m.caller.Marked? || m.caller.SinceStored? || m.caller.DecodingStored? ==> t.decodeOpen)
    && (m.caller.Idle? || m.caller.Answering? || m.caller.DecodingStored? ==> m.a.decoding == t.decodeOpen)
    && (if m.caller.Marked? then m.caller.at == Sat(t.sentAt) && m.a.since <= m.caller.at else m.a.since == Sat(t.sentAt))
  }

  ghost predicate TruthInv(m: Moment) { WaitInv(m) && MarkInv(m) && RequestInv(m) }

  // Each thread writes its own part of the state and leaves the rest.

  predicate WaitingPart(s: State, s': State) {
    && s'.clock == s.clock && s'.caller == s.caller && s'.watch == s.watch && s'.reader.streaming == s.reader.streaming
    && s'.a == s.a.(waiting := s'.a.waiting) && s'.h == s.h.(quiet := s'.h.quiet, frames := s'.h.frames)
    && s'.truth.requestStart == s.truth.requestStart && s'.truth.sentAt == s.truth.sentAt
    && s'.truth.decodeOpen == s.truth.decodeOpen && s'.truth.timedAt == s.truth.timedAt && s'.truth.over == s.truth.over
  }

  lemma {:induction false} WaitingFrameBegins(s: State, seen: Seen)
    requires s.reader.pc.Top? || s.reader.pc.Began?
    ensures WaitingPart(s, WaitingStep(s, seen))
  {
  }

  lemma {:induction false} WaitingFrameEnds(s: State, seen: Seen)
    requires s.reader.pc.Reading? || s.reader.pc.Returned?
    ensures WaitingPart(s, WaitingStep(s, seen))
  {
  }

  lemma {:induction false} WaitingFrame(s: State, seen: Seen)
    requires AtWait(s.reader.pc)
    ensures WaitingPart(s, WaitingStep(s, seen))
  {
    if s.reader.pc.Top? || s.reader.pc.Began? { WaitingFrameBegins(s, seen); } else { WaitingFrameEnds(s, seen); }
  }

  predicate AccountingPart(s: State, s': State) {
    && s'.clock == s.clock && s'.caller == s.caller && s'.watch == s.watch
    && s'.a == s.a.(bytes := s'.a.bytes, waitMs := s'.a.waitMs) && s'.truth == s.truth.(timedAt := s'.truth.timedAt)
    && s'.h == s.h.(sizes := s'.h.sizes, waits := s'.h.waits, measured := s'.h.measured,
                    handed := s'.h.handed, gone := s'.h.gone)
  }

  predicate AtCount(pc: ReaderPc) { pc.Cleared? || pc.Counted? || pc.Timed? }

  lemma {:induction false} AccountingFrameCounts(s: State, hungUp: bool)
    requires AtCount(s.reader.pc)
    ensures AccountingPart(s, AccountingStep(s, hungUp))
  {
  }

  lemma {:induction false} AccountingFrameHands(s: State, hungUp: bool)
    requires !AtWait(s.reader.pc) && !AtCount(s.reader.pc)
    ensures AccountingPart(s, AccountingStep(s, hungUp))
  {
  }

  lemma {:induction false} AccountingFrame(s: State, hungUp: bool)
    requires !AtWait(s.reader.pc)
    ensures AccountingPart(s, AccountingStep(s, hungUp))
  {
    if AtCount(s.reader.pc) { AccountingFrameCounts(s, hungUp); } else { AccountingFrameHands(s, hungUp); }
  }

  predicate CallerPart(s: State, s': State) {
    && s'.clock == s.clock && s'.reader == s.reader && s'.watch == s.watch && s'.h == s.h.(quiet := s'.h.quiet)
    && s'.a == s.a.(outstanding := s'.a.outstanding, since := s'.a.since, decoding := s'.a.decoding, done := s'.a.done)
    && s'.truth == s.truth.(requestStart := s'.truth.requestStart, sentAt := s'.truth.sentAt,
                            decodeOpen := s'.truth.decodeOpen, over := s'.truth.over)
  }

  lemma {:induction false} CallerFrame(s: State)
    ensures CallerPart(s, CallerStep(s))
  {
  }

  lemma {:induction false} IssueFrame(s: State, act: Action)
    ensures CallerPart(s, Issue(s, act))
  {
  }

  lemma {:induction false} CallFrame(s: State, act: Action)
    ensures CallerPart(s, CallStep(s, act))
  {
    CallerFrame(s);
    IssueFrame(s, act);
  }

  predicate Loading(w: Watch) { w.pc.LoadOutstanding? || w.pc.LoadWaiting? || w.pc.LoadSince? }

  predicate PollPart(s: State, s': State) {
    && s'.clock == s.clock && s'.a == s.a && s'.reader == s.reader && s'.caller == s.caller && s'.truth == s.truth
    && s'.watch == s.watch.(pc := s'.watch.pc, now := s'.watch.now, outstanding := s'.watch.outstanding,
                            waiting := s'.watch.waiting, stalled := s'.watch.stalled, trickling := s'.watch.trickling)
    && s'.h == s.h.(poll := s'.h.poll, quiet := s'.h.quiet, quietLoads := s'.h.quietLoads)
    && s'.h.poll == (if s.watch.pc.Clock? then Here(s) else s.h.poll)
    && (s'.watch.trickling ==> s.watch.trickling)
  }

  lemma {:induction false} PollFrameTop(cfg: Config, s: State)
    requires s.watch.pc.Poll? || s.watch.pc.Clock?
    ensures PollPart(s, PollStep(cfg, s))
  {
  }

  lemma {:induction false} PollFrameLoads(cfg: Config, s: State)
    requires s.watch.pc.LoadOutstanding? || s.watch.pc.LoadWaiting?
    ensures PollPart(s, PollStep(cfg, s))
  {
  }

  lemma {:induction false} PollFrameSince(cfg: Config, s: State)
    requires s.watch.pc.LoadSince?
    ensures PollPart(s, PollStep(cfg, s))
  {
  }

  lemma {:induction false} PollFrame(cfg: Config, s: State)
    requires AtPoll(s.watch.pc)
    ensures PollPart(s, PollStep(cfg, s))
  {
    if s.watch.pc.Poll? || s.watch.pc.Clock? {
      PollFrameTop(cfg, s);
    } else if s.watch.pc.LoadSince? {
      PollFrameSince(cfg, s);
    } else {
      PollFrameLoads(cfg, s);
    }
  }

  predicate JudgePart(s: State, s': State) {
    && s'.clock == s.clock && s'.reader == s.reader && s'.caller == s.caller && s'.truth == s.truth
    && s'.a == s.a.(stalled := s'.a.stalled) && (!s.watch.pc.Decide? ==> s'.a == s.a)
    && s'.watch.now == s.watch.now && s'.watch.outstanding == s.watch.outstanding
    && s'.watch.waiting == s.watch.waiting && s'.watch.stalled == s.watch.stalled
    && s'.h == s.h.(loadedWaits := s'.h.loadedWaits, closes := s'.h.closes, deltas := s'.h.deltas)
    && !Loading(s'.watch) && !s'.watch.pc.Clock? && (s'.watch.pc.Poll? ==> s.watch.pc.Decide?)
  }

  lemma {:induction false} JudgeFrameLoads(cfg: Config, s: State, cancelled: bool)
    requires s.watch.pc.LoadDecoding? || s.watch.pc.LoadWait?
    ensures JudgePart(s, JudgeStep(cfg, s, cancelled))
  {
  }

  lemma {:induction false} JudgeFrameClose(cfg: Config, s: State)
    ensures JudgePart(s, CloseWindow(cfg, s))
  {
  }

  lemma {:induction false} JudgeFrameEnd(cfg: Config, s: State, cancelled: bool)
    requires s.watch.pc.Decide? || s.watch.pc.Exited?
    ensures JudgePart(s, JudgeStep(cfg, s, cancelled))
  {
  }

  lemma {:induction false} JudgeFrame(cfg: Config, s: State, cancelled: bool)
    requires !AtPoll(s.watch.pc)
    ensures JudgePart(s, JudgeStep(cfg, s, cancelled))
  {
    if s.watch.pc.LoadBytes? {
      JudgeFrameClose(cfg, s);
    } else if s.watch.pc.Decide? || s.watch.pc.Exited? {
      JudgeFrameEnd(cfg, s, cancelled);
    } else {
      JudgeFrameLoads(cfg, s, cancelled);
    }
  }

  lemma {:induction false} WatchFrame(cfg: Config, s: State, cancelled: bool)
    ensures
      var s' := WatchStep(cfg, s, cancelled);
      && s' == s.(watch := s'.watch, a := s.a.(stalled := s'.a.stalled), h := s'.h)
      && s'.h.waits == s.h.waits && s'.h.sizes == s.h.sizes
      && s'.h.frames == s.h.frames && s'.h.measured == s.h.measured
      && s'.h.handed == s.h.handed && s'.h.gone == s.h.gone
      && s'.h.poll == (if s.watch.pc.Clock? then Here(s) else s.h.poll)
  {
    if AtPoll(s.watch.pc) { PollFrame(cfg, s); } else { JudgeFrame(cfg, s, cancelled); }
  }

  lemma {:induction false} TruthByWaiting(s: State, seen: Seen)
    requires AtWait(s.reader.pc) && WaitInv(Here(s)) && MarkInv(Here(s))
    ensures WaitInv(Here(WaitingStep(s, seen))) && MarkInv(Here(WaitingStep(s, seen)))
  {
  }

  lemma {:induction false} TruthByAccounting(s: State, hungUp: bool)
    requires !AtWait(s.reader.pc) && WaitInv(Here(s)) && MarkInv(Here(s))
    ensures WaitInv(Here(AccountingStep(s, hungUp))) && MarkInv(Here(AccountingStep(s, hungUp)))
  {
    AccountingFrame(s, hungUp);
    assert s.truth.markStart.None? && !s.truth.startUp;
  }

  lemma {:induction false} TruthByCaller(s: State, act: Action)
    requires RequestInv(Here(s))
    ensures RequestInv(Here(CallStep(s, act))) && s.a.since <= CallStep(s, act).a.since
  {
  }

  lemma {:induction false} TruthByReader(s: State, seen: Seen, hungUp: bool)
    requires TruthInv(Here(s))
    ensures TruthInv(Here(ReaderStep(s, seen, hungUp)))
  {
    if AtWait(s.reader.pc) {
      TruthByWaiting(s, seen);
      WaitingFrame(s, seen);
    } else {
      TruthByAccounting(s, hungUp);
      AccountingFrame(s, hungUp);
    }
  }

  lemma {:induction false} TruthByWatch(cfg: Config, s: State, cancelled: bool)
    requires TruthInv(Here(s))
    ensures TruthInv(Here(WatchStep(cfg, s, cancelled)))
  {
    WatchFrame(cfg, s, cancelled);
  }

  lemma {:induction false} TruthByCall(s: State, act: Action)
    requires TruthInv(Here(s))
    ensures TruthInv(Here(CallStep(s, act)))
  {
    TruthByCaller(s, act);
    CallFrame(s, act);
  }

  lemma {:induction false} TruthStep(cfg: Config, s: State, act: Action)
    requires TruthInv(Here(s))
    ensures TruthInv(Here(Step(cfg, s, act)))
  {
    match act {
      case Tick(_) =>
      case Read(seen, hungUp) => TruthByReader(s, seen, hungUp);
      case Watching(cancelled) => TruthByWatch(cfg, s, cancelled);
      case _ => TruthByCall(s, act);
    }
  }

  // ---------------------------------------------------------------- the stall rule is sound

  /** `start` is what held at the poll's clock reading, or began no earlier than it. */
  ghost predicate SinceOrLater(start: Option<nat>, polled: Option<nat>, clock: nat) {
    start == polled || start.None? || start.value >= clock
  }

  /** A loaded mark either postdates the poll's reading or belongs to what held then. */
  ghost predicate MarkOf(mark: nat, polled: Option<nat>, now: nat) {
    mark >= now || (polled.Some? && polled.value <= mark)
  }

  ghost predicate StallEvidence(cfg: Config, m: Moment) {
    cfg.stallMs == 0 || (
      && m.truth.requestStart.Some? && m.truth.requestStart.value + cfg.stallMs <= m.clock
      && m.truth.markStart.Some? && m.truth.markStart.value + cfg.stallMs <= m.clock)
  }

  /** What the poll will load still speaks of the moment of its clock reading. */
  ghost predicate PollInv(s: State) {
    var w, poll := s.watch, s.h.poll;
    && (Loading(w) ==> w.now == Sat(poll.clock) && poll.clock <= s.clock)
    && (w.pc.LoadOutstanding? ==> SinceOrLater(s.truth.requestStart, poll.truth.requestStart, poll.clock))
    && (w.pc.LoadOutstanding? || w.pc.LoadWaiting? ==> SinceOrLater(s.truth.markStart, poll.truth.markStart, poll.clock))
    && (w.outstanding && (w.pc.LoadWaiting? || w.pc.LoadSince?) ==> MarkOf(s.a.since, poll.truth.requestStart, w.now))
    && (w.pc.LoadSince? && w.waiting < U64_MAX ==> MarkOf(w.waiting, poll.truth.markStart, w.now))
  }

  ghost predicate VerdictInv(cfg: Config, s: State) {
    s.watch.stalled ==>
      && (s.watch.pc.LoadDecoding? || s.watch.pc.LoadWait? || s.watch.pc.LoadBytes? || s.watch.pc.Decide? || s.watch.pc.Exited?)
      && StallEvidence(cfg, s.h.poll)
  }

  /** A start is kept, ended, or begun at the clock. */
  predicate Moved(start: Option<nat>, start': Option<nat>, clock: nat) {
    start' == start || start'.None? || start' == Some(clock)
  }

  lemma {:induction false} StartsMove(cfg: Config, s: State, act: Action)
    requires WaitInv(Here(s))
    ensures
      var t, t' := s.truth, Step(cfg, s, act).truth;
      && Moved(t.markStart, t'.markStart, s.clock) && Moved(t.waitStart, t'.waitStart, s.clock)
      && Moved(t.requestStart, t'.requestStart, s.clock)
  {
    match act {
      case Tick(_) =>
      case Read(seen, hungUp) =>
        if AtWait(s.reader.pc) { WaitingFrame(s, seen); } else { AccountingFrame(s, hungUp); }
      case Watching(cancelled) => WatchFrame(cfg, s, cancelled);
      case _ => CallFrame(s, act);
    }
  }

  lemma {:induction false} OthersLeaveWatch(cfg: Config, s: State, act: Action)
    requires !act.Watching?
    ensures
      var s' := Step(cfg, s, act);
      && s'.watch == s.watch && s'.clock >= s.clock && s'.a.stalled == s.a.stalled
      && s'.h == s.h.(quiet := s'.h.quiet, sizes := s'.h.sizes, waits := s'.h.waits,
                      frames := s'.h.frames, measured := s'.h.measured, handed := s'.h.handed, gone := s'.h.gone)
  {
    match act {
      case Tick(_) =>
      case Read(seen, hungUp) =>
        if AtWait(s.reader.pc) { WaitingFrame(s, seen); } else { AccountingFrame(s, hungUp); }
      case _ => CallFrame(s, act);
    }
  }

  lemma {:induction false} SinceGrows(cfg: Config, s: State, act: Action)
    requires RequestInv(Here(s))
    ensures Step(cfg, s, act).a.since >= s.a.since
  {
    match act {
      case Tick(_) =>
      case Read(seen, hungUp) =>
        if AtWait(s.reader.pc) { WaitingFrame(s, seen); } else { AccountingFrame(s, hungUp); }
      case Watching(cancelled) => WatchFrame(cfg, s, cancelled);
      case _ => TruthByCaller(s, act);
    }
  }

  /** The reader's and the caller's stores never spoil a poll in progress. */
  lemma {:induction false} PollDespiteOthers(cfg: Config, s: State, act: Action)
    requires !act.Watching? && TruthInv(Here(s)) && PollInv(s)
    ensures PollInv(Step(cfg, s, act))
  {
    OthersLeaveWatch(cfg, s, act);
    SinceGrows(cfg, s, act);
    StartsMove(cfg, s, act);
  }

  lemma {:induction false} PollStarts(cfg: Config, s: State, cancelled: bool)
    requires s.watch.pc.Clock?
    ensures PollInv(WatchStep(cfg, s, cancelled))
  {
  }

  lemma {:induction false} OutstandingLoaded(cfg: Config, s: State, cancelled: bool)
    requires s.watch.pc.LoadOutstanding? && RequestInv(Here(s)) && PollInv(s)
    ensures PollInv(WatchStep(cfg, s, cancelled))
  {
  }

  lemma {:induction false} WaitingLoaded(cfg: Config, s: State, cancelled: bool)
    requires s.watch.pc.LoadWaiting? && WaitInv(Here(s)) && MarkInv(Here(s)) && PollInv(s)
    ensures PollInv(WatchStep(cfg, s, cancelled))
  {
    if s.a.waiting < U64_MAX {
      assert s.truth.markStart.Some? && s.truth.markStart.value <= s.a.waiting;
    }
  }

  lemma {:induction false} NotLoading(cfg: Config, s: State, cancelled: bool)
    requires !s.watch.pc.Clock? && !s.watch.pc.LoadOutstanding? && !s.watch.pc.LoadWaiting?
    ensures !Loading(WatchStep(cfg, s, cancelled).watch)
  {
    if !AtPoll(s.watch.pc) { JudgeFrame(cfg, s, cancelled); }
  }

  lemma {:induction false} PollByWatch(cfg: Config, s: State, cancelled: bool)
    requires TruthInv(Here(s)) && PollInv(s)
    ensures PollInv(WatchStep(cfg, s, cancelled))
  {
    if s.watch.pc.Clock? {
      PollStarts(cfg, s, cancelled);
    } else if s.watch.pc.LoadOutstanding? {
      OutstandingLoaded(cfg, s, cancelled);
    } else if s.watch.pc.LoadWaiting? {
      WaitingLoaded(cfg, s, cancelled);
    } else {
      NotLoading(cfg, s, cancelled);
    }
  }

  lemma {:induction false} VerdictByPoll(cfg: Config, s: State)
    requires AtPoll(s.watch.pc) && RequestInv(Here(s)) && PollInv(s) && VerdictInv(cfg, s)
    ensures VerdictInv(cfg, PollStep(cfg, s))
  {
  }

  lemma {:induction false} VerdictByJudge(cfg: Config, s: State, cancelled: bool)
    requires !AtPoll(s.watch.pc) && VerdictInv(cfg, s)
    ensures VerdictInv(cfg, JudgeStep(cfg, s, cancelled))
  {
    JudgeFrame(cfg, s, cancelled);
  }

  lemma {:induction false} VerdictStep(cfg: Config, s: State, act: Action)
    requires RequestInv(Here(s)) && PollInv(s) && VerdictInv(cfg, s)
    ensures VerdictInv(cfg, Step(cfg, s, act))
  {
    if !act.Watching? {
      OthersLeaveWatch(cfg, s, act);
    } else if AtPoll(s.watch.pc) {
      VerdictByPoll(cfg, s);
    } else {
      VerdictByJudge(cfg, s, act.cancelled);
    }
  }

  // ---------------------------------------------------------------- and complete

  /** The mark that stands for the reader's wait: its clock reading once stored, 0 at start-up. */
  function Standing(m: Moment): Option<nat> {
    if m.reader.Reading? || m.reader.Returned? then Some(m.truth.readAt)
    else if m.truth.startUp then Some(0) else None
  }

  /** The request and the wait are both old enough, by the clock readings that began them. */
  predicate Overdue(cfg: Config, m: Moment) {
    && m.truth.requestStart.Some? && m.truth.sentAt + cfg.stallMs <= m.clock
    && Standing(m).Some? && Standing(m).value + cfg.stallMs <= m.clock
  }

  /** The stall test on what stood when the poll read the clock. */
  predicate StallAt(cfg: Config, now: nat, a: Atomics) {
    a.outstanding && a.waiting != U64_MAX && SatSub(now, Max(a.waiting, a.since)) >= cfg.stallMs
  }

  predicate SameMarks(a: Atomics, b: Atomics) {
    a.outstanding == b.outstanding && a.waiting == b.waiting && a.since == b.since
  }

  /** With no store to the three marks between the clock reading and the last load,
      the verdict is exactly the test on that one moment. */
  ghost predicate QuietInv(cfg: Config, s: State) {
    var w, h := s.watch, s.h;
    && (Loading(w) && h.quiet ==>
          && SameMarks(s.a, h.poll.a)
          && (!w.pc.LoadOutstanding? ==> w.outstanding == h.poll.a.outstanding)
          && (w.pc.LoadSince? ==> w.waiting == h.poll.a.waiting))
    && (Loading(w) ==> w.now == Sat(h.poll.clock))
    && (h.quietLoads && (w.pc.LoadDecoding? || w.pc.LoadWait? || w.pc.LoadBytes? || w.pc.Decide?) ==>
          w.stalled == StallAt(cfg, Sat(h.poll.clock), h.poll.a))
  }

  lemma {:induction false} QuietCaller(s: State, act: Action)
    ensures CallStep(s, act).h.quiet ==> s.h.quiet && SameMarks(CallStep(s, act).a, s.a)
  {
    CallFrame(s, act);
  }

  lemma {:induction false} QuietReader(s: State, seen: Seen, hungUp: bool)
    ensures ReaderStep(s, seen, hungUp).h.quiet ==> s.h.quiet && SameMarks(ReaderStep(s, seen, hungUp).a, s.a)
  {
    if AtWait(s.reader.pc) { WaitingFrame(s, seen); } else { AccountingFrame(s, hungUp); }
  }

  /** Every store to one of the three marks ends the quiet. */
  lemma {:induction false} QuietOthers(cfg: Config, s: State, act: Action)
    requires !act.Watching?
    ensures
      var s' := Step(cfg, s, act);
      s'.h.quiet ==> s.h.quiet && SameMarks(s'.a, s.a)
  {
    match act {
      case Tick(_) =>
      case Read(seen, hungUp) => QuietReader(s, seen, hungUp);
      case _ => QuietCaller(s, act);
    }
  }

  lemma {:induction false} QuietLoads(cfg: Config, s: State, cancelled: bool)
    requires QuietInv(cfg, s) && (s.watch.pc.Clock? || s.watch.pc.LoadOutstanding? || s.watch.pc.LoadWaiting?)
    ensures QuietInv(cfg, WatchStep(cfg, s, cancelled))
  {
  }

  lemma {:induction false} QuietVerdict(cfg: Config, s: State, cancelled: bool)
    requires QuietInv(cfg, s) && s.watch.pc.LoadSince?
    ensures QuietInv(cfg, WatchStep(cfg, s, cancelled))
  {
  }

  /** After the verdict nothing touches it before it is acted on. */
  lemma {:induction false} QuietRest(cfg: Config, s: State, cancelled: bool)
    requires QuietInv(cfg, s) && !AtPoll(s.watch.pc)
    ensures QuietInv(cfg, JudgeStep(cfg, s, cancelled))
  {
    JudgeFrame(cfg, s, cancelled);
  }

  lemma {:induction false} QuietTop(cfg: Config, s: State)
    requires QuietInv(cfg, s) && s.watch.pc.Poll?
    ensures QuietInv(cfg, PollStep(cfg, s))
  {
  }

  lemma {:induction false} QuietWatch(cfg: Config, s: State, cancelled: bool)
    requires QuietInv(cfg, s)
    ensures QuietInv(cfg, WatchStep(cfg, s, cancelled))
  {
    if s.watch.pc.LoadSince? {
      QuietVerdict(cfg, s, cancelled);
    } else if Loading(s.watch) || s.watch.pc.Clock? {
      QuietLoads(cfg, s, cancelled);
    } else if s.watch.pc.Poll? {
      QuietTop(cfg, s);
    } else {
      QuietRest(cfg, s, cancelled);
    }
  }

  lemma {:induction false} QuietStep(cfg: Config, s: State, act: Action)
    requires QuietInv(cfg, s)
    ensures QuietInv(cfg, Step(cfg, s, act))
  {
    if act.Watching? {
      QuietWatch(cfg, s, act.cancelled);
    } else {
      QuietOthers(cfg, s, act);
      OthersLeaveWatch(cfg, s, act);
    }
  }

  /** When `decode_sent` is not half done, the test on the atomics is the test on the clock readings. */
  lemma {:induction false} MarksDecide(cfg: Config, m: Moment)
    requires TruthInv(m) && m.clock < U64_MAX && (m.caller.Idle? || m.caller.Answering?)
    ensures StallAt(cfg, Sat(m.clock), m.a) <==> Overdue(cfg, m)
  {
  }

  // ---------------------------------------------------------------- every run

  ghost predicate Inv(cfg: Config, s: State) {
    TruthInv(Here(s)) && TruthInv(s.h.poll) && PollInv(s) && VerdictInv(cfg, s) && QuietInv(cfg, s)
  }

  lemma {:induction false} StepKeeps(cfg: Config, s: State, act: Action)
    requires Inv(cfg, s)
    ensures Inv(cfg, Step(cfg, s, act))
  {
    TruthStep(cfg, s, act);
    VerdictStep(cfg, s, act);
    QuietStep(cfg, s, act);
    if act.Watching? {
      PollByWatch(cfg, s, act.cancelled);
      WatchFrame(cfg, s, act.cancelled);
    } else {
      PollDespiteOthers(cfg, s, act);
      OthersLeaveWatch(cfg, s, act);
    }
  }

  lemma {:induction false} InitHolds(cfg: Config)
    requires ValidConfig(cfg)
    ensures Inv(cfg, Init(cfg))
  {
  }

  lemma {:induction false} EveryRun(cfg: Config, acts: seq<Action>)
    requires ValidConfig(cfg)
    ensures Inv(cfg, Run(cfg, acts))
  {
    if acts == [] {
      InitHolds(cfg);
    } else {
      EveryRun(cfg, acts[..|acts| - 1]);
      StepKeeps(cfg, Run(cfg, acts[..|acts| - 1]), acts[|acts| - 1]);
    }
  }

  /** The stall rule is sound under every interleaving: a stall verdict means that at the poll's clock
      reading one request had been sent and unanswered for `stallMs` or more, and that for `stallMs` or
      more the reader had been inside one `read_frame` (counting start-up), or had come back from it
      and not yet cleared the mark. */
  lemma {:induction false} StallIsSound(cfg: Config, acts: seq<Action>)
    requires ValidConfig(cfg) && cfg.stallMs > 0
    requires Run(cfg, acts).watch.stalled
    ensures
      var poll := Run(cfg, acts).h.poll;
      var t := poll.truth;
      && t.requestStart.Some? && t.requestStart.value + cfg.stallMs <= poll.clock
      && t.markStart.Some? && t.markStart.value + cfg.stallMs <= poll.clock
      && (t.waitStart == t.markStart || poll.reader.Returned?)
  {
    EveryRun(cfg, acts);
  }

  /** And complete for a poll that nothing disturbs, with no `decode_sent` half done: it fires exactly
      when the clock reading of the last `decode_sent` and that of the current `read_frame` (at
      start-up, the spawn) both lie `stallMs` or more before the poll's. */
  lemma {:induction false} QuietPollDecides(cfg: Config, acts: seq<Action>)
    requires ValidConfig(cfg)
    requires
      var s := Run(cfg, acts);
      && s.watch.pc.Decide? && s.h.quietLoads
      && s.h.poll.clock < U64_MAX && (s.h.poll.caller.Idle? || s.h.poll.caller.Answering?)
    ensures Run(cfg, acts).watch.stalled <==> Overdue(cfg, Run(cfg, acts).h.poll)
  {
    EveryRun(cfg, acts);
    MarksDecide(cfg, Run(cfg, acts).h.poll);
  }

  /** The recorded starts mean what they say, in every run: the wait lasts from a clock reading before
      `read_frame`, or from the spawn, to its return; the mark outlives it only until it is cleared;
      the request lasts while it is open; and each step keeps a start, ends it, or begins it now. */
  lemma {:induction false} StartsAreHonest(cfg: Config, acts: seq<Action>, act: Action)
    requires ValidConfig(cfg)
    ensures
      var s, s' := Run(cfg, acts), Step(cfg, Run(cfg, acts), act);
      var m, t, t' := Here(s), s.truth, s'.truth;
      && (t.waitStart.Some? <==> InMark(m) && !m.reader.Returned?)
      && (t.waitStart.Some? ==> t.waitStart == Some(0) || t.waitStart == Some(t.readAt))
      && (t.markStart.Some? <==> InMark(m)) && (t.waitStart.Some? ==> t.waitStart == t.markStart)
      && (t.requestStart.Some? <==> InRequest(m))
      && Moved(t.waitStart, t'.waitStart, s.clock) && Moved(t.requestStart, t'.requestStart, s.clock)
  {
    EveryRun(cfg, acts);
    StartsMove(cfg, Run(cfg, acts), act);
  }

  /** Whoever finds the outstanding flag set also finds the mark of the request it belongs to, or a
      later one, because the flag is the last of the three stores. */
  lemma {:induction false} FlagShowsMark(cfg: Config, acts: seq<Action>)
    requires ValidConfig(cfg) && Run(cfg, acts).a.outstanding
    ensures
      var s := Run(cfg, acts);
      s.truth.requestStart.Some? && (s.a.since == U64_MAX || s.truth.requestStart.value <= s.a.since <= s.clock)
  {
    EveryRun(cfg, acts);
  }

  // ---------------------------------------------------------------- what is done about a verdict

  // ---------------------------------------------------------------- what the caller asked for

  predicate IsCall(act: Action) { act.CallDecodeSent? || act.CallAnswered? || act.CallComplete? || act.CallDone? }

  /** The calls the caller made, in order; it makes one when the one before is through. */
  function Calls(cfg: Config, acts: seq<Action>): seq<Action> {
    if acts == [] then [] else
    var init, act := acts[..|acts| - 1], acts[|acts| - 1];
    Calls(cfg, init) + if IsCall(act) && Run(cfg, init).caller.Idle? then [act] else []
  }

  /** A DECODE was sent and neither completed nor answered since. */
  predicate Decoding(calls: seq<Action>) {
    calls != [] &&
    var last := calls[|calls| - 1];
    last.CallDecodeSent? || (last.CallDone? && Decoding(calls[..|calls| - 1]))
  }

  /** The last request, the spawn being the first, is not answered. */
  predicate Unanswered(calls: seq<Action>) {
    calls == [] ||
    var last := calls[|calls| - 1];
    last.CallDecodeSent? || (!last.CallAnswered? && Unanswered(calls[..|calls| - 1]))
  }

  /** What the caller's calls so far make of the request, the decode and the session. */
  ghost predicate AsCalled(s: State, calls: seq<Action>) {
    && (s.truth.over <==> CallDone in calls) && (s.truth.decodeOpen <==> Decoding(calls))
    && (!s.caller.Answering? ==> (s.truth.requestStart.Some? <==> Unanswered(calls)))
    && (s.caller.Answering? ==> !Unanswered(calls))
    && (s.caller.Marked? || s.caller.SinceStored? || s.caller.DecodingStored? ==> Unanswered(calls))
  }

  lemma {:induction false} OneMoreCall(calls: seq<Action>, act: Action)
    requires IsCall(act)
    ensures CallDone in calls + [act] <==> CallDone in calls || act.CallDone?
    ensures Decoding(calls + [act]) <==> act.CallDecodeSent? || (act.CallDone? && Decoding(calls))
    ensures Unanswered(calls + [act]) <==> act.CallDecodeSent? || (!act.CallAnswered? && Unanswered(calls))
  {
    assert (calls + [act])[..|calls|] == calls;
  }

  lemma {:induction false} IssueAsCalled(s: State, calls: seq<Action>, act: Action)
    requires AsCalled(s, calls) && s.caller.Idle? && IsCall(act)
    ensures AsCalled(CallStep(s, act), calls + [act])
  {
    OneMoreCall(calls, act);
  }

  lemma {:induction false} CallerAsCalled(s: State, calls: seq<Action>, act: Action)
    requires AsCalled(s, calls) && !(IsCall(act) && s.caller.Idle?)
    ensures AsCalled(CallStep(s, act), calls)
  {
  }

  lemma {:induction false} ReaderAsCalled(s: State, calls: seq<Action>, seen: Seen, hungUp: bool)
    requires AsCalled(s, calls)
    ensures AsCalled(ReaderStep(s, seen, hungUp), calls)
  {
    if AtWait(s.reader.pc) { WaitingFrame(s, seen); } else { AccountingFrame(s, hungUp); }
  }

  lemma {:induction false} WatchAsCalled(cfg: Config, s: State, calls: seq<Action>, cancelled: bool)
    requires AsCalled(s, calls)
    ensures AsCalled(WatchStep(cfg, s, cancelled), calls)
  {
    WatchFrame(cfg, s, cancelled);
  }

  /** In every run the session is over, a decode open and a request unanswered exactly as the caller's calls
      have it, whatever the other threads do. */
  lemma {:induction false} CallsDecide(cfg: Config, acts: seq<Action>)
    ensures AsCalled(Run(cfg, acts), Calls(cfg, acts))
  {
    if acts != [] {
      var init, act := acts[..|acts| - 1], acts[|acts| - 1];
      var s, calls := Run(cfg, init), Calls(cfg, init);
      CallsDecide(cfg, init);
      assert calls + [] == calls;
      match act {
        case Tick(_) =>
        case Read(seen, hungUp) => ReaderAsCalled(s, calls, seen, hungUp);
        case Watching(cancelled) => WatchAsCalled(cfg, s, calls, cancelled);
        case _ => if IsCall(act) && s.caller.Idle? { IssueAsCalled(s, calls, act); } else { CallerAsCalled(s, calls, act); }
      }
    }
  }

  /** In every run, a poll that comes to its decision ends the watchdog, with the child killed, if and only
      if it was cancelled or there is a verdict; it is reported as a timeout if and only if there is a
      verdict; and otherwise the next poll begins with nothing changed. */
  lemma {:induction false} VerdictIsActedOn(cfg: Config, acts: seq<Action>, cancelled: bool)
    requires Run(cfg, acts).watch.pc.Decide? && !Run(cfg, acts).a.stalled
    ensures
      var s, s' := Run(cfg, acts), Run(cfg, acts + [Watching(cancelled)]);
      var verdict := s.watch.stalled || s.watch.trickling;
      && (s'.watch.pc.Exited? <==> cancelled || verdict) && (s'.watch.killed <==> cancelled || verdict)
      && (s'.a.stalled <==> verdict)
      && (!cancelled && !verdict ==> s'.watch.pc.Poll? && s'.a == s.a)
      && Here(s').(a := s.a) == Here(s)
  {
    RunNext(cfg, acts, Watching(cancelled));
  }

  /** A poll looks at the marks only while the session is not over. */
  lemma {:induction false} DoneEndsPolling(cfg: Config, acts: seq<Action>, cancelled: bool)
    requires ValidConfig(cfg) && Run(cfg, acts).watch.pc.Poll?
    ensures
      var s, s' := Run(cfg, acts), Run(cfg, acts + [Watching(cancelled)]);
      && (s'.watch.pc.Exited? <==> s.truth.over) && (s'.watch.pc.Clock? <==> !s.truth.over)
      && s'.watch.killed == s.watch.killed && s'.a == s.a
  {
    EveryRun(cfg, acts);
    RunNext(cfg, acts, Watching(cancelled));
  }

  /** How many steps a poll has before it decides at most. */
  function ToDecision(pc: WatchPc): nat {
    match pc
    case Poll => 8 case Clock => 7 case LoadOutstanding => 6 case LoadWaiting => 5 case LoadSince => 4
    case LoadDecoding => 3 case LoadWait => 2 case LoadBytes => 1
    case _ => 0
  }

  /** A poll under way that nothing has disturbed, of a moment still standing. */
  predicate Undisturbed(s: State, m: Moment) {
    && Here(s) == m && !m.a.done
    && (s.watch.pc.Poll? || s.watch.pc.Clock? ||
        (s.h.poll == m && if Loading(s.watch) then s.h.quiet else s.h.quietLoads))
  }

  lemma {:induction false} PollMovesEarly(cfg: Config, s: State, m: Moment)
    requires Undisturbed(s, m) && AtPoll(s.watch.pc)
    ensures Undisturbed(PollStep(cfg, s), m)
    ensures ToDecision(PollStep(cfg, s).watch.pc) < ToDecision(s.watch.pc) && !PollStep(cfg, s).watch.pc.Exited?
  {
    PollFrame(cfg, s);
  }

  lemma {:induction false} PollMovesLate(cfg: Config, s: State, m: Moment)
    requires Undisturbed(s, m) && !AtPoll(s.watch.pc) && ToDecision(s.watch.pc) > 0
    ensures
      var s' := JudgeStep(cfg, s, false);
      Undisturbed(s', m) && ToDecision(s'.watch.pc) < ToDecision(s.watch.pc) && !s'.watch.pc.Exited?
  {
    JudgeFrame(cfg, s, false);
  }

  lemma {:induction false} PollMoves(cfg: Config, s: State, m: Moment)
    requires Undisturbed(s, m) && ToDecision(s.watch.pc) > 0
    ensures
      var s' := WatchStep(cfg, s, false);
      Undisturbed(s', m) && ToDecision(s'.watch.pc) < ToDecision(s.watch.pc) && !s'.watch.pc.Exited?
  {
    if AtPoll(s.watch.pc) { PollMovesEarly(cfg, s, m); } else { PollMovesLate(cfg, s, m); }
  }

  lemma {:induction false} PollReachesDecision(cfg: Config, acts: seq<Action>, m: Moment) returns (more: seq<Action>)
    requires Undisturbed(Run(cfg, acts), m) && !Run(cfg, acts).watch.pc.Exited?
    ensures
      var s := Run(cfg, more);
      s.watch.pc.Decide? && Undisturbed(s, m)
    decreases ToDecision(Run(cfg, acts).watch.pc)
  {
    more := acts;
    if !Run(cfg, acts).watch.pc.Decide? {
      PollMoves(cfg, Run(cfg, acts), m);
      RunNext(cfg, acts, Watching(false));
      more := PollReachesDecision(cfg, acts + [Watching(false)], m);
    }
  }

  /** So a worker that is overdue when a poll begins, and stays so while nothing else moves, is killed by
      that poll and reported as timed out. */
  lemma {:induction false} OverdueIsKilled(cfg: Config, acts: seq<Action>) returns (more: seq<Action>)
    requires ValidConfig(cfg)
    requires
      var s := Run(cfg, acts);
      && s.watch.pc.Poll? && !s.a.done && Overdue(cfg, Here(s))
      && s.clock < U64_MAX && (s.caller.Idle? || s.caller.Answering?)
    ensures
      var s := Run(cfg, more);
      s.watch.pc.Exited? && s.watch.killed && s.a.stalled && s.h.poll == Here(Run(cfg, acts))
  {
    var m := Here(Run(cfg, acts));
    var decided := PollReachesDecision(cfg, acts, m);
    QuietPollDecides(cfg, decided);
    RunNext(cfg, decided, Watching(false));
    more := decided + [Watching(false)];
  }

  // ---------------------------------------------------------------- a verdict after the return

  lemma {:induction false} RunNext(cfg: Config, acts: seq<Action>, act: Action)
    ensures Run(cfg, acts + [act]) == Step(cfg, Run(cfg, acts), act)
  {
    assert (acts + [act])[..|acts|] == acts;
  }

  /** The reader's first `read_frame` came back just before the limit and its mark still stands. */
  ghost predicate BackInTime(cfg: Config, s: State) {
    && s.clock == cfg.stallMs && s.reader.pc == Returned(0, Data(1)) && s.caller == Idle
    && s.a.outstanding && s.a.since == 0 && s.a.waiting == 0 && !s.a.done
    && s.truth.waitStart == None && s.truth.markStart == Some(0) && s.truth.readAt == 0 && s.watch == Init(cfg).watch
  }

  lemma {:induction false} ComesBackInTime(cfg: Config) returns (acts: seq<Action>)
    requires 0 < cfg.stallMs < U64_MAX
    ensures BackInTime(cfg, Run(cfg, acts + [Tick(1)]))
    ensures Run(cfg, acts).reader.pc.Returned? && Run(cfg, acts).truth.readAt == 0 && Run(cfg, acts).clock < cfg.stallMs
  {
    RunNext(cfg, [], Read(Other, false));
    RunNext(cfg, [Read(Other, false)], Read(Other, false));
    var two := [Read(Other, false)] + [Read(Other, false)];
    assert [] + [Read(Other, false)] == [Read(Other, false)];
    RunNext(cfg, two, Tick(cfg.stallMs - 1));
    RunNext(cfg, two + [Tick(cfg.stallMs - 1)], Read(Data(1), false));
    acts := two + [Tick(cfg.stallMs - 1)] + [Read(Data(1), false)];
    RunNext(cfg, acts, Tick(1));
  }

  lemma {:induction false} PollFires(cfg: Config, acts: seq<Action>) returns (more: seq<Action>)
    requires 0 < cfg.stallMs < U64_MAX && BackInTime(cfg, Run(cfg, acts))
    ensures acts <= more
    ensures
      var s := Run(cfg, more);
      && s.watch.stalled && s.h.poll.reader.Returned? && s.h.poll.truth.waitStart == None
      && s.h.poll.truth.readAt == s.truth.readAt == Run(cfg, acts).truth.readAt
  {
    var w := Watching(false);
    RunNext(cfg, acts, w);
    RunNext(cfg, acts + [w], w);
    RunNext(cfg, acts + [w] + [w], w);
    RunNext(cfg, acts + [w] + [w] + [w], w);
    RunNext(cfg, acts + [w] + [w] + [w] + [w], w);
    more := acts + [w] + [w] + [w] + [w] + [w];
  }

  /** The second case of `StallIsSound` is real: for every limit there is a run in which a frame arrives
      before the limit, after the first `back` steps, and the poll fires all the same because the reader
      has not yet cleared the mark of that one read. */
  lemma {:induction false} StallAfterReturn(cfg: Config) returns (acts: seq<Action>, back: nat)
    requires 0 < cfg.stallMs < U64_MAX
    ensures back <= |acts|
    ensures
      var s, r := Run(cfg, acts), Run(cfg, acts[..back]);
      && r.reader.pc.Returned? && r.truth.readAt <= r.clock < r.truth.readAt + cfg.stallMs
      && s.watch.stalled && s.h.poll.reader.Returned? && s.h.poll.truth.waitStart == None
      && s.h.poll.truth.readAt == r.truth.readAt
  {
    var upTo := ComesBackInTime(cfg);
    back := |upTo|;
    RunNext(cfg, upTo, Tick(1));
    acts := PollFires(cfg, upTo + [Tick(1)]);
    assert acts[..back] == upTo;
  }
}
