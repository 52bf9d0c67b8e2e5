/** What calls do when nothing is in their way, and a run in which a publication follows a disable. */
module PluginProgress {
  import opened Common
  import opened PluginSessions
  import opened PluginRuns

  // ---------------------------------------------------------------- a dispatch left alone

  /** How many steps a dispatch still has at most. */
  function Left(pc: Pc): nat {
    match pc
    case Asked => 15 case Known => 14 case Queued => 13 case Locked => 12 case Allowed => 11
    case EventReady => 10 case EventRunning => 9 case EventBack(_, _) => 8
    case FetchReady(_, _) => 7 case FetchRunning(_) => 6 case FetchBack(_) => 5
    case RefreshReady(_) => 4 case RefreshRunning => 3 case RefreshBack(_) => 2 case PublishReady(_) => 1
    case _ => 0
  }

  /** A dispatch with nothing in its way: its session is live at the revision it expects, its plugin is
      enabled, and the plugin's lock is free or already its own. */
  predicate Ready(key: KeyOf, s: State, c: nat) {
    && c in s.calls && Left(s.calls[c].pc) > 0
    && var call := s.calls[c];
       && call.session in s.store.sessions && s.store.sessions[call.session].revision == call.expected
       && var plugin := if call.pc.Asked? then s.store.sessions[call.session].plugin else call.plugin;
          plugin in s.enabled && (HoldsLock(call.pc) || LockKey(key, plugin) !in s.locks)
  }

  predicate Succeeded(s: State, c: nat, id: Id, expected: nat) {
    && c in s.calls && s.calls[c].pc == Done(true)
    && id in s.store.sessions && s.store.sessions[id].revision == expected + 1
    && (id, expected) in s.h.successes && s.h.successes[(id, expected)] == c
  }

  function Advances(key: KeyOf, s: State, c: nat, rs: seq<Reply>): State
    decreases |rs|
  {
    if rs == [] then s else Advances(key, Step(key, s, Advance(c, rs[0])), c, rs[1..])
  }

  /** A reply that lets a dispatch go on: the target is good, the guest answers, the layout comes back. Whether a
      fetch succeeds does not matter. */
  predicate Fits(pc: Pc, r: Reply) { pc.Allowed? || pc.EventRunning? || pc.RefreshRunning? ==> r.ok }

  predicate AllFit(key: KeyOf, s: State, c: nat, rs: seq<Reply>)
    decreases |rs|
  {
    rs == [] || (c in s.calls && Fits(s.calls[c].pc, rs[0]) && AllFit(key, Step(key, s, Advance(c, rs[0])), c, rs[1..]))
  }

  /** One step closer, with nothing lost on the way. */
  predicate Closer(key: KeyOf, s: State, s': State, c: nat)
    requires c in s.calls
  {
    && Ready(key, s', c) && Left(s'.calls[c].pc) < Left(s.calls[c].pc)
    && s'.calls[c].session == s.calls[c].session && s'.calls[c].expected == s.calls[c].expected
    && s'.store.sessions == s.store.sessions && s'.enabled == s.enabled
  }

  lemma {:induction false} BeforeEvent(key: KeyOf, s: State, c: nat, r: Reply)
    requires Ready(key, s, c) && Fits(s.calls[c].pc, r) && Left(s.calls[c].pc) > 9
    ensures Closer(key, s, Step(key, s, Advance(c, r)), c)
  {
  }

  lemma {:induction false} AfterEvent(key: KeyOf, s: State, c: nat, r: Reply)
    requires Ready(key, s, c) && Fits(s.calls[c].pc, r) && 5 < Left(s.calls[c].pc) <= 9
    ensures Closer(key, s, Step(key, s, Advance(c, r)), c)
  {
  }

  lemma {:induction false} AfterFetch(key: KeyOf, s: State, c: nat, r: Reply)
    requires Ready(key, s, c) && Fits(s.calls[c].pc, r) && 1 < Left(s.calls[c].pc) <= 5
    ensures Closer(key, s, Step(key, s, Advance(c, r)), c)
  {
  }

  lemma {:induction false} LastStep(key: KeyOf, s: State, c: nat, r: Reply)
    requires Ready(key, s, c) && Left(s.calls[c].pc) == 1
    ensures Succeeded(Step(key, s, Advance(c, r)), c, s.calls[c].session, s.calls[c].expected)
  {
  }

  lemma {:induction false} ReadyStep(key: KeyOf, s: State, c: nat, r: Reply)
    requires Ready(key, s, c) && Fits(s.calls[c].pc, r)
    ensures
      var s', call := Step(key, s, Advance(c, r)), s.calls[c];
      if call.pc.PublishReady? then Succeeded(s', c, call.session, call.expected) else Closer(key, s, s', c)
  {
    if Left(s.calls[c].pc) > 9 {
      BeforeEvent(key, s, c, r);
    } else if Left(s.calls[c].pc) > 5 {
      AfterEvent(key, s, c, r);
    } else if Left(s.calls[c].pc) > 1 {
      AfterFetch(key, s, c, r);
    } else {
      LastStep(key, s, c, r);
    }
  }

  lemma {:induction false} SucceededStays(key: KeyOf, s: State, c: nat, rs: seq<Reply>, id: Id, expected: nat)
    requires Succeeded(s, c, id, expected)
    ensures Succeeded(Advances(key, s, c, rs), c, id, expected)
    decreases |rs|
  {
    if rs != [] {
      assert Step(key, s, Advance(c, rs[0])).store == s.store;
      SucceededStays(key, Step(key, s, Advance(c, rs[0])), c, rs[1..], id, expected);
    }
  }

  /** Left alone with guest calls that succeed, a dispatch at the current revision publishes the next one,
      whether or not its fetch succeeds. */
  lemma {:induction false} UndisturbedDispatchSucceeds(key: KeyOf, s: State, c: nat, rs: seq<Reply>)
    requires Ready(key, s, c) && |rs| >= Left(s.calls[c].pc) && AllFit(key, s, c, rs)
    ensures Succeeded(Advances(key, s, c, rs), c, s.calls[c].session, s.calls[c].expected)
    decreases |rs|
  {
    var s', call := Step(key, s, Advance(c, rs[0])), s.calls[c];
    ReadyStep(key, s, c, rs[0]);
    if call.pc.PublishReady? {
      SucceededStays(key, s', c, rs[1..], call.session, call.expected);
    } else {
      UndisturbedDispatchSucceeds(key, s', c, rs[1..]);
    }
  }

  // ---------------------------------------------------------------- no lock is left behind

  /** The holder of lock `k` is a dispatch past its acquisition, or a removal that is not over. */
  predicate Held(key: KeyOf, s: State, k: Plugin)
    requires k in s.locks
  {
    match s.locks[k]
    case ByCall(c) => c in s.calls && HoldsLock(s.calls[c].pc) && LockKey(key, s.calls[c].plugin) == k
    case ByRemoval(r) => r in s.removals && s.removals[r].key == k
  }

  ghost predicate AllHeld(key: KeyOf, s: State) { forall k :: k in s.locks ==> Held(key, s, k) }

  lemma {:induction false} AdvanceHeld(key: KeyOf, s: State, c: nat, m: Move)
    requires AllHeld(key, s) && c in s.calls && (m.Learn? ==> !HoldsLock(s.calls[c].pc))
    requires m.Acquire? || (HoldsLock(Moved(s, s.calls[c], m).pc) <==> HoldsLock(s.calls[c].pc) && !m.GiveUp? && !m.DoPublish?)
    ensures AllHeld(key, Apply(key, s, c, m))
  {
  }

  lemma {:induction false} HoldsUntilTheEnd(key: KeyOf, s: State, call: Call, r: Reply)
    ensures
      var m := Decide(key, s, call, r);
      && (m.Learn? ==> !HoldsLock(call.pc))
      && (m.Acquire? || (HoldsLock(Moved(s, call, m).pc) <==> HoldsLock(call.pc) && !m.GiveUp? && !m.DoPublish?))
  {
  }

  lemma {:induction false} StepHeld(key: KeyOf, s: State, act: Action)
    requires AllHeld(key, s)
    ensures AllHeld(key, Step(key, s, act))
  {
    if act.Advance? && act.call in s.calls {
      HoldsUntilTheEnd(key, s, s.calls[act.call], act.reply);
      AdvanceHeld(key, s, act.call, Decide(key, s, s.calls[act.call], act.reply));
    } else if act.Abandon? && act.call in s.calls && !s.calls[act.call].pc.Done? {
      AdvanceHeld(key, s, act.call, GiveUp);
    }
  }

  lemma {:induction false} EveryLockIsHeld(key: KeyOf, acts: seq<Action>)
    ensures AllHeld(key, Run(key, Init(), acts))
  {
    if acts != [] {
      EveryLockIsHeld(key, acts[..|acts| - 1]);
      StepHeld(key, Run(key, Init(), acts[..|acts| - 1]), acts[|acts| - 1]);
    }
  }

  /** Call `d` is past the acquisition of a lock that `p` also takes: where both ids parse, one plugin. */
  predicate InTheWay(key: KeyOf, s: State, d: nat, p: Plugin) {
    && d in s.calls && HoldsLock(s.calls[d].pc)
    && var q := s.calls[d].plugin;
       if key(p).Some? && key(q).Some? then key(p) == key(q) else p == q || key(q) == Some(p) || key(p) == Some(q)
  }

  /** Whatever happened before, failures, abandoned calls and finished removals included: an enabled
      dispatch waits for its lock if and only if another dispatch in flight or an unfinished removal has it. */
  lemma {:induction false} WaitsOnlyForHolders(key: KeyOf, acts: seq<Action>, c: nat, r: Reply)
    requires c in Run(key, Init(), acts).calls && Run(key, Init(), acts).calls[c].pc.Queued?
    ensures
      var s := Run(key, Init(), acts);
      var p, m := s.calls[c].plugin, Decide(key, s, s.calls[c], r);
      && (m.Wait? || m.Acquire?)
      && (m.Wait? <==> (exists d :: d != c && InTheWay(key, s, d, p))
                       || (exists q :: q in s.removals && s.removals[q].key == LockKey(key, p)))
  {
    var s := Run(key, Init(), acts);
    var k := LockKey(key, s.calls[c].plugin);
    EveryLockIsHeld(key, acts);
    EveryRun(key, acts);
    if k in s.locks {
      assert Held(key, s, k);
      if s.locks[k].ByCall? { assert InTheWay(key, s, s.locks[k].call, s.calls[c].plugin); }
    }
  }

  /** A call that is dropped is over, leaves the sessions alone and holds no lock any more. */
  lemma {:induction false} DroppedIsOver(key: KeyOf, acts: seq<Action>, c: nat)
    requires c in Run(key, Init(), acts).calls
    ensures
      var s := Run(key, Init(), acts);
      var s' := Step(key, s, Abandon(c));
      && s'.calls[c].pc == (if s.calls[c].pc.Done? then s.calls[c].pc else Done(false))
      && s'.store == s.store && s'.h == s.h
      && forall k :: k in s'.locks ==> s'.locks[k] != ByCall(c)
  {
    var s := Run(key, Init(), acts);
    EveryLockIsHeld(key, acts);
    StepHeld(key, s, Abandon(c));
    assert forall k :: k in Step(key, s, Abandon(c)).locks ==> Held(key, Step(key, s, Abandon(c)), k);
  }

  // ---------------------------------------------------------------- a publication after a disable

  lemma {:induction false} RunAppend(key: KeyOf, s: State, a: seq<Action>, b: seq<Action>)
    ensures Run(key, s, a + b) == Run(key, Run(key, s, a), b)
    decreases |b|
  {
    if b == [] {
      assert a + b == a;
    } else {
      assert (a + b)[..|a + b| - 1] == a + b[..|b| - 1];
      RunAppend(key, s, a, b[..|b| - 1]);
    }
  }

  lemma {:induction false} RunStep(key: KeyOf, s: State, act: Action, rest: seq<Action>)
    ensures Run(key, s, [act] + rest) == Run(key, Step(key, s, act), rest)
  {
    RunAppend(key, s, [act], rest);
    assert [act][..0] == [] && Run(key, s, []) == s;
  }

  /** Left alone, a ready dispatch comes to its last boundary, right before it publishes. */
  lemma {:induction false} ReachesPublication(key: KeyOf, s: State, c: nat, r: Reply) returns (acts: seq<Action>)
    requires Ready(key, s, c) && r.ok
    ensures
      var t := Run(key, s, acts);
      && Ready(key, t, c) && t.calls[c].pc.PublishReady? && t.calls[c].session == s.calls[c].session
      && t.store.sessions == s.store.sessions && t.enabled == s.enabled
    decreases Left(s.calls[c].pc)
  {
    acts := [];
    if !s.calls[c].pc.PublishReady? {
      ReadyStep(key, s, c, r);
      acts := ReachesPublication(key, Step(key, s, Advance(c, r)), c, r);
      RunStep(key, s, Advance(c, r), acts);
      acts := [Advance(c, r)] + acts;
    }
  }

  /** How many steps an open still has. */
  function OpenLeft(pc: Pc): nat {
    match pc
    case OpenAsked => 6 case LayoutReady => 5 case LayoutRunning => 4 case LayoutBack(_) => 3
    case RegisterReady(_) => 2 case Minted(_, _) => 1
    case _ => 0
  }

  predicate Opening(s: State, c: nat, p: Plugin) {
    && c in s.calls && OpenLeft(s.calls[c].pc) > 0 && s.calls[c].plugin == p && p in s.enabled
    && s.locks == map[] && s.calls.Keys == {c}
  }

  predicate Opened(s: State, c: nat, p: Plugin, id: Id) {
    && s.calls.Keys == {c} && p in s.enabled && s.locks == map[]
    && id in s.store.sessions && s.store.sessions[id].plugin == p && s.store.sessions[id].revision == 1
  }

  lemma {:induction false} OpenStep(key: KeyOf, s: State, c: nat, p: Plugin, r: Reply)
    requires Opening(s, c, p) && r.ok
    ensures
      var s' := Step(key, s, Advance(c, r));
      if s.calls[c].pc.Minted? then Opened(s', c, p, s.calls[c].pc.id)
      else Opening(s', c, p) && OpenLeft(s'.calls[c].pc) < OpenLeft(s.calls[c].pc)
  {
  }

  lemma {:induction false} ReachesSession(key: KeyOf, s: State, c: nat, p: Plugin, r: Reply)
    returns (acts: seq<Action>, id: Id)
    requires Opening(s, c, p) && r.ok
    ensures Opened(Run(key, s, acts), c, p, id)
    decreases OpenLeft(s.calls[c].pc)
  {
    var s' := Step(key, s, Advance(c, r));
    OpenStep(key, s, c, p, r);
    if s.calls[c].pc.Minted? {
      acts, id := [], s.calls[c].pc.id;
    } else {
      acts, id := ReachesSession(key, s', c, p, r);
    }
    RunStep(key, s, Advance(c, r), acts);
    assert Run(key, s', []) == s';
    acts := [Advance(c, r)] + acts;
  }

  lemma {:induction false} StartsReady(key: KeyOf, s: State, p: Plugin, id: Id)
    requires Opened(s, 0, p, id)
    ensures Ready(key, Step(key, s, StartDispatch(1, id, 1)), 1)
    ensures Step(key, s, StartDispatch(1, id, 1)).calls[1].session == id
  {
  }

  /** Call 1 stands right before the publication to a live session of an enabled plugin. */
  predicate AtBoundary(s: State, p: Plugin, id: Id) {
    && 1 in s.calls && s.calls[1].pc.PublishReady? && s.calls[1].session == id
    && id in s.store.sessions && s.store.sessions[id].plugin == p && p in s.enabled
  }

  lemma {:induction false} ReachesBoundary(key: KeyOf, s: State, p: Plugin, id: Id, r: Reply) returns (acts: seq<Action>)
    requires Opened(s, 0, p, id) && r.ok
    ensures AtBoundary(Run(key, s, acts), p, id)
  {
    var start := StartDispatch(1, id, 1);
    StartsReady(key, s, p, id);
    var going := ReachesPublication(key, Step(key, s, start), 1, r);
    RunStep(key, s, start, going);
    acts := [start] + going;
  }

  lemma {:induction false} ReachesOpening(key: KeyOf, p: Plugin)
    ensures Opening(Run(key, Init(), [Enable(p), StartOpen(0, p)]), 0, p)
  {
    RunStep(key, Init(), Enable(p), [StartOpen(0, p)]);
    RunStep(key, Step(key, Init(), Enable(p)), StartOpen(0, p), []);
    assert [Enable(p)] + [StartOpen(0, p)] == [Enable(p), StartOpen(0, p)];
    assert [StartOpen(0, p)] + [] == [StartOpen(0, p)];
  }

  lemma {:induction false} LatePublication(key: KeyOf, s: State, p: Plugin, id: Id, r: Reply)
    requires AtBoundary(s, p, id)
    ensures
      var t := Run(key, s, [Disable(p), Advance(1, r)]);
      && p !in t.enabled && id in t.store.sessions
      && t.store.sessions[id].revision == s.store.sessions[id].revision + 1
  {
    RunStep(key, s, Disable(p), [Advance(1, r)]);
    RunStep(key, Step(key, s, Disable(p)), Advance(1, r), []);
    assert [Disable(p)] + [Advance(1, r)] == [Disable(p), Advance(1, r)];
    assert [Advance(1, r)] + [] == [Advance(1, r)];
  }

  /**
   The documented promise fails on a run from the start: for every plugin, a session is opened, a
   dispatch comes to its last boundary, the plugin is disabled, and the dispatch still publishes.
   */
  lemma {:induction false} DisableCanBeLate(key: KeyOf, p: Plugin, r: Reply) returns (acts: seq<Action>, id: Id)
    requires r.ok
    ensures
      var s := Run(key, Init(), acts);
      var t := Run(key, s, [Disable(p), Advance(1, r)]);
      && id in s.store.sessions && s.store.sessions[id].plugin == p && p in s.enabled
      && p !in t.enabled && id in t.store.sessions
      && t.store.sessions[id].revision == s.store.sessions[id].revision + 1
  {
    var start := [Enable(p), StartOpen(0, p)];
    ReachesOpening(key, p);
    var opening, session := ReachesSession(key, Run(key, Init(), start), 0, p, r);
    RunAppend(key, Init(), start, opening);
    var going := ReachesBoundary(key, Run(key, Init(), start + opening), p, session, r);
    RunAppend(key, Init(), start + opening, going);
    acts, id := start + opening + going, session;
    LatePublication(key, Run(key, Init(), acts), p, id, r);
  }
}
