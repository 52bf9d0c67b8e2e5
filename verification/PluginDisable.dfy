/**
 What disabling a plugin contains, exactly: which effects its calls in flight can still have, and
 which of them can still register a session or publish a revision.
 */
module PluginDisable {
  import opened PluginSessions
  import opened PluginRuns

  // ---------------------------------------------------------------- counting effects

  /** Every effect, or only those that change a session: the registration and the publication. */
  predicate Counts(e: Effect, landing: bool) { landing ==> e.Registration? || e.Publication? }

  function Weight(e: (nat, Effect), c: nat, landing: bool): nat { if e.0 == c && Counts(e.1, landing) then 1 else 0 }

  function Tally(effects: seq<(nat, Effect)>, c: nat, landing: bool): nat {
    if effects == [] then 0 else
    Tally(effects[..|effects| - 1], c, landing) + Weight(effects[|effects| - 1], c, landing)
  }

  lemma {:induction false} TallyOneMore(effects: seq<(nat, Effect)>, e: (nat, Effect), c: nat, landing: bool)
    ensures Tally(effects + [e], c, landing) == Tally(effects, c, landing) + Weight(e, c, landing)
  {
    assert (effects + [e])[..|effects|] == effects;
  }

  /** A call stands where an effect follows whatever the flag says: past the check, with nothing left
      to stop it. Of these, only a registration or a live session's publication lands in the store. */
  predicate Poised(sessions: map<Id, Record>, call: Call, landing: bool) {
    match call.pc
    case RegisterReady(_) => true
    case Minted(_, _) => true
    case PublishReady(_) => call.session in sessions
    case LayoutReady => !landing
    case EventReady => !landing
    case Allowed => !landing && call.session in sessions && sessions[call.session].revision == call.expected
    case FetchReady(fetch, _) => !landing && fetch
    case RefreshReady(refresh) => !landing && refresh
    case _ => false
  }

  function One(b: bool): nat { if b then 1 else 0 }

  function May(s: State, c: nat, landing: bool): nat {
    One(c in s.calls && Poised(s.store.sessions, s.calls[c], landing))
  }

  // ---------------------------------------------------------------- one step under a disabled flag

  /** A move of the disabled plugin's own call: an effect spends what it was poised for, and nothing
      poises it again. */
  lemma {:induction false} OwnMove(key: KeyOf, s: State, call: Call, r: Reply, landing: bool)
    requires call.plugin !in s.enabled && !call.pc.Asked?
    ensures
      var m := Decide(key, s, call, r);
      One(EffectOf(m).Some? && Counts(EffectOf(m).value, landing))
        + One(Poised(MovedStore(s, call, m).sessions, Moved(s, call, m), landing))
      <= One(Poised(s.store.sessions, call, landing))
  {
  }

  /** A step that is not the call's own. */
  predicate Foreign(act: Action, c: nat) { !(act.Advance? && act.call == c) && !(act.Abandon? && act.call == c) }

  /** While a dispatch holds its lock, nobody else publishes to its session or brings it back. */
  lemma {:induction false} AdvanceLeavesSession(key: KeyOf, s: State, c: nat, d: nat, r: Reply)
    requires Inv(key, s) && c in s.calls && d in s.calls && c != d && HoldsLock(s.calls[c].pc)
    ensures
      var id, now := s.calls[c].session, AdvanceCall(key, s, d, r).store.sessions;
      id in now ==> id in s.store.sessions && now[id] == s.store.sessions[id]
  {
    var m := Decide(key, s, s.calls[d], r);
    DecideAboutLocks(key, s, s.calls[d], r);
    assert CallInv(s.store, s.h.documents, Gone(s.h), s.calls[c]);
    assert CallInv(s.store, s.h.documents, Gone(s.h), s.calls[d]);
    if m.DoPublish? { OneHolderAtATime(key, s, c, d); }
  }

  /** Two dispatches that hold their locks are not at one live session: it has one plugin, with one lock. */
  lemma {:induction false} OneHolderAtATime(key: KeyOf, s: State, c: nat, d: nat)
    requires Inv(key, s) && c in s.calls && d in s.calls && c != d
    requires HoldsLock(s.calls[c].pc) && HoldsLock(s.calls[d].pc) && s.calls[d].session in s.store.sessions
    ensures s.calls[c].session != s.calls[d].session
  {
    assert CallInv(s.store, s.h.documents, Gone(s.h), s.calls[c]);
    assert CallInv(s.store, s.h.documents, Gone(s.h), s.calls[d]);
  }

  lemma {:induction false} ForeignLeavesSession(key: KeyOf, s: State, c: nat, act: Action)
    requires Inv(key, s) && c in s.calls && HoldsLock(s.calls[c].pc) && Foreign(act, c)
    ensures
      var id, now := s.calls[c].session, Step(key, s, act).store.sessions;
      id in now ==> id in s.store.sessions && now[id] == s.store.sessions[id]
  {
    if act.Advance? {
      if act.call in s.calls { AdvanceLeavesSession(key, s, c, act.call, act.reply); }
    } else if act.RestoreStaged? {
      LockedIsNotStaged(key, s, c);
    }
  }

  lemma {:induction false} ForeignLeavesCall(key: KeyOf, s: State, c: nat, act: Action)
    requires c in s.calls && Foreign(act, c)
    ensures c in Step(key, s, act).calls && Step(key, s, act).calls[c] == s.calls[c]
  {
  }

  lemma {:induction false} ForeignPoisesNobody(key: KeyOf, s: State, c: nat, act: Action, landing: bool)
    requires Inv(key, s) && c in s.calls && Foreign(act, c)
    ensures May(Step(key, s, act), c, landing) <= May(s, c, landing)
  {
    ForeignLeavesCall(key, s, c, act);
    if HoldsLock(s.calls[c].pc) { ForeignLeavesSession(key, s, c, act); }
    PoisedShrinks(s.store.sessions, Step(key, s, act).store.sessions, s.calls[c], landing);
  }

  lemma {:induction false} PoisedShrinks(was: map<Id, Record>, now: map<Id, Record>, call: Call, landing: bool)
    requires HoldsLock(call.pc) && call.session in now ==> call.session in was && now[call.session] == was[call.session]
    ensures Poised(now, call, landing) ==> Poised(was, call, landing)
  {
  }

  lemma {:induction false} EffectsGrow(key: KeyOf, s: State, act: Action)
    ensures
      var now := Step(key, s, act).h.effects;
      if act.Advance? && act.call in s.calls && EffectOf(Decide(key, s, s.calls[act.call], act.reply)).Some?
      then now == s.h.effects + [(act.call, EffectOf(Decide(key, s, s.calls[act.call], act.reply)).value)]
      else now == s.h.effects
  {
  }

  /** How the tally of call `c` grows in one step. */
  lemma {:induction false} TallyStep(key: KeyOf, s: State, act: Action, c: nat, landing: bool)
    ensures
      var now, was := Tally(Step(key, s, act).h.effects, c, landing), Tally(s.h.effects, c, landing);
      if act.Advance? && act.call == c && c in s.calls then
        var e := EffectOf(Decide(key, s, s.calls[c], act.reply));
        now == was + One(e.Some? && Counts(e.value, landing))
      else now == was
  {
    EffectsGrow(key, s, act);
    if act.Advance? && act.call in s.calls {
      var e := EffectOf(Decide(key, s, s.calls[act.call], act.reply));
      if e.Some? { TallyOneMore(s.h.effects, (act.call, e.value), c, landing); }
    }
  }

  // ---------------------------------------------------------------- every run under a disabled flag

  /** What call `c` may have done since `s0` if it turns out to be one of plugin `p`. */
  predicate Contained(s0: State, s: State, c: nat, p: Plugin, landing: bool) {
    var now, was := Tally(s.h.effects, c, landing), Tally(s0.h.effects, c, landing);
    if c !in s.calls || s.calls[c].pc.Asked? then now == was
    else s.calls[c].plugin == p ==> now + May(s, c, landing) <= was + May(s0, c, landing)
  }

  lemma {:induction false} AdvanceIs(key: KeyOf, s: State, c: nat, r: Reply)
    requires c in s.calls
    ensures
      var s', m := Step(key, s, Advance(c, r)), Decide(key, s, s.calls[c], r);
      && c in s'.calls && s'.calls[c] == Moved(s, s.calls[c], m)
      && s'.store.sessions == MovedStore(s, s.calls[c], m).sessions
  {
  }

  /** A dispatch that learns its plugin does nothing else; after that its plugin stays. */
  lemma {:induction false} LearnsOnce(key: KeyOf, s: State, call: Call, r: Reply, landing: bool)
    ensures
      var m := Decide(key, s, call, r);
      && !Moved(s, call, m).pc.Asked?
      && (call.pc.Asked? ==> EffectOf(m).None? && !Poised(MovedStore(s, call, m).sessions, Moved(s, call, m), landing))
      && (!call.pc.Asked? ==> Moved(s, call, m).plugin == call.plugin)
  {
  }

  lemma {:induction false} OwnAdvance(key: KeyOf, s0: State, s: State, c: nat, p: Plugin, r: Reply, landing: bool)
    requires p !in s.enabled && c in s.calls && Contained(s0, s, c, p, landing)
    ensures Contained(s0, Step(key, s, Advance(c, r)), c, p, landing)
  {
    var call := s.calls[c];
    TallyStep(key, s, Advance(c, r), c, landing);
    AdvanceIs(key, s, c, r);
    LearnsOnce(key, s, call, r, landing);
    if !call.pc.Asked? && call.plugin == p { OwnMove(key, s, call, r, landing); }
  }

  lemma {:induction false} ForeignContained(key: KeyOf, s0: State, s: State, c: nat, p: Plugin, act: Action, landing: bool)
    requires Inv(key, s) && Foreign(act, c) && Contained(s0, s, c, p, landing)
    ensures Contained(s0, Step(key, s, act), c, p, landing)
  {
    TallyStep(key, s, act, c, landing);
    if c in s.calls {
      ForeignLeavesCall(key, s, c, act);
      ForeignPoisesNobody(key, s, c, act, landing);
    } else {
      assert c in Step(key, s, act).calls ==> Step(key, s, act).calls[c].pc in {OpenAsked, Asked};
    }
  }

  lemma {:induction false} ContainedStep(key: KeyOf, s0: State, s: State, c: nat, p: Plugin, act: Action, landing: bool)
    requires Inv(key, s) && p !in s.enabled && act != Enable(p) && Contained(s0, s, c, p, landing)
    ensures p !in Step(key, s, act).enabled && Contained(s0, Step(key, s, act), c, p, landing)
  {
    if Foreign(act, c) || c !in s.calls {
      if Foreign(act, c) { ForeignContained(key, s0, s, c, p, act, landing); }
    } else if act.Advance? {
      OwnAdvance(key, s0, s, c, p, act.reply, landing);
    } else {
      TallyStep(key, s, act, c, landing);
    }
  }

  lemma {:induction false} ContainedRun(key: KeyOf, s: State, acts: seq<Action>, c: nat, p: Plugin, landing: bool)
    requires Inv(key, s) && p !in s.enabled && Enable(p) !in acts
    ensures p !in Run(key, s, acts).enabled && Contained(s, Run(key, s, acts), c, p, landing)
  {
    if acts != [] {
      var init, last := acts[..|acts| - 1], acts[|acts| - 1];
      ContainedRun(key, s, init, c, p, landing);
      RunExtends(key, s, init);
      assert last in acts;
      ContainedStep(key, s, Run(key, s, init), c, p, last, landing);
    }
  }

  /**
   After a disable that is not undone, in any run: a call of that plugin has at most one more effect, and
   none unless it was poised for it when the disable landed; a call that had not started, or did not yet
   know its plugin, has none. With `landing`, the same of registrations and publications alone.
   */
  lemma {:induction false} DisableContains(key: KeyOf, acts: seq<Action>, more: seq<Action>, c: nat, p: Plugin, landing: bool)
    requires p !in Run(key, Init(), acts).enabled && Enable(p) !in more
    ensures
      var s, t := Run(key, Init(), acts), Run(key, Run(key, Init(), acts), more);
      && p !in t.enabled
      && (c in t.calls && (t.calls[c].plugin == p || t.calls[c].pc.Asked?) ==>
            Tally(t.h.effects, c, landing) <= Tally(s.h.effects, c, landing) + May(s, c, landing))
  {
    EveryRun(key, acts);
    ContainedRun(key, Run(key, Init(), acts), more, c, p, landing);
  }

  // ---------------------------------------------------------------- the flag

  /** The last toggle of plugin `p` enabled it. */
  predicate LastEnabled(acts: seq<Action>, p: Plugin) {
    acts != [] &&
    var last := acts[|acts| - 1];
    last == Enable(p) || (last != Disable(p) && LastEnabled(acts[..|acts| - 1], p))
  }

  /** Calls and removals do not touch the flag, nor do the toggles of other plugins. */
  lemma {:induction false} FlagIsLastToggle(key: KeyOf, acts: seq<Action>, p: Plugin)
    ensures p in Run(key, Init(), acts).enabled <==> LastEnabled(acts, p)
  {
    if acts != [] {
      FlagIsLastToggle(key, acts[..|acts| - 1], p);
      FlagStep(key, Run(key, Init(), acts[..|acts| - 1]), acts[|acts| - 1], p);
    }
  }

  lemma {:induction false} FlagStep(key: KeyOf, s: State, act: Action, p: Plugin)
    ensures p in Step(key, s, act).enabled <==> act == Enable(p) || (act != Disable(p) && p in s.enabled)
  {
  }

  // ---------------------------------------------------------------- the boundaries

  /** Where the enabled flag is looked at again: before and after the layout, before and after the queue, and
      when the event, the fetch and the refresh are back. */
  predicate Boundary(pc: Pc) {
    pc.OpenAsked? || pc.LayoutBack? || pc.Known? || pc.Locked? || pc.EventBack? || pc.FetchBack? || pc.RefreshBack?
  }

  /** At a boundary a call gives up if and only if its plugin is disabled, and takes its lock with it. */
  lemma {:induction false} BoundaryStops(key: KeyOf, s: State, c: nat, r: Reply)
    requires c in s.calls && Boundary(s.calls[c].pc)
    ensures
      var s' := Step(key, s, Advance(c, r));
      && (s'.calls[c].pc.Done? <==> s.calls[c].plugin !in s.enabled)
      && (s.calls[c].plugin !in s.enabled ==>
            s'.calls[c].pc == Done(false) && s'.store == s.store && s'.h.documents == s.h.documents
            && (HoldsLock(s.calls[c].pc) ==> s'.locks == s.locks - {LockKey(key, s.calls[c].plugin)}))
  {
  }

  predicate InQueue(s: State, c: nat, p: Plugin) {
    c in s.calls && s.calls[c].plugin == p && (s.calls[c].pc.Queued? || HoldsLock(s.calls[c].pc))
  }

  lemma {:induction false} QueueStep(key: KeyOf, s: State, c: nat, p: Plugin, act: Action)
    requires p !in s.enabled && !InQueue(s, c, p)
    ensures !InQueue(Step(key, s, act), c, p)
  {
    if c in s.calls && Foreign(act, c) { ForeignLeavesCall(key, s, c, act); }
  }

  /** A disabled plugin's dispatches do not come into the queue. */
  lemma {:induction false} DisabledNeverQueues(key: KeyOf, s: State, more: seq<Action>, c: nat, p: Plugin)
    requires p !in s.enabled && Enable(p) !in more && !InQueue(s, c, p)
    ensures p !in Run(key, s, more).enabled && !InQueue(Run(key, s, more), c, p)
  {
    if more != [] {
      var init, last := more[..|more| - 1], more[|more| - 1];
      DisabledNeverQueues(key, s, init, c, p);
      assert last in more;
      QueueStep(key, Run(key, s, init), c, p, last);
    }
  }

  // ---------------------------------------------------------------- and no less

  /** A poised call has its effect within two steps of its own, disabled or not. */
  lemma {:induction false} PoisedActs(key: KeyOf, s: State, c: nat, r: Reply, landing: bool)
    requires c in s.calls && Poised(s.store.sessions, s.calls[c], landing) && r.ok
    ensures
      var s1 := Step(key, s, Advance(c, r));
      || Tally(s1.h.effects, c, landing) > Tally(s.h.effects, c, landing)
      || Tally(Step(key, s1, Advance(c, r)).h.effects, c, landing) > Tally(s.h.effects, c, landing)
  {
    var s1 := Step(key, s, Advance(c, r));
    TallyStep(key, s, Advance(c, r), c, landing);
    if s.calls[c].pc.Allowed? || s.calls[c].pc.RegisterReady? {
      AdvanceIs(key, s, c, r);
      PoisedNext(key, s, s.calls[c], r, landing);
      TallyStep(key, s1, Advance(c, r), c, landing);
      PoisedNow(key, s1, s1.calls[c], r, landing);
    } else {
      PoisedNow(key, s, s.calls[c], r, landing);
    }
  }

  /** One step before its effect, the call moves to where it is certain. */
  lemma {:induction false} PoisedNext(key: KeyOf, s: State, call: Call, r: Reply, landing: bool)
    requires (call.pc.Allowed? || call.pc.RegisterReady?) && Poised(s.store.sessions, call, landing) && r.ok
    ensures
      var call' := Moved(s, call, Decide(key, s, call, r));
      call'.pc.Minted? || (call'.pc.EventReady? && !landing)
  {
  }

  lemma {:induction false} PoisedNow(key: KeyOf, s: State, call: Call, r: Reply, landing: bool)
    requires !call.pc.Allowed? && !call.pc.RegisterReady? && Poised(s.store.sessions, call, landing)
    ensures
      var e := EffectOf(Decide(key, s, call, r));
      e.Some? && Counts(e.value, landing)
  {
  }

  lemma {:induction false} RunOne(key: KeyOf, s: State, act: Action)
    ensures Run(key, s, [act]) == Step(key, s, act)
  {
    assert [act][..0] == [] && Run(key, s, []) == s;
  }

  lemma {:induction false} RunTwo(key: KeyOf, s: State, a: Action, b: Action)
    ensures Run(key, s, [a, b]) == Step(key, Step(key, s, a), b)
  {
    assert [a, b][..1] == [a];
    RunOne(key, s, a);
  }

  /** Some continuation in which the plugin stays disabled gives call `c` one more effect. */
  ghost predicate CanStill(key: KeyOf, s: State, c: nat, p: Plugin, landing: bool) {
    exists more: seq<Action> ::
      Enable(p) !in more && Tally(Run(key, s, more).h.effects, c, landing) > Tally(s.h.effects, c, landing)
  }

  lemma {:induction false} PoisedCan(key: KeyOf, s: State, c: nat, p: Plugin, landing: bool)
    requires c in s.calls && Poised(s.store.sessions, s.calls[c], landing)
    ensures CanStill(key, s, c, p, landing)
  {
    var go := Advance(c, Reply(true, 0, false, false));
    PoisedActs(key, s, c, go.reply, landing);
    RunOne(key, s, go);
    RunTwo(key, s, go, go);
    if Tally(Step(key, s, go).h.effects, c, landing) > Tally(s.h.effects, c, landing) {
      assert Enable(p) !in [go];
    } else {
      assert Enable(p) !in [go, go];
    }
  }

  lemma {:induction false} CallStays(key: KeyOf, s: State, acts: seq<Action>, c: nat)
    requires c in s.calls && !s.calls[c].pc.Asked?
    ensures
      var t := Run(key, s, acts);
      c in t.calls && !t.calls[c].pc.Asked? && t.calls[c].plugin == s.calls[c].plugin
  {
    if acts != [] {
      CallStays(key, s, acts[..|acts| - 1], c);
      CallStaysStep(key, Run(key, s, acts[..|acts| - 1]), acts[|acts| - 1], c);
    }
  }

  lemma {:induction false} CallStaysStep(key: KeyOf, s: State, act: Action, c: nat)
    requires c in s.calls && !s.calls[c].pc.Asked?
    ensures
      var t := Step(key, s, act);
      c in t.calls && !t.calls[c].pc.Asked? && t.calls[c].plugin == s.calls[c].plugin
  {
    if Foreign(act, c) { ForeignLeavesCall(key, s, c, act); }
  }

  /**
   The exact condition. While its plugin stays disabled, a call in flight can have another effect if and
   only if it is poised for one; and it can still register or publish if and only if it stood right
   before the registration, or right before the publication with its session live.
   */
  lemma {:induction false} DisableIsExact(key: KeyOf, acts: seq<Action>, c: nat, landing: bool)
    requires
      var s := Run(key, Init(), acts);
      c in s.calls && !s.calls[c].pc.Asked? && s.calls[c].plugin !in s.enabled
    ensures
      var s := Run(key, Init(), acts);
      CanStill(key, s, c, s.calls[c].plugin, landing) <==> Poised(s.store.sessions, s.calls[c], landing)
  {
    var s := Run(key, Init(), acts);
    var p := s.calls[c].plugin;
    if Poised(s.store.sessions, s.calls[c], landing) {
      PoisedCan(key, s, c, p, landing);
    } else {
      forall more: seq<Action> | Enable(p) !in more
        ensures Tally(Run(key, s, more).h.effects, c, landing) <= Tally(s.h.effects, c, landing)
      {
        CallStays(key, s, more, c);
        DisableContains(key, acts, more, c, p, landing);
      }
    }
  }
}
