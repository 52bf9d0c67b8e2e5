/**
 The plugin session store: open sessions with revisions, staged removal for an uninstall, one lock
 per plugin, and an enabled flag that can flip between any two steps.

 Each call is a program counter; each step is what one lock acquisition or one await does.
 */
module PluginSessions {
  import opened Common

  type Id = nat
  type Plugin = string
  type Root = int

  /** The identity key of a plugin id, if it parses. */
  type KeyOf = Plugin -> Option<Plugin>

  function LockKey(key: KeyOf, p: Plugin): Plugin {
    match key(p) case Some(k) => k case None => p
  }

  datatype Record = Record(plugin: Plugin, revision: nat, root: Root)

  datatype Store = Store(sessions: map<Id, Record>, staged: map<Id, Record>, nextId: nat)

  // ---------------------------------------------------------------- the store's atomic sections

  function SessionsOf(key: KeyOf, st: Store, p: Plugin): (ids: set<Id>)
    ensures forall i :: i in ids <==> i in st.sessions && key(p).Some? && key(st.sessions[i].plugin) == key(p)
  {
    set i | i in st.sessions && key(p).Some? && key(st.sessions[i].plugin) == key(p)
  }

  function Close(st: Store, id: Id): Store {
    if id in st.sessions then st.(sessions := st.sessions - {id}) else st.(staged := st.staged - {id})
  }

  function Stage(st: Store, ids: set<Id>): Store {
    st.(sessions := st.sessions - ids, staged := st.staged + map i | i in ids && i in st.sessions :: st.sessions[i])
  }

  function Restore(st: Store, ids: set<Id>): Store {
    st.(sessions := st.sessions + (map i | i in ids && i in st.staged :: st.staged[i]), staged := st.staged - ids)
  }

  function Commit(st: Store, ids: set<Id>): Store { st.(staged := st.staged - ids) }

  function Register(st: Store, id: Id, p: Plugin, root: Root): Store {
    st.(sessions := st.sessions[id := Record(p, 1, root)])
  }

  function Publish(st: Store, id: Id, root: Option<Root>): Store {
    if id !in st.sessions then st else
    var r := st.sessions[id];
    st.(sessions := st.sessions[id := Record(r.plugin, r.revision + 1, if root.Some? then root.value else r.root)])
  }

  /** The same sections on the store's own maps, with the loops they run under the locks. */
  class SessionStore {
    var sessions: map<Id, Record>
    var staged: map<Id, Record>
    var nextId: nat

    ghost function State(): Store
      reads this
    {
      Store(sessions, staged, nextId)
    }

    constructor ()
      ensures State() == Store(map[], map[], 1)
    {
      sessions, staged, nextId := map[], map[], 1;
    }

    method Mint() returns (id: Id)
      modifies this
      ensures id == old(nextId) && State() == old(State()).(nextId := old(nextId) + 1)
    {
      id := nextId;
      nextId := nextId + 1;
    }

    method CloseSession(id: Id) returns (found: bool)
      modifies this
      ensures found <==> id in old(sessions) || id in old(staged)
      ensures State() == Close(old(State()), id)
    {
      found := id in sessions;
      if found {
        sessions := sessions - {id};
      } else {
        found := id in staged;
        staged := staged - {id};
      }
    }

    method StageRemoval(key: KeyOf, plugin: Plugin) returns (ids: set<Id>)
      requires key(plugin).Some?
      modifies this
      ensures ids == SessionsOf(key, old(State()), plugin)
      ensures State() == Stage(old(State()), ids)
    {
      ids := set i | i in sessions && key(sessions[i].plugin) == key(plugin);
      var todo := ids;
      ghost var done: set<Id> := {};
      while todo != {}
        invariant todo + done == ids && todo !! done && nextId == old(nextId)
        invariant sessions == old(sessions) - done
        invariant staged == old(staged) + map i | i in done && i in old(sessions) :: old(sessions)[i]
        decreases todo
      {
        var i :| i in todo;
        if i in sessions {
          staged := staged[i := sessions[i]];
          sessions := sessions - {i};
        }
        todo, done := todo - {i}, done + {i};
      }
      assert done == ids;
    }

    method RestoreRemoval(ids: set<Id>)
      modifies this
      ensures State() == Restore(old(State()), ids)
    {
      var todo := ids;
      ghost var done: set<Id> := {};
      while todo != {}
        invariant todo + done == ids && todo !! done && nextId == old(nextId)
        invariant staged == old(staged) - done
        invariant sessions == old(sessions) + map i | i in done && i in old(staged) :: old(staged)[i]
        decreases todo
      {
        var i :| i in todo;
        if i in staged {
          sessions := sessions[i := staged[i]];
          staged := staged - {i};
        }
        todo, done := todo - {i}, done + {i};
      }
      assert done == ids;
    }

    method CommitRemoval(ids: set<Id>)
      modifies this
      ensures State() == Commit(old(State()), ids)
    {
      var todo := ids;
      ghost var done: set<Id> := {};
      while todo != {}
        invariant todo + done == ids && todo !! done && nextId == old(nextId) && sessions == old(sessions)
        invariant staged == old(staged) - done
        decreases todo
      {
        var i :| i in todo;
        staged := staged - {i};
        todo, done := todo - {i}, done + {i};
      }
      assert done == ids;
    }

    method RegisterSession(id: Id, plugin: Plugin, root: Root)
      modifies this
      ensures State() == Register(old(State()), id, plugin, root)
    {
      sessions := sessions[id := Record(plugin, 1, root)];
    }

    method PublishRevision(id: Id, root: Option<Root>) returns (found: bool)
      modifies this
      ensures found <==> id in old(sessions)
      ensures State() == Publish(old(State()), id, root)
    {
      found := id in sessions;
      if found {
        var r := sessions[id];
        if root.Some? { r := r.(root := root.value); }
        sessions := sessions[id := r.(revision := r.revision + 1)];
      }
    }
  }

  // ---------------------------------------------------------------- calls in flight

  /** What a guest call or fetch brought back. */
  datatype Reply = Reply(ok: bool, root: Root, fetch: bool, refresh: bool)

  datatype Pc =
    // open
    | OpenAsked | LayoutReady | LayoutRunning | LayoutBack(root: Root) | RegisterReady(root: Root)
    | Minted(id: Id, root: Root)
    // dispatch
    | Asked | Known | Queued | Locked | Allowed | EventReady | EventRunning | EventBack(fetch: bool, refresh: bool)
    | FetchReady(fetch: bool, refresh: bool) | FetchRunning(refresh: bool) | FetchBack(refresh: bool)
    | RefreshReady(refresh: bool) | RefreshRunning | RefreshBack(drawn: Option<Root>) | PublishReady(drawn: Option<Root>)
    | Done(ok: bool)

  /** One open or dispatch. `session` and `expected` are the dispatch's request. */
  datatype Call = Call(plugin: Plugin, session: Id, expected: nat, pc: Pc)

  datatype Holder = ByCall(call: nat) | ByRemoval(removal: nat)

  /** A staged removal: the sessions it moved aside, as they were. */
  datatype Removal = Removal(key: Plugin, snapshot: map<Id, Record>)

  datatype Effect = Event | Fetch | Layout | Registration | Publication

  datatype History = History(
    documents: map<(Id, nat), Root>,    // every document ever registered or published
    successes: map<(Id, nat), nat>,     // (session, expected revision) of each successful dispatch, and by whom
    closed: set<Id>,
    committed: set<Id>,                 // sessions a committed removal discarded
    effects: seq<(nat, Effect)>)        // what each call did, in order

  datatype State = State(
    store: Store, enabled: set<Plugin>, locks: map<Plugin, Holder>,
    calls: map<nat, Call>, removals: map<nat, Removal>, h: History)

  datatype Action =
    | StartOpen(call: nat, plugin: Plugin)
    | StartDispatch(call: nat, session: Id, expected: nat)
    | Advance(call: nat, reply: Reply)
    | Abandon(call: nat)
    | CloseSession(session: Id)
    | StagePlugin(removal: nat, plugin: Plugin)
    | RestoreStaged(removal: nat)       // also what dropping an unfinished removal does
    | CommitStaged(removal: nat)
    | Enable(plugin: Plugin)
    | Disable(plugin: Plugin)

  function Init(): State {
    State(Store(map[], map[], 1), {}, map[], map[], map[], History(map[], map[], {}, {}, []))
  }

  /** The lock is held from its acquisition to the return of the dispatch. */
  predicate HoldsLock(pc: Pc) {
    !(pc.OpenAsked? || pc.LayoutReady? || pc.LayoutRunning? || pc.LayoutBack? || pc.RegisterReady? || pc.Minted?
      || pc.Asked? || pc.Known? || pc.Queued? || pc.Done?)
  }

  /** What a call does next: move on, act on the plugin's behalf, give up, or one of the store's sections. */
  datatype Move =
    | Go(pc: Pc) | Act(pc: Pc, effect: Effect) | GiveUp | Wait
    | Learn(plugin: Plugin) | Acquire | Mint(root: Root) | DoRegister(id: Id, root: Root) | DoPublish(drawn: Option<Root>)

  /** `require_enabled_plugin`: go on, or give up. */
  function Check(s: State, call: Call, pc: Pc): Move { if call.plugin in s.enabled then Go(pc) else GiveUp }

  function Decide(key: KeyOf, s: State, call: Call, r: Reply): Move {
    match call.pc
    case OpenAsked => Check(s, call, LayoutReady)
    case LayoutReady => Act(LayoutRunning, Layout)
    case LayoutRunning => if r.ok then Go(LayoutBack(r.root)) else GiveUp
    case LayoutBack(root) => Check(s, call, RegisterReady(root))
    case RegisterReady(root) => Mint(root)
    case Minted(id, root) => DoRegister(id, root)
    case Asked =>
      if call.session in s.store.sessions then Learn(s.store.sessions[call.session].plugin) else GiveUp
    case Known => Check(s, call, Queued)
    case Queued => if LockKey(key, call.plugin) in s.locks then Wait else Acquire
    case Locked => Check(s, call, Allowed)
    case Allowed =>
      // Unknown, stale, or a target the document has hidden or disabled.
      if call.session in s.store.sessions && s.store.sessions[call.session].revision == call.expected && r.ok
      then Go(EventReady) else GiveUp
    case EventReady => Act(EventRunning, Event)
    case EventRunning => if r.ok then Go(EventBack(r.fetch, r.refresh)) else GiveUp
    case EventBack(fetch, refresh) => Check(s, call, FetchReady(fetch, refresh))
    case FetchReady(fetch, refresh) => if fetch then Act(FetchRunning(refresh), Fetch) else Go(FetchBack(refresh))
    case FetchRunning(refresh) => Go(FetchBack(refresh))
    case FetchBack(refresh) => Check(s, call, RefreshReady(refresh))
    case RefreshReady(refresh) => if refresh then Act(RefreshRunning, Layout) else Go(RefreshBack(None))
    case RefreshRunning => if r.ok then Go(RefreshBack(Some(r.root))) else GiveUp
    case RefreshBack(drawn) => Check(s, call, PublishReady(drawn))
    case PublishReady(drawn) => if call.session in s.store.sessions then DoPublish(drawn) else GiveUp
    case Done(_) => Wait
  }

  /** The call after a move. */
  function Moved(s: State, call: Call, m: Move): Call {
    match m
    case Go(pc) => call.(pc := pc)
    case Act(pc, _) => call.(pc := pc)
    case GiveUp => call.(pc := Done(false))
    case Wait => call
    case Learn(plugin) => call.(plugin := plugin, pc := Known)
    case Acquire => call.(pc := Locked)
    case Mint(root) => call.(pc := Minted(s.store.nextId, root))
    case DoRegister(_, _) => call.(pc := Done(true))
    case DoPublish(_) => call.(pc := Done(true))
  }

  function MovedLocks(key: KeyOf, s: State, c: nat, call: Call, m: Move): map<Plugin, Holder> {
    var k := LockKey(key, call.plugin);
    if m.Acquire? then s.locks[k := ByCall(c)]
    else if (m.GiveUp? || m.DoPublish?) && HoldsLock(call.pc) then s.locks - {k}
    else s.locks
  }

  function MovedStore(s: State, call: Call, m: Move): Store {
    match m
    case Mint(_) => s.store.(nextId := s.store.nextId + 1)
    case DoRegister(id, root) => Register(s.store, id, call.plugin, root)
    case DoPublish(drawn) => Publish(s.store, call.session, drawn)
    case _ => s.store
  }

  function EffectOf(m: Move): Option<Effect> {
    match m
    case Act(_, e) => Some(e)
    case DoRegister(_, _) => Some(Registration)
    case DoPublish(_) => Some(Publication)
    case _ => None
  }

  function MovedHistory(s: State, c: nat, call: Call, m: Move): History {
    var h := s.h.(effects := s.h.effects + if EffectOf(m).Some? then [(c, EffectOf(m).value)] else []);
    var store := MovedStore(s, call, m);
    if m.DoRegister? then h.(documents := h.documents[(m.id, 1) := m.root])
    else if m.DoPublish? && call.session in store.sessions then
      var r := store.sessions[call.session];
      h.(documents := h.documents[(call.session, r.revision) := r.root],
         successes := h.successes[(call.session, call.expected) := c])
    else h
  }

  function Apply(key: KeyOf, s: State, c: nat, m: Move): State
    requires c in s.calls
  {
    var call := s.calls[c];
    s.(calls := s.calls[c := Moved(s, call, m)], locks := MovedLocks(key, s, c, call, m),
       store := MovedStore(s, call, m), h := MovedHistory(s, c, call, m))
  }

  /** The next step of one call. */
  function AdvanceCall(key: KeyOf, s: State, c: nat, r: Reply): State
    requires c in s.calls
  {
    Apply(key, s, c, Decide(key, s, s.calls[c], r))
  }

  /** One step of the whole system. A step that is not enabled leaves the state unchanged. */
  function Step(key: KeyOf, s: State, act: Action): State {
    match act
    case StartOpen(c, p) => if c in s.calls then s else s.(calls := s.calls[c := Call(p, 0, 0, OpenAsked)])
    case StartDispatch(c, id, expected) =>
      if c in s.calls then s else s.(calls := s.calls[c := Call("", id, expected, Asked)])
    case Advance(c, r) => if c in s.calls then AdvanceCall(key, s, c, r) else s
    case Abandon(c) => if c in s.calls && !s.calls[c].pc.Done? then Apply(key, s, c, GiveUp) else s
    case CloseSession(id) =>
      if id in s.store.sessions || id in s.store.staged
      then s.(store := Close(s.store, id), h := s.h.(closed := s.h.closed + {id})) else s
    case StagePlugin(r, p) =>
      var k := LockKey(key, p);
      if key(p).None? || r in s.removals || k in s.locks then s else
      var ids := SessionsOf(key, s.store, p);
      s.(store := Stage(s.store, ids), locks := s.locks[k := ByRemoval(r)],
         removals := s.removals[r := Removal(k, map i | i in ids && i in s.store.sessions :: s.store.sessions[i])])
    case RestoreStaged(r) =>
      if r !in s.removals then s else
      var m := s.removals[r];
      s.(store := Restore(s.store, m.snapshot.Keys), locks := s.locks - {m.key}, removals := s.removals - {r})
    case CommitStaged(r) =>
      if r !in s.removals then s else
      var m := s.removals[r];
      s.(store := Commit(s.store, m.snapshot.Keys), locks := s.locks - {m.key}, removals := s.removals - {r},
         h := s.h.(committed := s.h.committed + (m.snapshot.Keys * s.store.staged.Keys)))
    case Enable(p) => s.(enabled := s.enabled + {p})
    case Disable(p) => s.(enabled := s.enabled - {p})
  }

  function Run(key: KeyOf, s: State, acts: seq<Action>): State {
    if acts == [] then s else Step(key, Run(key, s, acts[..|acts| - 1]), acts[|acts| - 1])
  }

  // ---------------------------------------------------------------- disabling a plugin

  /** Past an enabled check, and before the effect it allows. */
  predicate Armed(pc: Pc) {
    pc.LayoutReady? || pc.RegisterReady? || pc.Minted? || pc.Allowed? || pc.EventReady?
    || pc.FetchReady? || pc.RefreshReady? || pc.PublishReady?
  }

  /** An effect comes only from an armed state and leaves the call unarmed, and a call is armed again only
      by a check that found the plugin enabled. */
  lemma {:induction false} EffectsNeedChecks(key: KeyOf, s: State, call: Call, r: Reply)
    ensures
      var m := Decide(key, s, call, r);
      && (EffectOf(m).Some? ==> Armed(call.pc) && !Armed(Moved(s, call, m).pc))
      && (Armed(Moved(s, call, m).pc) ==> Armed(call.pc) || call.plugin in s.enabled)
      && !(call.pc.Asked? && EffectOf(m).Some?) && (m.Learn? ==> call.pc.Asked?) && !Moved(s, call, m).pc.Asked?
  {
  }

  /** A call touches the session maps only by its registration or its publication. */
  lemma {:induction false} OnlyPublicationsTouchSessions(key: KeyOf, s: State, c: nat, r: Reply)
    requires c in s.calls
    ensures
      var s' := AdvanceCall(key, s, c, r);
      s'.store.sessions != s.store.sessions || s'.store.staged != s.store.staged ==>
        EffectOf(Decide(key, s, s.calls[c], r)) in {Some(Registration), Some(Publication)}
        && |s'.h.effects| == |s.h.effects| + 1
  {
  }
}
