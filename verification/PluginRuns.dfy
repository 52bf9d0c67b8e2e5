/** What holds of the plugin session store over every run: identity, revisions, locks and removals. */
module PluginRuns {
  import opened Common
  import opened PluginSessions

  type Documents = map<(Id, nat), Root>

  // ---------------------------------------------------------------- documents and identity

  /** The documents of a session are its revisions 1, 2, ..., and the last of them is its record's. */
  ghost predicate Recorded(docs: Documents, i: Id, r: Record) {
    && r.revision >= 1 && (i, r.revision) in docs && docs[(i, r.revision)] == r.root
    && forall n: nat :: (i, n) in docs <==> 1 <= n <= r.revision
  }

  ghost predicate StoreInv(st: Store, docs: Documents, gone: set<Id>) {
    && st.sessions.Keys !! st.staged.Keys
    && (forall i :: i in st.sessions || i in st.staged ==> i < st.nextId && i !in gone)
    && (forall i :: i in gone ==> i < st.nextId)
    && (forall d :: d in docs ==> d.0 < st.nextId && d.1 >= 1)
    && (forall i :: i in st.sessions ==> Recorded(docs, i, st.sessions[i]))
    && (forall i :: i in st.staged ==> Recorded(docs, i, st.staged[i]))
  }

  /** An id no session has or ever had. */
  ghost predicate Fresh(st: Store, docs: Documents, gone: set<Id>, id: Id) {
    id < st.nextId && id !in st.sessions && id !in st.staged && id !in gone && forall n: nat :: (id, n) !in docs
  }

  lemma {:induction false} CloseKeeps(st: Store, docs: Documents, gone: set<Id>, id: Id)
    requires StoreInv(st, docs, gone) && (id in st.sessions || id in st.staged)
    ensures StoreInv(Close(st, id), docs, gone + {id})
  {
  }

  lemma {:induction false} StageKeeps(st: Store, docs: Documents, gone: set<Id>, ids: set<Id>)
    requires StoreInv(st, docs, gone) && ids <= st.sessions.Keys
    ensures StoreInv(Stage(st, ids), docs, gone)
  {
    var st' := Stage(st, ids);
    assert forall i :: i in st'.staged ==> (i in st.staged && st'.staged[i] == st.staged[i])
                                           || (i in st.sessions && st'.staged[i] == st.sessions[i]);
  }

  lemma {:induction false} RestoreKeeps(st: Store, docs: Documents, gone: set<Id>, ids: set<Id>)
    requires StoreInv(st, docs, gone)
    ensures StoreInv(Restore(st, ids), docs, gone)
  {
    var st' := Restore(st, ids);
    assert forall i :: i in st'.sessions ==> (i in st.sessions && st'.sessions[i] == st.sessions[i])
                                             || (i in st.staged && st'.sessions[i] == st.staged[i]);
  }

  lemma {:induction false} CommitKeeps(st: Store, docs: Documents, gone: set<Id>, ids: set<Id>)
    requires StoreInv(st, docs, gone)
    ensures StoreInv(Commit(st, ids), docs, gone + (ids * st.staged.Keys))
  {
  }

  lemma {:induction false} MintKeeps(st: Store, docs: Documents, gone: set<Id>)
    requires StoreInv(st, docs, gone)
    ensures
      var st' := st.(nextId := st.nextId + 1);
      StoreInv(st', docs, gone) && Fresh(st', docs, gone, st.nextId)
  {
  }

  lemma {:induction false} RegisterKeeps(st: Store, docs: Documents, gone: set<Id>, id: Id, p: Plugin, root: Root)
    requires StoreInv(st, docs, gone) && Fresh(st, docs, gone, id)
    ensures StoreInv(Register(st, id, p, root), docs[(id, 1) := root], gone)
  {
    var st', docs' := Register(st, id, p, root), docs[(id, 1) := root];
    forall i | i in st'.sessions ensures Recorded(docs', i, st'.sessions[i]) {
      if i != id { assert Recorded(docs, i, st.sessions[i]); }
    }
    forall i | i in st'.staged ensures Recorded(docs', i, st'.staged[i]) { assert Recorded(docs, i, st.staged[i]); }
  }

  /** A publication adds exactly the next revision, which no document had named before. */
  lemma {:induction false} PublishKeeps(st: Store, docs: Documents, gone: set<Id>, id: Id, drawn: Option<Root>)
    requires StoreInv(st, docs, gone) && id in st.sessions
    ensures
      var st' := Publish(st, id, drawn);
      var r := st'.sessions[id];
      && r.revision == st.sessions[id].revision + 1 && (id, r.revision) !in docs
      && StoreInv(st', docs[(id, r.revision) := r.root], gone)
  {
    var st' := Publish(st, id, drawn);
    var r := st'.sessions[id];
    var docs' := docs[(id, r.revision) := r.root];
    assert Recorded(docs, id, st.sessions[id]);
    assert Recorded(docs', id, r);
    forall i | i in st'.sessions ensures Recorded(docs', i, st'.sessions[i]) {
      if i != id { assert Recorded(docs, i, st.sessions[i]); }
    }
    forall i | i in st'.staged ensures Recorded(docs', i, st'.staged[i]) { assert Recorded(docs, i, st.staged[i]); }
  }

  // ---------------------------------------------------------------- locks, removals and calls

  ghost predicate LockInv(key: KeyOf, locks: map<Plugin, Holder>, calls: map<nat, Call>, removals: map<nat, Removal>) {
    && (forall c :: c in calls && HoldsLock(calls[c].pc) ==>
          LockKey(key, calls[c].plugin) in locks && locks[LockKey(key, calls[c].plugin)] == ByCall(c))
    && (forall r :: r in removals ==> removals[r].key in locks && locks[removals[r].key] == ByRemoval(r))
  }

  /** Every session a removal moved aside is still there as it was, or was closed meanwhile. */
  ghost predicate Aside(key: KeyOf, st: Store, closed: set<Id>, m: Removal) {
    forall i :: i in m.snapshot ==>
      && LockKey(key, m.snapshot[i].plugin) == m.key && i !in st.sessions
      && ((i in st.staged && st.staged[i] == m.snapshot[i]) || i in closed)
  }

  ghost predicate RemovalInv(key: KeyOf, st: Store, closed: set<Id>, removals: map<nat, Removal>) {
    && (forall r :: r in removals ==> Aside(key, st, closed, removals[r]))
    && (forall i :: i in st.staged ==> SetAside(removals, i))
    && (forall r, q :: r in removals && q in removals && r != q ==> Apart(removals[r], removals[q]))
  }

  ghost predicate SetAside(removals: map<nat, Removal>, i: Id) {
    exists r :: r in removals && i in removals[r].snapshot
  }

  ghost predicate Apart(m: Removal, n: Removal) { forall i :: i in m.snapshot ==> i !in n.snapshot }

  /** A dispatch that knows its plugin. */
  predicate Dispatching(pc: Pc) { pc.Known? || pc.Queued? || HoldsLock(pc) }

  /** A dispatch that has compared the revision. */
  predicate Compared(pc: Pc) { HoldsLock(pc) && !pc.Locked? && !pc.Allowed? }

  /** A dispatch's session, if it is still there, is its plugin's, and once compared, at its revision. */
  ghost predicate CallInv(st: Store, docs: Documents, gone: set<Id>, call: Call) {
    && (Dispatching(call.pc) ==>
          && (call.session, 1) in docs
          && (call.session in st.sessions ==> st.sessions[call.session].plugin == call.plugin)
          && (call.session in st.staged ==> st.staged[call.session].plugin == call.plugin))
    && (Compared(call.pc) && call.session in st.sessions ==> st.sessions[call.session].revision == call.expected)
    && (call.pc.Minted? ==> Fresh(st, docs, gone, call.pc.id))
  }

  ghost predicate CallsInv(st: Store, docs: Documents, gone: set<Id>, calls: map<nat, Call>) {
    && (forall c :: c in calls ==> CallInv(st, docs, gone, calls[c]))
    && (forall c, d :: c in calls && d in calls && c != d && calls[c].pc.Minted? && calls[d].pc.Minted? ==>
          calls[c].pc.id != calls[d].pc.id)
  }

  ghost predicate SuccessInv(docs: Documents, successes: map<(Id, nat), nat>) {
    forall e :: e in successes ==> (e.0, e.1 + 1) in docs
  }

  ghost function Gone(h: History): set<Id> { h.closed + h.committed }

  ghost predicate Inv(key: KeyOf, s: State) {
    && StoreInv(s.store, s.h.documents, Gone(s.h))
    && LockInv(key, s.locks, s.calls, s.removals)
    && RemovalInv(key, s.store, s.h.closed, s.removals)
    && CallsInv(s.store, s.h.documents, Gone(s.h), s.calls)
    && SuccessInv(s.h.documents, s.h.successes)
  }

  /** While a dispatch holds its lock, its session is not staged. */
  lemma {:induction false} LockedIsNotStaged(key: KeyOf, s: State, c: nat)
    requires Inv(key, s) && c in s.calls && HoldsLock(s.calls[c].pc)
    ensures s.calls[c].session !in s.store.staged
  {
    assert CallInv(s.store, s.h.documents, Gone(s.h), s.calls[c]);
    assert s.calls[c].session in s.store.staged ==> SetAside(s.removals, s.calls[c].session);
    assert forall r :: r in s.removals ==> Aside(key, s.store, s.h.closed, s.removals[r]);
  }

  // ---------------------------------------------------------------- steps of a call

  predicate StoreMove(m: Move) { m.Mint? || m.DoRegister? || m.DoPublish? }

  lemma {:induction false} LocksMove(key: KeyOf, s: State, c: nat, m: Move)
    requires LockInv(key, s.locks, s.calls, s.removals) && c in s.calls
    requires HoldsLock(Moved(s, s.calls[c], m).pc) ==> HoldsLock(s.calls[c].pc) || m.Acquire?
    requires m.Acquire? ==> LockKey(key, s.calls[c].plugin) !in s.locks
    requires HoldsLock(s.calls[c].pc) && !HoldsLock(Moved(s, s.calls[c], m).pc) ==> m.GiveUp? || m.DoPublish?
    requires m.GiveUp? || m.DoPublish? ==> !HoldsLock(Moved(s, s.calls[c], m).pc)
    requires m.Learn? ==> !HoldsLock(s.calls[c].pc)
    ensures
      var s' := Apply(key, s, c, m);
      LockInv(key, s'.locks, s'.calls, s'.removals)
  {
  }

  lemma {:induction false} DecideAboutLocks(key: KeyOf, s: State, call: Call, r: Reply)
    ensures
      var m := Decide(key, s, call, r);
      var pc' := Moved(s, call, m).pc;
      && (HoldsLock(pc') ==> HoldsLock(call.pc) || m.Acquire?)
      && (m.Acquire? ==> LockKey(key, call.plugin) !in s.locks && !HoldsLock(call.pc))
      && (HoldsLock(call.pc) && !HoldsLock(pc') ==> m.GiveUp? || m.DoPublish?)
      && (m.GiveUp? || m.DoPublish? ==> !HoldsLock(pc'))
      && (m.Learn? ==> !HoldsLock(call.pc))
      && (m.DoPublish? ==> Compared(call.pc) && call.session in s.store.sessions)
      && (m.DoRegister? ==> call.pc == Minted(m.id, m.root))
  {
  }

  /** A dispatch that learns its plugin has that plugin's session before it. */
  lemma {:induction false} LearnKeepsCall(key: KeyOf, s: State, call: Call, r: Reply, docs: Documents, gone: set<Id>)
    requires StoreInv(s.store, docs, gone) && call.pc.Asked?
    ensures CallInv(s.store, docs, gone, Moved(s, call, Decide(key, s, call, r)))
    ensures !Moved(s, call, Decide(key, s, call, r)).pc.Minted?
  {
    if call.session in s.store.sessions {
      assert Recorded(docs, call.session, s.store.sessions[call.session]);
    }
  }

  /** Any other quiet move keeps the plugin and the session, and compares before it is past comparing. */
  lemma {:induction false} QuietMove(key: KeyOf, s: State, call: Call, r: Reply)
    requires !call.pc.Asked? && !StoreMove(Decide(key, s, call, r))
    ensures
      var call' := Moved(s, call, Decide(key, s, call, r));
      && call' == call.(pc := call'.pc) && !call'.pc.Minted?
      && (Dispatching(call'.pc) ==> Dispatching(call.pc))
      && (Compared(call'.pc) && !Compared(call.pc) ==>
            call.session in s.store.sessions && s.store.sessions[call.session].revision == call.expected)
  {
  }

  /** A call that leaves the store alone keeps what is known of it. */
  lemma {:induction false} MoveKeepsCall(key: KeyOf, s: State, call: Call, r: Reply, docs: Documents, gone: set<Id>)
    requires StoreInv(s.store, docs, gone) && CallInv(s.store, docs, gone, call)
    requires !StoreMove(Decide(key, s, call, r))
    ensures CallInv(s.store, docs, gone, Moved(s, call, Decide(key, s, call, r)))
    ensures !Moved(s, call, Decide(key, s, call, r)).pc.Minted?
  {
    if call.pc.Asked? { LearnKeepsCall(key, s, call, r, docs, gone); } else { QuietMove(key, s, call, r); }
  }

  lemma {:induction false} GiveUpKeepsCall(st: Store, docs: Documents, gone: set<Id>, s: State, call: Call)
    ensures CallInv(st, docs, gone, Moved(s, call, GiveUp))
  {
  }

  /** Replacing one call by one that satisfies its own invariant and mints nothing new. */
  lemma {:induction false} CallsReplace(st: Store, docs: Documents, gone: set<Id>, calls: map<nat, Call>, c: nat, call: Call)
    requires CallsInv(st, docs, gone, calls) && CallInv(st, docs, gone, call) && !call.pc.Minted?
    ensures CallsInv(st, docs, gone, calls[c := call])
  {
  }

  lemma {:induction false} QuietMoveKeeps(key: KeyOf, s: State, c: nat, m: Move)
    requires Inv(key, s) && c in s.calls && !StoreMove(m)
    requires
      var call' := Moved(s, s.calls[c], m);
      CallInv(s.store, s.h.documents, Gone(s.h), call') && !call'.pc.Minted?
    requires
      var s' := Apply(key, s, c, m);
      LockInv(key, s'.locks, s'.calls, s'.removals)
    ensures Inv(key, Apply(key, s, c, m))
  {
    CallsReplace(s.store, s.h.documents, Gone(s.h), s.calls, c, Moved(s, s.calls[c], m));
  }

  lemma {:induction false} MintStep(key: KeyOf, s: State, c: nat, root: Root)
    requires Inv(key, s) && c in s.calls && s.calls[c].pc == RegisterReady(root)
    ensures Inv(key, Apply(key, s, c, Mint(root)))
  {
    var s' := Apply(key, s, c, Mint(root));
    var docs, gone := s.h.documents, Gone(s.h);
    MintKeeps(s.store, docs, gone);
    LocksMove(key, s, c, Mint(root));
    assert s'.h.effects == s.h.effects;
    assert CallsInv(s'.store, docs, gone, s'.calls) by {
      forall d | d in s'.calls ensures CallInv(s'.store, docs, gone, s'.calls[d]) {
        if d != c { assert CallInv(s.store, docs, gone, s.calls[d]); }
      }
    }
    assert forall r :: r in s.removals ==> Aside(key, s.store, s.h.closed, s.removals[r]);
  }

  lemma {:induction false} RegisterStep(key: KeyOf, s: State, c: nat, id: Id, root: Root)
    requires Inv(key, s) && c in s.calls && s.calls[c].pc == Minted(id, root)
    ensures Inv(key, Apply(key, s, c, DoRegister(id, root)))
  {
    var m := DoRegister(id, root);
    var s' := Apply(key, s, c, m);
    var docs, docs', gone := s.h.documents, s'.h.documents, Gone(s.h);
    assert CallInv(s.store, docs, gone, s.calls[c]);
    RegisterKeeps(s.store, docs, gone, id, s.calls[c].plugin, root);
    LocksMove(key, s, c, m);
    assert CallsInv(s'.store, docs', gone, s'.calls) by {
      forall d | d in s'.calls ensures CallInv(s'.store, docs', gone, s'.calls[d]) {
        if d != c {
          assert CallInv(s.store, docs, gone, s.calls[d]);
          if s.calls[d].pc.Minted? { assert s.calls[d].pc.id != id; }
        }
      }
    }
    assert RemovalInv(key, s'.store, s'.h.closed, s'.removals) by {
      forall r | r in s'.removals ensures Aside(key, s'.store, s'.h.closed, s'.removals[r]) {
        assert Aside(key, s.store, s.h.closed, s.removals[r]);
      }
    }
  }

  /** No other dispatch has compared the revision of a session that one is publishing to. */
  lemma {:induction false} OneComparedAtATime(key: KeyOf, s: State, c: nat, d: nat)
    requires Inv(key, s) && c in s.calls && d in s.calls && c != d
    requires Compared(s.calls[c].pc) && Compared(s.calls[d].pc) && s.calls[c].session in s.store.sessions
    ensures s.calls[c].session != s.calls[d].session
  {
    assert CallInv(s.store, s.h.documents, Gone(s.h), s.calls[c]);
    assert CallInv(s.store, s.h.documents, Gone(s.h), s.calls[d]);
  }

  /** What a publication is: the step from the expected revision to the next, for the first time. */
  lemma {:induction false} PublishIsNew(key: KeyOf, s: State, c: nat, drawn: Option<Root>)
    requires Inv(key, s) && c in s.calls && Compared(s.calls[c].pc) && s.calls[c].session in s.store.sessions
    ensures
      var call, st' := s.calls[c], Publish(s.store, s.calls[c].session, drawn);
      && s.store.sessions[call.session].revision == call.expected
      && st'.sessions[call.session].revision == call.expected + 1
      && (call.session, call.expected) !in s.h.successes && (call.session, call.expected + 1) !in s.h.documents
  {
    assert CallInv(s.store, s.h.documents, Gone(s.h), s.calls[c]);
    PublishKeeps(s.store, s.h.documents, Gone(s.h), s.calls[c].session, drawn);
  }

  lemma {:induction false} PublishedState(key: KeyOf, s: State, c: nat, drawn: Option<Root>)
    requires c in s.calls && s.calls[c].session in s.store.sessions
    ensures
      var s', call, st' := Apply(key, s, c, DoPublish(drawn)), s.calls[c], Publish(s.store, s.calls[c].session, drawn);
      var revised := st'.sessions[call.session];
      && s'.store == st' && Gone(s'.h) == Gone(s.h) && s'.removals == s.removals && s'.h.closed == s.h.closed
      && s'.h.documents == s.h.documents[(call.session, revised.revision) := revised.root]
      && s'.h.successes == s.h.successes[(call.session, call.expected) := c]
  {
  }

  lemma {:induction false} PublishLocks(key: KeyOf, s: State, c: nat, drawn: Option<Root>)
    requires LockInv(key, s.locks, s.calls, s.removals) && c in s.calls && Compared(s.calls[c].pc)
    ensures
      var s' := Apply(key, s, c, DoPublish(drawn));
      LockInv(key, s'.locks, s'.calls, s'.removals)
  {
    LocksMove(key, s, c, DoPublish(drawn));
  }

  lemma {:induction false} PublishStore(key: KeyOf, s: State, c: nat, drawn: Option<Root>)
    requires c in s.calls && s.calls[c].session in s.store.sessions && StoreInv(s.store, s.h.documents, Gone(s.h))
    ensures
      var s' := Apply(key, s, c, DoPublish(drawn));
      StoreInv(s'.store, s'.h.documents, Gone(s'.h))
  {
    PublishedState(key, s, c, drawn);
    PublishKeeps(s.store, s.h.documents, Gone(s.h), s.calls[c].session, drawn);
  }

  lemma {:induction false} PublishRemovals(key: KeyOf, s: State, c: nat, drawn: Option<Root>)
    requires c in s.calls && s.calls[c].session in s.store.sessions
    requires RemovalInv(key, s.store, s.h.closed, s.removals)
    ensures
      var s' := Apply(key, s, c, DoPublish(drawn));
      RemovalInv(key, s'.store, s'.h.closed, s'.removals)
  {
    PublishedState(key, s, c, drawn);
    RemovalKeysOnly(key, s.store, Publish(s.store, s.calls[c].session, drawn), s.h.closed, s.removals);
  }

  lemma {:induction false} PublishSuccesses(key: KeyOf, s: State, c: nat, drawn: Option<Root>)
    requires Inv(key, s) && c in s.calls && Compared(s.calls[c].pc) && s.calls[c].session in s.store.sessions
    ensures
      var s' := Apply(key, s, c, DoPublish(drawn));
      SuccessInv(s'.h.documents, s'.h.successes)
  {
    var call := s.calls[c];
    var revised := Publish(s.store, call.session, drawn).sessions[call.session];
    PublishIsNew(key, s, c, drawn);
    PublishedState(key, s, c, drawn);
    SuccessGrows(s.h.documents, s.h.successes, call.session, call.expected, revised.root, c);
  }

  lemma {:induction false} PublishStep(key: KeyOf, s: State, c: nat, drawn: Option<Root>)
    requires Inv(key, s) && c in s.calls && Compared(s.calls[c].pc) && s.calls[c].session in s.store.sessions
    ensures Inv(key, Apply(key, s, c, DoPublish(drawn)))
  {
    PublishedState(key, s, c, drawn);
    PublishStore(key, s, c, drawn);
    PublishLocks(key, s, c, drawn);
    PublishKeepsCalls(key, s, c, drawn);
    PublishRemovals(key, s, c, drawn);
    PublishSuccesses(key, s, c, drawn);
  }

  lemma {:induction false} SuccessGrows(
      docs: Documents, successes: map<(Id, nat), nat>, id: Id, revision: nat, root: Root, c: nat)
    requires SuccessInv(docs, successes)
    ensures SuccessInv(docs[(id, revision + 1) := root], successes[(id, revision) := c])
  {
  }

  lemma {:induction false} PublishKeepsCalls(key: KeyOf, s: State, c: nat, drawn: Option<Root>)
    requires Inv(key, s) && c in s.calls && Compared(s.calls[c].pc) && s.calls[c].session in s.store.sessions
    ensures
      var s' := Apply(key, s, c, DoPublish(drawn));
      CallsInv(s'.store, s'.h.documents, Gone(s.h), s'.calls)
  {
    var s' := Apply(key, s, c, DoPublish(drawn));
    var id, gone := s.calls[c].session, Gone(s.h);
    forall d | d in s'.calls ensures CallInv(s'.store, s'.h.documents, gone, s'.calls[d]) {
      if d != c {
        assert CallInv(s.store, s.h.documents, gone, s.calls[d]);
        if Compared(s.calls[d].pc) { OneComparedAtATime(key, s, c, d); }
      }
    }
  }

  /** Removals look only at which sessions are live and at the staged records. */
  lemma {:induction false} RemovalKeysOnly(key: KeyOf, st: Store, st': Store, closed: set<Id>, removals: map<nat, Removal>)
    requires RemovalInv(key, st, closed, removals)
    requires st'.staged == st.staged && st'.sessions.Keys == st.sessions.Keys
    ensures RemovalInv(key, st', closed, removals)
  {
    forall r | r in removals ensures Aside(key, st', closed, removals[r]) {
      assert Aside(key, st, closed, removals[r]);
    }
  }

  lemma {:induction false} AdvanceKeeps(key: KeyOf, s: State, c: nat, r: Reply)
    requires Inv(key, s) && c in s.calls
    ensures Inv(key, AdvanceCall(key, s, c, r))
  {
    var call := s.calls[c];
    var m := Decide(key, s, call, r);
    DecideAboutLocks(key, s, call, r);
    match m {
      case Mint(root) => MintStep(key, s, c, root);
      case DoRegister(id, root) => RegisterStep(key, s, c, id, root);
      case DoPublish(drawn) => PublishStep(key, s, c, drawn);
      case _ =>
        assert CallInv(s.store, s.h.documents, Gone(s.h), call);
        MoveKeepsCall(key, s, call, r, s.h.documents, Gone(s.h));
        LocksMove(key, s, c, m);
        QuietMoveKeeps(key, s, c, m);
    }
  }

  // ---------------------------------------------------------------- closing and removing

  /** A store change that only takes sessions away, or moves them between the two maps unchanged. */
  lemma {:induction false} CallsShrink(st: Store, st': Store, docs: Documents, gone: set<Id>, gone': set<Id>, calls: map<nat, Call>)
    requires CallsInv(st, docs, gone, calls) && st'.nextId == st.nextId
    requires forall i :: i in st'.sessions || i in st'.staged || i in gone' ==> i in st.sessions || i in st.staged || i in gone
    requires forall i :: i in st'.sessions ==> (i in st.sessions && st'.sessions[i] == st.sessions[i])
                                               || (i in st.staged && st'.sessions[i] == st.staged[i])
    requires forall i :: i in st'.staged ==> (i in st.staged && st'.staged[i] == st.staged[i])
                                             || (i in st.sessions && st'.staged[i] == st.sessions[i])
    requires forall c :: c in calls && Compared(calls[c].pc) && calls[c].session in st'.sessions ==>
               calls[c].session in st.sessions && st'.sessions[calls[c].session] == st.sessions[calls[c].session]
    ensures CallsInv(st', docs, gone', calls)
  {
    forall c | c in calls ensures CallInv(st', docs, gone', calls[c]) {
      assert CallInv(st, docs, gone, calls[c]);
    }
  }

  lemma {:induction false} CallsClosed(st: Store, docs: Documents, gone: set<Id>, calls: map<nat, Call>, id: Id)
    requires CallsInv(st, docs, gone, calls) && (id in st.sessions || id in st.staged)
    ensures CallsInv(Close(st, id), docs, gone + {id}, calls)
  {
    CallsShrink(st, Close(st, id), docs, gone, gone + {id}, calls);
  }

  lemma {:induction false} CallsStaged(st: Store, docs: Documents, gone: set<Id>, calls: map<nat, Call>, ids: set<Id>)
    requires CallsInv(st, docs, gone, calls) && ids <= st.sessions.Keys
    ensures CallsInv(Stage(st, ids), docs, gone, calls)
  {
    CallsShrink(st, Stage(st, ids), docs, gone, gone, calls);
  }

  lemma {:induction false} CallsRestored(st: Store, docs: Documents, gone: set<Id>, calls: map<nat, Call>, ids: set<Id>)
    requires CallsInv(st, docs, gone, calls)
    requires forall c :: c in calls && Compared(calls[c].pc) ==> calls[c].session !in st.staged
    ensures CallsInv(Restore(st, ids), docs, gone, calls)
  {
    CallsShrink(st, Restore(st, ids), docs, gone, gone, calls);
  }

  lemma {:induction false} CallsCommitted(st: Store, docs: Documents, gone: set<Id>, calls: map<nat, Call>, ids: set<Id>)
    requires CallsInv(st, docs, gone, calls)
    ensures CallsInv(Commit(st, ids), docs, gone + (ids * st.staged.Keys), calls)
  {
    CallsShrink(st, Commit(st, ids), docs, gone, gone + (ids * st.staged.Keys), calls);
  }

  lemma {:induction false} CloseStep(key: KeyOf, s: State, id: Id)
    requires Inv(key, s) && (id in s.store.sessions || id in s.store.staged)
    ensures Inv(key, Step(key, s, CloseSession(id)))
  {
    var st', docs, gone := Close(s.store, id), s.h.documents, Gone(s.h);
    var s' := Step(key, s, CloseSession(id));
    GoneCloses(s.h, id);
    assert s' == s.(store := st', h := s.h.(closed := s.h.closed + {id}));
    assert StoreInv(s'.store, docs, Gone(s'.h)) by { CloseKeeps(s.store, docs, gone, id); }
    assert CallsInv(s'.store, docs, Gone(s'.h), s'.calls) by { CallsClosed(s.store, docs, gone, s.calls, id); }
    assert RemovalInv(key, s'.store, s'.h.closed, s'.removals) by {
      RemovalCloses(key, s.store, s.h.closed, s.removals, id);
    }
  }

  lemma {:induction false} GoneCloses(h: History, id: Id)
    ensures Gone(h.(closed := h.closed + {id})) == Gone(h) + {id}
  {
  }

  lemma {:induction false} RemovalCloses(key: KeyOf, st: Store, closed: set<Id>, removals: map<nat, Removal>, id: Id)
    requires RemovalInv(key, st, closed, removals)
    ensures RemovalInv(key, Close(st, id), closed + {id}, removals)
  {
    forall r | r in removals ensures Aside(key, Close(st, id), closed + {id}, removals[r]) {
      assert Aside(key, st, closed, removals[r]);
    }
  }

  lemma {:induction false} StageStep(key: KeyOf, s: State, r: nat, p: Plugin)
    requires Inv(key, s) && key(p).Some? && r !in s.removals && LockKey(key, p) !in s.locks
    ensures Inv(key, Step(key, s, StagePlugin(r, p)))
  {
    var ids := SessionsOf(key, s.store, p);
    var m := Removal(LockKey(key, p), map i | i in ids && i in s.store.sessions :: s.store.sessions[i]);
    StageKeeps(s.store, s.h.documents, Gone(s.h), ids);
    CallsStaged(s.store, s.h.documents, Gone(s.h), s.calls, ids);
    LocksTake(key, s, r, m);
    RemovalStages(key, s.store, s.h.closed, s.removals, r, m, ids);
  }

  lemma {:induction false} RemovalStages(
      key: KeyOf, st: Store, closed: set<Id>, removals: map<nat, Removal>, r: nat, m: Removal, ids: set<Id>)
    requires RemovalInv(key, st, closed, removals) && r !in removals
    requires st.sessions.Keys !! st.staged.Keys && (forall i :: i in closed ==> i !in st.sessions)
    requires ids <= st.sessions.Keys && m.snapshot == (map i | i in ids && i in st.sessions :: st.sessions[i])
    requires forall i :: i in ids ==> LockKey(key, st.sessions[i].plugin) == m.key
    ensures RemovalInv(key, Stage(st, ids), closed, removals[r := m])
  {
    AllAside(key, st, closed, removals, r, m, ids);
    AllSetAside(st, removals, r, m, ids);
    AllApart(key, st, closed, removals, r, m);
  }

  lemma {:induction false} AllAside(
      key: KeyOf, st: Store, closed: set<Id>, removals: map<nat, Removal>, r: nat, m: Removal, ids: set<Id>)
    requires (forall q :: q in removals ==> Aside(key, st, closed, removals[q])) && st.sessions.Keys !! st.staged.Keys
    requires ids <= st.sessions.Keys && m.snapshot == (map i | i in ids && i in st.sessions :: st.sessions[i])
    requires forall i :: i in ids ==> LockKey(key, st.sessions[i].plugin) == m.key
    ensures
      var st', all := Stage(st, ids), removals[r := m];
      forall q :: q in all ==> Aside(key, st', closed, all[q])
  {
    var st', all := Stage(st, ids), removals[r := m];
    forall q | q in all ensures Aside(key, st', closed, all[q]) {
      if q != r { StagingLeavesAside(key, st, closed, removals[q], ids); }
    }
  }

  lemma {:induction false} AllSetAside(st: Store, removals: map<nat, Removal>, r: nat, m: Removal, ids: set<Id>)
    requires (forall i :: i in st.staged ==> SetAside(removals, i)) && r !in removals
    requires ids <= st.sessions.Keys && m.snapshot.Keys == ids
    ensures forall i :: i in Stage(st, ids).staged ==> SetAside(removals[r := m], i)
  {
    forall i | i in Stage(st, ids).staged ensures SetAside(removals[r := m], i) {
      if i in st.staged { OneMoreRemoval(removals, r, m, i); } else { assert i in removals[r := m][r].snapshot; }
    }
  }

  lemma {:induction false} AllApart(
      key: KeyOf, st: Store, closed: set<Id>, removals: map<nat, Removal>, r: nat, m: Removal)
    requires RemovalInv(key, st, closed, removals) && r !in removals && m.snapshot.Keys <= st.sessions.Keys
    requires forall i :: i in closed ==> i !in st.sessions
    ensures
      var all := removals[r := m];
      forall q, q' :: q in all && q' in all && q != q' ==> Apart(all[q], all[q'])
  {
    var all := removals[r := m];
    forall q, q' | q in all && q' in all && q != q' ensures Apart(all[q], all[q']) {
      if q == r { StagedIsApart(key, st, closed, removals[q'], m); }
      else if q' == r { StagedIsApart(key, st, closed, removals[q], m); }
      else { assert Apart(removals[q], removals[q']); }
    }
  }

  lemma {:induction false} StagedIsApart(key: KeyOf, st: Store, closed: set<Id>, before: Removal, m: Removal)
    requires Aside(key, st, closed, before) && m.snapshot.Keys <= st.sessions.Keys
    ensures Apart(before, m) && Apart(m, before)
  {
  }

  lemma {:induction false} StagingLeavesAside(key: KeyOf, st: Store, closed: set<Id>, m: Removal, ids: set<Id>)
    requires Aside(key, st, closed, m) && ids <= st.sessions.Keys
    ensures Aside(key, Stage(st, ids), closed, m)
  {
  }

  lemma {:induction false} OneMoreRemoval(removals: map<nat, Removal>, r: nat, m: Removal, i: Id)
    requires r !in removals && SetAside(removals, i)
    ensures SetAside(removals[r := m], i)
  {
    var q :| q in removals && i in removals[q].snapshot;
    assert q in removals[r := m] && i in removals[r := m][q].snapshot;
  }

  /** After a removal is over, what the others set aside is still aside. */
  lemma {:induction false} RemovalEnds(key: KeyOf, st: Store, st': Store, closed: set<Id>, removals: map<nat, Removal>, r: nat)
    requires RemovalInv(key, st, closed, removals) && r in removals
    requires st'.staged == st.staged - removals[r].snapshot.Keys
    requires forall i :: i in st'.sessions ==> i in st.sessions || i in removals[r].snapshot
    ensures RemovalInv(key, st', closed, removals - {r})
  {
    var rest := removals - {r};
    forall q | q in rest ensures Aside(key, st', closed, rest[q]) {
      assert q in removals && q != r && rest[q] == removals[q];
      StaysAside(key, st, st', closed, removals[q], removals[r]);
    }
    forall i | i in st'.staged ensures SetAside(rest, i) {
      assert SetAside(removals, i);
      StillSetAside(removals, r, i);
    }
    assert forall q, q' :: q in rest && q' in rest && q != q' ==> Apart(removals[q], removals[q']);
  }

  lemma {:induction false} StaysAside(key: KeyOf, st: Store, st': Store, closed: set<Id>, m: Removal, over: Removal)
    requires Aside(key, st, closed, m) && Apart(m, over) && st'.staged == st.staged - over.snapshot.Keys
    requires forall i :: i in st'.sessions ==> i in st.sessions || i in over.snapshot
    ensures Aside(key, st', closed, m)
  {
  }

  lemma {:induction false} StillSetAside(removals: map<nat, Removal>, r: nat, i: Id)
    requires r in removals && i !in removals[r].snapshot && SetAside(removals, i)
    ensures SetAside(removals - {r}, i)
  {
    var q :| q in removals && i in removals[q].snapshot;
    assert q in removals - {r} && i in (removals - {r})[q].snapshot;
  }

  lemma {:induction false} LocksTake(key: KeyOf, s: State, r: nat, m: Removal)
    requires LockInv(key, s.locks, s.calls, s.removals) && r !in s.removals && m.key !in s.locks
    ensures LockInv(key, s.locks[m.key := ByRemoval(r)], s.calls, s.removals[r := m])
  {
  }

  lemma {:induction false} LocksRelease(key: KeyOf, s: State, r: nat)
    requires LockInv(key, s.locks, s.calls, s.removals) && r in s.removals
    ensures LockInv(key, s.locks - {s.removals[r].key}, s.calls, s.removals - {r})
  {
  }

  lemma {:induction false} NoneComparedIsStaged(key: KeyOf, s: State)
    requires Inv(key, s)
    ensures forall c :: c in s.calls && Compared(s.calls[c].pc) ==> s.calls[c].session !in s.store.staged
  {
    forall c | c in s.calls && Compared(s.calls[c].pc) ensures s.calls[c].session !in s.store.staged {
      LockedIsNotStaged(key, s, c);
    }
  }

  lemma {:induction false} RestoreStep(key: KeyOf, s: State, r: nat)
    requires Inv(key, s) && r in s.removals
    ensures Inv(key, Step(key, s, RestoreStaged(r)))
  {
    var s', ids := Step(key, s, RestoreStaged(r)), s.removals[r].snapshot.Keys;
    assert s'.store == Restore(s.store, ids) && s'.calls == s.calls && s'.h == s.h;
    assert s'.removals == s.removals - {r} && s'.locks == s.locks - {s.removals[r].key};
    assert LockInv(key, s'.locks, s'.calls, s'.removals) by { LocksRelease(key, s, r); }
    assert StoreInv(s'.store, s'.h.documents, Gone(s'.h)) by { RestoreKeeps(s.store, s.h.documents, Gone(s.h), ids); }
    assert RemovalInv(key, s'.store, s'.h.closed, s'.removals) by {
      RemovalEnds(key, s.store, s'.store, s.h.closed, s.removals, r);
    }
    assert CallsInv(s'.store, s'.h.documents, Gone(s'.h), s'.calls) by {
      NoneComparedIsStaged(key, s);
      CallsRestored(s.store, s.h.documents, Gone(s.h), s.calls, ids);
    }
  }

  lemma {:induction false} CommitStep(key: KeyOf, s: State, r: nat)
    requires Inv(key, s) && r in s.removals
    ensures Inv(key, Step(key, s, CommitStaged(r)))
  {
    var s', ids := Step(key, s, CommitStaged(r)), s.removals[r].snapshot.Keys;
    assert s'.store == Commit(s.store, ids) && s'.calls == s.calls && s'.h.documents == s.h.documents;
    assert s'.removals == s.removals - {r} && s'.locks == s.locks - {s.removals[r].key};
    assert Gone(s'.h) == Gone(s.h) + (ids * s.store.staged.Keys);
    assert LockInv(key, s'.locks, s'.calls, s'.removals) by { LocksRelease(key, s, r); }
    assert StoreInv(s'.store, s'.h.documents, Gone(s'.h)) by { CommitKeeps(s.store, s.h.documents, Gone(s.h), ids); }
    assert RemovalInv(key, s'.store, s'.h.closed, s'.removals) by {
      RemovalEnds(key, s.store, s'.store, s.h.closed, s.removals, r);
    }
    assert CallsInv(s'.store, s'.h.documents, Gone(s'.h), s'.calls) by {
      CallsCommitted(s.store, s.h.documents, Gone(s.h), s.calls, ids);
    }
  }

  // ---------------------------------------------------------------- every run

  lemma {:induction false} StepKeeps(key: KeyOf, s: State, act: Action)
    requires Inv(key, s)
    ensures Inv(key, Step(key, s, act))
  {
    match act {
      case Advance(c, r) => if c in s.calls { AdvanceKeeps(key, s, c, r); }
      case Abandon(c) =>
        if c in s.calls && !s.calls[c].pc.Done? {
          GiveUpKeepsCall(s.store, s.h.documents, Gone(s.h), s, s.calls[c]);
          LocksMove(key, s, c, GiveUp);
          QuietMoveKeeps(key, s, c, GiveUp);
        }
      case CloseSession(id) => if id in s.store.sessions || id in s.store.staged { CloseStep(key, s, id); }
      case StagePlugin(r, p) =>
        if key(p).Some? && r !in s.removals && LockKey(key, p) !in s.locks { StageStep(key, s, r, p); }
      case RestoreStaged(r) => if r in s.removals { RestoreStep(key, s, r); }
      case CommitStaged(r) => if r in s.removals { CommitStep(key, s, r); }
      case StartOpen(c, p) =>
        if c !in s.calls {
          CallsReplace(s.store, s.h.documents, Gone(s.h), s.calls, c, Call(p, 0, 0, OpenAsked));
        }
      case StartDispatch(c, id, expected) =>
        if c !in s.calls {
          CallsReplace(s.store, s.h.documents, Gone(s.h), s.calls, c, Call("", id, expected, Asked));
        }
      case _ =>
    }
  }

  lemma {:induction false} EveryRun(key: KeyOf, acts: seq<Action>)
    ensures Inv(key, Run(key, Init(), acts))
  {
    if acts != [] {
      EveryRun(key, acts[..|acts| - 1]);
      StepKeeps(key, Run(key, Init(), acts[..|acts| - 1]), acts[|acts| - 1]);
    }
  }

  // ---------------------------------------------------------------- no update is lost

  /** Documents, successes and departures are only ever added to. */
  ghost predicate Extends(h: History, h': History) {
    && (forall d :: d in h.documents ==> d in h'.documents && h'.documents[d] == h.documents[d])
    && (forall e :: e in h.successes ==> e in h'.successes && h'.successes[e] == h.successes[e])
    && h.closed <= h'.closed && h.committed <= h'.committed
  }

  lemma {:induction false} RegisterExtends(key: KeyOf, s: State, c: nat, id: Id, root: Root)
    requires Inv(key, s) && c in s.calls && s.calls[c].pc == Minted(id, root)
    ensures Extends(s.h, Apply(key, s, c, DoRegister(id, root)).h)
  {
    assert CallInv(s.store, s.h.documents, Gone(s.h), s.calls[c]);
  }

  lemma {:induction false} PublishExtends(key: KeyOf, s: State, c: nat, drawn: Option<Root>)
    requires Inv(key, s) && c in s.calls && Compared(s.calls[c].pc) && s.calls[c].session in s.store.sessions
    ensures Extends(s.h, Apply(key, s, c, DoPublish(drawn)).h)
  {
    PublishIsNew(key, s, c, drawn);
    PublishedState(key, s, c, drawn);
    assert Apply(key, s, c, DoPublish(drawn)).h.committed == s.h.committed;
  }

  lemma {:induction false} OtherMovesExtend(key: KeyOf, s: State, c: nat, m: Move)
    requires c in s.calls && !m.DoRegister? && !m.DoPublish?
    ensures Extends(s.h, Apply(key, s, c, m).h)
  {
  }

  lemma {:induction false} OtherStepsExtend(key: KeyOf, s: State, act: Action)
    requires !act.Advance? && !act.Abandon?
    ensures Extends(s.h, Step(key, s, act).h)
  {
  }

  lemma {:induction false} StepExtends(key: KeyOf, s: State, act: Action)
    requires Inv(key, s)
    ensures Extends(s.h, Step(key, s, act).h)
  {
    if act.Advance? {
      if act.call in s.calls { AdvanceExtends(key, s, act.call, act.reply); }
    } else if act.Abandon? {
      if act.call in s.calls { OtherMovesExtend(key, s, act.call, GiveUp); }
    } else {
      OtherStepsExtend(key, s, act);
    }
  }

  lemma {:induction false} AdvanceExtends(key: KeyOf, s: State, c: nat, r: Reply)
    requires Inv(key, s) && c in s.calls
    ensures Extends(s.h, AdvanceCall(key, s, c, r).h)
  {
    var m := Decide(key, s, s.calls[c], r);
    DecideAboutLocks(key, s, s.calls[c], r);
    match m {
      case DoRegister(id, root) => RegisterExtends(key, s, c, id, root);
      case DoPublish(drawn) => PublishExtends(key, s, c, drawn);
      case _ => OtherMovesExtend(key, s, c, m);
    }
  }

  lemma {:induction false} RunExtends(key: KeyOf, s: State, acts: seq<Action>)
    requires Inv(key, s)
    ensures Inv(key, Run(key, s, acts)) && Extends(s.h, Run(key, s, acts).h)
  {
    if acts != [] {
      var t := Run(key, s, acts[..|acts| - 1]);
      RunExtends(key, s, acts[..|acts| - 1]);
      StepKeeps(key, t, acts[|acts| - 1]);
      StepExtends(key, t, acts[|acts| - 1]);
    }
  }

  /** `document`: the retained document of an open session, if its plugin is enabled. */
  function Served(s: State, id: Id): Option<(nat, Root)> {
    if id !in s.store.sessions || s.store.sessions[id].plugin !in s.enabled then None
    else Some((s.store.sessions[id].revision, s.store.sessions[id].root))
  }

  /** One (session, revision) pair never names two documents, however far apart it is served. */
  lemma {:induction false} RevisionNamesOneDocument(key: KeyOf, acts: seq<Action>, more: seq<Action>, id: Id)
    requires Served(Run(key, Init(), acts), id).Some?
    requires Served(Run(key, Run(key, Init(), acts), more), id).Some?
    ensures
      var (n, root) := Served(Run(key, Init(), acts), id).value;
      var (n', root') := Served(Run(key, Run(key, Init(), acts), more), id).value;
      n <= n' && (n == n' ==> root == root')
  {
    var s := Run(key, Init(), acts);
    EveryRun(key, acts);
    RunExtends(key, s, more);
    var t := Run(key, s, more);
    assert Recorded(s.h.documents, id, s.store.sessions[id]);
    assert Recorded(t.h.documents, id, t.store.sessions[id]);
  }

  /** A dispatch is optimistic and loses no update: when it publishes, the session is still at the
      revision it expected, no dispatch had succeeded from that revision before, and it yields the next
      one, which no document had named. */
  lemma {:induction false} DispatchLosesNoUpdate(key: KeyOf, acts: seq<Action>, c: nat, r: Reply)
    requires c in Run(key, Init(), acts).calls
    requires Decide(key, Run(key, Init(), acts), Run(key, Init(), acts).calls[c], r).DoPublish?
    ensures
      var s := Run(key, Init(), acts);
      var call, s' := s.calls[c], AdvanceCall(key, s, c, r);
      && s.store.sessions[call.session].revision == call.expected
      && (call.session, call.expected) !in s.h.successes
      && (call.session, call.expected + 1) !in s.h.documents
      && s'.store.sessions[call.session].revision == call.expected + 1
      && s'.store.sessions.Keys == s.store.sessions.Keys
      && (forall i :: i in s.store.sessions && i != call.session ==> s'.store.sessions[i] == s.store.sessions[i])
      && call.session !in s.store.staged && s'.store.staged == s.store.staged
  {
    var s := Run(key, Init(), acts);
    EveryRun(key, acts);
    DecideAboutLocks(key, s, s.calls[c], r);
    PublishIsNew(key, s, c, Decide(key, s, s.calls[c], r).drawn);
    LockedIsNotStaged(key, s, c);
  }

  /** Ids are never reused: a registration takes an id that no session has or ever had. */
  lemma {:induction false} IdsAreNeverReused(key: KeyOf, acts: seq<Action>, c: nat, r: Reply)
    requires c in Run(key, Init(), acts).calls
    requires Decide(key, Run(key, Init(), acts), Run(key, Init(), acts).calls[c], r).DoRegister?
    ensures
      var s := Run(key, Init(), acts);
      Fresh(s.store, s.h.documents, Gone(s.h), Decide(key, s, s.calls[c], r).id)
  {
    var s := Run(key, Init(), acts);
    EveryRun(key, acts);
    DecideAboutLocks(key, s, s.calls[c], r);
    assert CallInv(s.store, s.h.documents, Gone(s.h), s.calls[c]);
  }

  // ---------------------------------------------------------------- removal is transactional

  /** A closed session, or one a committed removal discarded, never comes back. */
  lemma {:induction false} ClosedStaysClosed(key: KeyOf, acts: seq<Action>, more: seq<Action>, id: Id)
    requires id in Gone(Run(key, Init(), acts).h)
    ensures
      var t := Run(key, Run(key, Init(), acts), more);
      id !in t.store.sessions && id !in t.store.staged && t.store.sessions.Keys !! t.store.staged.Keys
  {
    EveryRun(key, acts);
    RunExtends(key, Run(key, Init(), acts), more);
  }

  /** Staging takes exactly the plugin's sessions, as they are, and touches no other. */
  lemma {:induction false} StagingIsExact(key: KeyOf, s: State, r: nat, p: Plugin)
    requires key(p).Some? && r !in s.removals && LockKey(key, p) !in s.locks
    ensures
      var s' := Step(key, s, StagePlugin(r, p));
      && (forall i :: i in s'.removals[r].snapshot <==> i in s.store.sessions && key(s.store.sessions[i].plugin) == key(p))
      && (forall i :: i in s'.removals[r].snapshot ==> s'.removals[r].snapshot[i] == s.store.sessions[i])
      && s'.store.sessions == s.store.sessions - s'.removals[r].snapshot.Keys
      && s'.store.staged == s.store.staged + s'.removals[r].snapshot
  {
  }

  /** The part of a snapshot that is still staged is the part not closed meanwhile. */
  lemma {:induction false} StillStaged(key: KeyOf, st: Store, docs: Documents, h: History, m: Removal)
    requires Aside(key, st, h.closed, m) && StoreInv(st, docs, Gone(h))
    ensures m.snapshot.Keys * st.staged.Keys == m.snapshot.Keys - h.closed
    ensures forall i :: i in m.snapshot && i in st.staged ==> st.staged[i] == m.snapshot[i]
    ensures m.snapshot.Keys !! st.sessions.Keys
  {
    assert forall i :: i in st.staged ==> i !in Gone(h);
    assert h.closed <= Gone(h);
  }

  lemma {:induction false} SnapshotLessClosed(key: KeyOf, st: Store, docs: Documents, h: History, m: Removal)
    requires Aside(key, st, h.closed, m) && StoreInv(st, docs, Gone(h))
    ensures Restore(st, m.snapshot.Keys).sessions == st.sessions + (m.snapshot - h.closed)
    ensures m.snapshot.Keys * st.staged.Keys == m.snapshot.Keys - h.closed
    ensures m.snapshot.Keys !! st.sessions.Keys
  {
    StillStaged(key, st, docs, h, m);
    RestoredPart(st, m.snapshot, h.closed);
  }

  lemma {:induction false} RestoredPart(st: Store, snapshot: map<Id, Record>, closed: set<Id>)
    requires snapshot.Keys * st.staged.Keys == snapshot.Keys - closed
    requires forall i :: i in snapshot && i in st.staged ==> st.staged[i] == snapshot[i]
    ensures Restore(st, snapshot.Keys).sessions == st.sessions + (snapshot - closed)
  {
    assert forall i :: i in snapshot && i in st.staged <==> i in snapshot.Keys * st.staged.Keys;
    assert (map i | i in snapshot.Keys && i in st.staged :: st.staged[i]) == snapshot - closed;
  }

  lemma {:induction false} RemovalAt(key: KeyOf, s: State, r: nat)
    requires Inv(key, s) && r in s.removals
    ensures Aside(key, s.store, s.h.closed, s.removals[r]) && StoreInv(s.store, s.h.documents, Gone(s.h))
  {
  }

  /** Restoring, or dropping an unfinished removal, brings back exactly the sessions that were staged and
      not closed meanwhile, with their records unchanged, and touches no other. */
  lemma {:induction false} RestoreIsExact(key: KeyOf, s: State, r: nat)
    requires Inv(key, s) && r in s.removals
    ensures
      var m, s' := s.removals[r], Step(key, s, RestoreStaged(r));
      && s'.store.sessions == s.store.sessions + (m.snapshot - s.h.closed)
      && m.snapshot.Keys !! s.store.sessions.Keys
      && s'.store.staged == s.store.staged - m.snapshot.Keys
  {
    var m, s' := s.removals[r], Step(key, s, RestoreStaged(r));
    assert s'.store == Restore(s.store, m.snapshot.Keys);
    assert Restore(s.store, m.snapshot.Keys).sessions == s.store.sessions + (m.snapshot - s.h.closed)
        && m.snapshot.Keys !! s.store.sessions.Keys by {
      RemovalAt(key, s, r);
      SnapshotLessClosed(key, s.store, s.h.documents, s.h, m);
    }
  }

  /** Committing discards exactly those, and leaves every live session and every other removal alone. */
  lemma {:induction false} CommitIsExact(key: KeyOf, s: State, r: nat)
    requires Inv(key, s) && r in s.removals
    ensures
      var m, s' := s.removals[r], Step(key, s, CommitStaged(r));
      && s'.store.sessions == s.store.sessions
      && s'.h.committed == s.h.committed + (m.snapshot.Keys - s.h.closed)
      && RemovalInv(key, s'.store, s'.h.closed, s'.removals)
  {
    var m, s' := s.removals[r], Step(key, s, CommitStaged(r));
    assert s'.store == Commit(s.store, m.snapshot.Keys);
    assert m.snapshot.Keys * s.store.staged.Keys == m.snapshot.Keys - s.h.closed by {
      RemovalAt(key, s, r);
      SnapshotLessClosed(key, s.store, s.h.documents, s.h, m);
    }
    assert RemovalInv(key, s'.store, s'.h.closed, s'.removals) by { CommitStep(key, s, r); }
  }
}
