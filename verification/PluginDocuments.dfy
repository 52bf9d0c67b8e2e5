/** What the documents of a session are: the roots its calls drew, as their replies had them. */
module PluginDocuments {
  import opened Common
  import opened PluginSessions
  import opened PluginRuns

  // ---------------------------------------------------------------- what the replies said

  predicate Drawing(pc: Pc) { pc.LayoutRunning? || pc.RefreshRunning? }

  /** The reply that call `c` took in a step, at a place where it waited for one. */
  function Took(s: State, act: Action, c: nat): Option<Reply> {
    if act.Advance? && act.call == c && c in s.calls && act.reply.ok then Some(act.reply) else None
  }

  /** The root of the last layout that came back to call `c`. */
  function Drew(key: KeyOf, acts: seq<Action>, c: nat): Option<Root> {
    if acts == [] then None else
    var init, act := acts[..|acts| - 1], acts[|acts| - 1];
    var s := Run(key, Init(), init);
    if Took(s, act, c).Some? && Drawing(s.calls[c].pc) then Some(act.reply.root) else Drew(key, init, c)
  }

  /** The last answer of the guest to the event of call `c`. */
  function Answered(key: KeyOf, acts: seq<Action>, c: nat): Option<Reply> {
    if acts == [] then None else
    var init, act := acts[..|acts| - 1], acts[|acts| - 1];
    var s := Run(key, Init(), init);
    if Took(s, act, c).Some? && s.calls[c].pc.EventRunning? then Some(act.reply) else Answered(key, init, c)
  }

  // ---------------------------------------------------------------- what a call carries

  /** A call carries the root it drew from the reply to the end, and none before. */
  predicate CarriesRoot(pc: Pc, drew: Option<Root>) {
    match pc
    case LayoutBack(root) => drew == Some(root)
    case RegisterReady(root) => drew == Some(root)
    case Minted(_, root) => drew == Some(root)
    case RefreshBack(drawn) => drew == drawn
    case PublishReady(drawn) => drew == drawn
    case Done(_) => true
    case _ => drew == None
  }

  /** A dispatch carries what the guest asked for, does it in order, and draws if and only if it was asked to. */
  predicate CarriesWishes(pc: Pc, answer: Option<Reply>) {
    match pc
    case EventBack(fetch, refresh) => answer.Some? && answer.value.fetch == fetch && answer.value.refresh == refresh
    case FetchReady(fetch, refresh) => answer.Some? && answer.value.fetch == fetch && answer.value.refresh == refresh
    case FetchRunning(refresh) => answer.Some? && answer.value.fetch && answer.value.refresh == refresh
    case FetchBack(refresh) => answer.Some? && answer.value.refresh == refresh
    case RefreshReady(refresh) => answer.Some? && answer.value.refresh == refresh
    case RefreshRunning => answer.Some? && answer.value.refresh
    case RefreshBack(drawn) => answer.Some? && answer.value.refresh == drawn.Some?
    case PublishReady(drawn) => answer.Some? && answer.value.refresh == drawn.Some?
    case _ => true
  }

  predicate Landed(effects: seq<(nat, Effect)>, c: nat) { (c, Registration) in effects || (c, Publication) in effects }

  /** A call returns a success if and only if it registered or published. */
  predicate Honest(effects: seq<(nat, Effect)>, c: nat, pc: Pc) { Landed(effects, c) <==> pc == Done(true) }

  /** What call `c` has done so far: its event, then a fetch and a layout if and only if they were asked for. */
  predicate Did(effects: seq<(nat, Effect)>, c: nat, pc: Pc, answer: Option<Reply>) {
    var event, fetch, layout := (c, Event) in effects, (c, Fetch) in effects, (c, Layout) in effects;
    match pc
    case LayoutRunning => layout && !event && !fetch
    case LayoutBack(_) => layout && !event && !fetch
    case RegisterReady(_) => layout && !event && !fetch
    case Minted(_, _) => layout && !event && !fetch
    case EventRunning => event && !fetch && !layout
    case EventBack(_, _) => event && !fetch && !layout
    case FetchReady(_, _) => event && !fetch && !layout
    case FetchRunning(_) => event && fetch && !layout
    case FetchBack(_) => event && !layout && answer.Some? && fetch == answer.value.fetch
    case RefreshReady(_) => event && !layout && answer.Some? && fetch == answer.value.fetch
    case RefreshRunning => event && layout && answer.Some? && fetch == answer.value.fetch
    case RefreshBack(drawn) => event && answer.Some? && fetch == answer.value.fetch && layout == drawn.Some?
    case PublishReady(drawn) => event && answer.Some? && fetch == answer.value.fetch && layout == drawn.Some?
    case Done(_) => true
    case _ => !event && !fetch && !layout
  }

  function DrewNext(drew: Option<Root>, pc: Pc, r: Reply): Option<Root> {
    if Drawing(pc) && r.ok then Some(r.root) else drew
  }

  function AnsweredNext(answer: Option<Reply>, pc: Pc, r: Reply): Option<Reply> {
    if pc.EventRunning? && r.ok then Some(r) else answer
  }

  lemma {:induction false} MoveCarriesRoot(key: KeyOf, s: State, call: Call, r: Reply, drew: Option<Root>)
    requires CarriesRoot(call.pc, drew)
    ensures CarriesRoot(Moved(s, call, Decide(key, s, call, r)).pc, DrewNext(drew, call.pc, r))
  {
  }

  lemma {:induction false} MoveCarriesWishes(key: KeyOf, s: State, call: Call, r: Reply, answer: Option<Reply>)
    requires CarriesWishes(call.pc, answer)
    ensures CarriesWishes(Moved(s, call, Decide(key, s, call, r)).pc, AnsweredNext(answer, call.pc, r))
  {
  }

  lemma {:induction false} MoveDid(key: KeyOf, s: State, c: nat, r: Reply, answer: Option<Reply>)
    requires c in s.calls && Did(s.h.effects, c, s.calls[c].pc, answer) && CarriesWishes(s.calls[c].pc, answer)
    ensures
      var m := Decide(key, s, s.calls[c], r);
      var effects := s.h.effects + if EffectOf(m).Some? then [(c, EffectOf(m).value)] else [];
      Did(effects, c, Moved(s, s.calls[c], m).pc, AnsweredNext(answer, s.calls[c].pc, r))
  {
  }

  lemma {:induction false} MoveHonest(key: KeyOf, s: State, c: nat, r: Reply)
    requires c in s.calls && Honest(s.h.effects, c, s.calls[c].pc)
    ensures
      var m := Decide(key, s, s.calls[c], r);
      Honest(s.h.effects + (if EffectOf(m).Some? then [(c, EffectOf(m).value)] else []), c, Moved(s, s.calls[c], m).pc)
  {
  }

  predicate Carries(s: State, c: nat, drew: Option<Root>, answer: Option<Reply>) {
    if c in s.calls then
      && CarriesRoot(s.calls[c].pc, drew) && CarriesWishes(s.calls[c].pc, answer)
      && Did(s.h.effects, c, s.calls[c].pc, answer) && Honest(s.h.effects, c, s.calls[c].pc)
    else drew == None && answer == None && forall e :: (c, e) !in s.h.effects
  }

  lemma {:induction false} OwnStepCarries(key: KeyOf, s: State, c: nat, r: Reply, drew: Option<Root>, answer: Option<Reply>)
    requires c in s.calls && Carries(s, c, drew, answer)
    ensures Carries(Step(key, s, Advance(c, r)), c, DrewNext(drew, s.calls[c].pc, r), AnsweredNext(answer, s.calls[c].pc, r))
  {
    MoveCarriesRoot(key, s, s.calls[c], r, drew);
    MoveCarriesWishes(key, s, s.calls[c], r, answer);
    MoveDid(key, s, c, r, answer);
    MoveHonest(key, s, c, r);
    assert Step(key, s, Advance(c, r)).calls[c] == Moved(s, s.calls[c], Decide(key, s, s.calls[c], r));
  }

  lemma {:induction false} OthersDid(key: KeyOf, s: State, c: nat, act: Action)
    requires !(act.Advance? && act.call == c && c in s.calls)
    ensures forall e :: (c, e) in Step(key, s, act).h.effects <==> (c, e) in s.h.effects
  {
  }

  lemma {:induction false} OtherStepCarries(key: KeyOf, s: State, c: nat, act: Action, drew: Option<Root>, answer: Option<Reply>)
    requires !(act.Advance? && act.call == c && c in s.calls) && Carries(s, c, drew, answer)
    ensures Carries(Step(key, s, act), c, drew, answer)
  {
    var s' := Step(key, s, act);
    OthersDid(key, s, c, act);
    assert c in s.calls ==> c in s'.calls && (s'.calls[c] == s.calls[c] || (s'.calls[c].pc == Done(false) && !s.calls[c].pc.Done?));
    assert c !in s.calls && c in s'.calls ==> s'.calls[c].pc.OpenAsked? || s'.calls[c].pc.Asked?;
  }

  lemma {:induction false} LastAction(key: KeyOf, acts: seq<Action>, c: nat)
    requires acts != []
    ensures
      var init, act := acts[..|acts| - 1], acts[|acts| - 1];
      var s, drew, answer := Run(key, Init(), init), Drew(key, init, c), Answered(key, init, c);
      && Run(key, Init(), acts) == Step(key, s, act)
      && if act.Advance? && act.call == c && c in s.calls then
           && Drew(key, acts, c) == DrewNext(drew, s.calls[c].pc, act.reply)
           && Answered(key, acts, c) == AnsweredNext(answer, s.calls[c].pc, act.reply)
         else Drew(key, acts, c) == drew && Answered(key, acts, c) == answer
  {
  }

  lemma {:induction false} EveryCallCarries(key: KeyOf, acts: seq<Action>, c: nat)
    ensures Carries(Run(key, Init(), acts), c, Drew(key, acts, c), Answered(key, acts, c))
  {
    if acts != [] {
      var init, act := acts[..|acts| - 1], acts[|acts| - 1];
      var s := Run(key, Init(), init);
      EveryCallCarries(key, init, c);
      LastAction(key, acts, c);
      if act.Advance? && act.call == c && c in s.calls {
        OwnStepCarries(key, s, c, act.reply, Drew(key, init, c), Answered(key, init, c));
      } else {
        OtherStepCarries(key, s, c, act, Drew(key, init, c), Answered(key, init, c));
      }
    }
  }

  // ---------------------------------------------------------------- what reaches the guest

  /** Call `c` found its session at the revision it expects, and its target neither hidden nor disabled. */
  predicate Admits(s: State, act: Action, c: nat) {
    && Took(s, act, c).Some? && s.calls[c].pc.Allowed? && s.calls[c].session in s.store.sessions
    && s.store.sessions[s.calls[c].session].revision == s.calls[c].expected
  }

  ghost predicate Admitted(key: KeyOf, acts: seq<Action>, c: nat) {
    exists i :: 0 <= i < |acts| && Admits(Run(key, Init(), acts[..i]), acts[i], c)
  }

  lemma {:induction false} AdmittedLater(key: KeyOf, acts: seq<Action>, c: nat)
    requires acts != [] && Admitted(key, acts[..|acts| - 1], c)
    ensures Admitted(key, acts, c)
  {
    var init := acts[..|acts| - 1];
    var i :| 0 <= i < |init| && Admits(Run(key, Init(), init[..i]), init[i], c);
    assert acts[..i] == init[..i] && acts[i] == init[i];
  }

  lemma {:induction false} AdmissionStep(key: KeyOf, s: State, act: Action, c: nat)
    requires c !in s.calls ==> (c, Event) !in s.h.effects
    ensures
      var s' := Step(key, s, act);
      && (c in s'.calls && Compared(s'.calls[c].pc) ==> (c in s.calls && Compared(s.calls[c].pc)) || Admits(s, act, c))
      && ((c, Event) in s'.h.effects ==> (c, Event) in s.h.effects || (c in s.calls && Compared(s.calls[c].pc)))
  {
    if !(act.Advance? && act.call == c && c in s.calls) { OthersDid(key, s, c, act); }
  }

  /** No event reaches the guest before the revision and the target were found good. */
  lemma {:induction false} EventsAreAdmitted(key: KeyOf, acts: seq<Action>, c: nat)
    ensures
      var s := Run(key, Init(), acts);
      (c, Event) in s.h.effects || (c in s.calls && Compared(s.calls[c].pc)) ==> Admitted(key, acts, c)
  {
    if acts != [] {
      var init, act := acts[..|acts| - 1], acts[|acts| - 1];
      var s := Run(key, Init(), init);
      EventsAreAdmitted(key, init, c);
      EveryCallCarries(key, init, c);
      AdmissionStep(key, s, act, c);
      if Admitted(key, init, c) { AdmittedLater(key, acts, c); }
      if Admits(s, act, c) { assert acts[|acts| - 1] == act; }
    }
  }

  // ---------------------------------------------------------------- what is published

  /** From `s` to `s'` the dispatch `c` moves its session to the next revision, with the root it drew or its old
      one; the new document is served while the plugin is enabled, and no earlier document changes. */
  predicate Serves(s: State, s': State, c: nat, drew: Option<Root>)
    requires c in s.calls
  {
    var id, n := s.calls[c].session, s.calls[c].expected + 1;
    && id in s.store.sessions
    && var was := s.store.sessions[id];
       var root := if drew.Some? then drew.value else was.root;
       && s'.store.sessions == s.store.sessions[id := Record(was.plugin, n, root)] && s'.store.staged == s.store.staged
       && s'.h.documents == s.h.documents[(id, n) := root]
       && Served(s', id) == if was.plugin in s.enabled then Some((n, root)) else None
  }

  /** Before it the dispatch has sent its event, and fetched and drawn if and only if the guest asked for it. */
  predicate AsAsked(effects: seq<(nat, Effect)>, c: nat, drew: Option<Root>, answer: Option<Reply>) {
    && answer.Some? && (drew.Some? <==> answer.value.refresh)
    && (c, Event) in effects && ((c, Fetch) in effects <==> answer.value.fetch)
    && ((c, Layout) in effects <==> answer.value.refresh)
  }

  lemma {:induction false} PublishServes(key: KeyOf, s: State, c: nat, drawn: Option<Root>)
    requires c in s.calls && s.calls[c].session in s.store.sessions
    requires s.store.sessions[s.calls[c].session].revision == s.calls[c].expected
    ensures Serves(s, Apply(key, s, c, DoPublish(drawn)), c, drawn)
  {
    PublishedState(key, s, c, drawn);
    assert Apply(key, s, c, DoPublish(drawn)).enabled == s.enabled;
  }

  lemma {:induction false} CarriedToPublication(key: KeyOf, acts: seq<Action>, c: nat, drawn: Option<Root>)
    requires
      var s := Run(key, Init(), acts);
      c in s.calls && s.calls[c].pc == PublishReady(drawn)
    ensures Drew(key, acts, c) == drawn && AsAsked(Run(key, Init(), acts).h.effects, c, drawn, Answered(key, acts, c))
  {
    EveryCallCarries(key, acts, c);
  }

  lemma {:induction false} AboutToPublish(key: KeyOf, s: State, call: Call, r: Reply)
    requires Decide(key, s, call, r).DoPublish?
    ensures call.pc == PublishReady(Decide(key, s, call, r).drawn) && Compared(call.pc) && call.session in s.store.sessions
  {
  }

  /**
   In every run a publication serves what the dispatch drew: if the guest asked for a refresh, the root of
   the last layout that came back to this call, and otherwise the root that was there.
   */
  lemma {:induction false} PublicationServesWhatWasDrawn(key: KeyOf, acts: seq<Action>, c: nat, r: Reply)
    requires c in Run(key, Init(), acts).calls
    requires Decide(key, Run(key, Init(), acts), Run(key, Init(), acts).calls[c], r).DoPublish?
    ensures
      var s, drew := Run(key, Init(), acts), Drew(key, acts, c);
      && Serves(s, AdvanceCall(key, s, c, r), c, drew)
      && AsAsked(s.h.effects, c, drew, Answered(key, acts, c))
  {
    var s := Run(key, Init(), acts);
    var m := Decide(key, s, s.calls[c], r);
    AboutToPublish(key, s, s.calls[c], r);
    CarriedToPublication(key, acts, c, m.drawn);
    assert s.store.sessions[s.calls[c].session].revision == s.calls[c].expected by {
      EveryRun(key, acts);
      PublishIsNew(key, s, c, m.drawn);
    }
    PublishServes(key, s, c, m.drawn);
  }

  /** And a registration puts up a session of the plugin that was asked for, at revision 1, with the root of
      the layout that came back. */
  lemma {:induction false} RegistrationServesWhatWasDrawn(key: KeyOf, acts: seq<Action>, c: nat, r: Reply)
    requires c in Run(key, Init(), acts).calls
    requires Decide(key, Run(key, Init(), acts), Run(key, Init(), acts).calls[c], r).DoRegister?
    ensures
      var s := Run(key, Init(), acts);
      var id, s', drew := Decide(key, s, s.calls[c], r).id, AdvanceCall(key, s, c, r), Drew(key, acts, c);
      && drew.Some? && s'.store.sessions == s.store.sessions[id := Record(s.calls[c].plugin, 1, drew.value)]
      && s'.h.documents == s.h.documents[(id, 1) := drew.value]
  {
    var s := Run(key, Init(), acts);
    EveryCallCarries(key, acts, c);
    DecideAboutLocks(key, s, s.calls[c], r);
  }
}
