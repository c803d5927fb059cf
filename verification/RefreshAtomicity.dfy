/**
 A refresh is atomic in every interleaving: whatever the other goroutines do between the
 moment one of them takes `refreshMu` and the moment it is about to release it, tokens and
 error are those of `RefreshIfCurrent`, applied to the tokens at the beginning.
 */
module RefreshAtomicity {
  import opened Basics
  import opened Strings
  import opened AuthTransport
  import opened RefreshProtocol
  import opened RefreshSafety
  import opened RefreshProgress

  // ---------- the environment of one call ----------

  /** The answers that an action of the call receives are those of the environment. */
  predicate Answers(cfg: Config, a: Action, env: Environment) {
    match a
    case Post(answer) => answer == env.post
    case Save(works) => works == (env.saveWorks || !cfg.hasManager)
    case _ => true
  }

  /** So far the call has received these answers, and has not released `refreshMu`. */
  ghost predicate Agrees(cfg: Config, events: seq<Event>, i: nat, env: Environment) {
    forall k :: 0 <= k < |events| && events[k].thread == i ==> Answers(cfg, events[k].action, env) && !events[k].action.Release?
  }

  ghost predicate Unreleased(events: seq<Event>, i: nat) {
    forall k :: 0 <= k < |events| && events[k].thread == i ==> !events[k].action.Release?
  }

  /** 0 before the POST is answered, 1 before the save is, 2 afterwards. */
  function Stage(pc: Pc): nat {
    if HasIssued(pc) then 1 else if pc.Stored? || pc.Releasing? then 2 else 0
  }

  lemma NextStage(cfg: Config, s: State, e: Event, i: nat)
    requires Enabled(cfg, s, e) && i < |s.threads| && Refreshes(s.threads[i].pc)
    requires e.thread == i ==> !e.action.Release?
    ensures var s' := Next(cfg, s, e);
            && i < |s'.threads| && Refreshes(s'.threads[i].pc)
            && Stage(s'.threads[i].pc) >= Stage(s.threads[i].pc)
            && (e.thread == i && e.action.Post? ==> Stage(s.threads[i].pc) == 0 < Stage(s'.threads[i].pc))
            && (e.thread == i && e.action.Save? ==> Stage(s.threads[i].pc) == 1 < Stage(s'.threads[i].pc))
  {
    NextMoves(cfg, s, e);
  }

  /** The call posts and saves at most once, so one environment accounts for all its answers. */
  lemma {:induction false} OneEnvironment(cfg: Config, s: State, events: seq<Event>, i: nat) returns (env: Environment)
    requires Possible(cfg, s, events) && i < |s.threads| && Refreshes(s.threads[i].pc) && Unreleased(events, i)
    ensures Agrees(cfg, events, i, env)
    ensures Stage(s.threads[i].pc) >= 1 ==> forall k :: 0 <= k < |events| && events[k].thread == i ==> !events[k].action.Post?
    ensures Stage(s.threads[i].pc) >= 2 ==> forall k :: 0 <= k < |events| && events[k].thread == i ==> !events[k].action.Save?
    decreases events
  {
    env := Environment(Failed, true);
    if events != [] {
      var e, rest := events[0], events[1..];
      NextStage(cfg, s, e, i);
      env := OneEnvironment(cfg, Next(cfg, s, e), rest, i);
      if e.thread == i && e.action.Post? {
        env := env.(post := e.action.answer);
      } else if e.thread == i && e.action.Save? {
        env := env.(saveWorks := e.action.works);
      }
      assert events == [e] + rest;
    }
  }

  // ---------- one step ----------

  /** While a thread is inside the refresh section, the steps of others leave it and the tokens alone. */
  lemma OthersLeaveTokens(cfg: Config, s: State, e: Event, i: nat)
    requires Inv(cfg, s) && Enabled(cfg, s, e) && i < |s.threads| && Refreshes(s.threads[i].pc) && e.thread != i
    ensures var s' := Next(cfg, s, e); s'.tokens == s.tokens && i < |s'.threads| && s'.threads[i] == s.threads[i]
  {
    NextMoves(cfg, s, e);
    assert s.refreshMu == Some(i) <==> Refreshes(s.threads[i].pc);
    assert s.refreshMu == Some(e.thread) <==> Refreshes(s.threads[e.thread].pc);
  }

  /** The call's own steps do not change what it will end with. */
  ghost predicate KeepsResult(cfg: Config, s: State, i: nat, env: Environment, s': State)
    requires i < |s.threads| && (s.threads[i].pc.AwaitRefreshMu? || Refreshes(s.threads[i].pc))
  {
    && i < |s'.threads| && Refreshes(s'.threads[i].pc) && Passed(cfg, s'.tokens, s'.threads[i].pc, env)
    && Predicted(cfg, s'.tokens, s'.threads[i].pc, env) == Predicted(cfg, s.tokens, s.threads[i].pc, env)
    && s'.threads[i].pc.rejected == s.threads[i].pc.rejected
  }

  lemma OwnCheck(cfg: Config, s: State, e: Event, env: Environment)
    requires cfg.mode == Bearer && cfg.hasCredential && Enabled(cfg, s, e) && InCheck(e.action)
    requires Passed(cfg, s.tokens, s.threads[e.thread].pc, env)
    ensures KeepsResult(cfg, s, e.thread, env, CheckStep(cfg, s, e))
  {
  }

  lemma OwnStore(cfg: Config, s: State, e: Event, env: Environment)
    requires cfg.mode == Bearer && cfg.hasCredential && Enabled(cfg, s, e) && !InRequest(e.action) && !InCheck(e.action)
    requires Passed(cfg, s.tokens, s.threads[e.thread].pc, env) && Answers(cfg, e.action, env) && !e.action.Release?
    ensures KeepsResult(cfg, s, e.thread, env, StoreStep(cfg, s, e))
  {
  }

  lemma OwnStep(cfg: Config, s: State, e: Event, env: Environment)
    requires Enabled(cfg, s, e) && cfg.mode == Bearer && cfg.hasCredential
    requires s.threads[e.thread].pc.AwaitRefreshMu? || Refreshes(s.threads[e.thread].pc)
    requires Passed(cfg, s.tokens, s.threads[e.thread].pc, env) && Answers(cfg, e.action, env) && !e.action.Release?
    ensures KeepsResult(cfg, s, e.thread, env, Next(cfg, s, e))
  {
    assert !InRequest(e.action);
    if InCheck(e.action) {
      OwnCheck(cfg, s, e, env);
    } else {
      OwnStore(cfg, s, e, env);
    }
  }

  // ---------- whole calls ----------

  lemma {:induction false} SectionKeepsResult(cfg: Config, s: State, events: seq<Event>, i: nat, env: Environment)
    requires Inv(cfg, s) && Possible(cfg, s, events) && Agrees(cfg, events, i, env)
    requires i < |s.threads| && Refreshes(s.threads[i].pc) && Passed(cfg, s.tokens, s.threads[i].pc, env)
    ensures KeepsResult(cfg, s, i, env, Run(cfg, s, events))
    decreases events
  {
    if events != [] {
      var e, s' := events[0], Next(cfg, s, events[0]);
      assert ThreadOk(cfg, s, s.threads[i]);
      if e.thread == i {
        OwnStep(cfg, s, e, env);
      } else {
        OthersLeaveTokens(cfg, s, e, i);
      }
      NextInv(cfg, s, e);
      assert forall k :: 0 <= k < |events[1..]| ==> events[1..][k] == events[k + 1];
      SectionKeepsResult(cfg, s', events[1..], i, env);
    }
  }

  lemma LockTaken(cfg: Config, s: State, i: nat)
    requires Enabled(cfg, s, Event(i, LockRefresh))
    ensures var s' := Next(cfg, s, Event(i, LockRefresh));
            && s'.tokens == s.tokens && i < |s'.threads|
            && s'.threads[i].pc == AwaitCompare(s.threads[i].pc.rejected)
  {
  }

  /** What a call has reached after some events. */
  ghost predicate Reached(cfg: Config, s: State, i: nat, rejected: string, result: RefreshResult) {
    && i < |s.threads| && Refreshes(s.threads[i].pc) && s.threads[i].pc.rejected == rejected
    && (s.threads[i].pc.Releasing? ==> RefreshResult(s.tokens, s.threads[i].pc.error) == result)
  }

  lemma SectionResult(cfg: Config, s: State, events: seq<Event>, i: nat, rejected: string, env: Environment)
    requires Inv(cfg, s) && Possible(cfg, s, events) && Agrees(cfg, events, i, env)
    requires i < |s.threads| && s.threads[i].pc == AwaitCompare(rejected)
    ensures Reached(cfg, Run(cfg, s, events), i, rejected, RefreshIfCurrent(cfg, s.tokens, rejected, env))
  {
    SectionKeepsResult(cfg, s, events, i, env);
  }

  /** The rest of the call, from the moment the mutex is taken. */
  lemma SectionAtomic(cfg: Config, s: State, events: seq<Event>, i: nat, rejected: string) returns (env: Environment)
    requires Inv(cfg, s) && Possible(cfg, s, events) && Unreleased(events, i)
    requires i < |s.threads| && s.threads[i].pc == AwaitCompare(rejected)
    ensures Agrees(cfg, events, i, env)
    ensures Reached(cfg, Run(cfg, s, events), i, rejected, RefreshIfCurrent(cfg, s.tokens, rejected, env))
  {
    env := OneEnvironment(cfg, s, events, i);
    SectionResult(cfg, s, events, i, rejected, env);
  }

  lemma UnreleasedRest(events: seq<Event>, i: nat)
    requires events != [] && Unreleased(events, i)
    ensures Unreleased(events[1..], i)
  {
    assert forall k :: 0 <= k < |events[1..]| ==> events[1..][k] == events[k + 1];
  }

  lemma AgreesFromRest(cfg: Config, events: seq<Event>, i: nat, env: Environment)
    requires events != [] && events[0].action.LockRefresh? && Agrees(cfg, events[1..], i, env)
    ensures Agrees(cfg, events, i, env)
  {
    assert events == [events[0]] + events[1..];
  }

  /**
   Atomicity. A thread that waits for `refreshMu` after a refused token takes it, and the run
   goes on, in any interleaving, without the thread releasing it. Then some environment
   accounts for the answers the thread received, and when it is about to release the mutex,
   the tokens in memory and on disk and the error of the call are what `RefreshIfCurrent`
   makes of the tokens at the moment the mutex was taken.
   */
  lemma RefreshesAtomically(cfg: Config, requests: seq<Request>, token: string, s: State, i: nat, events: seq<Event>)
    returns (env: Environment)
    requires Reachable(cfg, requests, token, s) && i < |s.threads| && s.threads[i].pc.AwaitRefreshMu?
    requires Possible(cfg, s, events) && events != [] && events[0] == Event(i, LockRefresh) && Unreleased(events, i)
    ensures Agrees(cfg, events, i, env)
    ensures var rejected := s.threads[i].pc.rejected;
            Reached(cfg, Run(cfg, s, events), i, rejected, RefreshIfCurrent(cfg, s.tokens, rejected, env))
  {
    ReachableInv(cfg, requests, token, s);
    NextInv(cfg, s, events[0]);
    LockTaken(cfg, s, i);
    UnreleasedRest(events, i);
    env := SectionAtomic(cfg, Next(cfg, s, events[0]), events[1..], i, s.threads[i].pc.rejected);
    AgreesFromRest(cfg, events, i, env);
  }
}
