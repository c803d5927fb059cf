/**
 Locks and progress of the refresh protocol: exclusion, balanced locking, no deadlock, a
 bound on the length of every run, and the agreement of the protocol with the sequential
 `RefreshCurrent` when a goroutine runs undisturbed.
 */
module RefreshProgress {
  import opened Basics
  import opened Strings
  import opened AuthTransport
  import opened RefreshProtocol
  import opened RefreshSafety

  // ---------- exclusion ----------

  /**
   At most one thread is inside the refresh section, so at most one POST is in flight; while
   it is, nobody holds or waits to hold `mu` for writing and the refresher does not hold it
   at all. A finished thread holds nothing.
   */
  lemma Exclusion(cfg: Config, requests: seq<Request>, token: string, s: State, i: nat, j: nat)
    requires Reachable(cfg, requests, token, s) && i < |s.threads| && j < |s.threads|
    ensures Refreshes(s.threads[i].pc) && Refreshes(s.threads[j].pc) ==> i == j
    ensures s.threads[i].pc.Posting? ==> s.writer.None? && s.pending.None? && i !in s.readers
    ensures s.threads[i].pc.Finished? ==>
              i !in s.readers && s.writer != Some(i) && s.pending != Some(i) && s.refreshMu != Some(i)
    ensures s.writer.Some? ==> s.readers == {}
  {
    ReachableInv(cfg, requests, token, s);
    assert s.refreshMu == Some(i) <==> Refreshes(s.threads[i].pc);
    assert s.refreshMu == Some(j) <==> Refreshes(s.threads[j].pc);
  }

  // ---------- balanced locking ----------

  datatype Lock = ReadMu | WriteMu | RefreshMu

  /** What an action does to the number of times its thread holds a lock. */
  function Delta(a: Action, lock: Lock): int {
    match lock
    case ReadMu =>
      if a.BeginApply? || a.BeginCompare? || a.BeginConfig? then 1
      else if a.EndApply? || a.EndCompare? || a.EndConfig? then -1 else 0
    case WriteMu => if a.LockWrite? then 1 else if a.UnlockWrite? then -1 else 0
    case RefreshMu => if a.LockRefresh? then 1 else if a.Release? then -1 else 0
  }

  function Balance(events: seq<Event>, i: nat, lock: Lock): int {
    if events == [] then 0
    else (if events[0].thread == i then Delta(events[0].action, lock) else 0) + Balance(events[1..], i, lock)
  }

  function Holds(pc: Pc, lock: Lock): int {
    match lock
    case ReadMu => if Reads(pc) then 1 else 0
    case WriteMu => if Writes(pc) then 1 else 0
    case RefreshMu => if Refreshes(pc) then 1 else 0
  }

  lemma NextBalance(cfg: Config, s: State, e: Event, lock: Lock)
    requires Enabled(cfg, s, e)
    ensures Holds(Next(cfg, s, e).threads[e.thread].pc, lock) == Holds(s.threads[e.thread].pc, lock) + Delta(e.action, lock)
  {
  }

  lemma {:induction false} RunBalance(cfg: Config, s: State, events: seq<Event>, i: nat, lock: Lock)
    requires Possible(cfg, s, events) && i < |s.threads|
    ensures |Run(cfg, s, events).threads| == |s.threads|
    ensures Holds(Run(cfg, s, events).threads[i].pc, lock) == Holds(s.threads[i].pc, lock) + Balance(events, i, lock)
    decreases events
  {
    if events != [] {
      NextMoves(cfg, s, events[0]);
      NextBalance(cfg, s, events[0], lock);
      RunBalance(cfg, Next(cfg, s, events[0]), events[1..], i, lock);
    }
  }

  /** Every finished request released each lock as often as it took it, and never held one twice. */
  lemma LocksBalance(cfg: Config, requests: seq<Request>, token: string, events: seq<Event>, i: nat, lock: Lock)
    requires Possible(cfg, Start(requests, token), events) && i < |requests|
    ensures var s := Run(cfg, Start(requests, token), events);
            && 0 <= Balance(events, i, lock) <= 1
            && |s.threads| == |requests|
            && (s.threads[i].pc.Finished? ==> Balance(events, i, lock) == 0)
  {
    RunBalance(cfg, Start(requests, token), events, i, lock);
  }

  // ---------- no deadlock ----------

  lemma HolderCanStep(cfg: Config, s: State, i: nat) returns (e: Event)
    requires Inv(cfg, s) && s.refreshMu == Some(i) && CanRead(s) && s.readers == {}
    ensures Enabled(cfg, s, e)
  {
    assert i < |s.threads| && Refreshes(s.threads[i].pc);
    var pc := s.threads[i].pc;
    assert Reads(pc) ==> i in s.readers;
    assert Writes(pc) ==> s.writer == Some(i);
    assert pc.Announced? ==> s.pending == Some(i);
    e := Event(i,
      match pc
      case AwaitCompare(_) => BeginCompare
      case AwaitConfig(_) => BeginConfig
      case Posting(_) => Post(Failed)
      case AwaitWrite(_, _) => Announce
      case _ => Release);
  }

  lemma FreeThreadCanStep(cfg: Config, s: State, i: nat) returns (e: Event)
    requires Inv(cfg, s) && s.refreshMu.None? && CanRead(s) && s.readers == {}
    requires i < |s.threads| && !s.threads[i].pc.Finished?
    ensures Enabled(cfg, s, e)
  {
    var t := s.threads[i];
    assert Refreshes(t.pc) ==> s.refreshMu == Some(i);
    assert Reads(t.pc) ==> i in s.readers;
    e := Event(i,
      match t.pc
      case Ready => if NeedsLock(cfg, t.request) then BeginApply else SkipApply
      case Built(_) => Send
      case InFlight(_) => Receive(Final)
      case _ => LockRefresh);
  }

  /** Whatever the interleaving so far: as long as some request is unfinished, some step is possible. */
  lemma NoDeadlock(cfg: Config, requests: seq<Request>, token: string, s: State) returns (e: Event)
    requires Reachable(cfg, requests, token, s) && !AllFinished(s)
    ensures Enabled(cfg, s, e)
  {
    ReachableInv(cfg, requests, token, s);
    if s.writer.Some? {
      var w := s.writer.value;
      assert s.writer == Some(w);
      e := Event(w, match s.threads[w].pc
                    case Writing(_, _) => Write
                    case Saving(_, _, _) => Save(true)
                    case _ => UnlockWrite);
    } else if s.readers != {} {
      var r :| r in s.readers;
      e := Event(r, match s.threads[r].pc
                    case Applying => EndApply
                    case Comparing(_) => EndCompare
                    case _ => EndConfig);
    } else if s.pending.Some? {
      assert s.pending == Some(s.pending.value);
      e := Event(s.pending.value, LockWrite);
    } else if s.refreshMu.Some? {
      assert s.refreshMu == Some(s.refreshMu.value);
      e := HolderCanStep(cfg, s, s.refreshMu.value);
    } else {
      var i: nat :| i < |s.threads| && !s.threads[i].pc.Finished?;
      e := FreeThreadCanStep(cfg, s, i);
    }
  }

  // ---------- every run ends ----------

  function PcRank(pc: Pc): nat {
    match pc
    case Ready => 17
    case Applying => 16
    case Built(_) => 15
    case InFlight(_) => 14
    case AwaitRefreshMu(_) => 13
    case AwaitCompare(_) => 12
    case Comparing(_) => 11
    case AwaitConfig(_) => 10
    case ReadingConfig(_) => 9
    case Posting(_) => 8
    case AwaitWrite(_, _) => 7
    case Announced(_, _) => 6
    case Writing(_, _) => 5
    case Saving(_, _, _) => 4
    case Stored(_, _) => 3
    case Releasing(_, _) => 2
    case Finished(_) => 0
  }

  const STEPS_PER_ATTEMPT: nat := 18

  /** An upper bound on the steps a thread has left. */
  function Rank(t: Thread): nat
    requires t.attempt <= RETRY_MAX
  {
    (RETRY_MAX - t.attempt) * STEPS_PER_ATTEMPT + PcRank(t.pc)
  }

  function TotalRank(threads: seq<Thread>): nat
    requires forall i :: 0 <= i < |threads| ==> threads[i].attempt <= RETRY_MAX
  {
    if threads == [] then 0 else Rank(threads[0]) + TotalRank(threads[1..])
  }

  lemma {:induction false} TotalRankUpdate(threads: seq<Thread>, i: nat, t: Thread)
    requires i < |threads| && t.attempt <= RETRY_MAX
    requires forall i :: 0 <= i < |threads| ==> threads[i].attempt <= RETRY_MAX
    ensures TotalRank(threads[i := t]) == TotalRank(threads) - Rank(threads[i]) + Rank(t)
  {
    if i == 0 {
      assert threads[0 := t][1..] == threads[1..];
    } else {
      assert threads[i := t][1..] == threads[1..][i - 1 := t];
      TotalRankUpdate(threads[1..], i - 1, t);
    }
  }

  /** The thread gets closer to its end, or starts the next of its attempts. */
  ghost predicate Advances(t: Thread, t': Thread) {
    || (t'.attempt == t.attempt && PcRank(t'.pc) < PcRank(t.pc))
    || (t'.attempt == t.attempt + 1 <= RETRY_MAX && t'.pc.Ready?)
  }

  lemma RequestAdvances(cfg: Config, s: State, e: Event)
    requires Enabled(cfg, s, e) && InRequest(e.action)
    ensures Advances(s.threads[e.thread], RequestStep(cfg, s, e).threads[e.thread])
  {
  }

  lemma CheckAdvances(cfg: Config, s: State, e: Event)
    requires Enabled(cfg, s, e) && InCheck(e.action)
    ensures Advances(s.threads[e.thread], CheckStep(cfg, s, e).threads[e.thread])
  {
  }

  lemma StoreAdvances(cfg: Config, s: State, e: Event)
    requires Enabled(cfg, s, e) && !InRequest(e.action) && !InCheck(e.action)
    ensures Advances(s.threads[e.thread], StoreStep(cfg, s, e).threads[e.thread])
  {
  }

  lemma NextRank(cfg: Config, s: State, e: Event)
    requires Enabled(cfg, s, e) && s.threads[e.thread].attempt <= RETRY_MAX
    ensures Next(cfg, s, e).threads[e.thread].attempt <= RETRY_MAX
    ensures Rank(Next(cfg, s, e).threads[e.thread]) < Rank(s.threads[e.thread])
  {
    if InRequest(e.action) {
      RequestAdvances(cfg, s, e);
    } else if InCheck(e.action) {
      CheckAdvances(cfg, s, e);
    } else {
      StoreAdvances(cfg, s, e);
    }
  }

  lemma {:induction false} RunRank(cfg: Config, s: State, events: seq<Event>)
    requires Inv(cfg, s) && Possible(cfg, s, events)
    ensures forall i :: 0 <= i < |s.threads| ==> s.threads[i].attempt <= RETRY_MAX
    ensures |events| <= TotalRank(s.threads)
    decreases events
  {
    forall i | 0 <= i < |s.threads|
      ensures s.threads[i].attempt <= RETRY_MAX
    {
      assert ThreadOk(cfg, s, s.threads[i]);
    }
    if events != [] {
      var e, s' := events[0], Next(cfg, s, events[0]);
      NextInv(cfg, s, e);
      NextMoves(cfg, s, e);
      NextRank(cfg, s, e);
      RunRank(cfg, s', events[1..]);
      TotalRankUpdate(s.threads, e.thread, s'.threads[e.thread]);
    }
  }

  lemma {:induction false} StartRank(threads: seq<Thread>)
    requires forall i :: 0 <= i < |threads| ==> threads[i].attempt == 0 && threads[i].pc.Ready?
    ensures TotalRank(threads) == |threads| * (RETRY_MAX * STEPS_PER_ATTEMPT + PcRank(Ready))
  {
    if threads != [] {
      StartRank(threads[1..]);
    }
  }

  /**
   No run goes on forever: with n requests it has at most 107 n steps. Together with
   `NoDeadlock`, a run that cannot be extended has answered or failed every request.
   */
  lemma RunsEnd(cfg: Config, requests: seq<Request>, token: string, events: seq<Event>)
    requires Possible(cfg, Start(requests, token), events)
    ensures |events| <= 107 * |requests|
    ensures (forall e :: !Enabled(cfg, Run(cfg, Start(requests, token), events), e))
              ==> AllFinished(Run(cfg, Start(requests, token), events))
  {
    var s0 := Start(requests, token);
    var s := Run(cfg, s0, events);
    StartInv(cfg, requests, token);
    RunRank(cfg, s0, events);
    StartRank(s0.threads);
    if !AllFinished(s) {
      var e := NoDeadlock(cfg, requests, token, s);
    }
  }

  // ---------- one thread alone ----------

  function Committed(cfg: Config, tokens: Tokens, previous: string, issued: string, env: Environment): RefreshResult {
    if !cfg.hasManager then RefreshResult(tokens.(memory := issued), None)
    else if env.saveWorks then RefreshResult(Tokens(issued, issued), None)
    else RefreshResult(tokens.(memory := previous), Some(SaveFailure))
  }

  /** The result the call will have, seen from where its thread stands. */
  function Predicted(cfg: Config, tokens: Tokens, pc: Pc, env: Environment): RefreshResult
    requires pc.AwaitRefreshMu? || Refreshes(pc)
  {
    match pc
    case AwaitRefreshMu(rejected) => RefreshIfCurrent(cfg, tokens, rejected, env)
    case AwaitCompare(rejected) => RefreshIfCurrent(cfg, tokens, rejected, env)
    case Comparing(rejected) => RefreshIfCurrent(cfg, tokens, rejected, env)
    case AwaitConfig(_) => Refresh(cfg, tokens, env)
    case ReadingConfig(_) => Refresh(cfg, tokens, env)
    case Posting(_) => Refresh(cfg, tokens, env)
    case AwaitWrite(_, issued) => Committed(cfg, tokens, tokens.memory, issued, env)
    case Announced(_, issued) => Committed(cfg, tokens, tokens.memory, issued, env)
    case Writing(_, issued) => Committed(cfg, tokens, tokens.memory, issued, env)
    case Saving(_, issued, previous) => Committed(cfg, tokens, previous, issued, env)
    case Stored(_, error) => RefreshResult(tokens, error)
    case Releasing(_, error) => RefreshResult(tokens, error)
  }

  /** The next action of the call when nobody interferes. */
  function CallAction(cfg: Config, pc: Pc, env: Environment): Action {
    match pc
    case AwaitRefreshMu(_) => LockRefresh
    case AwaitCompare(_) => BeginCompare
    case Comparing(_) => EndCompare
    case AwaitConfig(_) => BeginConfig
    case ReadingConfig(_) => EndConfig
    case Posting(_) => Post(env.post)
    case AwaitWrite(_, _) => Announce
    case Announced(_, _) => LockWrite
    case Writing(_, _) => Write
    case Saving(_, _, _) => Save(env.saveWorks || !cfg.hasManager)
    case _ => UnlockWrite
  }

  /** Thread `i` is the only one that holds anything, as its program counter says. */
  ghost predicate Alone(s: State, i: nat) {
    && i < |s.threads|
    && var pc := s.threads[i].pc;
       && s.readers == (if Reads(pc) then {i} else {})
       && s.pending == (if pc.Announced? then Some(i) else None)
       && s.writer == (if Writes(pc) then Some(i) else None)
       && s.refreshMu == (if Refreshes(pc) then Some(i) else None)
  }

  /** What the call has established when it reaches a program counter. */
  ghost predicate Passed(cfg: Config, tokens: Tokens, pc: Pc, env: Environment) {
    && (Confirmed(pc) ==> TrimSpace(cfg.apiEndpoint) != "")
    && (pc.Posting? || HasIssued(pc) ==> cfg.apiKey != "")
    && (pc.Saving? ==> tokens.memory == pc.issued)
  }

  /** One step of the undisturbed call, from `s` to `s'`. */
  ghost predicate Steps(cfg: Config, s: State, i: nat, env: Environment, s': State)
    requires Alone(s, i) && (s.threads[i].pc.AwaitRefreshMu? || Refreshes(s.threads[i].pc))
  {
    && |s'.threads| == |s.threads|
    && Alone(s', i) && Refreshes(s'.threads[i].pc) && Passed(cfg, s'.tokens, s'.threads[i].pc, env)
    && Predicted(cfg, s'.tokens, s'.threads[i].pc, env) == Predicted(cfg, s.tokens, s.threads[i].pc, env)
    && PcRank(s'.threads[i].pc) < PcRank(s.threads[i].pc)
    && s'.threads[i].pc.rejected == s.threads[i].pc.rejected
  }

  lemma CallChecks(cfg: Config, s: State, i: nat, env: Environment)
    requires cfg.mode == Bearer && cfg.hasCredential && Alone(s, i)
    requires var pc := s.threads[i].pc;
             pc.AwaitRefreshMu? || pc.AwaitCompare? || pc.Comparing? || pc.AwaitConfig? || pc.ReadingConfig?
    requires Passed(cfg, s.tokens, s.threads[i].pc, env)
    ensures var e := Event(i, CallAction(cfg, s.threads[i].pc, env));
            && Enabled(cfg, s, e) && InCheck(e.action)
            && Steps(cfg, s, i, env, CheckStep(cfg, s, e)) && CheckStep(cfg, s, e).issued == s.issued
  {
  }

  lemma CallPosts(cfg: Config, s: State, i: nat, env: Environment)
    requires cfg.mode == Bearer && cfg.hasCredential && Alone(s, i) && s.threads[i].pc.Posting?
    requires Passed(cfg, s.tokens, s.threads[i].pc, env) && Honest(s, env.post)
    ensures var e := Event(i, CallAction(cfg, s.threads[i].pc, env));
            && Enabled(cfg, s, e) && !InRequest(e.action) && !InCheck(e.action)
            && Steps(cfg, s, i, env, StoreStep(cfg, s, e))
  {
  }

  lemma CallLocks(cfg: Config, s: State, i: nat, env: Environment)
    requires Alone(s, i) && (s.threads[i].pc.AwaitWrite? || s.threads[i].pc.Announced?)
    requires Passed(cfg, s.tokens, s.threads[i].pc, env)
    ensures var e := Event(i, CallAction(cfg, s.threads[i].pc, env));
            && Enabled(cfg, s, e) && !InRequest(e.action) && !InCheck(e.action)
            && Steps(cfg, s, i, env, StoreStep(cfg, s, e))
  {
  }

  lemma CallSaves(cfg: Config, s: State, i: nat, env: Environment)
    requires Alone(s, i) && (s.threads[i].pc.Writing? || s.threads[i].pc.Saving? || s.threads[i].pc.Stored?)
    requires Passed(cfg, s.tokens, s.threads[i].pc, env)
    ensures var e := Event(i, CallAction(cfg, s.threads[i].pc, env));
            && Enabled(cfg, s, e) && !InRequest(e.action) && !InCheck(e.action)
            && Steps(cfg, s, i, env, StoreStep(cfg, s, e))
  {
  }

  /**
   Undisturbed, a goroutine's walk through the protocol from the refused reply to the last
   statement before `refreshMu` is released does exactly what `RefreshIfCurrent` says: the
   same tokens in memory and on disk, the same error.
   */
  lemma CallRefines(cfg: Config, s: State, i: nat, rejected: string, env: Environment)
    returns (events: seq<Event>, s': State)
    requires cfg.mode == Bearer && cfg.hasCredential
    requires Alone(s, i) && s.threads[i].pc == AwaitRefreshMu(rejected) && Honest(s, env.post)
    ensures Possible(cfg, s, events) && Run(cfg, s, events) == s'
    ensures var r := RefreshIfCurrent(cfg, s.tokens, rejected, env);
            && Alone(s', i) && s'.threads[i].pc == Releasing(rejected, r.error) && s'.tokens == r.tokens
  {
    events, s' := [], s;
    while !s'.threads[i].pc.Releasing?
      invariant Possible(cfg, s, events) && Run(cfg, s, events) == s'
      invariant Alone(s', i) && (s'.threads[i].pc.AwaitRefreshMu? || Refreshes(s'.threads[i].pc))
      invariant s'.threads[i].pc.rejected == rejected && Passed(cfg, s'.tokens, s'.threads[i].pc, env)
      invariant Predicted(cfg, s'.tokens, s'.threads[i].pc, env) == RefreshIfCurrent(cfg, s.tokens, rejected, env)
      invariant PcRank(s'.threads[i].pc) >= PcRank(Posting(rejected)) ==> s'.issued == s.issued
      decreases PcRank(s'.threads[i].pc)
    {
      var pc := s'.threads[i].pc;
      if pc.Posting? {
        CallPosts(cfg, s', i, env);
      } else if pc.AwaitWrite? || pc.Announced? {
        CallLocks(cfg, s', i, env);
      } else if HasIssued(pc) || pc.Stored? {
        CallSaves(cfg, s', i, env);
      } else {
        CallChecks(cfg, s', i, env);
      }
      var e := Event(i, CallAction(cfg, pc, env));
      Extend(cfg, s, events, e);
      events, s' := events + [e], Next(cfg, s', e);
    }
  }
}
