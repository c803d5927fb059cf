/**
 What the refresh protocol guarantees in every reachable state of every run: one refresh
 per token, no unsaved token on the wire, and no retry with a token that was refused.
 */
module RefreshSafety {
  import opened Basics
  import opened Strings
  import opened AuthTransport
  import opened RefreshProtocol

  ghost predicate Reachable(cfg: Config, requests: seq<Request>, token: string, s: State) {
    exists events :: Possible(cfg, Start(requests, token), events) && Run(cfg, Start(requests, token), events) == s
  }

  lemma ReachableInv(cfg: Config, requests: seq<Request>, token: string, s: State)
    requires Reachable(cfg, requests, token, s)
    ensures Inv(cfg, s)
  {
    var events :| Possible(cfg, Start(requests, token), events) && Run(cfg, Start(requests, token), events) == s;
    StartInv(cfg, requests, token);
    RunInv(cfg, Start(requests, token), events);
  }

  // ---------- one refresh per token ----------

  predicate IsCommit(e: Event) {
    e.action.Save? && e.action.works
  }

  function Commits(events: seq<Event>): nat {
    if events == [] then 0 else (if IsCommit(events[0]) then 1 else 0) + Commits(events[1..])
  }

  lemma {:induction false} CommitsAreRefreshes(cfg: Config, s: State, events: seq<Event>)
    requires Possible(cfg, s, events)
    ensures |Run(cfg, s, events).refreshes| == |s.refreshes| + Commits(events)
    ensures |Run(cfg, s, events).history| == |s.history| + Commits(events)
    decreases events
  {
    if events != [] {
      CommitsAreRefreshes(cfg, Next(cfg, s, events[0]), events[1..]);
    }
  }

  /** Histories only grow along a run, and no request changes. */
  lemma {:induction false} RunExtends(cfg: Config, s: State, events: seq<Event>)
    requires Possible(cfg, s, events)
    ensures var s' := Run(cfg, s, events);
            && s.history <= s'.history
            && |s.threads| == |s'.threads|
            && forall i :: 0 <= i < |s.threads| ==> s'.threads[i].request == s.threads[i].request
    decreases events
  {
    if events != [] {
      NextMoves(cfg, s, events[0]);
      RunExtends(cfg, Next(cfg, s, events[0]), events[1..]);
    }
  }

  /**
   However many requests are refused with one token, it is refreshed successfully at most
   once in the whole run. The tokens in force never repeat, their number grows by one with
   each successful refresh, and the k-th refresh replaced exactly the k-th of them.
   */
  lemma OneRefreshPerToken(cfg: Config, requests: seq<Request>, token: string, events: seq<Event>, x: string)
    requires Possible(cfg, Start(requests, token), events)
    ensures var s := Run(cfg, Start(requests, token), events);
            && multiset(s.refreshes)[x] <= 1
            && NoDup(s.history)
            && |s.history| == 1 + Commits(events)
            && s.history[0] == TrimSpace(token)
            && s.refreshes == s.history[..Commits(events)]
  {
    var s0 := Start(requests, token);
    StartInv(cfg, requests, token);
    RunInv(cfg, s0, events);
    CommitsAreRefreshes(cfg, s0, events);
    RunExtends(cfg, s0, events);
    var s := Run(cfg, s0, events);
    CountOfDistinct(s.refreshes, x);
  }

  // ---------- memory, disk and wire ----------

  lemma BearerHeaderInjective(x: string, y: string)
    requires BearerHeader(x) == BearerHeader(y)
    ensures x == y
  {
    if x != "" && y != "" {
      assert ("Bearer " + x)[7..] == x;
      assert ("Bearer " + y)[7..] == y;
    }
  }

  /**
   With a profile store, whoever may read the token finds in memory what is on disk, and no
   request that carries the stored token is ever sent with one whose save failed.
   */
  lemma OnlySavedTokensAreSent(cfg: Config, requests: seq<Request>, token: string, s: State)
    requires Reachable(cfg, requests, token, s)
    ensures cfg.hasManager && s.writer.None? ==> s.tokens.memory == s.tokens.persisted
    ensures s.readers != {} ==> s.writer.None?
    ensures forall k, x :: 0 <= k < |s.sent| && s.sent[k].thread < |requests|
              && UsesToken(cfg, requests[s.sent[k].thread]) && x in s.unsaved
              ==> s.sent[k].header != BearerHeader(x)
  {
    ReachableInv(cfg, requests, token, s);
    var events :| Possible(cfg, Start(requests, token), events) && Run(cfg, Start(requests, token), events) == s;
    RunExtends(cfg, Start(requests, token), events);
    forall k, x | 0 <= k < |s.sent| && s.sent[k].thread < |requests|
                  && UsesToken(cfg, requests[s.sent[k].thread]) && x in s.unsaved
      ensures s.sent[k].header != BearerHeader(x)
    {
      assert s.threads[s.sent[k].thread].request == requests[s.sent[k].thread];
      var y :| y in s.history && s.sent[k].header == BearerHeader(y);
      if BearerHeader(x) == BearerHeader(y) {
        BearerHeaderInjective(x, y);
      }
    }
  }

  // ---------- no retry with a refused token ----------

  ghost predicate Superseded(s: State, x: string)
    requires s.history != []
  {
    x in s.history[..|s.history| - 1]
  }

  /** The thread is having the refusal of token `x` dealt with. */
  ghost predicate Handles(pc: Pc, x: string) {
    (pc.AwaitRefreshMu? || Refreshes(pc)) && pc.rejected == x
  }

  /** The header of the attempt under way carries a token this request has not had cleared. */
  ghost predicate Carries(s: State, t: Thread, header: string) {
    exists x :: x in s.history && x !in t.cleared && header == BearerHeader(x)
  }

  ghost predicate Dealt(t: Thread, r: Refusal) {
    r.header == BearerHeader(r.token) && (r.token in t.cleared || Handles(t.pc, r.token) || t.pc.Finished?)
  }

  /** What a request remembers agrees with the history of tokens. */
  ghost predicate Remembers(s: State, t: Thread)
    requires s.history != []
  {
    && (forall x :: x in t.cleared ==> Superseded(s, x))
    && (forall r :: r in t.refused ==> Dealt(t, r))
    && (t.pc.Built? || t.pc.InFlight? ==> Carries(s, t, t.pc.header))
    && (t.pc.AwaitRefreshMu? || Refreshes(t.pc) ==> t.pc.rejected in s.history)
    && ((t.pc.Stored? || t.pc.Releasing?) && t.pc.error.None? ==> Superseded(s, t.pc.rejected))
  }

  ghost predicate AllRemember(cfg: Config, s: State) {
    && s.history != [] && Solid(s.history[0])
    && forall i :: 0 <= i < |s.threads| && Managed(cfg, s.threads[i].request) ==> Remembers(s, s.threads[i])
  }

  lemma SupersededStays(s: State, s': State, x: string)
    requires s.history != [] && s.history <= s'.history && Superseded(s, x)
    ensures Superseded(s', x)
  {
    var k :| 0 <= k < |s.history| - 1 && s.history[k] == x;
    assert s'.history[..|s'.history| - 1][k] == x;
  }

  /** Extending the history takes nothing back. */
  lemma RemembersStays(s: State, s': State, t: Thread)
    requires s.history != [] && s.history <= s'.history && Remembers(s, t)
    ensures Remembers(s', t)
  {
    forall x | Superseded(s, x)
      ensures Superseded(s', x)
    {
      SupersededStays(s, s', x);
    }
    assert forall x :: x in s.history ==> x in s'.history;
  }

  lemma BuiltRemembers(s: State, t: Thread, header: string)
    requires s.history != [] && NoDup(s.history) && Remembers(s, t)
    requires t.pc.Applying? && header == BearerHeader(Last(s.history))
    ensures Remembers(s, t.(pc := Built(header)))
  {
    var x := Last(s.history);
    var t' := t.(pc := Built(header));
    assert !Superseded(s, x) by {
      assert s.history == s.history[..|s.history| - 1] + [x];
    }
    assert Carries(s, t', header) by {
      assert x in s.history && x !in t.cleared;
    }
    assert forall r :: r in t.refused ==> Dealt(t, r) && Dealt(t', r);
  }

  lemma ManagedHeader(cfg: Config, req: Request, memory: string)
    requires Managed(cfg, req)
    ensures AppliedHeader(cfg, req.skipAuth, req.authorization, memory) == BearerHeader(TrimSpace(memory))
  {
  }

  lemma RefusedRemembers(s: State, t: Thread, x: string)
    requires s.history != [] && Remembers(s, t) && t.pc == InFlight(BearerHeader(x)) && x in s.history
    ensures Remembers(s, t.(pc := AwaitRefreshMu(x), refused := t.refused + {Refusal(t.pc.header, x)}))
  {
    var t' := t.(pc := AwaitRefreshMu(x), refused := t.refused + {Refusal(t.pc.header, x)});
    assert forall r :: r in t.refused ==> Dealt(t, r) && Dealt(t', r);
  }

  lemma EndedRemembers(s: State, t: Thread, t': Thread)
    requires s.history != [] && Remembers(s, t) && t.pc.InFlight?
    requires t' == t.(pc := t'.pc, attempt := t'.attempt) && (t'.pc.Ready? || t'.pc.Finished?)
    ensures Remembers(s, t')
  {
    assert forall r :: r in t.refused ==> Dealt(t, r) && Dealt(t', r);
  }

  lemma TokenRecovered(s: State, x: string)
    requires HistoryMatches(s) && Solid(s.history[0]) && x in s.history
    ensures BearerToken(BearerHeader(x)) == x
  {
    TrimOfTrimmed(x, IsSpace);
    assert Solid(x);
    BearerRoundTrip(x);
  }

  lemma ReplyRemembers(cfg: Config, s: State, t: Thread, reply: Reply)
    requires HistoryMatches(s) && Solid(s.history[0]) && Remembers(s, t) && t.pc.InFlight?
    ensures Remembers(s, OnReply(cfg, t, t.pc.header, reply))
  {
    var t' := OnReply(cfg, t, t.pc.header, reply);
    if t'.pc.AwaitRefreshMu? {
      var x :| x in s.history && x !in t.cleared && t.pc.header == BearerHeader(x);
      TokenRecovered(s, x);
      RefusedRemembers(s, t, x);
    } else {
      EndedRemembers(s, t, t');
    }
  }

  lemma SentRemembers(s: State, t: Thread)
    requires s.history != [] && Remembers(s, t) && t.pc.Built?
    ensures Remembers(s, t.(pc := InFlight(t.pc.header)))
  {
    var t' := t.(pc := InFlight(t.pc.header));
    assert Carries(s, t, t.pc.header) && Carries(s, t', t.pc.header);
    assert forall r :: r in t.refused ==> Dealt(t, r) && Dealt(t', r);
  }

  lemma StartedRemembers(s: State, t: Thread)
    requires s.history != [] && Remembers(s, t) && t.pc.Ready?
    ensures Remembers(s, t.(pc := Applying))
  {
    assert forall r :: r in t.refused ==> Dealt(t, r) && Dealt(t.(pc := Applying), r);
  }

  lemma NextRequestingRemembers(cfg: Config, s: State, e: Event)
    requires HistoryMatches(s) && Solid(s.history[0]) && Enabled(cfg, s, e)
    requires Managed(cfg, s.threads[e.thread].request) && Remembers(s, s.threads[e.thread])
    requires s.threads[e.thread].pc.Applying? ==> TrimSpace(s.tokens.memory) == Last(s.history)
    requires Requesting(s.threads[e.thread].pc)
    ensures Remembers(Next(cfg, s, e), Next(cfg, s, e).threads[e.thread])
  {
    var t, s' := s.threads[e.thread], Next(cfg, s, e);
    assert s'.history == s.history;
    match t.pc {
      case Ready => StartedRemembers(s, t);
      case Applying =>
        ManagedHeader(cfg, t.request, s.tokens.memory);
        BuiltRemembers(s, t, BearerHeader(Last(s.history)));
      case Built(_) => SentRemembers(s, t);
      case InFlight(_) => ReplyRemembers(cfg, s, t, e.action.reply);
    }
    RemembersStays(s, s', s'.threads[e.thread]);
  }

  /** Inside the refresh section the request only moves on. */
  ghost predicate MovesOn(t: Thread, t': Thread) {
    && t' == t.(pc := t'.pc)
    && (t.pc.AwaitRefreshMu? || Refreshes(t.pc)) && Refreshes(t'.pc) && t'.pc.rejected == t.pc.rejected
  }

  lemma MovingOnRemembers(s: State, t: Thread, t': Thread)
    requires s.history != [] && Remembers(s, t) && MovesOn(t, t')
    requires (t'.pc.Stored? || t'.pc.Releasing?) && t'.pc.error.None? ==> Superseded(s, t'.pc.rejected)
    ensures Remembers(s, t')
  {
    assert forall r :: r in t.refused ==> Dealt(t, r) && Dealt(t', r);
  }

  lemma ComparedDifferent(s: State, x: string)
    requires s.history != [] && x in s.history && x != Last(s.history)
    ensures Superseded(s, x)
  {
    assert s.history == s.history[..|s.history| - 1] + [Last(s.history)];
  }

  /** Comparing: a token in the history that differs from the current one has been replaced. */
  lemma NextCheckingRemembers(cfg: Config, s: State, e: Event)
    requires s.history != [] && Enabled(cfg, s, e)
    requires Managed(cfg, s.threads[e.thread].request) && Remembers(s, s.threads[e.thread])
    requires s.threads[e.thread].pc.Comparing? ==> TrimSpace(s.tokens.memory) == Last(s.history)
    requires !Requesting(s.threads[e.thread].pc) && !e.action.Save? && !e.action.Release?
    ensures Remembers(Next(cfg, s, e), Next(cfg, s, e).threads[e.thread])
  {
    var t, s' := s.threads[e.thread], Next(cfg, s, e);
    var t' := s'.threads[e.thread];
    assert s'.history == s.history;
    assert MovesOn(t, t');
    if t.pc.Comparing? && t'.pc.Releasing? {
      ComparedDifferent(s, t.pc.rejected);
    }
    MovingOnRemembers(s, t, t');
    RemembersStays(s, s', t');
  }

  lemma NextSaveRemembers(cfg: Config, s: State, e: Event)
    requires s.history != [] && Enabled(cfg, s, e) && Remembers(s, s.threads[e.thread])
    requires e.action.Save? && s.threads[e.thread].pc.rejected == Last(s.history)
    ensures Next(cfg, s, e).history != []
    ensures Remembers(Next(cfg, s, e), Next(cfg, s, e).threads[e.thread])
  {
    var t, s' := s.threads[e.thread], Next(cfg, s, e);
    assert s.history <= s'.history;
    RemembersStays(s, s', t);
    if e.action.works {
      assert s'.history[..|s'.history| - 1] == s.history;
      assert Superseded(s', t.pc.rejected);
    }
    MovingOnRemembers(s', t, s'.threads[e.thread]);
  }

  lemma NextReleaseRemembers(cfg: Config, s: State, e: Event)
    requires s.history != [] && Enabled(cfg, s, e) && Remembers(s, s.threads[e.thread]) && e.action.Release?
    ensures Remembers(Next(cfg, s, e), Next(cfg, s, e).threads[e.thread])
  {
    var t, s' := s.threads[e.thread], Next(cfg, s, e);
    var t' := s'.threads[e.thread];
    assert s'.history == s.history && t'.refused == t.refused;
    assert t'.cleared == if t.pc.error.None? then t.cleared + {t.pc.rejected} else t.cleared;
    assert t'.pc.Ready? || t'.pc.Finished?;
    assert forall r :: r in t.refused ==> Dealt(t, r) && Dealt(t', r);
  }

  lemma NextRemembers(cfg: Config, s: State, e: Event)
    requires Inv(cfg, s) && AllRemember(cfg, s) && Enabled(cfg, s, e)
    ensures AllRemember(cfg, Next(cfg, s, e))
  {
    var i, pc, s' := e.thread, s.threads[e.thread].pc, Next(cfg, s, e);
    NextMoves(cfg, s, e);
    assert ThreadOk(cfg, s, s.threads[i]);
    if Reads(pc) {
      assert i in s.readers;
      MemoryIsCurrent(cfg, s);
    }
    if Managed(cfg, s.threads[i].request) {
      if Requesting(pc) {
        NextRequestingRemembers(cfg, s, e);
      } else if pc.Saving? {
        NextSaveRemembers(cfg, s, e);
      } else if pc.Releasing? {
        NextReleaseRemembers(cfg, s, e);
      } else {
        NextCheckingRemembers(cfg, s, e);
      }
    }
    forall j | 0 <= j < |s'.threads| && j != i && Managed(cfg, s'.threads[j].request)
      ensures Remembers(s', s'.threads[j])
    {
      assert s'.threads[j] == s.threads[j];
      RemembersStays(s, s', s.threads[j]);
    }
  }

  lemma {:induction false} RunRemembers(cfg: Config, s: State, events: seq<Event>)
    requires Inv(cfg, s) && AllRemember(cfg, s) && Possible(cfg, s, events)
    ensures AllRemember(cfg, Run(cfg, s, events))
    decreases events
  {
    if events != [] {
      NextRemembers(cfg, s, events[0]);
      NextInv(cfg, s, events[0]);
      RunRemembers(cfg, Next(cfg, s, events[0]), events[1..]);
    }
  }

  /** A superseded token is not in memory, not even while a save is under way. */
  lemma SupersededNotStored(cfg: Config, s: State, x: string)
    requires Inv(cfg, s) && Superseded(s, x)
    ensures TrimSpace(s.tokens.memory) != x
  {
    assert s.history == s.history[..|s.history| - 1] + [Last(s.history)];
    if s.writer.Some? {
      assert s.writer == Some(s.writer.value);
      var w := s.threads[s.writer.value];
      assert ThreadOk(cfg, s, w);
      if w.pc.Saving? {
        TrimOfTrimmed(w.pc.issued, IsSpace);
      }
    }
  }

  lemma ReachableRemembers(cfg: Config, requests: seq<Request>, token: string, s: State)
    requires Reachable(cfg, requests, token, s) && Solid(TrimSpace(token))
    ensures Inv(cfg, s) && AllRemember(cfg, s)
  {
    var s0 := Start(requests, token);
    var events :| Possible(cfg, s0, events) && Run(cfg, s0, events) == s;
    StartInv(cfg, requests, token);
    RunInv(cfg, s0, events);
    RunRemembers(cfg, s0, events);
  }

  // ---------- a first token the retry hook cannot read ----------

  /** The thread has only ever dealt with the empty token, which the hook reads from a token with a space inside. */
  ghost predicate DealsWithNothing(t: Thread) {
    t.cleared <= {""} && (t.pc.AwaitRefreshMu? || Refreshes(t.pc) ==> t.pc.rejected == "")
  }

  /** The first token has a space inside and is still in force. */
  ghost predicate Unreadable(s: State) {
    && |s.history| == 1 && !Solid(s.history[0])
    && forall i :: 0 <= i < |s.threads| ==> DealsWithNothing(s.threads[i])
  }

  /** Nobody is about to store anything: that would need the token in force to be the empty one. */
  lemma NothingConfirmed(cfg: Config, s: State, i: nat)
    requires Inv(cfg, s) && Unreadable(s) && i < |s.threads|
    ensures !Confirmed(s.threads[i].pc)
  {
    assert ThreadOk(cfg, s, s.threads[i]) && DealsWithNothing(s.threads[i]);
  }

  lemma HiddenToken(x: string)
    requires Trimmed(x, IsSpace) && !Solid(x)
    ensures BearerToken(BearerHeader(x)) == ""
  {
    TrimOfTrimmed(x, IsSpace);
    BearerRoundTrip(x);
  }

  lemma UnreadableHeader(cfg: Config, s: State, t: Thread)
    requires HistoryMatches(s) && Unreadable(s) && ThreadOk(cfg, s, t) && t.pc.InFlight? && Managed(cfg, t.request)
    ensures BearerToken(t.pc.header) == ""
  {
    var x :| x in s.history && t.pc.header == BearerHeader(x);
    HiddenToken(x);
  }

  lemma UnreadableReply(cfg: Config, t: Thread, header: string, reply: Reply)
    requires DealsWithNothing(t) && (Managed(cfg, t.request) ==> BearerToken(header) == "")
    ensures DealsWithNothing(OnReply(cfg, t, header, reply))
  {
  }

  lemma NextUnreadable(cfg: Config, s: State, e: Event)
    requires Inv(cfg, s) && Unreadable(s) && Enabled(cfg, s, e)
    ensures Unreadable(Next(cfg, s, e))
  {
    var i, s' := e.thread, Next(cfg, s, e);
    var t := s.threads[i];
    NothingConfirmed(cfg, s, i);
    NextMoves(cfg, s, e);
    assert ThreadOk(cfg, s, t) && DealsWithNothing(t);
    assert s'.history == s.history;
    if t.pc.InFlight? {
      if Managed(cfg, t.request) {
        UnreadableHeader(cfg, s, t);
      }
      UnreadableReply(cfg, t, t.pc.header, e.action.reply);
    }
    assert DealsWithNothing(s'.threads[i]);
  }

  lemma {:induction false} RunUnreadable(cfg: Config, s: State, events: seq<Event>)
    requires Inv(cfg, s) && Unreadable(s) && Possible(cfg, s, events)
    ensures Inv(cfg, Run(cfg, s, events)) && Unreadable(Run(cfg, s, events))
    decreases events
  {
    if events != [] {
      NextUnreadable(cfg, s, events[0]);
      NextInv(cfg, s, events[0]);
      RunUnreadable(cfg, Next(cfg, s, events[0]), events[1..]);
    }
  }

  /** The token in memory stays the first one, so it is not the empty one. */
  lemma UnreadableStored(cfg: Config, s: State)
    requires Inv(cfg, s) && Unreadable(s)
    ensures TrimSpace(s.tokens.memory) != ""
  {
    if s.writer.Some? {
      assert s.writer == Some(s.writer.value);
      NothingConfirmed(cfg, s, s.writer.value);
    }
    MemoryIsCurrent(cfg, s);
  }

  lemma ReachableUnreadable(cfg: Config, requests: seq<Request>, token: string, s: State)
    requires Reachable(cfg, requests, token, s) && !Solid(TrimSpace(token))
    ensures Inv(cfg, s) && Unreadable(s)
  {
    var s0 := Start(requests, token);
    var events :| Possible(cfg, s0, events) && Run(cfg, s0, events) == s;
    StartInv(cfg, requests, token);
    RunUnreadable(cfg, s0, events);
  }

  /**
   Once `refreshIfCurrent(x)` returned without error for some request, the stored token
   differs from x in that state and in every later one, whatever the first token was.
   */
  lemma ClearedForever(cfg: Config, requests: seq<Request>, token: string, s: State, more: seq<Event>, i: nat, x: string)
    requires Reachable(cfg, requests, token, s)
    requires i < |s.threads| && x in s.threads[i].cleared && Possible(cfg, s, more)
    ensures TrimSpace(Run(cfg, s, more).tokens.memory) != x
  {
    if Solid(TrimSpace(token)) {
      ReachableRemembers(cfg, requests, token, s);
      assert ThreadOk(cfg, s, s.threads[i]) && Remembers(s, s.threads[i]);
      RunInv(cfg, s, more);
      RunExtends(cfg, s, more);
      SupersededStays(s, Run(cfg, s, more), x);
      SupersededNotStored(cfg, Run(cfg, s, more), x);
    } else {
      ReachableUnreadable(cfg, requests, token, s);
      assert DealsWithNothing(s.threads[i]);
      RunUnreadable(cfg, s, more);
      UnreadableStored(cfg, Run(cfg, s, more));
    }
  }

  /** No request is about to be sent with a header it already had refused. */
  ghost predicate NoneRepeats(s: State) {
    forall i, r :: 0 <= i < |s.threads| && s.threads[i].pc.Built? && r in s.threads[i].refused
      ==> s.threads[i].pc.header != r.header
  }

  lemma BuiltIsNew(s: State, t: Thread, r: Refusal)
    requires s.history != [] && Remembers(s, t) && t.pc.Built? && r in t.refused
    ensures t.pc.header != r.header
  {
    assert Dealt(t, r);
    var x :| x in s.history && x !in t.cleared && t.pc.header == BearerHeader(x);
    if t.pc.header == r.header {
      BearerHeaderInjective(x, r.token);
    }
  }

  lemma RetryUsesNewToken(cfg: Config, requests: seq<Request>, token: string, s: State)
    requires Reachable(cfg, requests, token, s) && Solid(TrimSpace(token))
    ensures NoneRepeats(s)
  {
    ReachableRemembers(cfg, requests, token, s);
    forall i, r | 0 <= i < |s.threads| && s.threads[i].pc.Built? && r in s.threads[i].refused
      ensures s.threads[i].pc.header != r.header
    {
      assert ThreadOk(cfg, s, s.threads[i]);
      BuiltIsNew(s, s.threads[i], r);
    }
  }

  // ---------- the other half: a token with a space inside ----------

  /** Adding one event at the end of a run. */
  lemma {:induction false} Extend(cfg: Config, s: State, events: seq<Event>, e: Event)
    requires Possible(cfg, s, events) && Enabled(cfg, Run(cfg, s, events), e)
    ensures Possible(cfg, s, events + [e]) && Run(cfg, s, events + [e]) == Next(cfg, Run(cfg, s, events), e)
    decreases events
  {
    var all := events + [e];
    if events == [] {
      assert all[0] == e && all[1..] == [];
    } else {
      Extend(cfg, Next(cfg, s, events[0]), events[1..], e);
      assert all[0] == events[0] && all[1..] == events[1..] + [e];
    }
  }

  /** What thread `i` does: it is refused, clears the refusal without a refresh, and applies the same token again. */
  function StuckAction(k: nat): Action
    requires k < 10
  {
    [BeginApply, EndApply, Send, Receive(Unauthorized), LockRefresh,
     BeginCompare, EndCompare, Release, BeginApply, EndApply][k]
  }

  function StuckPc(k: nat, header: string): Pc
    requires k <= 10
  {
    [Ready, Applying, Built(header), InFlight(header), AwaitRefreshMu(""), AwaitCompare(""),
     Comparing(""), Releasing("", None), Ready, Applying, Built(header)][k]
  }

  /** The state after the first k of those actions. */
  ghost predicate StuckAt(s: State, k: nat, i: nat, request: Request, token: string, header: string) {
    && k <= 10 && i < |s.threads|
    && var t := s.threads[i];
       && t.request == request && t.pc == StuckPc(k, header)
       && t.attempt == (if k < 8 then 0 else 1)
       && (k >= 4 ==> Refusal(header, "") in t.refused)
       && s.tokens.memory == token
       && s.writer.None? && s.pending.None?
       && (k <= 4 ==> s.refreshMu.None?)
  }

  lemma StuckRequesting(cfg: Config, s: State, k: nat, i: nat, request: Request, token: string, header: string)
    requires (k < 4 || 8 <= k < 10) && StuckAt(s, k, i, request, token, header)
    requires Managed(cfg, request) && CanRetry(request)
    requires TrimSpace(token) != "" && header == BearerHeader(TrimSpace(token)) && BearerToken(header) == ""
    ensures Enabled(cfg, s, Event(i, StuckAction(k)))
    ensures StuckAt(Next(cfg, s, Event(i, StuckAction(k))), k + 1, i, request, token, header)
  {
    ManagedHeader(cfg, request, token);
  }

  lemma StuckChecking(cfg: Config, s: State, k: nat, i: nat, request: Request, token: string, header: string)
    requires 4 <= k < 8 && StuckAt(s, k, i, request, token, header)
    requires Managed(cfg, request) && CanRetry(request)
    requires TrimSpace(token) != "" && header == BearerHeader(TrimSpace(token)) && BearerToken(header) == ""
    ensures Enabled(cfg, s, Event(i, StuckAction(k)))
    ensures StuckAt(Next(cfg, s, Event(i, StuckAction(k))), k + 1, i, request, token, header)
  {
    ManagedHeader(cfg, request, token);
  }

  lemma StuckRun(cfg: Config, requests: seq<Request>, token: string, i: nat) returns (s: State)
    requires i < |requests| && Managed(cfg, requests[i]) && CanRetry(requests[i])
    requires !Solid(TrimSpace(token))
    ensures Reachable(cfg, requests, token, s) && !NoneRepeats(s)
  {
    var s0 := Start(requests, token);
    var header := BearerHeader(TrimSpace(token));
    BearerRoundTrip(token);
    s := s0;
    var events: seq<Event> := [];
    for k := 0 to 10
      invariant Possible(cfg, s0, events) && Run(cfg, s0, events) == s
      invariant StuckAt(s, k, i, requests[i], token, header)
    {
      if k < 4 || 8 <= k {
        StuckRequesting(cfg, s, k, i, requests[i], token, header);
      } else {
        StuckChecking(cfg, s, k, i, requests[i], token, header);
      }
      Extend(cfg, s0, events, Event(i, StuckAction(k)));
      s := Next(cfg, s, Event(i, StuckAction(k)));
      events := events + [Event(i, StuckAction(k))];
    }
    assert Refusal(header, "") in s.threads[i].refused;
  }

  /**
   The retry guarantee, exactly: as long as some request can have a refusal dealt with, no
   run ever repeats a refused token if and only if the token the transport started with has
   no space inside.
   */
  lemma RetryGuarantee(cfg: Config, requests: seq<Request>, token: string)
    requires exists i :: 0 <= i < |requests| && Managed(cfg, requests[i]) && CanRetry(requests[i])
    ensures (forall s :: Reachable(cfg, requests, token, s) ==> NoneRepeats(s)) <==> Solid(TrimSpace(token))
  {
    if Solid(TrimSpace(token)) {
      forall s | Reachable(cfg, requests, token, s)
        ensures NoneRepeats(s)
      {
        RetryUsesNewToken(cfg, requests, token, s);
      }
    } else {
      var i :| 0 <= i < |requests| && Managed(cfg, requests[i]) && CanRetry(requests[i]);
      var s := StuckRun(cfg, requests, token, i);
    }
  }
}
