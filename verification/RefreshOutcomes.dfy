/**
 What becomes of a request over a run of the refresh protocol: how often it is sent, what
 makes it be sent again, how it ends, and which header it carries. Everything is counted from
 the events of the run, without the functions that compute the steps.
 */
module RefreshOutcomes {
  import opened Basics
  import opened Strings
  import opened AuthTransport
  import opened RefreshProtocol
  import opened RefreshSafety

  // ---------- what counts ----------

  /** Requests that may be sent again: reads without a body that do not forbid it. */
  predicate Repeatable(req: Request) {
    (req.verb == "GET" || req.verb == "HEAD" || req.verb == "OPTIONS") && !req.hasBody && !req.noRetry
  }

  /** Requests whose refusal is answered with a new token. */
  predicate Renewable(cfg: Config, req: Request) {
    && cfg.mode == Bearer && cfg.hasCredential
    && TrimSpace(cfg.apiEndpoint) != "" && TrimSpace(cfg.apiKey) != ""
    && !req.skipAuth && req.authorization == ""
  }

  lemma SameRequests(cfg: Config, req: Request)
    ensures CanRetry(req) <==> Repeatable(req)
    ensures Managed(cfg, req) <==> Renewable(cfg, req)
  {
  }

  /** A reply after which the request is not sent again. */
  predicate IsFinal(cfg: Config, req: Request, reply: Reply) {
    !Repeatable(req) || reply.Final? || (reply.Unauthorized? && !Renewable(cfg, req))
  }

  datatype Tally = Tally(sends: nat, retries: nat, answered: bool, cancelled: bool, failure: Option<RefreshError>)

  const NOTHING := Tally(0, 0, false, false, None)

  /**
   What one event adds for its thread: a send; a final reply; a reason to try again, which is
   a transient reply or the end of a refresh without error; the error of a refresh; the end
   of the context.
   */
  function Tick(cfg: Config, t: Thread, a: Action, tally: Tally): Tally {
    match a
    case Send => tally.(sends := tally.sends + 1)
    case Receive(reply) =>
      if IsFinal(cfg, t.request, reply) then tally.(answered := true)
      else if reply.Transient? then tally.(retries := tally.retries + 1)
      else tally
    case Release =>
      if t.pc.Releasing? && t.pc.error.Some? then tally.(failure := t.pc.error) else tally.(retries := tally.retries + 1)
    case Cancel => tally.(cancelled := true)
    case _ => tally
  }

  /** The tally of thread `i` after the events, which start in state `s`. */
  ghost function Count(cfg: Config, s: State, events: seq<Event>, i: nat, tally: Tally): Tally
    requires Possible(cfg, s, events) && i < |s.threads|
    decreases events
  {
    if events == [] then tally
    else
      var e := events[0];
      NextMoves(cfg, s, e);
      Count(cfg, Next(cfg, s, e), events[1..], i,
            if e.thread == i then Tick(cfg, s.threads[i], e.action, tally) else tally)
  }

  function SentBy(sent: seq<Sent>, i: nat): nat {
    if sent == [] then 0
    else SentBy(sent[..|sent| - 1], i) + if sent[|sent| - 1].thread == i then 1 else 0
  }

  // ---------- how a thread's position fits its tally ----------

  /** Neither answered, cancelled nor failed. */
  predicate Open(tally: Tally) {
    !tally.answered && !tally.cancelled && tally.failure.None?
  }

  /**
   Before the k-th send there were k - 1 reasons to try again. A thread has given up exactly
   after RETRY_MAX + 1 of them; it is answered, cancelled or failed exactly if that was
   counted, and then nothing was counted after it.
   */
  predicate Fits(t: Thread, tally: Tally) {
    match t.pc
    case Finished(outcome) =>
      (match outcome
       case Answered => tally == Tally(tally.retries + 1, tally.retries, true, false, None) && tally.retries <= RETRY_MAX
       case Cancelled => tally == Tally(tally.retries, tally.retries, false, true, None) && tally.retries <= RETRY_MAX
       case RefreshFailed(error) =>
         tally == Tally(tally.retries + 1, tally.retries, false, false, Some(error)) && tally.retries <= RETRY_MAX
       case GaveUp => tally == Tally(RETRY_MAX + 1, RETRY_MAX + 1, false, false, None))
    case _ =>
      && Open(tally) && t.attempt == tally.retries <= RETRY_MAX
      && tally.sends == tally.retries + if Requesting(t.pc) && !t.pc.InFlight? then 0 else 1
  }

  lemma RequestFits(cfg: Config, s: State, e: Event, tally: Tally)
    requires Enabled(cfg, s, e) && InRequest(e.action) && Fits(s.threads[e.thread], tally)
    ensures Fits(RequestStep(cfg, s, e).threads[e.thread], Tick(cfg, s.threads[e.thread], e.action, tally))
  {
    SameRequests(cfg, s.threads[e.thread].request);
  }

  lemma CheckFits(cfg: Config, s: State, e: Event, tally: Tally)
    requires Enabled(cfg, s, e) && InCheck(e.action) && Fits(s.threads[e.thread], tally)
    ensures Fits(CheckStep(cfg, s, e).threads[e.thread], Tick(cfg, s.threads[e.thread], e.action, tally))
  {
  }

  lemma StoreFits(cfg: Config, s: State, e: Event, tally: Tally)
    requires Enabled(cfg, s, e) && !InRequest(e.action) && !InCheck(e.action) && Fits(s.threads[e.thread], tally)
    ensures Fits(StoreStep(cfg, s, e).threads[e.thread], Tick(cfg, s.threads[e.thread], e.action, tally))
  {
  }

  lemma NextFits(cfg: Config, s: State, e: Event, tally: Tally)
    requires Enabled(cfg, s, e) && Fits(s.threads[e.thread], tally)
    ensures Fits(Next(cfg, s, e).threads[e.thread], Tick(cfg, s.threads[e.thread], e.action, tally))
  {
    if InRequest(e.action) {
      RequestFits(cfg, s, e, tally);
    } else if InCheck(e.action) {
      CheckFits(cfg, s, e, tally);
    } else {
      StoreFits(cfg, s, e, tally);
    }
  }

  lemma SentByAppend(sent: seq<Sent>, x: Sent, i: nat)
    ensures SentBy(sent + [x], i) == SentBy(sent, i) + if x.thread == i then 1 else 0
  {
    assert (sent + [x])[..|sent|] == sent;
  }

  lemma NextSends(cfg: Config, s: State, e: Event, i: nat)
    requires Enabled(cfg, s, e)
    ensures SentBy(Next(cfg, s, e).sent, i) == SentBy(s.sent, i) + if e.thread == i && e.action.Send? then 1 else 0
  {
    if e.action.Send? {
      SentByAppend(s.sent, Sent(e.thread, s.threads[e.thread].pc.header), i);
    } else {
      assert Next(cfg, s, e).sent == s.sent;
    }
  }

  lemma {:induction false} RunFits(cfg: Config, s: State, events: seq<Event>, i: nat, tally: Tally)
    requires Possible(cfg, s, events) && i < |s.threads|
    requires Fits(s.threads[i], tally) && SentBy(s.sent, i) == tally.sends
    ensures var s', total := Run(cfg, s, events), Count(cfg, s, events, i, tally);
            && i < |s'.threads| && s'.threads[i].request == s.threads[i].request
            && Fits(s'.threads[i], total) && SentBy(s'.sent, i) == total.sends
    decreases events
  {
    if events != [] {
      var e := events[0];
      NextMoves(cfg, s, e);
      NextSends(cfg, s, e, i);
      if e.thread == i {
        NextFits(cfg, s, e, tally);
        RunFits(cfg, Next(cfg, s, e), events[1..], i, Tick(cfg, s.threads[i], e.action, tally));
      } else {
        RunFits(cfg, Next(cfg, s, e), events[1..], i, tally);
      }
    }
  }

  /**
   Every request, in every run: the position of its thread fits what was counted, and what
   was sent for it is what was counted.
   */
  lemma EveryRequest(cfg: Config, requests: seq<Request>, token: string, events: seq<Event>, i: nat)
    requires Possible(cfg, Start(requests, token), events) && i < |requests|
    ensures var s := Run(cfg, Start(requests, token), events);
            var tally := Count(cfg, Start(requests, token), events, i, NOTHING);
            && |s.threads| == |requests| && s.threads[i].request == requests[i]
            && Fits(s.threads[i], tally) && SentBy(s.sent, i) == tally.sends
  {
    RunExtends(cfg, Start(requests, token), events);
    RunFits(cfg, Start(requests, token), events, i, NOTHING);
  }

  // ---------- answered ----------

  predicate FinalAt(cfg: Config, req: Request, e: Event, i: nat) {
    e.thread == i && e.action.Receive? && IsFinal(cfg, req, e.action.reply)
  }

  /** The events hold a final reply to the request of thread `i`. */
  ghost predicate HasFinal(cfg: Config, req: Request, events: seq<Event>, i: nat) {
    exists k :: 0 <= k < |events| && FinalAt(cfg, req, events[k], i)
  }

  lemma HasFinalSplits(cfg: Config, req: Request, events: seq<Event>, i: nat)
    requires events != []
    ensures HasFinal(cfg, req, events, i) <==> FinalAt(cfg, req, events[0], i) || HasFinal(cfg, req, events[1..], i)
  {
    if HasFinal(cfg, req, events, i) {
      var k :| 0 <= k < |events| && FinalAt(cfg, req, events[k], i);
      assert k > 0 ==> events[1..][k - 1] == events[k];
    }
    if HasFinal(cfg, req, events[1..], i) {
      var k :| 0 <= k < |events[1..]| && FinalAt(cfg, req, events[1..][k], i);
      assert events[k + 1] == events[1..][k];
    }
  }

  lemma {:induction false} CountAnswered(cfg: Config, s: State, events: seq<Event>, i: nat, tally: Tally)
    requires Possible(cfg, s, events) && i < |s.threads|
    ensures Count(cfg, s, events, i, tally).answered <==> tally.answered || HasFinal(cfg, s.threads[i].request, events, i)
    decreases events
  {
    if events != [] {
      var e, req := events[0], s.threads[i].request;
      NextMoves(cfg, s, e);
      CountAnswered(cfg, Next(cfg, s, e), events[1..], i,
                    if e.thread == i then Tick(cfg, s.threads[i], e.action, tally) else tally);
      HasFinalSplits(cfg, req, events, i);
    }
  }

  /**
   A request has ended with an answer if and only if a final reply to it was received. So a
   final reply ends the request in the attempt it belongs to, and nothing else does.
   */
  lemma AnsweredExactly(cfg: Config, requests: seq<Request>, token: string, events: seq<Event>, i: nat)
    requires Possible(cfg, Start(requests, token), events) && i < |requests|
    ensures var s := Run(cfg, Start(requests, token), events);
            && |s.threads| == |requests|
            && (s.threads[i].pc == Finished(Answered) <==> HasFinal(cfg, requests[i], events, i))
  {
    EveryRequest(cfg, requests, token, events, i);
    CountAnswered(cfg, Start(requests, token), events, i, NOTHING);
  }

  // ---------- how often a request is sent ----------

  lemma {:induction false} CountUnrepeated(cfg: Config, s: State, events: seq<Event>, i: nat, tally: Tally)
    requires Inv(cfg, s) && Possible(cfg, s, events) && i < |s.threads| && !Repeatable(s.threads[i].request)
    ensures Count(cfg, s, events, i, tally).retries == tally.retries
    decreases events
  {
    if events != [] {
      var e := events[0];
      assert ThreadOk(cfg, s, s.threads[i]);
      SameRequests(cfg, s.threads[i].request);
      NextMoves(cfg, s, e);
      NextInv(cfg, s, e);
      CountUnrepeated(cfg, Next(cfg, s, e), events[1..], i,
                      if e.thread == i then Tick(cfg, s.threads[i], e.action, tally) else tally);
    }
  }

  /**
   No request is sent more than six times. One that writes, has a body or forbids retries is
   sent at most once and never leads to a refresh. A request gives up only after six sends.
   */
  lemma SendsBounded(cfg: Config, requests: seq<Request>, token: string, events: seq<Event>, i: nat)
    requires Possible(cfg, Start(requests, token), events) && i < |requests|
    ensures var s := Run(cfg, Start(requests, token), events);
            && |s.threads| == |requests|
            && SentBy(s.sent, i) <= 6
            && (s.threads[i].pc == Finished(GaveUp) ==> SentBy(s.sent, i) == 6)
            && (!Repeatable(requests[i]) ==> SentBy(s.sent, i) <= 1 && !Refreshes(s.threads[i].pc))
            && (Refreshes(s.threads[i].pc) ==> Renewable(cfg, requests[i]))
  {
    var s := Run(cfg, Start(requests, token), events);
    EveryRequest(cfg, requests, token, events, i);
    StartInv(cfg, requests, token);
    RunInv(cfg, Start(requests, token), events);
    assert ThreadOk(cfg, s, s.threads[i]);
    SameRequests(cfg, requests[i]);
    if !Repeatable(requests[i]) {
      CountUnrepeated(cfg, Start(requests, token), events, i, NOTHING);
    }
  }

  // ---------- the other half: a repeatable request is repeated ----------

  /** The thread reaches the wire from `Ready`, and is answered with a transient failure. */
  lemma SendOnce(cfg: Config, s: State, i: nat) returns (events: seq<Event>, s': State)
    requires i < |s.threads| && s.threads[i].pc.Ready? && CanRead(s)
    ensures Possible(cfg, s, events) && Run(cfg, s, events) == s'
    ensures i < |s'.threads| && s'.threads[i] == s.threads[i].(pc := s'.threads[i].pc) && s'.threads[i].pc.InFlight?
    ensures CanRead(s') && SentBy(s'.sent, i) == SentBy(s.sent, i) + 1
  {
    var e := Event(i, if NeedsLock(cfg, s.threads[i].request) then BeginApply else SkipApply);
    assert Possible(cfg, s, []);
    Extend(cfg, s, [], e);
    events, s' := [] + [e], Next(cfg, s, e);
    NextSends(cfg, s, e, i);
    if NeedsLock(cfg, s.threads[i].request) {
      e := Event(i, EndApply);
      Extend(cfg, s, events, e);
      NextSends(cfg, s', e, i);
      events, s' := events + [e], Next(cfg, s', e);
    }
    e := Event(i, Send);
    Extend(cfg, s, events, e);
    NextSends(cfg, s', e, i);
    events, s' := events + [e], Next(cfg, s', e);
  }

  lemma {:induction false} RunConcat(cfg: Config, s: State, a: seq<Event>, b: seq<Event>)
    requires Possible(cfg, s, a) && Possible(cfg, Run(cfg, s, a), b)
    ensures Possible(cfg, s, a + b) && Run(cfg, s, a + b) == Run(cfg, Run(cfg, s, a), b)
    decreases a
  {
    if a == [] {
      assert a + b == b;
    } else {
      assert (a + b)[0] == a[0] && (a + b)[1..] == a[1..] + b;
      RunConcat(cfg, Next(cfg, s, a[0]), a[1..], b);
    }
  }

  lemma RepeatedRun(cfg: Config, requests: seq<Request>, token: string, i: nat) returns (events: seq<Event>)
    requires i < |requests| && Repeatable(requests[i])
    ensures Possible(cfg, Start(requests, token), events)
    ensures SentBy(Run(cfg, Start(requests, token), events).sent, i) == 2
  {
    var s0 := Start(requests, token);
    var first, s := SendOnce(cfg, s0, i);
    var e := Event(i, Receive(Transient));
    SameRequests(cfg, requests[i]);
    NextSends(cfg, s, e, i);
    Extend(cfg, s0, first, e);
    var again, s' := SendOnce(cfg, Next(cfg, s, e), i);
    events := first + [e] + again;
    RunConcat(cfg, s0, first + [e], again);
  }

  /** Some run sends a request more than once if and only if it is a bodyless read that does not forbid retries. */
  lemma RepeatedExactly(cfg: Config, requests: seq<Request>, token: string, i: nat)
    requires i < |requests|
    ensures Repeatable(requests[i]) <==>
            exists events :: Possible(cfg, Start(requests, token), events)
                             && SentBy(Run(cfg, Start(requests, token), events).sent, i) > 1
  {
    if Repeatable(requests[i]) {
      var events := RepeatedRun(cfg, requests, token, i);
    } else {
      forall events | Possible(cfg, Start(requests, token), events)
        ensures SentBy(Run(cfg, Start(requests, token), events).sent, i) <= 1
      {
        SendsBounded(cfg, requests, token, events, i);
      }
    }
  }

  // ---------- headers ----------

  /** The header of a request that does not carry the stored token. */
  predicate OwnHeader(cfg: Config, req: Request, header: string) {
    && (req.skipAuth || req.authorization != "" ==> header == req.authorization)
    && (!req.skipAuth && req.authorization == "" && !cfg.hasCredential ==> header == "")
    && (!req.skipAuth && req.authorization == "" && cfg.hasCredential && cfg.mode == Basic ==>
          header == if TrimSpace(cfg.keyId) == "" then "" else "Basic " + TrimSpace(cfg.keyId) + ":" + cfg.apiKey)
  }

  lemma AppliedIsOwn(cfg: Config, req: Request, memory: string)
    ensures OwnHeader(cfg, req, AppliedHeader(cfg, req.skipAuth, req.authorization, memory))
  {
  }

  ghost predicate ThreadsOwn(cfg: Config, s: State) {
    forall i :: 0 <= i < |s.threads| && (s.threads[i].pc.Built? || s.threads[i].pc.InFlight?) ==>
      OwnHeader(cfg, s.threads[i].request, s.threads[i].pc.header)
  }

  ghost predicate SentOwn(cfg: Config, s: State) {
    forall k :: 0 <= k < |s.sent| ==>
      s.sent[k].thread < |s.threads| && OwnHeader(cfg, s.threads[s.sent[k].thread].request, s.sent[k].header)
  }

  lemma NextThreadsOwn(cfg: Config, s: State, e: Event)
    requires ThreadsOwn(cfg, s) && Enabled(cfg, s, e)
    ensures ThreadsOwn(cfg, Next(cfg, s, e))
  {
    var i, s' := e.thread, Next(cfg, s, e);
    NextMoves(cfg, s, e);
    AppliedIsOwn(cfg, s.threads[i].request, s.tokens.memory);
    forall j | 0 <= j < |s'.threads| && (s'.threads[j].pc.Built? || s'.threads[j].pc.InFlight?)
      ensures OwnHeader(cfg, s'.threads[j].request, s'.threads[j].pc.header)
    {
      assert j != i ==> s'.threads[j] == s.threads[j];
    }
  }

  lemma NextSentOwn(cfg: Config, s: State, e: Event)
    requires ThreadsOwn(cfg, s) && SentOwn(cfg, s) && Enabled(cfg, s, e)
    ensures SentOwn(cfg, Next(cfg, s, e))
  {
    var s' := Next(cfg, s, e);
    NextMoves(cfg, s, e);
    forall k | 0 <= k < |s'.sent|
      ensures s'.sent[k].thread < |s'.threads| && OwnHeader(cfg, s'.threads[s'.sent[k].thread].request, s'.sent[k].header)
    {
      if k < |s.sent| {
        assert s'.sent[k] == s.sent[k];
      }
    }
  }

  lemma {:induction false} RunOwn(cfg: Config, s: State, events: seq<Event>)
    requires ThreadsOwn(cfg, s) && SentOwn(cfg, s) && Possible(cfg, s, events)
    ensures ThreadsOwn(cfg, Run(cfg, s, events)) && SentOwn(cfg, Run(cfg, s, events))
    decreases events
  {
    if events != [] {
      NextThreadsOwn(cfg, s, events[0]);
      NextSentOwn(cfg, s, events[0]);
      RunOwn(cfg, Next(cfg, s, events[0]), events[1..]);
    }
  }

  /**
   Every header that is ever sent: a request that skips authentication or brings its own
   header is sent with exactly what the caller gave; without a credential nothing is added; in
   basic mode key id and key are; in bearer mode a token that was in force at some time is.
   */
  lemma EveryHeaderSent(cfg: Config, requests: seq<Request>, token: string, s: State, k: nat)
    requires Reachable(cfg, requests, token, s) && k < |s.sent|
    ensures s.sent[k].thread < |requests|
    ensures OwnHeader(cfg, requests[s.sent[k].thread], s.sent[k].header)
    ensures var req := requests[s.sent[k].thread];
            !req.skipAuth && req.authorization == "" && cfg.hasCredential && cfg.mode == Bearer ==>
              exists x :: x in s.history && s.sent[k].header == if x == "" then "" else "Bearer " + x
  {
    var s0 := Start(requests, token);
    var events :| Possible(cfg, s0, events) && Run(cfg, s0, events) == s;
    RunOwn(cfg, s0, events);
    RunExtends(cfg, s0, events);
    ReachableInv(cfg, requests, token, s);
    var req := requests[s.sent[k].thread];
    if UsesToken(cfg, req) {
      var x :| x in s.history && s.sent[k].header == BearerHeader(x);
    }
  }
}
