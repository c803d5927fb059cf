/**
 The token-refresh protocol of client/request/auth.go and client/request/request.go as a
 transition system: any number of goroutines share one transport, each sends one request,
 and their steps interleave in any order.

 One event is one atomic step. `mu` follows `sync.RWMutex`: a writer first announces itself,
 which keeps new readers out, then waits for the readers that are in. A run is a sequence of
 events; the functions below make it deterministic, so that a run can be written down.
 */
module RefreshProtocol {
  import opened Basics
  import opened Strings
  import opened AuthTransport

  /** Retries after the first attempt. */
  const RETRY_MAX: nat := 5

  datatype Outcome = Answered | GaveUp | Cancelled | RefreshFailed(error: RefreshError)

  datatype Pc =
    | Ready                                                             // about to enter RoundTrip
    | Applying                                                          // reads the token
    | Built(header: string)                                             // copy of the request is complete
    | InFlight(header: string)
    | AwaitRefreshMu(rejected: string)
    | AwaitCompare(rejected: string)
    | Comparing(rejected: string)
    | AwaitConfig(rejected: string)
    | ReadingConfig(rejected: string)
    | Posting(rejected: string)
    | AwaitWrite(rejected: string, issued: string)
    | Announced(rejected: string, issued: string)
    | Writing(rejected: string, issued: string)
    | Saving(rejected: string, issued: string, previous: string)        // memory overwritten, profile not saved
    | Stored(rejected: string, error: Option<RefreshError>)             // outcome fixed, `mu` still held
    | Releasing(rejected: string, error: Option<RefreshError>)          // `mu` free, `refreshMu` still held
    | Finished(outcome: Outcome)

  datatype Refusal = Refusal(header: string, token: string)

  /**
   `refused` collects the headers this request saw answered with a refreshable 401, each with
   the token the retry hook read from it; `cleared` the tokens for which its
   `refreshIfCurrent` returned no error.
   */
  datatype Thread = Thread(request: Request, pc: Pc, attempt: nat, refused: set<Refusal>, cleared: set<string>)

  datatype Sent = Sent(thread: nat, header: string)

  datatype State = State(
    threads: seq<Thread>,
    tokens: Tokens,
    // locks
    readers: set<nat>, pending: Option<nat>, writer: Option<nat>, refreshMu: Option<nat>,
    // history
    issued: set<string>,      // every token the server ever handed out, and the first one
    history: seq<string>,     // the tokens in force, in order
    refreshes: seq<string>,   // the rejected token of each successful refresh, in order
    unsaved: set<string>,     // tokens whose save failed
    sent: seq<Sent>)

  datatype Reply = Unauthorized | Transient | Final

  datatype Action =
    | Cancel
    | BeginApply
    | SkipApply
    | EndApply
    | Send
    | Receive(reply: Reply)
    | LockRefresh
    | BeginCompare
    | EndCompare
    | BeginConfig
    | EndConfig
    | Post(answer: PostReply)
    | Announce
    | LockWrite
    | Write
    | Save(works: bool)
    | UnlockWrite
    | Release

  datatype Event = Event(thread: nat, action: Action)

  // ---------- requests ----------

  function ContextOf(req: Request): AuthContext {
    AuthContext(req.skipAuth, req.authorization != "")
  }

  predicate Managed(cfg: Config, req: Request) {
    Refreshable(cfg, ContextOf(req))
  }

  /** The request carries the stored bearer token. */
  predicate UsesToken(cfg: Config, req: Request) {
    cfg.mode == Bearer && cfg.hasCredential && !req.skipAuth && req.authorization == ""
  }

  predicate NeedsLock(cfg: Config, req: Request) {
    cfg.hasCredential && !req.skipAuth && req.authorization == ""
  }

  // ---------- steps ----------

  predicate CanRead(s: State) {
    s.writer.None? && s.pending.None?
  }

  /** The server's promise: a token it hands out is new and, once trimmed, has no space inside. */
  ghost predicate Honest(s: State, reply: PostReply) {
    reply.Token? ==> Solid(TrimSpace(reply.raw)) && (TrimSpace(reply.raw) != "" ==> TrimSpace(reply.raw) !in s.issued)
  }

  ghost predicate Enabled(cfg: Config, s: State, e: Event) {
    && e.thread < |s.threads|
    && var t := s.threads[e.thread];
       match e.action
       case Cancel => t.pc.Ready?
       case BeginApply => t.pc.Ready? && NeedsLock(cfg, t.request) && CanRead(s)
       case SkipApply => t.pc.Ready? && !NeedsLock(cfg, t.request)
       case EndApply => t.pc.Applying?
       case Send => t.pc.Built?
       case Receive(_) => t.pc.InFlight?
       case LockRefresh => t.pc.AwaitRefreshMu? && s.refreshMu.None?
       case BeginCompare => t.pc.AwaitCompare? && CanRead(s)
       case EndCompare => t.pc.Comparing?
       case BeginConfig => t.pc.AwaitConfig? && CanRead(s)
       case EndConfig => t.pc.ReadingConfig?
       case Post(answer) => t.pc.Posting? && Honest(s, answer)
       case Announce => t.pc.AwaitWrite? && s.writer.None? && s.pending.None?
       case LockWrite => t.pc.Announced? && s.readers == {}
       case Write => t.pc.Writing?
       case Save(works) => t.pc.Saving? && (works || cfg.hasManager)
       case UnlockWrite => t.pc.Stored?
       case Release => t.pc.Releasing?
  }

  function Goto(s: State, i: nat, pc: Pc): State
    requires i < |s.threads|
  {
    s.(threads := s.threads[i := s.threads[i].(pc := pc)])
  }

  /** What follows when the retry hook asks for another attempt. */
  function NextAttempt(t: Thread): Thread {
    if t.attempt < RETRY_MAX then t.(pc := Ready, attempt := t.attempt + 1) else t.(pc := Finished(GaveUp))
  }

  function OnReply(cfg: Config, t: Thread, header: string, reply: Reply): Thread {
    if !CanRetry(t.request) then t.(pc := Finished(Answered))
    else
      match reply
      case Final => t.(pc := Finished(Answered))
      case Transient => NextAttempt(t)
      case Unauthorized =>
        if Managed(cfg, t.request)
        then var token := BearerToken(header);
             t.(pc := AwaitRefreshMu(token), refused := t.refused + {Refusal(header, token)})
        else t.(pc := Finished(Answered))
  }

  predicate InRequest(a: Action) {
    a.Cancel? || a.BeginApply? || a.SkipApply? || a.EndApply? || a.Send? || a.Receive?
  }

  predicate InCheck(a: Action) {
    a.LockRefresh? || a.BeginCompare? || a.EndCompare? || a.BeginConfig? || a.EndConfig?
  }

  /** The steps of `RoundTrip` and of the reply. */
  function RequestStep(cfg: Config, s: State, e: Event): State
    requires Enabled(cfg, s, e) && InRequest(e.action)
  {
    var i, t := e.thread, s.threads[e.thread];
    match e.action
    case Cancel => Goto(s, i, Finished(Cancelled)) // its context ended before the attempt
    case BeginApply => Goto(s, i, Applying).(readers := s.readers + {i})
    case SkipApply =>
      Goto(s, i, Built(AppliedHeader(cfg, t.request.skipAuth, t.request.authorization, s.tokens.memory)))
    case EndApply =>
      Goto(s, i, Built(AppliedHeader(cfg, t.request.skipAuth, t.request.authorization, s.tokens.memory)))
        .(readers := s.readers - {i})
    case Send => Goto(s, i, InFlight(t.pc.header)).(sent := s.sent + [Sent(i, t.pc.header)])
    case Receive(reply) => s.(threads := s.threads[i := OnReply(cfg, t, t.pc.header, reply)])
  }

  /** The steps of `refreshIfCurrent`, and of `NewAccessToken` up to its POST. */
  function CheckStep(cfg: Config, s: State, e: Event): State
    requires Enabled(cfg, s, e) && InCheck(e.action)
  {
    var i, t := e.thread, s.threads[e.thread];
    match e.action
    case LockRefresh => Goto(s, i, AwaitCompare(t.pc.rejected)).(refreshMu := Some(i))
    case BeginCompare => Goto(s, i, Comparing(t.pc.rejected)).(readers := s.readers + {i})
    case EndCompare =>
      var current := TrimSpace(s.tokens.memory);
      Goto(s, i,
        if TrimSpace(cfg.apiEndpoint) == "" || current != t.pc.rejected
        then Releasing(t.pc.rejected, None) else AwaitConfig(t.pc.rejected)).(readers := s.readers - {i})
    case BeginConfig => Goto(s, i, ReadingConfig(t.pc.rejected)).(readers := s.readers + {i})
    case EndConfig =>
      Goto(s, i,
        if cfg.apiKey == "" then Releasing(t.pc.rejected, Some(NoApiKey))
        else if TrimSpace(cfg.apiEndpoint) == "" then Releasing(t.pc.rejected, Some(NoEndpoint))
        else Posting(t.pc.rejected)).(readers := s.readers - {i})
  }

  /** The steps from the POST's answer to the release of `refreshMu`. */
  function StoreStep(cfg: Config, s: State, e: Event): State
    requires Enabled(cfg, s, e) && !InRequest(e.action) && !InCheck(e.action)
  {
    var i, t := e.thread, s.threads[e.thread];
    match e.action
    case Post(answer) =>
      (match answer
       case Failed => Goto(s, i, Releasing(t.pc.rejected, Some(PostFailure)))
       case Token(raw) =>
         var issued := TrimSpace(raw);
         if issued == "" then Goto(s, i, Releasing(t.pc.rejected, Some(MissingToken)))
         else Goto(s, i, AwaitWrite(t.pc.rejected, issued)).(issued := s.issued + {issued}))
    case Announce => Goto(s, i, Announced(t.pc.rejected, t.pc.issued)).(pending := Some(i))
    case LockWrite => Goto(s, i, Writing(t.pc.rejected, t.pc.issued)).(pending := None, writer := Some(i))
    case Write =>
      Goto(s, i, Saving(t.pc.rejected, t.pc.issued, s.tokens.memory)).(tokens := s.tokens.(memory := t.pc.issued))
    case Save(works) =>
      if works then
        Goto(s, i, Stored(t.pc.rejected, None)).(
          tokens := if cfg.hasManager then s.tokens.(persisted := s.tokens.memory) else s.tokens,
          history := s.history + [t.pc.issued],
          refreshes := s.refreshes + [t.pc.rejected])
      else
        Goto(s, i, Stored(t.pc.rejected, Some(SaveFailure))).(
          tokens := s.tokens.(memory := t.pc.previous), unsaved := s.unsaved + {t.pc.issued})
    case UnlockWrite => Goto(s, i, Releasing(t.pc.rejected, t.pc.error)).(writer := None)
    case Release =>
      var t' :=
        match t.pc.error
        case Some(error) => t.(pc := Finished(RefreshFailed(error)))
        case None => NextAttempt(t.(cleared := t.cleared + {t.pc.rejected}));
      s.(threads := s.threads[i := t'], refreshMu := None)
  }

  function Next(cfg: Config, s: State, e: Event): State
    requires Enabled(cfg, s, e)
  {
    if InRequest(e.action) then RequestStep(cfg, s, e)
    else if InCheck(e.action) then CheckStep(cfg, s, e)
    else StoreStep(cfg, s, e)
  }

  // ---------- runs ----------

  function Start(requests: seq<Request>, token: string): State {
    State(
      seq(|requests|, i requires 0 <= i < |requests| => Thread(requests[i], Ready, 0, {}, {})),
      Tokens(token, token), {}, None, None, None,
      {TrimSpace(token)}, [TrimSpace(token)], [], {}, [])
  }

  /** The events can happen one after the other from `s`. */
  ghost predicate Possible(cfg: Config, s: State, events: seq<Event>)
    decreases events
  {
    events == [] || (Enabled(cfg, s, events[0]) && Possible(cfg, Next(cfg, s, events[0]), events[1..]))
  }

  ghost function Run(cfg: Config, s: State, events: seq<Event>): State
    requires Possible(cfg, s, events)
    decreases events
  {
    if events == [] then s else Run(cfg, Next(cfg, s, events[0]), events[1..])
  }

  ghost predicate AllFinished(s: State) {
    forall i :: 0 <= i < |s.threads| ==> s.threads[i].pc.Finished?
  }

  // ---------- where a thread stands ----------

  predicate Reads(pc: Pc) {
    pc.Applying? || pc.Comparing? || pc.ReadingConfig?
  }

  predicate Writes(pc: Pc) {
    pc.Writing? || pc.Saving? || pc.Stored?
  }

  predicate Refreshes(pc: Pc) {
    || pc.AwaitCompare? || pc.Comparing? || pc.AwaitConfig? || pc.ReadingConfig? || pc.Posting?
    || pc.AwaitWrite? || pc.Announced? || Writes(pc) || pc.Releasing?
  }

  /** The thread carries a token the server issued and no save decided yet. */
  predicate HasIssued(pc: Pc) {
    pc.AwaitWrite? || pc.Announced? || pc.Writing? || pc.Saving?
  }

  /** The rejected token was compared equal to the stored one and nothing was stored since. */
  predicate Confirmed(pc: Pc) {
    pc.AwaitConfig? || pc.ReadingConfig? || pc.Posting? || HasIssued(pc)
  }

  function Last(history: seq<string>): string
    requires history != []
  {
    history[|history| - 1]
  }

  // ---------- the invariant ----------

  ghost predicate ReadersMatch(s: State) {
    forall i :: i in s.readers <==> 0 <= i < |s.threads| && Reads(s.threads[i].pc)
  }

  ghost predicate PendingMatches(s: State) {
    forall i: nat :: s.pending == Some(i) <==> i < |s.threads| && s.threads[i].pc.Announced?
  }

  ghost predicate WriterMatches(s: State) {
    forall i: nat :: s.writer == Some(i) <==> i < |s.threads| && Writes(s.threads[i].pc)
  }

  ghost predicate RefreshMuMatches(s: State) {
    forall i: nat :: s.refreshMu == Some(i) <==> i < |s.threads| && Refreshes(s.threads[i].pc)
  }

  /** Who holds a lock is exactly where the threads stand, and a writer excludes everybody else. */
  ghost predicate LocksMatch(s: State) {
    && ReadersMatch(s) && PendingMatches(s) && WriterMatches(s) && RefreshMuMatches(s)
    && (s.writer.Some? ==> s.readers == {} && s.pending.None?)
  }

  /** The tokens in force never repeat, and each refresh replaced the one before. */
  ghost predicate HistoryMatches(s: State) {
    && s.history != [] && NoDup(s.history)
    && s.refreshes == s.history[..|s.history| - 1]
    && (forall x :: x in s.history ==> x in s.issued && x !in s.unsaved && Trimmed(x, IsSpace))
    && (forall x :: x in s.unsaved ==> x in s.issued)
    && (forall k :: 1 <= k < |s.history| ==> Solid(s.history[k]))
  }

  /** Memory and disk hold the token in force, except between overwriting memory and the save's answer. */
  ghost predicate TokensMatch(cfg: Config, s: State)
    requires s.history != []
  {
    if s.writer.Some? && s.writer.value < |s.threads| && s.threads[s.writer.value].pc.Saving? then
      var pc := s.threads[s.writer.value].pc;
      && s.tokens.memory == pc.issued
      && TrimSpace(pc.previous) == Last(s.history)
      && (cfg.hasManager ==> s.tokens.persisted == pc.previous)
    else
      && TrimSpace(s.tokens.memory) == Last(s.history)
      && (cfg.hasManager ==> s.tokens.persisted == s.tokens.memory)
  }

  ghost predicate ThreadOk(cfg: Config, s: State, t: Thread)
    requires s.history != []
  {
    && t.attempt <= RETRY_MAX
    && (Refreshes(t.pc) || t.pc.AwaitRefreshMu? ==> Managed(cfg, t.request) && CanRetry(t.request))
    && (t.refused != {} || t.cleared != {} ==> Managed(cfg, t.request))
    && (t.pc.Applying? ==> NeedsLock(cfg, t.request))
    && (Confirmed(t.pc) ==> t.pc.rejected == Last(s.history))
    && (HasIssued(t.pc) ==>
          && t.pc.issued != "" && Trimmed(t.pc.issued, IsSpace) && Solid(t.pc.issued)
          && t.pc.issued in s.issued && t.pc.issued !in s.history && t.pc.issued !in s.unsaved)
    && (UsesToken(cfg, t.request) && (t.pc.Built? || t.pc.InFlight?) ==>
          exists x :: x in s.history && t.pc.header == BearerHeader(x))
  }

  ghost predicate SentOk(cfg: Config, s: State) {
    forall k :: 0 <= k < |s.sent| ==>
      && s.sent[k].thread < |s.threads|
      && (UsesToken(cfg, s.threads[s.sent[k].thread].request) ==>
            exists x :: x in s.history && s.sent[k].header == BearerHeader(x))
  }

  ghost predicate Inv(cfg: Config, s: State) {
    && LocksMatch(s)
    && HistoryMatches(s)
    && TokensMatch(cfg, s)
    && (forall i :: 0 <= i < |s.threads| ==> ThreadOk(cfg, s, s.threads[i]))
    && SentOk(cfg, s)
  }

  lemma StartInv(cfg: Config, requests: seq<Request>, token: string)
    ensures Inv(cfg, Start(requests, token))
  {
    var _, _ := TrimParts(token, IsSpace);
  }

  // ---------- preservation ----------
  //
  // Each lemma below first says what a step changes, then argues from that alone.

  /** A step moves one thread, never changes a request, and only extends the histories. */
  ghost predicate Moves(s: State, i: nat, s': State) {
    && i < |s.threads| == |s'.threads|
    && s'.threads == s.threads[i := s'.threads[i]]
    && s'.threads[i].request == s.threads[i].request
    && s.history <= s'.history
    && s.issued <= s'.issued
  }

  lemma NextMoves(cfg: Config, s: State, e: Event)
    requires Enabled(cfg, s, e)
    ensures Moves(s, e.thread, Next(cfg, s, e))
  {
  }

  // locks

  lemma NextReaders(cfg: Config, s: State, e: Event)
    requires ReadersMatch(s) && Enabled(cfg, s, e)
    ensures ReadersMatch(Next(cfg, s, e))
  {
    var i, s' := e.thread, Next(cfg, s, e);
    NextMoves(cfg, s, e);
    assert i in s.readers <==> Reads(s.threads[i].pc);
    assert s'.readers == if Reads(s'.threads[i].pc) then s.readers + {i} else s.readers - {i};
  }

  lemma NextPending(cfg: Config, s: State, e: Event)
    requires PendingMatches(s) && Enabled(cfg, s, e)
    ensures PendingMatches(Next(cfg, s, e))
  {
    var i, s' := e.thread, Next(cfg, s, e);
    NextMoves(cfg, s, e);
    assert s.threads[i].pc.Announced? <==> s.pending == Some(i);
    assert s'.pending == if s'.threads[i].pc.Announced? then Some(i)
                         else if s.threads[i].pc.Announced? then None else s.pending;
  }

  lemma NextWriter(cfg: Config, s: State, e: Event)
    requires LocksMatch(s) && Enabled(cfg, s, e)
    ensures WriterMatches(Next(cfg, s, e))
  {
    var i, s' := e.thread, Next(cfg, s, e);
    NextMoves(cfg, s, e);
    assert Writes(s.threads[i].pc) <==> s.writer == Some(i);
    assert s.threads[i].pc.Announced? <==> s.pending == Some(i);
    assert s'.writer == if Writes(s'.threads[i].pc) then Some(i)
                        else if Writes(s.threads[i].pc) then None else s.writer;
    assert Writes(s'.threads[i].pc) && !Writes(s.threads[i].pc) ==> s.writer.None?;
  }

  lemma NextRefreshMu(cfg: Config, s: State, e: Event)
    requires RefreshMuMatches(s) && Enabled(cfg, s, e)
    ensures RefreshMuMatches(Next(cfg, s, e))
  {
    var i, s' := e.thread, Next(cfg, s, e);
    NextMoves(cfg, s, e);
    assert Refreshes(s.threads[i].pc) <==> s.refreshMu == Some(i);
    assert s'.refreshMu == if Refreshes(s'.threads[i].pc) then Some(i)
                           else if Refreshes(s.threads[i].pc) then None else s.refreshMu;
    assert Refreshes(s'.threads[i].pc) && !Refreshes(s.threads[i].pc) ==> s.refreshMu.None?;
  }

  lemma NextExclusion(cfg: Config, s: State, e: Event)
    requires LocksMatch(s) && Enabled(cfg, s, e)
    ensures var s' := Next(cfg, s, e); s'.writer.Some? ==> s'.readers == {} && s'.pending.None?
  {
    var i := e.thread;
    assert s.threads[i].pc.Announced? <==> s.pending == Some(i);
    assert i in s.readers <==> Reads(s.threads[i].pc);
  }

  lemma NextLocks(cfg: Config, s: State, e: Event)
    requires LocksMatch(s) && Enabled(cfg, s, e)
    ensures LocksMatch(Next(cfg, s, e))
  {
    NextReaders(cfg, s, e);
    NextPending(cfg, s, e);
    NextWriter(cfg, s, e);
    NextRefreshMu(cfg, s, e);
    NextExclusion(cfg, s, e);
  }

  // tokens

  /** A reader, and a thread about to write, sees the token in force. */
  lemma MemoryIsCurrent(cfg: Config, s: State)
    requires s.history != [] && TokensMatch(cfg, s)
    requires s.writer.None? || (s.writer.value < |s.threads| && !s.threads[s.writer.value].pc.Saving?)
    ensures TrimSpace(s.tokens.memory) == Last(s.history)
    ensures cfg.hasManager ==> s.tokens.persisted == s.tokens.memory
  {
  }

  lemma HistoryCommits(s: State, s': State, issued: string, rejected: string)
    requires HistoryMatches(s)
    requires s'.history == s.history + [issued] && s'.refreshes == s.refreshes + [rejected]
    requires s'.issued == s.issued && s'.unsaved == s.unsaved
    requires issued in s.issued && issued !in s.history && issued !in s.unsaved
    requires Trimmed(issued, IsSpace) && Solid(issued)
    requires rejected == Last(s.history)
    ensures HistoryMatches(s')
  {
    assert s.history == s.history[..|s.history| - 1] + [Last(s.history)];
    assert s'.history[..|s'.history| - 1] == s.history;
  }

  lemma NextHistory(cfg: Config, s: State, e: Event)
    requires HistoryMatches(s) && Enabled(cfg, s, e) && ThreadOk(cfg, s, s.threads[e.thread])
    ensures HistoryMatches(Next(cfg, s, e))
  {
    var pc, s' := s.threads[e.thread].pc, Next(cfg, s, e);
    if e.action.Save? && e.action.works {
      HistoryCommits(s, s', pc.issued, pc.rejected);
    } else {
      assert s'.history == s.history && s'.refreshes == s.refreshes;
      assert s'.unsaved == if e.action.Save? then s.unsaved + {pc.issued} else s.unsaved;
    }
  }

  lemma NextTokens(cfg: Config, s: State, e: Event)
    requires Inv(cfg, s) && Enabled(cfg, s, e)
    ensures Next(cfg, s, e).history != [] && TokensMatch(cfg, Next(cfg, s, e))
  {
    var i, pc, s' := e.thread, s.threads[e.thread].pc, Next(cfg, s, e);
    assert ThreadOk(cfg, s, s.threads[i]);
    assert s.writer == Some(i) <==> Writes(pc);
    NextMoves(cfg, s, e);
    if pc.Saving? {
      TrimOfTrimmed(pc.issued, IsSpace);
    } else {
      assert s'.history == s.history;
      assert s'.tokens == if pc.Writing? then s.tokens.(memory := pc.issued) else s.tokens;
      assert s'.writer == if pc.Announced? then Some(i) else if pc.Stored? then None else s.writer;
      if pc.Announced? {
        assert s.pending == Some(i);
      }
    }
  }

  // threads

  /** Between entering `RoundTrip` and the reply. */
  predicate Requesting(pc: Pc) {
    pc.Ready? || pc.Applying? || pc.Built? || pc.InFlight?
  }

  lemma AppliedOk(cfg: Config, s: State, t: Thread)
    requires s.history != [] && ThreadOk(cfg, s, t) && TrimSpace(s.tokens.memory) == Last(s.history)
    ensures var header := AppliedHeader(cfg, t.request.skipAuth, t.request.authorization, s.tokens.memory);
            ThreadOk(cfg, s, t.(pc := Built(header)))
  {
    assert Last(s.history) in s.history;
  }

  lemma ReplyOk(cfg: Config, s: State, t: Thread, reply: Reply)
    requires s.history != [] && ThreadOk(cfg, s, t) && t.pc.InFlight?
    ensures ThreadOk(cfg, s, OnReply(cfg, t, t.pc.header, reply))
  {
  }

  /** The others keep their part: only the holder of `refreshMu` hands out or stores a token. */
  lemma OtherThreadOk(cfg: Config, s: State, s': State, o: Thread)
    requires s.history != [] && s.history <= s'.history && s.issued <= s'.issued && ThreadOk(cfg, s, o)
    requires Refreshes(o.pc) ==> s'.history == s.history && s'.unsaved == s.unsaved
    ensures ThreadOk(cfg, s', o)
  {
    if UsesToken(cfg, o.request) && (o.pc.Built? || o.pc.InFlight?) {
      var x :| x in s.history && o.pc.header == BearerHeader(x);
      assert x in s'.history;
    }
  }

  lemma NextRequesting(cfg: Config, s: State, e: Event)
    requires HistoryMatches(s) && Enabled(cfg, s, e) && ThreadOk(cfg, s, s.threads[e.thread])
    requires s.threads[e.thread].pc.Applying? ==> TrimSpace(s.tokens.memory) == Last(s.history)
    requires Requesting(s.threads[e.thread].pc)
    ensures ThreadOk(cfg, Next(cfg, s, e), Next(cfg, s, e).threads[e.thread])
  {
    var t, s' := s.threads[e.thread], Next(cfg, s, e);
    assert s'.history == s.history && s'.issued == s.issued && s'.unsaved == s.unsaved;
    if t.pc.Applying? {
      AppliedOk(cfg, s, t);
      OtherThreadOk(cfg, s, s', s'.threads[e.thread]);
    } else if t.pc.InFlight? {
      ReplyOk(cfg, s, t, e.action.reply);
      OtherThreadOk(cfg, s, s', s'.threads[e.thread]);
    } else if t.pc.Built? {
      assert s'.threads[e.thread] == t.(pc := InFlight(t.pc.header));
    }
  }

  lemma NextChecking(cfg: Config, s: State, e: Event)
    requires HistoryMatches(s) && Enabled(cfg, s, e) && ThreadOk(cfg, s, s.threads[e.thread])
    requires s.threads[e.thread].pc.Comparing? ==> TrimSpace(s.tokens.memory) == Last(s.history)
    requires var pc := s.threads[e.thread].pc;
             pc.AwaitRefreshMu? || pc.AwaitCompare? || pc.Comparing? || pc.AwaitConfig? || pc.ReadingConfig?
    ensures ThreadOk(cfg, Next(cfg, s, e), Next(cfg, s, e).threads[e.thread])
  {
    assert Next(cfg, s, e).history == s.history;
  }

  lemma NextPosting(cfg: Config, s: State, e: Event)
    requires HistoryMatches(s) && Enabled(cfg, s, e) && ThreadOk(cfg, s, s.threads[e.thread])
    requires s.threads[e.thread].pc.Posting?
    ensures ThreadOk(cfg, Next(cfg, s, e), Next(cfg, s, e).threads[e.thread])
  {
    if e.action.answer.Token? {
      var _, _ := TrimParts(e.action.answer.raw, IsSpace);
    }
  }

  lemma NextStoring(cfg: Config, s: State, e: Event)
    requires HistoryMatches(s) && Enabled(cfg, s, e) && ThreadOk(cfg, s, s.threads[e.thread])
    requires !InRequest(e.action) && !InCheck(e.action) && !e.action.Post?
    ensures StoreStep(cfg, s, e).history != []
    ensures ThreadOk(cfg, StoreStep(cfg, s, e), StoreStep(cfg, s, e).threads[e.thread])
  {
    assert StoreStep(cfg, s, e).issued == s.issued;
  }

  lemma NextThreads(cfg: Config, s: State, e: Event)
    requires Inv(cfg, s) && Enabled(cfg, s, e)
    ensures var s' := Next(cfg, s, e);
            s'.history != [] && forall j :: 0 <= j < |s'.threads| ==> ThreadOk(cfg, s', s'.threads[j])
  {
    var i, pc, s' := e.thread, s.threads[e.thread].pc, Next(cfg, s, e);
    NextMoves(cfg, s, e);
    assert ThreadOk(cfg, s, s.threads[i]);
    if Reads(pc) {
      assert i in s.readers;
      MemoryIsCurrent(cfg, s);
    }
    if Requesting(pc) {
      NextRequesting(cfg, s, e);
    } else if pc.Posting? {
      NextPosting(cfg, s, e);
    } else if HasIssued(pc) || pc.Stored? || pc.Releasing? {
      NextStoring(cfg, s, e);
    } else {
      NextChecking(cfg, s, e);
    }
    assert !Refreshes(pc) ==> s'.history == s.history && s'.unsaved == s.unsaved;
    forall j | 0 <= j < |s'.threads| && j != i
      ensures ThreadOk(cfg, s', s'.threads[j])
    {
      assert s'.threads[j] == s.threads[j];
      assert s.refreshMu == Some(i) <==> Refreshes(pc);
      assert s.refreshMu == Some(j) <==> Refreshes(s.threads[j].pc);
      OtherThreadOk(cfg, s, s', s.threads[j]);
    }
  }

  lemma SentStays(cfg: Config, s: State, i: nat, s': State)
    requires SentOk(cfg, s) && Moves(s, i, s') && s'.sent == s.sent
    ensures SentOk(cfg, s')
  {
    forall k | 0 <= k < |s'.sent| && UsesToken(cfg, s'.threads[s'.sent[k].thread].request)
      ensures exists x :: x in s'.history && s'.sent[k].header == BearerHeader(x)
    {
      var x :| x in s.history && s.sent[k].header == BearerHeader(x);
      assert x in s'.history;
    }
  }

  lemma NextSent(cfg: Config, s: State, e: Event)
    requires SentOk(cfg, s) && Enabled(cfg, s, e) && s.history != [] && ThreadOk(cfg, s, s.threads[e.thread])
    ensures SentOk(cfg, Next(cfg, s, e))
  {
    var s' := Next(cfg, s, e);
    NextMoves(cfg, s, e);
    if e.action.Send? {
      SentStays(cfg, s, e.thread, s'.(sent := s.sent));
      assert s'.sent == s.sent + [Sent(e.thread, s.threads[e.thread].pc.header)];
      assert s'.history == s.history;
    } else {
      assert s'.sent == s.sent;
      SentStays(cfg, s, e.thread, s');
    }
  }

  /** Every step of every thread keeps the invariant. */
  lemma NextInv(cfg: Config, s: State, e: Event)
    requires Inv(cfg, s) && Enabled(cfg, s, e)
    ensures Inv(cfg, Next(cfg, s, e))
  {
    assert ThreadOk(cfg, s, s.threads[e.thread]);
    NextLocks(cfg, s, e);
    NextHistory(cfg, s, e);
    NextTokens(cfg, s, e);
    NextThreads(cfg, s, e);
    NextSent(cfg, s, e);
  }

  lemma {:induction false} RunInv(cfg: Config, s: State, events: seq<Event>)
    requires Inv(cfg, s) && Possible(cfg, s, events)
    ensures Inv(cfg, Run(cfg, s, events))
    decreases events
  {
    if events != [] {
      NextInv(cfg, s, events[0]);
      RunInv(cfg, Next(cfg, s, events[0]), events[1..]);
    }
  }
}
