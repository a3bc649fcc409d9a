/** The browser auth client as an interleaving state machine.

    JavaScript runs each stretch of code between two `await`s without
    interruption, so such a stretch is one atomic `Event` here.  Calls in
    progress are `tasks`; the shared promise behind `refreshInFlight` is a
    numbered `Round`.  The server is an arbitrary environment that answers
    outstanding requests in any order, with one promise about it: a refresh
    token is handed out in at most one reply. */
module AuthProtocol {
  import opened Prelude

  /** `refresh == ""` is the cookie-only client: no refresh token readable by JS. */
  datatype Tokens = Tokens(access: string, refresh: string)

  datatype Session = Session(user: string, tokens: Tokens)

  /** What a POST to an auth endpoint comes back with; `Rejected` covers a failed
      connection and a body that is not JSON. */
  datatype PostReply<+T> = Ok(value: T) | Status(code: int) | Rejected

  datatype ErrorCode = InvalidCredentials | Locked | RateLimited | Unknown | RefreshFailed

  /** What a resource request comes back with. */
  datatype NetReply = Response(status: int) | NetworkError

  datatype Outcome = Success(tokens: Tokens) | Failure(error: ErrorCode)

  /** One refresh round: the body token it submitted and, once over, its outcome. */
  datatype Round =
    | Pending(body: Option<string>)
    | Settled(body: Option<string>, outcome: Outcome)

  datatype FetchResult = Returned(status: int) | ThrewAuth(error: ErrorCode) | ThrewNetwork

  datatype Phase =
    | First                                          // first send unanswered
    | Waiting(round: nat)                            // got 401, awaiting the shared promise
    | Second(round: nat)                             // retry sent after that round
    | Over(result: FetchResult, joined: Option<nat>) // and the round it joined, if any

  datatype Task =
    | Fetch(bearers: seq<Option<string>>, phase: Phase) // bearer of every resource send
    | Login
    | Restore
    | Logout
    | Done(ok: bool)

  datatype World = World(
    store: Option<Tokens>,
    user: Option<string>,
    inFlight: Option<nat>,
    present: bool,
    tasks: seq<Task>,
    rounds: seq<Round>,
    refreshBodies: seq<Option<string>>, // every body token sent to /auth/refresh, in order
    expired: seq<nat>,                  // onSessionExpired calls, by the round that made them
    issued: set<string>                 // refresh tokens handed out so far
  )

  datatype Event =
    | CallFetch
    | CallLogin
    | CallRestore
    | CallLogout
    | SetUser(user: Option<string>)
    | FetchReply(task: nat, net: NetReply)
    | RefreshReply(round: nat, minted: PostReply<Tokens>)
    | Resume(task: nat)
    | LoginReply(task: nat, session: PostReply<Session>)
    | RestoreReply(task: nat, minted: PostReply<Tokens>)
    | LogoutReply(task: nat)

  predicate IsCall(e: Event) {
    e.CallFetch? || e.CallLogin? || e.CallRestore? || e.CallLogout? || e.SetUser?
  }

  function ErrorOf(status: int): ErrorCode {
    if status == 401 then InvalidCredentials
    else if status == 423 then Locked
    else if status == 429 then RateLimited
    else Unknown
  }

  function OutcomeOf(reply: PostReply<Tokens>): Outcome {
    match reply
    case Ok(tokens) => Success(tokens)
    case Status(code) => Failure(ErrorOf(code))
    case Rejected => Failure(RefreshFailed)
  }

  /** The refresh token that goes into the body, if storage holds one. */
  function BodyToken(store: Option<Tokens>): Option<string> {
    if store.Some? && store.value.refresh != "" then Some(store.value.refresh) else None
  }

  function Bearer(store: Option<Tokens>): Option<string> {
    if store.Some? then Some(store.value.access) else None
  }

  function Issue(issued: set<string>, tokens: Tokens): set<string> {
    if tokens.refresh == "" then issued else issued + {tokens.refresh}
  }

  predicate Unissued(w: World, tokens: Tokens) {
    tokens.refresh == "" || tokens.refresh !in w.issued
  }

  /** Join the round in flight or open a new one and submit the stored token. */
  function Refresh(w: World): (World, nat) {
    if w.inFlight.Some? then (w, w.inFlight.value)
    else
      var body := BodyToken(w.store);
      (w.(rounds := w.rounds + [Pending(body)],
          refreshBodies := w.refreshBodies + [body],
          inFlight := Some(|w.rounds|)),
       |w.rounds|)
  }

  predicate Enabled(w: World, e: Event) {
    match e
    case CallFetch => true
    case CallLogin => true
    case CallRestore => true
    case CallLogout => true
    case SetUser(_) => true
    case FetchReply(t, _) =>
      t < |w.tasks| && w.tasks[t].Fetch? && (w.tasks[t].phase.First? || w.tasks[t].phase.Second?)
    case RefreshReply(r, reply) =>
      r < |w.rounds| && w.rounds[r].Pending? && (reply.Ok? ==> Unissued(w, reply.value))
    case Resume(t) =>
      && t < |w.tasks| && w.tasks[t].Fetch? && w.tasks[t].phase.Waiting?
      && w.tasks[t].phase.round < |w.rounds| && w.rounds[w.tasks[t].phase.round].Settled?
    case LoginReply(t, reply) =>
      t < |w.tasks| && w.tasks[t].Login? && (reply.Ok? ==> Unissued(w, reply.value.tokens))
    case RestoreReply(t, reply) =>
      t < |w.tasks| && w.tasks[t].Restore? && (reply.Ok? ==> Unissued(w, reply.value))
    case LogoutReply(t) =>
      t < |w.tasks| && w.tasks[t].Logout?
  }

  function Step(w: World, e: Event): World
    requires Enabled(w, e)
  {
    match e
    case CallFetch => w.(tasks := w.tasks + [Fetch([Bearer(w.store)], First)])
    case CallLogin => w.(tasks := w.tasks + [Login])
    case CallRestore =>
      if w.store.Some? then w.(tasks := w.tasks + [Done(true)])
      else w.(tasks := w.tasks + [Restore], refreshBodies := w.refreshBodies + [None])
    case CallLogout => w.(tasks := w.tasks + [Logout])
    case SetUser(u) => w.(user := u)
    case FetchReply(t, net) => FetchAnswered(w, t, net)
    case RefreshReply(r, reply) => RefreshAnswered(w, r, reply)
    case Resume(t) => Resumed(w, t)
    case LoginReply(t, reply) =>
      if reply.Ok? then
        w.(tasks := w.tasks[t := Done(true)], store := Some(reply.value.tokens),
           user := Some(reply.value.user), present := true,
           issued := Issue(w.issued, reply.value.tokens))
      else w.(tasks := w.tasks[t := Done(false)])
    case RestoreReply(t, reply) =>
      if reply.Ok? then
        w.(tasks := w.tasks[t := Done(true)], store := Some(reply.value), present := true,
           issued := Issue(w.issued, reply.value))
      else w.(tasks := w.tasks[t := Done(false)], present := false)
    case LogoutReply(t) =>
      w.(tasks := w.tasks[t := Done(true)], store := None, user := None, present := false)
  }

  /** A 401 on a request that carried a token leads into a refresh round; any
      other answer, and every answer to the retry, ends the call. */
  function FetchAnswered(w: World, t: nat, net: NetReply): World
    requires Enabled(w, FetchReply(t, net))
  {
    var bearers, phase := w.tasks[t].bearers, w.tasks[t].phase;
    if phase.First? && net == Response(401) && |bearers| > 0 && bearers[0].Some? then
      var (w', r) := Refresh(w);
      w'.(tasks := w'.tasks[t := Fetch(bearers, Waiting(r))])
    else
      var joined := if phase.Second? then Some(phase.round) else None;
      var result := if net.Response? then Returned(net.status) else ThrewNetwork;
      w.(tasks := w.tasks[t := Fetch(bearers, Over(result, joined))])
  }

  function RefreshAnswered(w: World, r: nat, reply: PostReply<Tokens>): World
    requires Enabled(w, RefreshReply(r, reply))
  {
    var ended := w.(rounds := w.rounds[r := Settled(w.rounds[r].body, OutcomeOf(reply))], inFlight := None);
    if reply.Ok? then
      ended.(store := Some(reply.value), present := true, issued := Issue(w.issued, reply.value))
    else
      ended.(store := None, user := None, present := false, expired := w.expired + [r])
  }

  /** A caller that awaited the shared promise picks up its outcome. */
  function Resumed(w: World, t: nat): World
    requires Enabled(w, Resume(t))
  {
    var bearers, r := w.tasks[t].bearers, w.tasks[t].phase.round;
    match w.rounds[r].outcome
    case Success(tokens) =>
      w.(tasks := w.tasks[t := Fetch(bearers + [Some(tokens.access)], Second(r))])
    case Failure(error) =>
      w.(tasks := w.tasks[t := Fetch(bearers, Over(ThrewAuth(error), Some(r)))])
  }

  predicate ValidRun(w: World, es: seq<Event>)
    decreases |es|
  {
    es == [] || (Enabled(w, es[0]) && ValidRun(Step(w, es[0]), es[1..]))
  }

  function Run(w: World, es: seq<Event>): World
    requires ValidRun(w, es)
    decreases |es|
  {
    if es == [] then w else Run(Step(w, es[0]), es[1..])
  }

  /** A page that has just created its client; storage may hold tokens from before. */
  ghost predicate Init(w: World) {
    && w.inFlight == None && w.tasks == [] && w.rounds == []
    && w.refreshBodies == [] && w.expired == []
    && (BodyToken(w.store).Some? ==> BodyToken(w.store).value in w.issued)
  }

  // ---- The inductive invariant ----

  /** `refreshInFlight` is set exactly while one round is unfinished. */
  ghost predicate SingleFlight(w: World) {
    && (w.inFlight.Some? ==> w.inFlight.value < |w.rounds|)
    && (forall r :: 0 <= r < |w.rounds| ==> (w.rounds[r].Pending? <==> w.inFlight == Some(r)))
  }

  ghost predicate Submitted(w: World, token: string) {
    Some(token) in w.refreshBodies
  }

  ghost predicate SentAtMostOnce(w: World) {
    forall i, j :: 0 <= i < j < |w.refreshBodies| && w.refreshBodies[i].Some? ==>
      w.refreshBodies[i] != w.refreshBodies[j]
  }

  /** A stored token that was already submitted belongs to the round in flight. */
  ghost predicate TokensAccounted(w: World) {
    && (forall i :: 0 <= i < |w.refreshBodies| && w.refreshBodies[i].Some? ==>
          w.refreshBodies[i].value != "" && w.refreshBodies[i].value in w.issued)
    && (w.store.Some? && w.store.value.refresh != "" ==>
          && w.store.value.refresh in w.issued
          && (Submitted(w, w.store.value.refresh) ==>
                && w.inFlight.Some? && w.inFlight.value < |w.rounds|
                && w.rounds[w.inFlight.value].body == Some(w.store.value.refresh)))
  }

  /** onSessionExpired was called once for each failed round and for nothing else. */
  ghost predicate ExpiryAccounted(w: World) {
    && (forall i, j :: 0 <= i < j < |w.expired| ==> w.expired[i] != w.expired[j])
    && (forall r: nat :: r in w.expired <==>
          r < |w.rounds| && w.rounds[r].Settled? && w.rounds[r].outcome.Failure?)
  }

  ghost predicate JoinedRound(w: World, r: nat, bearers: seq<Option<string>>, error: Option<ErrorCode>) {
    && r < |w.rounds| && w.rounds[r].Settled?
    && match w.rounds[r].outcome
       case Success(tokens) => |bearers| == 2 && bearers[1] == Some(tokens.access) && error == None
       case Failure(e) => |bearers| == 1 && error == Some(e)
  }

  /** What a fetch call has sent, given how far it has got. */
  ghost predicate FetchAccounted(w: World, bearers: seq<Option<string>>, phase: Phase) {
    && 1 <= |bearers| <= 2
    && match phase
       case First => |bearers| == 1
       case Waiting(r) => |bearers| == 1 && bearers[0].Some? && r < |w.rounds|
       case Second(r) => bearers[0].Some? && JoinedRound(w, r, bearers, None)
       case Over(result, None) => |bearers| == 1 && !result.ThrewAuth?
       case Over(result, Some(r)) =>
         && bearers[0].Some?
         && JoinedRound(w, r, bearers, if result.ThrewAuth? then Some(result.error) else None)
  }

  ghost predicate TasksAccounted(w: World) {
    forall t :: 0 <= t < |w.tasks| && w.tasks[t].Fetch? ==>
      FetchAccounted(w, w.tasks[t].bearers, w.tasks[t].phase)
  }

  ghost predicate Inv(w: World) {
    SingleFlight(w) && SentAtMostOnce(w) && TokensAccounted(w) && ExpiryAccounted(w) && TasksAccounted(w)
  }

  // ---- Every step keeps it ----

  lemma InitInv(w: World)
    requires Init(w)
    ensures Inv(w)
  {
  }

  lemma RefreshKeepsInv(w: World)
    requires Inv(w)
    ensures var (w', r) := Refresh(w);
            Inv(w') && w'.inFlight == Some(r) && w'.tasks == w.tasks && |w'.rounds| >= |w.rounds|
  {
    var (w', r) := Refresh(w);
    if w.inFlight == None {
      TasksKept(w, w');
    }
  }

  /** Settled rounds never change, so what fetch calls recorded stays right. */
  lemma TasksKept(w: World, w': World)
    requires TasksAccounted(w) && w'.tasks == w.tasks
    requires |w.rounds| <= |w'.rounds|
    requires forall r :: 0 <= r < |w.rounds| && w.rounds[r].Settled? ==> w'.rounds[r] == w.rounds[r]
    ensures TasksAccounted(w')
  {
    forall t | 0 <= t < |w'.tasks| && w'.tasks[t].Fetch?
      ensures FetchAccounted(w', w'.tasks[t].bearers, w'.tasks[t].phase)
    {
      assert FetchAccounted(w, w.tasks[t].bearers, w.tasks[t].phase);
    }
  }

  /** Only the record of one fetch call changes, and to something accounted for. */
  lemma TaskRecorded(w: World, t: nat, bearers: seq<Option<string>>, phase: Phase)
    requires Inv(w) && t < |w.tasks| && FetchAccounted(w, bearers, phase)
    ensures Inv(w.(tasks := w.tasks[t := Fetch(bearers, phase)]))
  {
    var w' := w.(tasks := w.tasks[t := Fetch(bearers, phase)]);
    forall u | 0 <= u < |w'.tasks| && w'.tasks[u].Fetch?
      ensures FetchAccounted(w', w'.tasks[u].bearers, w'.tasks[u].phase)
    {
      if u != t {
        assert FetchAccounted(w, w.tasks[u].bearers, w.tasks[u].phase);
      }
    }
  }

  lemma FetchAnsweredKeepsInv(w: World, t: nat, net: NetReply)
    requires Inv(w) && Enabled(w, FetchReply(t, net))
    ensures Inv(FetchAnswered(w, t, net))
  {
    var bearers, phase := w.tasks[t].bearers, w.tasks[t].phase;
    assert FetchAccounted(w, bearers, phase);
    if phase.First? && net == Response(401) && bearers[0].Some? {
      RefreshKeepsInv(w);
      var (w', r) := Refresh(w);
      TaskRecorded(w', t, bearers, Waiting(r));
    } else {
      TaskRecorded(w, t, bearers, FetchAnswered(w, t, net).tasks[t].phase);
    }
  }

  lemma RefreshAnsweredKeepsInv(w: World, r: nat, reply: PostReply<Tokens>)
    requires Inv(w) && Enabled(w, RefreshReply(r, reply))
    ensures Inv(RefreshAnswered(w, r, reply))
  {
    var w' := RefreshAnswered(w, r, reply);
    TasksKept(w, w');
    assert w.inFlight == Some(r);
  }

  lemma ResumedKeepsInv(w: World, t: nat)
    requires Inv(w) && Enabled(w, Resume(t))
    ensures Inv(Resumed(w, t))
  {
    assert FetchAccounted(w, w.tasks[t].bearers, w.tasks[t].phase);
  }

  lemma CallKeepsInv(w: World, e: Event)
    requires Inv(w) && Enabled(w, e) && IsCall(e)
    ensures Inv(Step(w, e))
  {
    var w' := Step(w, e);
    forall u | 0 <= u < |w'.tasks| && w'.tasks[u].Fetch?
      ensures FetchAccounted(w', w'.tasks[u].bearers, w'.tasks[u].phase)
    {
      if u < |w.tasks| {
        assert FetchAccounted(w, w.tasks[u].bearers, w.tasks[u].phase);
      }
    }
  }

  lemma DoneKeepsTasks(w: World, w': World, t: nat)
    requires TasksAccounted(w) && t < |w.tasks| && w'.rounds == w.rounds
    requires |w'.tasks| == |w.tasks| && w'.tasks[t].Done?
    requires forall u :: 0 <= u < |w.tasks| && u != t ==> w'.tasks[u] == w.tasks[u]
    ensures TasksAccounted(w')
  {
    forall u | 0 <= u < |w'.tasks| && w'.tasks[u].Fetch?
      ensures FetchAccounted(w', w'.tasks[u].bearers, w'.tasks[u].phase)
    {
      assert FetchAccounted(w, w.tasks[u].bearers, w.tasks[u].phase);
    }
  }

  lemma LoginKeepsInv(w: World, t: nat, reply: PostReply<Session>)
    requires Inv(w) && Enabled(w, LoginReply(t, reply))
    ensures Inv(Step(w, LoginReply(t, reply)))
  {
    DoneKeepsTasks(w, Step(w, LoginReply(t, reply)), t);
  }

  lemma RestoreKeepsInv(w: World, t: nat, reply: PostReply<Tokens>)
    requires Inv(w) && Enabled(w, RestoreReply(t, reply))
    ensures Inv(Step(w, RestoreReply(t, reply)))
  {
    DoneKeepsTasks(w, Step(w, RestoreReply(t, reply)), t);
  }

  lemma LogoutKeepsInv(w: World, t: nat)
    requires Inv(w) && Enabled(w, LogoutReply(t))
    ensures Inv(Step(w, LogoutReply(t)))
  {
    DoneKeepsTasks(w, Step(w, LogoutReply(t)), t);
  }

  lemma StepKeepsInv(w: World, e: Event)
    requires Inv(w) && Enabled(w, e)
    ensures Inv(Step(w, e))
  {
    match e
    case FetchReply(t, net) => FetchAnsweredKeepsInv(w, t, net);
    case RefreshReply(r, reply) => RefreshAnsweredKeepsInv(w, r, reply);
    case Resume(t) => ResumedKeepsInv(w, t);
    case LoginReply(t, reply) => LoginKeepsInv(w, t, reply);
    case RestoreReply(t, reply) => RestoreKeepsInv(w, t, reply);
    case LogoutReply(t) => LogoutKeepsInv(w, t);
    case _ => CallKeepsInv(w, e);
  }

  lemma {:induction false} RunKeepsInv(w: World, es: seq<Event>)
    requires Inv(w) && ValidRun(w, es)
    ensures Inv(Run(w, es))
    decreases |es|
  {
    if es != [] {
      StepKeepsInv(w, es[0]);
      RunKeepsInv(Step(w, es[0]), es[1..]);
    }
  }

  // ---- What holds in every reachable state ----

  /** Over every interleaving no refresh token is put into an `/auth/refresh`
      body twice, and a stored token that has been submitted is the one the
      round in flight carries. */
  lemma NoTokenSentTwice(w: World, es: seq<Event>)
    requires Init(w) && ValidRun(w, es)
    ensures var w' := Run(w, es);
            && (forall i, j :: 0 <= i < j < |w'.refreshBodies| && w'.refreshBodies[i].Some? ==>
                  w'.refreshBodies[i] != w'.refreshBodies[j])
            && (BodyToken(w'.store).Some? && BodyToken(w'.store) in w'.refreshBodies ==>
                  exists r :: 0 <= r < |w'.rounds| && w'.rounds[r] == Pending(BodyToken(w'.store)))
  {
    InitInv(w);
    RunKeepsInv(w, es);
    var w' := Run(w, es);
    if BodyToken(w'.store).Some? && BodyToken(w'.store) in w'.refreshBodies {
      assert Submitted(w', w'.store.value.refresh);
      assert w'.rounds[w'.inFlight.value].Pending?;
    }
  }

  /** `refreshInFlight` never holds a settled promise, and never misses an
      unfinished one; at most one round is unfinished. */
  lemma FlagMatchesRounds(w: World, es: seq<Event>)
    requires Init(w) && ValidRun(w, es)
    ensures var w' := Run(w, es);
            && (w'.inFlight == None <==> forall r :: 0 <= r < |w'.rounds| ==> w'.rounds[r].Settled?)
            && (forall r :: w'.inFlight == Some(r) ==> r < |w'.rounds| && w'.rounds[r].Pending?)
            && (forall q, r | 0 <= q < |w'.rounds| && 0 <= r < |w'.rounds| ::
                  w'.rounds[q].Pending? && w'.rounds[r].Pending? ==> q == r)
  {
    InitInv(w);
    RunKeepsInv(w, es);
  }

  /** How a finished or retrying fetch call came out of its refresh round: the
      bearer it retried with, or the error it threw. */
  function Verdict(task: Task): Option<(Option<string>, Option<ErrorCode>)> {
    match task
    case Fetch(bearers, Second(_)) => if |bearers| == 2 then Some((bearers[1], None)) else None
    case Fetch(bearers, Over(ThrewAuth(e), Some(_))) => Some((None, Some(e)))
    case Fetch(bearers, Over(_, Some(_))) => if |bearers| == 2 then Some((bearers[1], None)) else None
    case _ => None
  }

  function JoinedOf(task: Task): Option<nat> {
    match task
    case Fetch(_, Second(r)) => Some(r)
    case Fetch(_, Over(_, joined)) => joined
    case _ => None
  }

  /** All calls that joined one round agree: each retried with the same access
      token, the one the round obtained, or each threw the same error. */
  lemma JoinersAgree(w: World, es: seq<Event>, t: nat, u: nat)
    requires Init(w) && ValidRun(w, es)
    requires t < |Run(w, es).tasks| && u < |Run(w, es).tasks|
    requires JoinedOf(Run(w, es).tasks[t]).Some?
    requires JoinedOf(Run(w, es).tasks[t]) == JoinedOf(Run(w, es).tasks[u])
    ensures var w' := Run(w, es);
            var r := JoinedOf(w'.tasks[t]).value;
            && Verdict(w'.tasks[t]) == Verdict(w'.tasks[u])
            && r < |w'.rounds| && w'.rounds[r].Settled?
            && Verdict(w'.tasks[t]) == Some(match w'.rounds[r].outcome
                                            case Success(tokens) => (Some(tokens.access), None)
                                            case Failure(e) => (None, Some(e)))
  {
    InitInv(w);
    RunKeepsInv(w, es);
    var w' := Run(w, es);
    assert FetchAccounted(w', w'.tasks[t].bearers, w'.tasks[t].phase);
    assert FetchAccounted(w', w'.tasks[u].bearers, w'.tasks[u].phase);
  }

  /** A fetch call sends its request at most twice, and the second send needs a
      token on the first and a successful round. */
  lemma FetchSendsAtMostTwice(w: World, es: seq<Event>, t: nat)
    requires Init(w) && ValidRun(w, es)
    requires t < |Run(w, es).tasks| && Run(w, es).tasks[t].Fetch?
    ensures var w' := Run(w, es);
            var bearers := w'.tasks[t].bearers;
            && 1 <= |bearers| <= 2
            && (|bearers| == 2 ==>
                  && bearers[0].Some?
                  && exists r :: 0 <= r < |w'.rounds| && w'.rounds[r].Settled?
                       && w'.rounds[r].outcome.Success?
                       && bearers[1] == Some(w'.rounds[r].outcome.tokens.access))
  {
    InitInv(w);
    RunKeepsInv(w, es);
    var w' := Run(w, es);
    assert FetchAccounted(w', w'.tasks[t].bearers, w'.tasks[t].phase);
  }

  /** `onSessionExpired` fires exactly once for each failed round; nothing else
      (a failed restore, a failed login, a logout) makes it fire. */
  lemma ExpiredOncePerFailedRound(w: World, es: seq<Event>)
    requires Init(w) && ValidRun(w, es)
    ensures var w' := Run(w, es);
            && (forall r: nat :: multiset(w'.expired)[r] ==
                  if r < |w'.rounds| && w'.rounds[r].Settled? && w'.rounds[r].outcome.Failure? then 1 else 0)
  {
    InitInv(w);
    RunKeepsInv(w, es);
    var w' := Run(w, es);
    forall r: nat
      ensures multiset(w'.expired)[r] ==
                if r < |w'.rounds| && w'.rounds[r].Settled? && w'.rounds[r].outcome.Failure? then 1 else 0
    {
      DistinctCount(w'.expired, r);
    }
  }

  lemma {:induction false} DistinctCount(s: seq<nat>, x: nat)
    requires forall i, j :: 0 <= i < j < |s| ==> s[i] != s[j]
    ensures multiset(s)[x] == if x in s then 1 else 0
  {
    if s != [] {
      DistinctCount(s[1..], x);
      assert s == [s[0]] + s[1..];
    }
  }

  // ---- Every call returns ----

  ghost predicate OnlyAnswers(es: seq<Event>) {
    forall i :: 0 <= i < |es| ==> !IsCall(es[i])
  }

  /** How many answers a call can still need. */
  function Weight(task: Task): nat {
    match task
    case Fetch(_, First) => 4
    case Fetch(_, Waiting(_)) => 2
    case Fetch(_, Second(_)) => 1
    case Fetch(_, Over(_, _)) => 0
    case Done(_) => 0
    case _ => 1
  }

  function TotalWeight(tasks: seq<Task>): nat {
    if tasks == [] then 0 else Weight(tasks[0]) + TotalWeight(tasks[1..])
  }

  function Outstanding(w: World): nat {
    TotalWeight(w.tasks) + if w.inFlight.Some? then 1 else 0
  }

  lemma {:induction false} TotalWeightUpdate(tasks: seq<Task>, t: nat, task: Task)
    requires t < |tasks|
    ensures TotalWeight(tasks[t := task]) + Weight(tasks[t]) == TotalWeight(tasks) + Weight(task)
  {
    if t == 0 {
      assert tasks[t := task][1..] == tasks[1..];
    } else {
      assert tasks[t := task][1..] == tasks[1..][t - 1 := task];
      TotalWeightUpdate(tasks[1..], t - 1, task);
    }
  }

  lemma FetchAnswerReduces(w: World, t: nat, net: NetReply)
    requires Inv(w) && Enabled(w, FetchReply(t, net))
    ensures Outstanding(FetchAnswered(w, t, net)) < Outstanding(w)
  {
    TotalWeightUpdate(w.tasks, t, FetchAnswered(w, t, net).tasks[t]);
  }

  lemma ResumeReduces(w: World, t: nat)
    requires Inv(w) && Enabled(w, Resume(t))
    ensures Outstanding(Resumed(w, t)) < Outstanding(w)
  {
    TotalWeightUpdate(w.tasks, t, Resumed(w, t).tasks[t]);
  }

  lemma AnswerReduces(w: World, e: Event)
    requires Inv(w) && Enabled(w, e) && !IsCall(e)
    ensures Outstanding(Step(w, e)) < Outstanding(w)
  {
    match e
    case RefreshReply(r, reply) =>
      assert w.inFlight == Some(r);
    case FetchReply(t, net) => FetchAnswerReduces(w, t, net);
    case Resume(t) => ResumeReduces(w, t);
    case LoginReply(t, reply) => TotalWeightUpdate(w.tasks, t, Done(reply.Ok?));
    case RestoreReply(t, reply) => TotalWeightUpdate(w.tasks, t, Done(reply.Ok?));
    case LogoutReply(t) => TotalWeightUpdate(w.tasks, t, Done(true));
  }

  /** With no new calls, no schedule of answers goes on for ever. */
  lemma {:induction false} AnswersRunOut(w: World, es: seq<Event>)
    requires Inv(w) && ValidRun(w, es) && OnlyAnswers(es)
    ensures |es| + Outstanding(Run(w, es)) <= Outstanding(w)
    decreases |es|
  {
    if es != [] {
      assert !IsCall(es[0]);
      AnswerReduces(w, es[0]);
      StepKeepsInv(w, es[0]);
      AnswersRunOut(Step(w, es[0]), es[1..]);
    }
  }

  lemma {:induction false} SomeTaskOpen(tasks: seq<Task>) returns (t: nat)
    requires TotalWeight(tasks) > 0
    ensures t < |tasks| && Weight(tasks[t]) > 0
  {
    if Weight(tasks[0]) > 0 {
      t := 0;
    } else {
      t := SomeTaskOpen(tasks[1..]);
      t := t + 1;
    }
  }

  /** As long as a call is open some answer can arrive: no call waits on a
      promise that nobody will settle. */
  lemma NoDeadlock(w: World)
    requires Inv(w) && Outstanding(w) > 0
    ensures exists e :: Enabled(w, e) && !IsCall(e)
  {
    if w.inFlight.Some? {
      assert Enabled(w, RefreshReply(w.inFlight.value, Rejected));
    } else {
      var t := SomeTaskOpen(w.tasks);
      match w.tasks[t]
      case Fetch(bearers, Waiting(r)) =>
        assert FetchAccounted(w, bearers, Waiting(r));
        assert Enabled(w, Resume(t));
      case Fetch(_, First) => assert Enabled(w, FetchReply(t, NetworkError));
      case Fetch(_, Second(_)) => assert Enabled(w, FetchReply(t, NetworkError));
      case Login => assert Enabled(w, LoginReply(t, Rejected));
      case Restore => assert Enabled(w, RestoreReply(t, Rejected));
      case Logout => assert Enabled(w, LogoutReply(t));
    }
  }

  // ---- When a stored session is safe from answers still to come ----

  ghost predicate SurvivesAllAnswers(w: World) {
    forall es :: ValidRun(w, es) && OnlyAnswers(es) ==> Run(w, es).store == w.store
  }

  /** No open call can touch storage any more: no round in flight, no login,
      restore or logout unanswered, no unanswered request that carried a token. */
  predicate Undisturbed(w: World) {
    && w.inFlight == None
    && forall t :: 0 <= t < |w.tasks| ==>
         match w.tasks[t]
         case Fetch(bearers, First) => |bearers| == 0 || bearers[0] == None
         case Fetch(_, _) => true
         case Done(_) => true
         case _ => false
  }

  /** A freshly stored session is not safe just because its login succeeded: a
      refresh round begun under the previous session may still fail and clear
      it.  It is safe exactly when `Undisturbed` holds. */
  lemma SessionSafety(w: World)
    requires Inv(w) && w.store.Some?
    ensures SurvivesAllAnswers(w) <==> Undisturbed(w)
  {
    if Undisturbed(w) {
      forall es | ValidRun(w, es) && OnlyAnswers(es)
        ensures Run(w, es).store == w.store
      {
        UndisturbedRun(w, es);
      }
    } else {
      var es := Disturbance(w);
      assert Run(w, es).store != w.store;
    }
  }

  lemma {:induction false} UndisturbedRun(w: World, es: seq<Event>)
    requires Undisturbed(w) && ValidRun(w, es) && OnlyAnswers(es) && Inv(w)
    ensures Run(w, es).store == w.store
    decreases |es|
  {
    if es != [] {
      assert !IsCall(es[0]);
      StepKeepsInv(w, es[0]);
      UndisturbedRun(Step(w, es[0]), es[1..]);
    }
  }

  lemma RunOne(w: World, e: Event)
    requires Enabled(w, e)
    ensures ValidRun(w, [e]) && Run(w, [e]) == Step(w, e)
  {
    assert [e][1..] == [];
    assert ValidRun(Step(w, e), []);
  }

  lemma RunTwo(w: World, e: Event, f: Event)
    requires Enabled(w, e) && Enabled(Step(w, e), f)
    ensures ValidRun(w, [e, f]) && Run(w, [e, f]) == Step(Step(w, e), f)
  {
    RunOne(Step(w, e), f);
    assert [e, f][1..] == [f];
  }

  lemma Disturbance(w: World) returns (es: seq<Event>)
    requires Inv(w) && w.store.Some? && !Undisturbed(w)
    ensures ValidRun(w, es) && OnlyAnswers(es) && Run(w, es).store != w.store
  {
    var other := Tokens(w.store.value.access + "'", "");
    assert |other.access| > |w.store.value.access|;
    if w.inFlight.Some? {
      var e := RefreshReply(w.inFlight.value, Rejected);
      RunOne(w, e);
      return [e];
    }
    var t :| 0 <= t < |w.tasks| &&
      match w.tasks[t]
      case Fetch(bearers, First) => |bearers| != 0 && bearers[0] != None
      case Fetch(_, _) => false
      case Done(_) => false
      case _ => true;
    match w.tasks[t]
    case Fetch(_, _) =>
      var e, f := FetchReply(t, Response(401)), RefreshReply(|w.rounds|, Rejected);
      RunTwo(w, e, f);
      return [e, f];
    case Login =>
      var e := LoginReply(t, Ok(Session("", other)));
      RunOne(w, e);
      return [e];
    case Restore =>
      var e := RestoreReply(t, Ok(other));
      RunOne(w, e);
      return [e];
    case Logout =>
      var e := LogoutReply(t);
      RunOne(w, e);
      return [e];
  }
}
