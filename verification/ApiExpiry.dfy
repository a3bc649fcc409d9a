/** How often one request can run into an expired session when nobody logs in or
    restores a session meanwhile: the worst case over all schedules, exactly. */
module ApiExpiry {
  import opened Prelude
  import opened AuthProtocol
  import opened ApiSession

  // ---- Schedules ----

  lemma {:induction false} PlayPush(c: Config, s: State, ms: seq<Move>, m: Move)
    requires Legal(c, s, ms) && CanMove(Play(c, s, ms), m)
    ensures Legal(c, s, ms + [m]) && Play(c, s, ms + [m]) == Next(c, Play(c, s, ms), m)
    decreases |ms|
  {
    if ms == [] {
      assert [m][1..] == [];
      assert Legal(c, Next(c, s, m), []);
    } else {
      PlayPush(c, Next(c, s, ms[0]), ms[1..], m);
      assert (ms + [m])[1..] == ms[1..] + [m];
    }
  }

  ghost predicate NoLogins(ms: seq<Move>) {
    forall m :: m in ms && m.Page? ==> !m.event.CallLogin? && !m.event.CallRestore?
  }

  /** A schedule without new logins or restores leads to `s`. */
  ghost predicate Reaches(c: Config, w: World, ms: seq<Move>, s: State) {
    Legal(c, Start(w), ms) && Play(c, Start(w), ms) == s && NoLogins(ms)
  }

  lemma Begin(c: Config, w: World) returns (ms: seq<Move>, s: State)
    ensures Reaches(c, w, ms, s) && s == Start(w)
  {
    ms, s := [], Start(w);
  }

  lemma ReachedIsGood(c: Config, w: World, ms: seq<Move>, s: State)
    requires Inv(w) && Reaches(c, w, ms, s)
    ensures Good(c, s)
  {
    StartIsGood(c, w);
    PlayKeeps(c, Start(w), ms);
  }

  lemma Reach(c: Config, w: World, ms: seq<Move>, s: State, m: Move) returns (ms': seq<Move>, s': State)
    requires Reaches(c, w, ms, s) && CanMove(s, m)
    requires m.Page? ==> !m.event.CallLogin? && !m.event.CallRestore?
    ensures s' == Next(c, s, m) && Reaches(c, w, ms', s')
  {
    PlayPush(c, Start(w), ms, m);
    ms', s' := ms + [m], Next(c, s, m);
  }

  // ---- Keeping other logins away is not enough ----

  /** A page with tokens in storage and nothing going on. */
  const OPENED: World := World(Some(Tokens("old", "")), None, None, true, [], [], [], [], {})

  const ONE_RETRY: Config := Config(true, 1)

  /** The request fails with its round while the other fetch is still unanswered. */
  lemma FirstExpiry() returns (ms: seq<Move>, s: State)
    ensures Reaches(ONE_RETRY, OPENED, ms, s)
    ensures s.calls == [0] && s.outcomes == [] && s.progress == Calling
    ensures s.world.store == None && s.world.inFlight == None && s.world.expired == [0]
    ensures s.world.rounds == [Settled(None, Failure(RefreshFailed))]
    ensures s.world.tasks == [Fetch([Some("old")], Waiting(0)), Fetch([Some("old")], First)]
    ensures s.world.issued == {}
  {
    ms, s := Begin(ONE_RETRY, OPENED);
    ms, s := Reach(ONE_RETRY, OPENED, ms, s, Page(CallFetch));
    ms, s := Reach(ONE_RETRY, OPENED, ms, s, Page(FetchReply(0, Response(401))));
    ms, s := Reach(ONE_RETRY, OPENED, ms, s, Page(RefreshReply(0, Rejected)));
  }

  lemma TokensReturn() returns (ms: seq<Move>, s: State)
    ensures Reaches(ONE_RETRY, OPENED, ms, s)
    ensures s.calls == [0] && s.outcomes == [] && s.progress == Calling && s.world.expired == [0]
    ensures s.world.store == Some(Tokens("new", "")) && s.world.inFlight == None
    ensures |s.world.rounds| == 2 && s.world.rounds[0] == Settled(None, Failure(RefreshFailed))
    ensures |s.world.tasks| == 2 && s.world.tasks[0] == Fetch([Some("old")], Waiting(0))
  {
    ms, s := FirstExpiry();
    ms, s := Reach(ONE_RETRY, OPENED, ms, s, Page(FetchReply(1, Response(401))));
    ms, s := Reach(ONE_RETRY, OPENED, ms, s, Page(RefreshReply(1, Ok(Tokens("new", "")))));
  }

  /** The other fetch brings tokens back, and the request's second attempt picks
      them up. */
  lemma Revival() returns (ms: seq<Move>, s: State)
    ensures Reaches(ONE_RETRY, OPENED, ms, s)
    ensures s.calls == [0, 2] && s.world.expired == [0]
    ensures s.world.inFlight == None && |s.world.rounds| == 2
    ensures |s.world.tasks| == 3 && s.world.tasks[2] == Fetch([Some("new")], First)
    ensures s.world.tasks[0] == Fetch([Some("old")], Over(ThrewAuth(RefreshFailed), Some(0)))
  {
    ms, s := TokensReturn();
    ms, s := Reach(ONE_RETRY, OPENED, ms, s, Page(Resume(0)));
    ms, s := Reach(ONE_RETRY, OPENED, ms, s, Conclude(true));
    ms, s := Reach(ONE_RETRY, OPENED, ms, s, Wake);
  }

  lemma SecondRound() returns (ms: seq<Move>, s: State)
    ensures Reaches(ONE_RETRY, OPENED, ms, s)
    ensures s.calls == [0, 2] && s.world.expired == [0]
    ensures s.world.inFlight == Some(2) && |s.world.rounds| == 3 && s.world.rounds[2].Pending?
    ensures |s.world.tasks| == 3 && s.world.tasks[2] == Fetch([Some("new")], Waiting(2))
    ensures s.world.tasks[0] == Fetch([Some("old")], Over(ThrewAuth(RefreshFailed), Some(0)))
  {
    ms, s := Revival();
    ms, s := Reach(ONE_RETRY, OPENED, ms, s, Page(FetchReply(2, Response(401))));
  }

  /** A second fetch, sent before the first round failed, opens a round of its own
      and brings tokens back; so one request can expire the session twice with no
      login or restore in between. */
  lemma AnotherFetchRevives() returns (ms: seq<Move>, s: State)
    ensures Init(OPENED) && Reaches(ONE_RETRY, OPENED, ms, s)
    ensures s.world.expired == [0, 2] && FailedRounds(s.world, s.calls) == {0, 2}
  {
    ms, s := SecondRound();
    ms, s := Reach(ONE_RETRY, OPENED, ms, s, Page(RefreshReply(2, Rejected)));
    TwoCalls(s.world, 0, 2);
  }

  lemma TwoCalls(w: World, t: nat, u: nat)
    ensures FailedRounds(w, [t, u]) == FailedRoundOf(w, t) + FailedRoundOf(w, u)
  {
    assert [t, u][..1] == [t];
    assert [t][..0] == [];
    assert FailedRounds(w, [t]) == FailedRoundOf(w, t);
  }

  // ---- The worst case ----

  /** Tokens can no longer come to an empty store without a new login or restore:
      no round in flight, no login or restore unanswered, no unanswered first send
      that carried a token. */
  predicate Dry(w: World) {
    && w.store == None && w.inFlight == None
    && forall t :: 0 <= t < |w.tasks| ==> !Source(w.tasks[t])
  }

  predicate Source(task: Task) {
    match task
    case Login => true
    case Restore => true
    case Fetch(bearers, First) => |bearers| > 0 && bearers[0].Some?
    case _ => false
  }

  function Attempts(c: Config): nat {
    if c.get then c.retries + 1 else 1
  }

  /** What can be seen before the request is made: the attempts it may take, less
      the first if it carries no token, and none at all if no token can turn up. */
  function Worst(c: Config, w: World): nat {
    if w.store.Some? then Attempts(c) else if Dry(w) then 0 else Attempts(c) - 1
  }

  // -- No schedule is worse --

  predicate Bare(w: World, t: nat) {
    t < |w.tasks| && w.tasks[t].Fetch? && |w.tasks[t].bearers| > 0 && w.tasks[t].bearers[0] == None
  }

  lemma BareNeverExpires(w: World, t: nat)
    requires Inv(w) && Bare(w, t)
    ensures FailedRoundOf(w, t) == {}
  {
    assert FetchAccounted(w, w.tasks[t].bearers, w.tasks[t].phase);
  }

  lemma {:induction false} AtMostOneRoundPerCall(w: World, calls: seq<nat>)
    requires Inv(w)
    ensures |FailedRounds(w, calls)| <= |calls|
    ensures calls != [] && Bare(w, calls[0]) ==> |FailedRounds(w, calls)| <= |calls| - 1
    ensures (forall i :: 0 <= i < |calls| ==> Bare(w, calls[i])) ==> FailedRounds(w, calls) == {}
  {
    if calls != [] {
      var front, t := calls[..|calls| - 1], calls[|calls| - 1];
      AtMostOneRoundPerCall(w, front);
      if Bare(w, t) {
        BareNeverExpires(w, t);
      }
      RoundOfCallIsOne(w, t);
    }
  }

  lemma RoundOfCallIsOne(w: World, t: nat)
    ensures |FailedRoundOf(w, t)| <= 1
  {
  }

  lemma BareStays(w: World, e: Event, t: nat)
    requires Inv(w) && Enabled(w, e) && Bare(w, t)
    ensures Bare(Step(w, e), t)
  {
    TaskMoves(w, e, t);
  }

  lemma {:induction false} FirstCallStaysBare(c: Config, s: State, ms: seq<Move>)
    requires Good(c, s) && Legal(c, s, ms) && Bare(s.world, s.calls[0])
    ensures var s' := Play(c, s, ms);
            s'.calls != [] && Bare(s'.world, s'.calls[0])
    decreases |ms|
  {
    if ms != [] {
      MoveKeepsGood(c, s, ms[0]);
      match ms[0] {
        case Page(e) => BareStays(s.world, e, s.calls[0]);
        case Conclude(_) =>
        case Wake => BareStays(s.world, CallFetch, s.calls[0]);
      }
      FirstCallStaysBare(c, Next(c, s, ms[0]), ms[1..]);
    }
  }

  ghost predicate DryThroughout(s: State) {
    Dry(s.world) && forall i :: 0 <= i < |s.calls| ==> Bare(s.world, s.calls[i])
  }

  lemma StepStaysDry(w: World, e: Event)
    requires Inv(w) && Enabled(w, e) && Dry(w) && !e.CallLogin? && !e.CallRestore?
    ensures Dry(Step(w, e))
  {
  }

  lemma {:induction false} DryPlay(c: Config, s: State, ms: seq<Move>)
    requires Good(c, s) && Legal(c, s, ms) && NoLogins(ms) && DryThroughout(s)
    ensures DryThroughout(Play(c, s, ms))
    decreases |ms|
  {
    if ms != [] {
      var m := ms[0];
      assert m in ms && NoLogins(ms[1..]);
      MoveKeepsGood(c, s, m);
      var e := if m.Page? then m.event else CallFetch;
      if !m.Conclude? {
        StepStaysDry(s.world, e);
        forall i | 0 <= i < |s.calls|
          ensures Bare(Step(s.world, e), s.calls[i])
        {
          BareStays(s.world, e, s.calls[i]);
        }
      }
      DryPlay(c, Next(c, s, m), ms[1..]);
    }
  }

  lemma NeverWorse(c: Config, w: World, ms: seq<Move>)
    requires Inv(w) && Legal(c, Start(w), ms) && NoLogins(ms)
    ensures var s := Play(c, Start(w), ms);
            |FailedRounds(s.world, s.calls)| <= Worst(c, w)
  {
    StartIsGood(c, w);
    PlayKeeps(c, Start(w), ms);
    var s := Play(c, Start(w), ms);
    if w.store == None {
      assert Bare(Start(w).world, Start(w).calls[0]);
      if Dry(w) {
        StepStaysDry(w, CallFetch);
        DryPlay(c, Start(w), ms);
      } else {
        FirstCallStaysBare(c, Start(w), ms);
      }
    }
    AtMostOneRoundPerCall(s.world, s.calls);
  }

  // -- Some schedule is as bad --

  function Latest(s: State): nat
    requires s.calls != []
  {
    s.calls[|s.calls| - 1]
  }

  /** The latest attempt is out with a token, and nothing stands in the way of a refresh. */
  ghost predicate Primed(s: State) {
    && s.calls != [] && Latest(s) < |s.world.tasks|
    && s.progress == Calling && s.world.store.Some? && s.world.inFlight == None
    && HoldsToken(s.world, Latest(s))
  }

  predicate HoldsToken(w: World, t: nat) {
    && t < |w.tasks| && w.tasks[t].Fetch? && w.tasks[t].phase.First?
    && |w.tasks[t].bearers| > 0 && w.tasks[t].bearers[0].Some?
  }

  /** The latest attempt has just failed with its round. */
  ghost predicate Struck(s: State) {
    && s.calls != [] && Latest(s) < |s.world.tasks|
    && s.progress == Calling && s.world.inFlight == None
    && var task := s.world.tasks[Latest(s)];
       && task.Fetch? && task.phase.Waiting?
       && task.phase.round < |s.world.rounds| && s.world.rounds[task.phase.round].Settled?
       && s.world.rounds[task.phase.round].outcome.Failure?
  }

  function Count(s: State): nat {
    |FailedRounds(s.world, s.calls)|
  }

  /** Let the page do something that does not concern the latest attempt's round. */
  lemma Go(c: Config, w: World, ms: seq<Move>, s: State, e: Event) returns (ms': seq<Move>, s': State)
    requires Inv(w) && Reaches(c, w, ms, s) && s.calls != [] && Enabled(s.world, e) && !e.CallLogin? && !e.CallRestore?
    requires FailedRoundOf(Step(s.world, e), Latest(s)) == FailedRoundOf(s.world, Latest(s))
    ensures s' == Next(c, s, Page(e)) && Reaches(c, w, ms', s') && Count(s') == Count(s)
  {
    ReachedIsGood(c, w, ms, s);
    FinishedCallsKeepRounds(s.world, e, s.calls[..|s.calls| - 1]);
    ms', s' := Reach(c, w, ms, s, Page(e));
  }

  /** Let the latest attempt's round fail. */
  lemma GoFail(c: Config, w: World, ms: seq<Move>, s: State, r: nat) returns (ms': seq<Move>, s': State)
    requires Inv(w) && Reaches(c, w, ms, s) && s.calls != []
    requires r < |s.world.rounds| && s.world.rounds[r].Pending? && FailedRoundOf(s.world, Latest(s)) == {}
    requires FailedRoundOf(Step(s.world, RefreshReply(r, Rejected)), Latest(s)) == {r}
    ensures s' == Next(c, s, Page(RefreshReply(r, Rejected))) && Reaches(c, w, ms', s') && Count(s') == Count(s) + 1
  {
    ReachedIsGood(c, w, ms, s);
    var e := RefreshReply(r, Rejected);
    FinishedCallsKeepRounds(s.world, e, s.calls[..|s.calls| - 1]);
    FailedRoundsSettled(s.world, s.calls[..|s.calls| - 1], r);
    OneMoreRound(s.world, Step(s.world, e), s.calls, r);
    ms', s' := Reach(c, w, ms, s, Page(e));
  }

  /** A 401 with no round in flight opens one. */
  lemma Opened(w: World, t: nat)
    requires HoldsToken(w, t) && w.inFlight == None
    ensures Enabled(w, FetchReply(t, Response(401)))
    ensures var w' := Step(w, FetchReply(t, Response(401)));
            && w'.tasks == w.tasks[t := Fetch(w.tasks[t].bearers, Waiting(|w.rounds|))]
            && w'.rounds == w.rounds + [Pending(BodyToken(w.store))] && w'.inFlight == Some(|w.rounds|)
            && w'.store == w.store
  {
  }

  const MINTED: Tokens := Tokens("", "")

  lemma Minted(w: World, r: nat)
    requires w.inFlight == Some(r) && r < |w.rounds| && w.rounds[r].Pending?
    ensures Enabled(w, RefreshReply(r, Ok(MINTED)))
    ensures var w' := Step(w, RefreshReply(r, Ok(MINTED)));
            && w'.tasks == w.tasks && w'.store == Some(MINTED) && w'.inFlight == None
            && w'.rounds == w.rounds[r := Settled(w.rounds[r].body, Success(MINTED))]
  {
  }

  /** 401, and the round fails. */
  lemma Strike(c: Config, w: World, ms: seq<Move>, s: State) returns (ms': seq<Move>, s': State)
    requires Inv(w) && Reaches(c, w, ms, s) && Primed(s)
    ensures Reaches(c, w, ms', s') && Struck(s') && Count(s') == Count(s) + 1
    ensures s'.calls == s.calls && s'.outcomes == s.outcomes
    ensures |s'.world.tasks| == |s.world.tasks|
    ensures forall h :: 0 <= h < |s.world.tasks| && h != Latest(s) ==> s'.world.tasks[h] == s.world.tasks[h]
  {
    Opened(s.world, Latest(s));
    ms', s' := Go(c, w, ms, s, FetchReply(Latest(s), Response(401)));
    ms', s' := GoFail(c, w, ms', s', |s.world.rounds|);
  }

  /** Another fetch, sent earlier with a token, has a round of its own and brings tokens back. */
  lemma Revive(c: Config, w: World, ms: seq<Move>, s: State, h: nat) returns (ms': seq<Move>, s': State)
    requires Inv(w) && Reaches(c, w, ms, s) && Struck(s) && HoldsToken(s.world, h) && h != Latest(s)
    ensures Reaches(c, w, ms', s') && Struck(s') && Count(s') == Count(s) && s'.world.store.Some?
    ensures s'.calls == s.calls && s'.outcomes == s.outcomes
  {
    Opened(s.world, h);
    ms', s' := Go(c, w, ms, s, FetchReply(h, Response(401)));
    Minted(s'.world, |s.world.rounds|);
    ms', s' := Go(c, w, ms', s', RefreshReply(|s.world.rounds|, Ok(MINTED)));
  }

  /** The request is told, sleeps and tries again with the new token. */
  lemma TryAgain(c: Config, w: World, ms: seq<Move>, s: State) returns (ms': seq<Move>, s': State)
    requires Inv(w) && Reaches(c, w, ms, s) && Struck(s) && s.world.store.Some? && c.get && |s.outcomes| < c.retries
    ensures Reaches(c, w, ms', s') && Primed(s') && Count(s') == Count(s)
    ensures |s'.calls| == |s.calls| + 1 && |s'.outcomes| == |s.outcomes| + 1
  {
    ms', s' := Go(c, w, ms, s, Resume(Latest(s)));
    ms', s' := Reach(c, w, ms', s', Conclude(true));
    ms', s' := WakeUp(c, w, ms', s');
  }

  lemma WakeUp(c: Config, w: World, ms: seq<Move>, s: State) returns (ms': seq<Move>, s': State)
    requires Inv(w) && Reaches(c, w, ms, s)
    requires s.progress.Sleeping? && s.world.store.Some? && s.world.inFlight == None
    ensures Reaches(c, w, ms', s') && Primed(s') && Count(s') == Count(s)
    ensures |s'.calls| == |s.calls| + 1 && s'.outcomes == s.outcomes
  {
    ReachedIsGood(c, w, ms, s);
    FinishedCallsKeepRounds(s.world, CallFetch, s.calls);
    ms', s' := Reach(c, w, ms, s, Wake);
    assert s'.calls[..|s.calls|] == s.calls;
  }

  /** Another fetch is sent while the attempt is out. */
  lemma Accompany(c: Config, w: World, ms: seq<Move>, s: State) returns (ms': seq<Move>, s': State, h: nat)
    requires Inv(w) && Reaches(c, w, ms, s) && Primed(s)
    ensures Reaches(c, w, ms', s') && Primed(s') && Count(s') == Count(s)
    ensures s'.calls == s.calls && s'.outcomes == s.outcomes
    ensures h != Latest(s') && HoldsToken(s'.world, h)
  {
    h := |s.world.tasks|;
    ms', s' := Go(c, w, ms, s, CallFetch);
  }

  /** Every attempt still allowed can be made to fail with a round of its own. */
  lemma {:induction false} Climb(c: Config, w: World, ms: seq<Move>, s: State) returns (ms': seq<Move>, s': State)
    requires Inv(w) && Reaches(c, w, ms, s) && Primed(s) && |s.calls| == |s.outcomes| + 1 <= Attempts(c)
    ensures Reaches(c, w, ms', s') && Count(s') == Count(s) + 1 + Attempts(c) - |s.calls|
    decreases Attempts(c) - |s.calls|
  {
    if |s.calls| == Attempts(c) {
      ms', s' := Strike(c, w, ms, s);
    } else {
      var h;
      ms', s', h := Accompany(c, w, ms, s);
      ms', s' := Strike(c, w, ms', s');
      ms', s' := Revive(c, w, ms', s', h);
      ms', s' := TryAgain(c, w, ms', s');
      ms', s' := Climb(c, w, ms', s');
    }
  }

  /** Settle the round that may be in flight at the start. */
  lemma PrimeFirst(c: Config, w: World) returns (ms: seq<Move>, s: State)
    requires Inv(w) && w.store.Some?
    ensures Reaches(c, w, ms, s) && Primed(s) && |s.calls| == 1 && s.outcomes == [] && Count(s) == 0
  {
    ms, s := Begin(c, w);
    FirstCount(s);
    if w.inFlight.Some? {
      ms, s := Go(c, w, ms, s, RefreshReply(w.inFlight.value, Ok(MINTED)));
    }
  }

  lemma FirstCount(s: State)
    requires |s.calls| == 1
    ensures FailedRounds(s.world, s.calls) == FailedRoundOf(s.world, s.calls[0])
  {
    assert s.calls[..0] == [];
    assert FailedRounds(s.world, []) == {};
  }

  /** With an empty store: some source brings tokens while the first attempt is out. */
  lemma Water(c: Config, w: World) returns (ms: seq<Move>, s: State)
    requires Inv(w) && w.store == None && !Dry(w)
    ensures Reaches(c, w, ms, s) && s.calls == [|w.tasks|] && s.progress == Calling && s.outcomes == []
    ensures s.world.store.Some? && s.world.inFlight == None
    ensures |w.tasks| < |s.world.tasks| && s.world.tasks[|w.tasks|] == Fetch([None], First)
  {
    ms, s := Begin(c, w);
    if w.inFlight.Some? {
      ms, s := Reach(c, w, ms, s, Page(RefreshReply(w.inFlight.value, Ok(MINTED))));
    } else {
      var t :| 0 <= t < |w.tasks| && Source(w.tasks[t]);
      match w.tasks[t]
      case Login => ms, s := Reach(c, w, ms, s, Page(LoginReply(t, Ok(Session("", MINTED)))));
      case Restore => ms, s := Reach(c, w, ms, s, Page(RestoreReply(t, Ok(MINTED))));
      case Fetch(_, First) =>
        ms, s := Reach(c, w, ms, s, Page(FetchReply(t, Response(401))));
        ms, s := Reach(c, w, ms, s, Page(RefreshReply(|w.rounds|, Ok(MINTED))));
    }
  }

  lemma PrimeSecond(c: Config, w: World) returns (ms: seq<Move>, s: State)
    requires Inv(w) && w.store == None && !Dry(w) && c.get && c.retries > 0
    ensures Reaches(c, w, ms, s) && Primed(s) && |s.calls| == 2 && |s.outcomes| == 1 && Count(s) == 0
  {
    ms, s := Water(c, w);
    FirstCount(s);
    ms, s := Go(c, w, ms, s, FetchReply(|w.tasks|, NetworkError));
    ms, s := Reach(c, w, ms, s, Conclude(true));
    ms, s := WakeUp(c, w, ms, s);
  }

  lemma WorstHappens(c: Config, w: World) returns (ms: seq<Move>, s: State)
    requires Inv(w)
    ensures Reaches(c, w, ms, s) && Count(s) == Worst(c, w)
  {
    if w.store.Some? {
      ms, s := PrimeFirst(c, w);
      ms, s := Climb(c, w, ms, s);
    } else if Dry(w) || Attempts(c) == 1 {
      ms, s := Begin(c, w);
      FirstCount(s);
    } else {
      ms, s := PrimeSecond(c, w);
      ms, s := Climb(c, w, ms, s);
    }
  }

  /** The number of expired sessions one request runs into stays within a bound on
      every schedule without new logins and restores if and only if the worst case
      does, which is known before the request is made. */
  lemma ExpiriesBounded(c: Config, w: World, bound: nat)
    requires Inv(w)
    ensures (forall ms :: Legal(c, Start(w), ms) && NoLogins(ms) ==> Count(Play(c, Start(w), ms)) <= bound)
       <==> Worst(c, w) <= bound
  {
    if Worst(c, w) <= bound {
      forall ms | Legal(c, Start(w), ms) && NoLogins(ms)
        ensures Count(Play(c, Start(w), ms)) <= bound
      {
        NeverWorse(c, w, ms);
      }
    } else {
      var ms, s := WorstHappens(c, w);
      assert Count(Play(c, Start(w), ms)) > bound;
    }
  }

  /** So the user is sure to be told at most once exactly when a second attempt
      with a token is out of the question. */
  lemma OneExpiryAtMost(c: Config, w: World)
    requires Inv(w)
    ensures (forall ms :: Legal(c, Start(w), ms) && NoLogins(ms) ==> Count(Play(c, Start(w), ms)) <= 1)
       <==> !c.get || c.retries == 0 || (w.store == None && (c.retries == 1 || Dry(w)))
  {
    ExpiriesBounded(c, w, 1);
  }
}
