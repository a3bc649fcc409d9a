/** One API request running over the auth client, interleaved with everything
    else the page does: other fetches, refresh rounds, logins and logouts. */
module ApiSession {
  import opened Prelude
  import opened AuthProtocol
  import opened ApiClient

  datatype Progress = Calling | Sleeping | Finished(result: Result)

  datatype State = State(
    world: World,
    calls: seq<nat>,         // the `auth.fetch` calls of the request, by task
    outcomes: seq<Attempt>,  // how the concluded ones came out
    progress: Progress,
    refills: nat             // replies that brought tokens to an empty store
  )

  datatype Move =
    | Page(event: Event)      // anything the auth client does
    | Conclude(parses: bool)  // the request picks up the outcome of its call
    | Wake                    // the pause is over

  datatype Config = Config(get: bool, retries: nat)

  predicate BringsTokens(e: Event) {
    match e
    case RefreshReply(_, Ok(_)) => true
    case LoginReply(_, Ok(_)) => true
    case RestoreReply(_, Ok(_)) => true
    case _ => false
  }

  predicate IsOver(w: World, t: nat) {
    t < |w.tasks| && w.tasks[t].Fetch? && w.tasks[t].phase.Over?
  }

  function Start(w: World): State {
    State(Step(w, CallFetch), [|w.tasks|], [], Calling, 0)
  }

  predicate CanMove(s: State, m: Move) {
    match m
    case Page(e) => Enabled(s.world, e)
    case Conclude(_) => s.progress.Calling? && s.calls != [] && IsOver(s.world, s.calls[|s.calls| - 1])
    case Wake => s.progress.Sleeping?
  }

  function Next(c: Config, s: State, m: Move): State
    requires CanMove(s, m)
  {
    match m
    case Page(e) =>
      s.(world := Step(s.world, e),
         refills := s.refills + if BringsTokens(e) && s.world.store == None then 1 else 0)
    case Conclude(parses) =>
      var a := Attempt(s.world.tasks[s.calls[|s.calls| - 1]].phase.result, parses);
      var again := c.get && Transient(a) && |s.outcomes| < c.retries;
      s.(outcomes := s.outcomes + [a], progress := if again then Sleeping else Finished(Report(a)))
    case Wake =>
      s.(world := Step(s.world, CallFetch), calls := s.calls + [|s.world.tasks|], progress := Calling)
  }

  predicate Legal(c: Config, s: State, ms: seq<Move>)
    decreases |ms|
  {
    ms == [] || (CanMove(s, ms[0]) && Legal(c, Next(c, s, ms[0]), ms[1..]))
  }

  function Play(c: Config, s: State, ms: seq<Move>): State
    requires Legal(c, s, ms)
    decreases |ms|
  {
    if ms == [] then s else Play(c, Next(c, s, ms[0]), ms[1..])
  }

  // ---- The request's own bookkeeping ----

  ghost predicate CallsAreFetches(w: World, calls: seq<nat>) {
    && (forall i :: 0 <= i < |calls| ==> calls[i] < |w.tasks| && w.tasks[calls[i]].Fetch?)
    && (forall i :: 0 <= i < |calls| - 1 ==> IsOver(w, calls[i]))
    && (forall i, j :: 0 <= i < j < |calls| ==> calls[i] < calls[j])
  }

  ghost predicate Booked(c: Config, s: State) {
    var n := |s.outcomes|;
    && |s.calls| == n + (if s.progress.Calling? then 1 else 0)
    && 1 <= |s.calls| <= c.retries + 1
    && (|s.calls| > 1 ==> c.get)
    && (forall i :: 0 <= i < n - 1 ==> Transient(s.outcomes[i]))
    && (forall i :: 0 <= i < n ==>
          IsOver(s.world, s.calls[i]) && s.world.tasks[s.calls[i]].phase.result == s.outcomes[i].net)
    && match s.progress
       case Calling => n > 0 ==> Transient(s.outcomes[n - 1])
       case Sleeping => c.get && n <= c.retries && Transient(s.outcomes[n - 1])
       case Finished(result) => Transcript(c.get, c.retries, s.outcomes, n, result)
  }

  ghost predicate Good(c: Config, s: State) {
    Inv(s.world) && CallsAreFetches(s.world, s.calls) && Booked(c, s)
  }

  /** Fetch calls stay fetch calls, finished ones stay as they are, and the token
      of the first send is on record for good. */
  lemma TaskMoves(w: World, e: Event, t: nat)
    requires Inv(w) && Enabled(w, e) && t < |w.tasks| && w.tasks[t].Fetch?
    ensures var w' := Step(w, e);
            && t < |w'.tasks| && w'.tasks[t].Fetch?
            && |w'.tasks[t].bearers| >= 1 && |w.tasks[t].bearers| >= 1
            && w'.tasks[t].bearers[0] == w.tasks[t].bearers[0]
            && (w.tasks[t].phase.Over? ==> w'.tasks[t] == w.tasks[t])
  {
    assert FetchAccounted(w, w.tasks[t].bearers, w.tasks[t].phase);
  }

  ghost predicate KeepsCalls(w: World, w': World, calls: seq<nat>) {
    forall i :: 0 <= i < |calls| && calls[i] < |w.tasks| ==>
      && calls[i] < |w'.tasks|
      && (w.tasks[calls[i]].Fetch? ==> w'.tasks[calls[i]].Fetch?)
      && (IsOver(w, calls[i]) ==> w'.tasks[calls[i]] == w.tasks[calls[i]])
  }

  lemma StepKeepsCalls(w: World, e: Event, calls: seq<nat>)
    requires Inv(w) && Enabled(w, e) && CallsAreFetches(w, calls)
    ensures KeepsCalls(w, Step(w, e), calls)
  {
    forall i | 0 <= i < |calls|
      ensures calls[i] < |Step(w, e).tasks| && Step(w, e).tasks[calls[i]].Fetch?
      ensures IsOver(w, calls[i]) ==> Step(w, e).tasks[calls[i]] == w.tasks[calls[i]]
    {
      TaskMoves(w, e, calls[i]);
    }
  }

  lemma GoodCarriesOver(c: Config, s: State, s': State)
    requires Good(c, s) && Inv(s'.world) && KeepsCalls(s.world, s'.world, s.calls)
    requires s'.calls == s.calls && s'.outcomes == s.outcomes && s'.progress == s.progress
    ensures Good(c, s')
  {
  }

  lemma PageKeepsCalls(c: Config, s: State, e: Event)
    requires Good(c, s) && Enabled(s.world, e)
    ensures Good(c, Next(c, s, Page(e)))
  {
    StepKeepsInv(s.world, e);
    StepKeepsCalls(s.world, e, s.calls);
    GoodCarriesOver(c, s, Next(c, s, Page(e)));
  }

  lemma ConcludeKeepsGood(c: Config, s: State, parses: bool)
    requires Good(c, s) && CanMove(s, Conclude(parses))
    ensures Good(c, Next(c, s, Conclude(parses)))
  {
  }

  lemma WakeKeepsGood(c: Config, s: State)
    requires Good(c, s) && CanMove(s, Wake)
    ensures Good(c, Next(c, s, Wake))
  {
    StepKeepsInv(s.world, CallFetch);
    StepKeepsCalls(s.world, CallFetch, s.calls);
  }

  lemma MoveKeepsGood(c: Config, s: State, m: Move)
    requires Good(c, s) && CanMove(s, m)
    ensures Good(c, Next(c, s, m))
  {
    match m
    case Page(e) => PageKeepsCalls(c, s, e);
    case Conclude(parses) => ConcludeKeepsGood(c, s, parses);
    case Wake => WakeKeepsGood(c, s);
  }

  // ---- Sends and expiries ----

  /** Resource requests sent by the calls, retries after a refresh included. */
  function Sends(w: World, calls: seq<nat>): nat {
    if calls == [] then 0
    else
      var t := calls[|calls| - 1];
      Sends(w, calls[..|calls| - 1]) + if t < |w.tasks| && w.tasks[t].Fetch? then |w.tasks[t].bearers| else 0
  }

  lemma {:induction false} SendsAtMostTwicePerCall(w: World, calls: seq<nat>)
    requires Inv(w) && CallsAreFetches(w, calls)
    ensures |calls| <= Sends(w, calls) <= 2 * |calls|
  {
    if calls != [] {
      var front, t := calls[..|calls| - 1], calls[|calls| - 1];
      forall i | 0 <= i < |front|
        ensures front[i] == calls[i]
      {
      }
      SendsAtMostTwicePerCall(w, front);
      assert FetchAccounted(w, w.tasks[t].bearers, w.tasks[t].phase);
    }
  }

  /** The failed round a call was caught in, from the moment the round fails. */
  function FailedRoundOf(w: World, t: nat): set<nat> {
    if t < |w.tasks| && w.tasks[t].Fetch? then
      match w.tasks[t].phase
      case Waiting(r) => if r < |w.rounds| && w.rounds[r].Settled? && w.rounds[r].outcome.Failure? then {r} else {}
      case Over(ThrewAuth(_), Some(r)) => {r}
      case _ => {}
    else {}
  }

  /** The expired sessions the request ran into, each a distinct round. */
  function FailedRounds(w: World, calls: seq<nat>): set<nat> {
    if calls == [] then {}
    else FailedRounds(w, calls[..|calls| - 1]) + FailedRoundOf(w, calls[|calls| - 1])
  }

  /** A call that may still run into an expired session. */
  predicate Exposed(w: World, t: nat) {
    && t < |w.tasks| && w.tasks[t].Fetch? && !w.tasks[t].phase.Over?
    && |w.tasks[t].bearers| >= 1 && w.tasks[t].bearers[0].Some?
    && FailedRoundOf(w, t) == {}
  }

  predicate Armed(w: World, calls: seq<nat>) {
    w.store.Some? || (calls != [] && Exposed(w, calls[|calls| - 1]))
  }

  ghost predicate Bounded(s: State) {
    |FailedRounds(s.world, s.calls)| + (if Armed(s.world, s.calls) then 1 else 0) <= s.refills + 1
  }

  lemma {:induction false} FinishedCallsKeepRounds(w: World, e: Event, calls: seq<nat>)
    requires Inv(w) && Enabled(w, e)
    requires forall i :: 0 <= i < |calls| ==> IsOver(w, calls[i])
    ensures FailedRounds(Step(w, e), calls) == FailedRounds(w, calls)
  {
    if calls != [] {
      FinishedCallsKeepRounds(w, e, calls[..|calls| - 1]);
      TaskMoves(w, e, calls[|calls| - 1]);
    }
  }

  lemma LastCallMoves(w: World, e: Event, t: nat)
    requires Inv(w) && Enabled(w, e) && t < |w.tasks| && w.tasks[t].Fetch?
    ensures var w' := Step(w, e);
            && (FailedRoundOf(w, t) != {} ==> FailedRoundOf(w', t) == FailedRoundOf(w, t))
            && (Exposed(w', t) ==> Exposed(w, t))
            && (FailedRoundOf(w', t) != FailedRoundOf(w, t) ==>
                  Exposed(w, t) && !Exposed(w', t) && w'.store == None && |FailedRoundOf(w', t)| == 1)
  {
    assert FetchAccounted(w, w.tasks[t].bearers, w.tasks[t].phase);
    TaskMoves(w, e, t);
  }

  /** The failed rounds met, seen from the last call alone. */
  lemma CountFromLast(w: World, w': World, calls: seq<nat>)
    requires calls != [] && FailedRounds(w', calls[..|calls| - 1]) == FailedRounds(w, calls[..|calls| - 1])
    ensures var t := calls[|calls| - 1];
            && (FailedRoundOf(w', t) == FailedRoundOf(w, t) ==> FailedRounds(w', calls) == FailedRounds(w, calls))
            && (FailedRoundOf(w, t) == {} && |FailedRoundOf(w', t)| == 1 ==>
                  |FailedRounds(w', calls)| <= |FailedRounds(w, calls)| + 1)
  {
    var t := calls[|calls| - 1];
    if FailedRoundOf(w, t) == {} && |FailedRoundOf(w', t)| == 1 {
      var r :| r in FailedRoundOf(w', t);
      assert FailedRoundOf(w', t) - {r} == {};
      assert FailedRoundOf(w', t) == {r};
      assert FailedRounds(w', calls) == FailedRounds(w, calls) + {r};
    }
  }

  /** The balance carries over to a world in which the last call has moved on. */
  lemma BalanceCarriesOver(s: State, s': State)
    requires Bounded(s) && s.calls != [] && s'.calls == s.calls
    requires var w, w', t := s.world, s'.world, s.calls[|s.calls| - 1];
             && FailedRounds(w', s.calls[..|s.calls| - 1]) == FailedRounds(w, s.calls[..|s.calls| - 1])
             && (Exposed(w', t) ==> Exposed(w, t))
             && (FailedRoundOf(w, t) != {} ==> FailedRoundOf(w', t) == FailedRoundOf(w, t))
             && (FailedRoundOf(w', t) != FailedRoundOf(w, t) ==>
                   Exposed(w, t) && !Exposed(w', t) && w'.store == None && |FailedRoundOf(w', t)| == 1)
             && s'.refills >= s.refills + if w'.store.Some? && w.store == None then 1 else 0
    ensures Bounded(s')
  {
    CountFromLast(s.world, s'.world, s.calls);
  }

  lemma PageKeepsBounded(c: Config, s: State, e: Event)
    requires Good(c, s) && Bounded(s) && Enabled(s.world, e)
    ensures Bounded(Next(c, s, Page(e)))
  {
    var n := |s.calls| - 1;
    FinishedCallsKeepRounds(s.world, e, s.calls[..n]);
    LastCallMoves(s.world, e, s.calls[n]);
    PageKeepsStore(s.world, e);
    BalanceCarriesOver(s, Next(c, s, Page(e)));
  }

  lemma WakeKeepsBounded(c: Config, s: State)
    requires Good(c, s) && Bounded(s) && CanMove(s, Wake)
    ensures Bounded(Next(c, s, Wake))
  {
    FinishedCallsKeepRounds(s.world, CallFetch, s.calls);
    assert (s.calls + [|s.world.tasks|])[..|s.calls|] == s.calls;
  }

  lemma MoveKeepsBounded(c: Config, s: State, m: Move)
    requires Good(c, s) && Bounded(s) && CanMove(s, m)
    ensures Bounded(Next(c, s, m))
  {
    match m
    case Page(e) => PageKeepsBounded(c, s, e);
    case Conclude(_) =>
    case Wake => WakeKeepsBounded(c, s);
  }

  lemma PageKeepsStore(w: World, e: Event)
    requires Enabled(w, e)
    ensures Step(w, e).store.Some? && w.store == None ==> BringsTokens(e)
  {
  }

  lemma {:induction false} PlayKeeps(c: Config, s: State, ms: seq<Move>)
    requires Good(c, s) && Bounded(s) && Legal(c, s, ms)
    ensures Good(c, Play(c, s, ms)) && Bounded(Play(c, s, ms))
    decreases |ms|
  {
    if ms != [] {
      MoveKeepsGood(c, s, ms[0]);
      MoveKeepsBounded(c, s, ms[0]);
      PlayKeeps(c, Next(c, s, ms[0]), ms[1..]);
    }
  }

  lemma StartIsGood(c: Config, w: World)
    requires Inv(w)
    ensures Good(c, Start(w)) && Bounded(Start(w))
  {
    StepKeepsInv(w, CallFetch);
    assert [|w.tasks|][..0] == [];
  }

  // ---- What one request costs, whatever else the page does ----

  lemma {:induction false} FailedRoundsExpired(w: World, calls: seq<nat>)
    requires Inv(w) && CallsAreFetches(w, calls)
    ensures forall r :: r in FailedRounds(w, calls) ==> r in w.expired
  {
    if calls != [] {
      var front, t := calls[..|calls| - 1], calls[|calls| - 1];
      forall i | 0 <= i < |front|
        ensures front[i] == calls[i]
      {
      }
      FailedRoundsExpired(w, front);
      assert FetchAccounted(w, w.tasks[t].bearers, w.tasks[t].phase);
    }
  }

  /** What a request has cost so far, and how it ended if it has. */
  ghost predicate Accounted(c: Config, s: State) {
    && 1 <= |s.calls| <= c.retries + 1
    && (!c.get ==> |s.calls| == 1)
    && Sends(s.world, s.calls) <= 2 * |s.calls|
    && (forall r :: r in FailedRounds(s.world, s.calls) ==> r in s.world.expired)
    && |FailedRounds(s.world, s.calls)| <= 1 + s.refills
    && (s.progress.Finished? ==>
          && Transcript(c.get, c.retries, s.outcomes, |s.calls|, s.progress.result)
          && forall i :: 0 <= i < |s.calls| ==>
               && IsOver(s.world, s.calls[i])
               && s.world.tasks[s.calls[i]].phase.result == s.outcomes[i].net)
  }

  lemma GoodIsAccounted(c: Config, s: State)
    requires Good(c, s) && Bounded(s)
    ensures Accounted(c, s)
  {
    SendsAtMostTwicePerCall(s.world, s.calls);
    FailedRoundsExpired(s.world, s.calls);
  }

  /** At most `retries + 1` calls to `auth.fetch`, one unless the method is GET,
      and at most two sends for each; a result that the attempts account for; and
      at most one expired session, plus one for each time an emptied store was
      given tokens again while the request was under way. */
  lemma RequestIsBounded(c: Config, w: World, ms: seq<Move>)
    requires Inv(w) && Legal(c, Start(w), ms)
    ensures Accounted(c, Play(c, Start(w), ms))
  {
    StartIsGood(c, w);
    PlayKeeps(c, Start(w), ms);
    GoodIsAccounted(c, Play(c, Start(w), ms));
  }

  // ---- A request with the page to itself ----

  /** No call of anybody's is open. */
  predicate Quiet(w: World) {
    w.inFlight == None && forall t :: 0 <= t < |w.tasks| ==> w.tasks[t].Done? || IsOver(w, t)
  }

  ghost predicate NoOtherCalls(ms: seq<Move>) {
    forall i :: 0 <= i < |ms| && ms[i].Page? ==> !IsCall(ms[i].event)
  }

  ghost predicate OthersIdle(w: World, last: nat) {
    forall t :: 0 <= t < |w.tasks| && t != last ==> w.tasks[t].Done? || IsOver(w, t)
  }

  /** Tokens leave the store only by the failure of the latest call's round. */
  ghost predicate OwnRound(w: World, last: nat) {
    && last < |w.tasks| && w.tasks[last].Fetch?
    && (forall r :: w.inFlight == Some(r) ==> w.store.Some? && w.tasks[last].phase == Waiting(r))
    && (w.tasks[last].phase.First? && |w.tasks[last].bearers| > 0 && w.tasks[last].bearers[0].Some? ==> w.store.Some?)
  }

  ghost predicate Alone(w: World, calls: seq<nat>, base: nat) {
    && calls != []
    && OthersIdle(w, calls[|calls| - 1])
    && OwnRound(w, calls[|calls| - 1])
    && |w.expired| <= base + |FailedRounds(w, calls)|
  }

  lemma PageKeepsOthersIdle(w: World, e: Event, last: nat)
    requires Enabled(w, e) && !IsCall(e) && OthersIdle(w, last)
    ensures OthersIdle(Step(w, e), last)
  {
  }

  lemma PageKeepsOwnRound(w: World, e: Event, last: nat)
    requires Inv(w) && Enabled(w, e) && !IsCall(e) && OthersIdle(w, last) && OwnRound(w, last)
    ensures OwnRound(Step(w, e), last)
  {
    TaskMoves(w, e, last);
  }

  lemma ExpiryIsOwn(w: World, e: Event, last: nat)
    requires Inv(w) && Enabled(w, e) && OwnRound(w, last)
    ensures var w' := Step(w, e);
            || w'.expired == w.expired
            || (e.RefreshReply? && w'.expired == w.expired + [e.round]
                && w.rounds[e.round].Pending? && FailedRoundOf(w', last) == {e.round})
  {
  }

  /** `r` is in the last call's set and in no earlier one's. */
  lemma OneMoreRound(w: World, w': World, calls: seq<nat>, r: nat)
    requires calls != [] && FailedRounds(w', calls[..|calls| - 1]) == FailedRounds(w, calls[..|calls| - 1])
    requires FailedRoundOf(w', calls[|calls| - 1]) == {r} && FailedRoundOf(w, calls[|calls| - 1]) == {}
    requires r !in FailedRounds(w, calls[..|calls| - 1])
    ensures |FailedRounds(w', calls)| == |FailedRounds(w, calls)| + 1
  {
    assert FailedRounds(w', calls) == FailedRounds(w, calls) + {r};
  }

  lemma PageCountsExpired(w: World, e: Event, calls: seq<nat>)
    requires Inv(w) && Enabled(w, e) && CallsAreFetches(w, calls) && calls != []
    requires OwnRound(w, calls[|calls| - 1])
    ensures var w' := Step(w, e);
            |w'.expired| - |w.expired| <= |FailedRounds(w', calls)| - |FailedRounds(w, calls)|
  {
    var n := |calls| - 1;
    var w' := Step(w, e);
    FinishedCallsKeepRounds(w, e, calls[..n]);
    LastCallMoves(w, e, calls[n]);
    ExpiryIsOwn(w, e, calls[n]);
    if w'.expired == w.expired {
      RoundsOnlyGrow(w, w', calls);
    } else {
      FailedRoundsSettled(w, calls[..n], e.round);
      OneMoreRound(w, w', calls, e.round);
    }
  }

  lemma RoundsOnlyGrow(w: World, w': World, calls: seq<nat>)
    requires calls != [] && FailedRounds(w', calls[..|calls| - 1]) == FailedRounds(w, calls[..|calls| - 1])
    requires FailedRoundOf(w, calls[|calls| - 1]) <= FailedRoundOf(w', calls[|calls| - 1])
    ensures |FailedRounds(w, calls)| <= |FailedRounds(w', calls)|
  {
    SubsetSize(FailedRounds(w, calls), FailedRounds(w', calls));
  }

  lemma PageKeepsAlone(w: World, e: Event, calls: seq<nat>, base: nat)
    requires Inv(w) && Enabled(w, e) && CallsAreFetches(w, calls) && !IsCall(e) && Alone(w, calls, base)
    ensures Alone(Step(w, e), calls, base)
  {
    PageKeepsOthersIdle(w, e, calls[|calls| - 1]);
    PageKeepsOwnRound(w, e, calls[|calls| - 1]);
    PageCountsExpired(w, e, calls);
  }

  lemma {:induction false} FailedRoundsSettled(w: World, calls: seq<nat>, r: nat)
    requires Inv(w) && r < |w.rounds| && w.rounds[r].Pending?
    requires forall i :: 0 <= i < |calls| ==> IsOver(w, calls[i])
    ensures r !in FailedRounds(w, calls)
  {
    if calls != [] {
      var t := calls[|calls| - 1];
      FailedRoundsSettled(w, calls[..|calls| - 1], r);
      assert FetchAccounted(w, w.tasks[t].bearers, w.tasks[t].phase);
    }
  }

  lemma AlonePage(c: Config, s: State, e: Event, base: nat)
    requires Good(c, s) && Enabled(s.world, e) && s.refills == 0 && Alone(s.world, s.calls, base) && !IsCall(e)
    ensures var s' := Next(c, s, Page(e));
            s'.refills == 0 && Alone(s'.world, s'.calls, base)
  {
    PageKeepsAlone(s.world, e, s.calls, base);
    RefillsNeedReplies(s.world, s.calls, e, base);
  }

  lemma WakeKeepsAlone(c: Config, s: State, base: nat)
    requires Good(c, s) && CanMove(s, Wake) && Alone(s.world, s.calls, base)
    ensures Alone(Step(s.world, CallFetch), s.calls + [|s.world.tasks|], base)
  {
    FinishedCallsKeepRounds(s.world, CallFetch, s.calls);
    assert (s.calls + [|s.world.tasks|])[..|s.calls|] == s.calls;
  }

  lemma MoveKeepsAlone(c: Config, s: State, m: Move, base: nat)
    requires Good(c, s) && CanMove(s, m) && s.refills == 0 && Alone(s.world, s.calls, base)
    requires m.Page? ==> !IsCall(m.event)
    ensures var s' := Next(c, s, m);
            s'.refills == 0 && Alone(s'.world, s'.calls, base)
  {
    match m
    case Page(e) => AlonePage(c, s, e, base);
    case Conclude(_) =>
    case Wake => WakeKeepsAlone(c, s, base);
  }

  lemma RefillsNeedReplies(w: World, calls: seq<nat>, e: Event, base: nat)
    requires Enabled(w, e) && Inv(w) && Alone(w, calls, base) && CallsAreFetches(w, calls)
    ensures BringsTokens(e) ==> w.store.Some?
  {
  }

  lemma {:induction false} AloneThroughout(c: Config, s: State, ms: seq<Move>, base: nat)
    requires Good(c, s) && Legal(c, s, ms) && NoOtherCalls(ms)
    requires s.refills == 0 && Alone(s.world, s.calls, base)
    ensures var s' := Play(c, s, ms);
            s'.refills == 0 && Alone(s'.world, s'.calls, base)
    decreases |ms|
  {
    if ms != [] {
      MoveKeepsGood(c, s, ms[0]);
      MoveKeepsAlone(c, s, ms[0], base);
      AloneThroughout(c, Next(c, s, ms[0]), ms[1..], base);
    }
  }

  /** With nothing else going on, however often the request is attempted the user
      is told at most once that the session is over. */
  lemma AloneExpiresAtMostOnce(c: Config, w: World, ms: seq<Move>)
    requires Inv(w) && Quiet(w) && Legal(c, Start(w), ms) && NoOtherCalls(ms)
    ensures |Play(c, Start(w), ms).world.expired| <= |w.expired| + 1
  {
    StartIsGood(c, w);
    PlayKeeps(c, Start(w), ms);
    AloneThroughout(c, Start(w), ms, |w.expired|);
  }
}
