/** What a run of the auth client comes to, read off its events alone: the store, the
    user and the presence flag by their last writer, the requests by what was stored
    when they were sent, and the calls by the replies they were given. */
module AuthHistory {
  import opened Prelude
  import opened AuthProtocol

  // ---- Cutting runs ----

  lemma {:induction false} RunSplit(w: World, es: seq<Event>, k: nat)
    requires ValidRun(w, es) && k <= |es|
    ensures ValidRun(w, es[..k]) && ValidRun(Run(w, es[..k]), es[k..])
    ensures Run(Run(w, es[..k]), es[k..]) == Run(w, es)
    decreases |es|
  {
    if k == 0 {
      assert es[..0] == [] && es[0..] == es;
    } else {
      RunSplit(Step(w, es[0]), es[1..], k - 1);
      assert es[..k][1..] == es[1..][..k - 1] && es[k..] == es[1..][k - 1..];
    }
  }

  /** The state just before event `k`, and the event itself. */
  lemma RunUpTo(w: World, es: seq<Event>, k: nat)
    requires Inv(w) && ValidRun(w, es) && k < |es|
    ensures ValidRun(w, es[..k]) && Inv(Run(w, es[..k])) && Enabled(Run(w, es[..k]), es[k])
    ensures var s := Step(Run(w, es[..k]), es[k]);
            Inv(s) && ValidRun(s, es[k + 1..]) && Run(s, es[k + 1..]) == Run(w, es)
  {
    RunSplit(w, es, k);
    RunKeepsInv(w, es[..k]);
    StepKeepsInv(Run(w, es[..k]), es[k]);
    assert es[k..][1..] == es[k + 1..];
  }

  // ---- Store, user and presence flag ----

  /** Tokens are stored by a successful refresh, login or restore, and cleared by a
      failed refresh and by a logout. */
  function StoreAfter(before: Option<Tokens>, es: seq<Event>): Option<Tokens> {
    if es == [] then before
    else match es[|es| - 1]
      case RefreshReply(_, Ok(tokens)) => Some(tokens)
      case RefreshReply(_, _) => None
      case LoginReply(_, Ok(session)) => Some(session.tokens)
      case RestoreReply(_, Ok(tokens)) => Some(tokens)
      case LogoutReply(_) => None
      case _ => StoreAfter(before, es[..|es| - 1])
  }

  function UserAfter(before: Option<string>, es: seq<Event>): Option<string> {
    if es == [] then before
    else match es[|es| - 1]
      case SetUser(user) => user
      case LoginReply(_, Ok(session)) => Some(session.user)
      case LogoutReply(_) => None
      case RefreshReply(_, Status(_)) => None
      case RefreshReply(_, Rejected) => None
      case _ => UserAfter(before, es[..|es| - 1])
  }

  function PresentAfter(before: bool, es: seq<Event>): bool {
    if es == [] then before
    else match es[|es| - 1]
      case RefreshReply(_, minted) => minted.Ok?
      case RestoreReply(_, minted) => minted.Ok?
      case LoginReply(_, Ok(_)) => true
      case LogoutReply(_) => false
      case _ => PresentAfter(before, es[..|es| - 1])
  }

  /** Whatever the interleaving, the last writer decides. */
  lemma {:induction false} LastWriterDecides(w: World, es: seq<Event>)
    requires Inv(w) && ValidRun(w, es)
    ensures var w' := Run(w, es);
            && w'.store == StoreAfter(w.store, es)
            && w'.user == UserAfter(w.user, es)
            && w'.present == PresentAfter(w.present, es)
    decreases |es|
  {
    if es != [] {
      var n := |es| - 1;
      RunUpTo(w, es, n);
      LastWriterDecides(w, es[..n]);
      LastWrite(Run(w, es[..n]), es[n]);
      assert es[n + 1..] == [];
    }
  }

  lemma LastWrite(w: World, e: Event)
    requires Inv(w) && Enabled(w, e)
    ensures var w' := Step(w, e);
            && w'.store == StoreAfter(w.store, [e])
            && w'.user == UserAfter(w.user, [e])
            && w'.present == PresentAfter(w.present, [e])
  {
    assert [e][..0] == [];
  }

  // ---- What is sent ----

  /** The access token a request carries if it is sent now. */
  ghost predicate CarriesStored(bearer: Option<string>, store: Option<Tokens>) {
    match store
    case None => bearer == None
    case Some(tokens) => bearer == Some(tokens.access)
  }

  lemma {:induction false} FirstBearerStays(w: World, es: seq<Event>, t: nat)
    requires Inv(w) && ValidRun(w, es) && t < |w.tasks| && w.tasks[t].Fetch?
    ensures var w' := Run(w, es);
            && t < |w'.tasks| && w'.tasks[t].Fetch?
            && |w.tasks[t].bearers| > 0 && |w'.tasks[t].bearers| > 0
            && w'.tasks[t].bearers[0] == w.tasks[t].bearers[0]
    decreases |es|
  {
    assert FetchAccounted(w, w.tasks[t].bearers, w.tasks[t].phase);
    if es != [] {
      StepKeepsInv(w, es[0]);
      FirstBearerStays(Step(w, es[0]), es[1..], t);
    }
  }

  /** A fetch first sends the access token stored at the moment of the call, or none. */
  lemma FirstSendCarriesStored(w: World, es: seq<Event>, k: nat)
    requires Inv(w) && ValidRun(w, es) && k < |es| && es[k] == CallFetch
    ensures ValidRun(w, es[..k])
    ensures var before, t := Run(w, es[..k]), |Run(w, es[..k]).tasks|;
            var w' := Run(w, es);
            && t < |w'.tasks| && w'.tasks[t].Fetch? && |w'.tasks[t].bearers| > 0
            && CarriesStored(w'.tasks[t].bearers[0], before.store)
  {
    RunUpTo(w, es, k);
    var s := Step(Run(w, es[..k]), es[k]);
    FirstBearerStays(s, es[k + 1..], |s.tasks| - 1);
  }

  /** A new round submits the refresh token stored at that moment, if there is one; a
      restore never submits one. */
  lemma RoundSubmitsStored(w: World, e: Event)
    requires Inv(w) && Enabled(w, e)
    ensures var w' := Step(w, e);
            && (|w'.rounds| > |w.rounds| ==>
                  && |w'.rounds| == |w.rounds| + 1 && w.inFlight == None
                  && w'.refreshBodies == w.refreshBodies + [
                       if w.store.Some? && w.store.value.refresh != "" then Some(w.store.value.refresh) else None])
            && (e.CallRestore? ==>
                  w'.refreshBodies == if w.store.Some? then w.refreshBodies else w.refreshBodies + [None])
            && (|w'.rounds| == |w.rounds| && !e.CallRestore? ==> w'.refreshBodies == w.refreshBodies)
  {
  }

  /** A 401 to a first send that carried a token makes the call wait for the round in
      flight, opening one if there is none; nothing else opens a round, and every other
      answer ends the call. */
  lemma RoundsOpenOnUnauthorized(w: World, e: Event)
    requires Inv(w) && Enabled(w, e)
    ensures var w' := Step(w, e);
            var unauthorized := e.FetchReply? && e.net == Response(401)
                                && w.tasks[e.task].phase.First? && w.tasks[e.task].bearers[0].Some?;
            && (unauthorized ==> w'.inFlight.Some? && w'.tasks[e.task].phase == Waiting(w'.inFlight.value))
            && (e.FetchReply? && !unauthorized ==> w'.tasks[e.task].phase.Over?)
            && (|w'.rounds| > |w.rounds| <==> unauthorized && w.inFlight == None)
  {
    if e.FetchReply? {
      assert FetchAccounted(w, w.tasks[e.task].bearers, w.tasks[e.task].phase);
    }
  }

  predicate Addresses(e: Event, t: nat) {
    match e
    case FetchReply(u, _) => u == t
    case Resume(u) => u == t
    case LoginReply(u, _) => u == t
    case RestoreReply(u, _) => u == t
    case LogoutReply(u) => u == t
    case _ => false
  }

  /** An open call is moved on by its own answers only; a login or restore resolves
      exactly if its reply is good, and a logout always does. */
  lemma OwnAnswersOnly(w: World, e: Event, t: nat)
    requires Inv(w) && Enabled(w, e) && t < |w.tasks|
    ensures |Step(w, e).tasks| == |w.tasks| + if IsCall(e) && !e.SetUser? then 1 else 0
    ensures !Addresses(e, t) ==> Step(w, e).tasks[t] == w.tasks[t]
    ensures Addresses(e, t) && !e.FetchReply? && !e.Resume? ==>
              Step(w, e).tasks[t] == Done((e.LoginReply? ==> e.session.Ok?) && (e.RestoreReply? ==> e.minted.Ok?))
  {
  }

  // ---- What joiners of a round get ----

  /** What the reply to a refresh means for a call that awaits the round. */
  ghost predicate Served(task: Task, r: nat, reply: PostReply<Tokens>) {
    && task.Fetch?
    && match reply
       case Ok(tokens) =>
         && |task.bearers| == 2 && task.bearers[1] == Some(tokens.access)
         && (task.phase == Second(r) || (task.phase.Over? && !task.phase.result.ThrewAuth?))
       case Status(code) =>
         task.phase == Over(ThrewAuth(
           if code == 401 then InvalidCredentials
           else if code == 423 then Locked
           else if code == 429 then RateLimited
           else Unknown), Some(r))
       case Rejected => task.phase == Over(ThrewAuth(RefreshFailed), Some(r))
  }

  ghost predicate SettledBy(round: Round, reply: PostReply<Tokens>) {
    && round.Settled?
    && match reply
       case Ok(tokens) => round.outcome == Success(tokens)
       case Status(code) =>
         && round.outcome.Failure?
         && (round.outcome.error == InvalidCredentials <==> code == 401)
         && (round.outcome.error == Locked <==> code == 423)
         && (round.outcome.error == RateLimited <==> code == 429)
         && round.outcome.error != RefreshFailed
       case Rejected => round.outcome == Failure(RefreshFailed)
  }

  lemma {:induction false} SettledStays(w: World, es: seq<Event>, r: nat)
    requires Inv(w) && ValidRun(w, es) && r < |w.rounds| && w.rounds[r].Settled?
    ensures r < |Run(w, es).rounds| && Run(w, es).rounds[r] == w.rounds[r]
    decreases |es|
  {
    if es != [] {
      StepKeepsInv(w, es[0]);
      SettledStays(Step(w, es[0]), es[1..], r);
    }
  }

  lemma ReplySettles(w: World, es: seq<Event>, k: nat)
    requires Inv(w) && ValidRun(w, es) && k < |es| && es[k].RefreshReply?
    ensures var w' := Run(w, es);
            es[k].round < |w'.rounds| && SettledBy(w'.rounds[es[k].round], es[k].minted)
  {
    RunUpTo(w, es, k);
    var s := Step(Run(w, es[..k]), es[k]);
    SettledStays(s, es[k + 1..], es[k].round);
  }

  /** Every call that awaited a round and was resumed got what the server replied to
      the refresh: it retried with the very access token the reply handed out, or
      threw the error its status stands for. */
  lemma JoinersGetTheReply(w: World, es: seq<Event>, k: nat, t: nat)
    requires Inv(w) && ValidRun(w, es) && k < |es| && es[k].RefreshReply?
    requires t < |Run(w, es).tasks| && JoinedOf(Run(w, es).tasks[t]) == Some(es[k].round)
    ensures Served(Run(w, es).tasks[t], es[k].round, es[k].minted)
  {
    ReplySettles(w, es, k);
    RunKeepsInv(w, es);
    var w' := Run(w, es);
    assert FetchAccounted(w', w'.tasks[t].bearers, w'.tasks[t].phase);
  }

  ghost predicate Joins(w: World, t: nat, r: nat) {
    t < |w.tasks| && JoinedOf(w.tasks[t]) == Some(r)
  }

  lemma JoinedStep(w: World, e: Event, t: nat, r: nat)
    requires Inv(w) && Enabled(w, e) && Joins(w, t, r)
    ensures Joins(Step(w, e), t, r)
  {
    if Addresses(e, t) {
      assert e.FetchReply? && w.tasks[t].phase.Second?;
    } else {
      OwnAnswersOnly(w, e, t);
    }
  }

  lemma {:induction false} JoinedStays(w: World, es: seq<Event>, t: nat, r: nat)
    requires Inv(w) && ValidRun(w, es) && Joins(w, t, r)
    ensures Joins(Run(w, es), t, r)
    decreases |es|
  {
    if es != [] {
      StepKeepsInv(w, es[0]);
      JoinedStep(w, es[0], t, r);
      JoinedStays(Step(w, es[0]), es[1..], t, r);
    }
  }

  lemma ResumedJoins(w: World, t: nat)
    requires Enabled(w, Resume(t))
    ensures Joins(Step(w, Resume(t)), t, w.tasks[t].phase.round)
  {
  }

  ghost predicate WaitsFor(w: World, t: nat, r: nat) {
    t < |w.tasks| && w.tasks[t].Fetch? && w.tasks[t].phase == Waiting(r)
  }

  /** And every call that is resumed from a round is such a joiner from then on. */
  lemma ResumedAreServed(w: World, es: seq<Event>, k: nat, m: nat, t: nat)
    requires Inv(w) && ValidRun(w, es) && k < |es| && es[k].RefreshReply?
    requires m < |es| && es[m] == Resume(t) && ValidRun(w, es[..m])
    requires WaitsFor(Run(w, es[..m]), t, es[k].round)
    ensures t < |Run(w, es).tasks| && Served(Run(w, es).tasks[t], es[k].round, es[k].minted)
  {
    RunUpTo(w, es, m);
    ResumedJoins(Run(w, es[..m]), t);
    JoinedStays(Step(Run(w, es[..m]), es[m]), es[m + 1..], t, es[k].round);
    JoinersGetTheReply(w, es, k, t);
  }

  // ---- What a call returns ----

  predicate RepliesTo(e: Event, t: nat) {
    e.FetchReply? && e.task == t
  }

  ghost predicate NoReplyTo(es: seq<Event>, t: nat) {
    forall j :: 0 <= j < |es| ==> !RepliesTo(es[j], t)
  }

  /** A call that is over and did not fail with its round returns, or throws, what the
      last reply to it was. */
  lemma LastReplyIsReturned(w: World, es: seq<Event>, k: nat)
    requires Inv(w) && ValidRun(w, es) && k < |es| && es[k].FetchReply?
    requires NoReplyTo(es[k + 1..], es[k].task)
    ensures es[k].task < |Run(w, es).tasks| && Run(w, es).tasks[es[k].task].Fetch?
    ensures var phase := Run(w, es).tasks[es[k].task].phase;
            phase.Over? && !phase.result.ThrewAuth? ==>
              phase.result == match es[k].net
                              case Response(status) => Returned(status)
                              case NetworkError => ThrewNetwork
  {
    RunUpTo(w, es, k);
    var s := Step(Run(w, es[..k]), es[k]);
    OverStays(s, es[k + 1..], es[k].task, es[k].net);
  }

  lemma {:induction false} OverStays(w: World, es: seq<Event>, t: nat, net: NetReply)
    requires Inv(w) && ValidRun(w, es) && t < |w.tasks| && w.tasks[t].Fetch?
    requires NoReplyTo(es, t)
    requires Matches(w.tasks[t].phase, net)
    ensures t < |Run(w, es).tasks| && Run(w, es).tasks[t].Fetch? && Matches(Run(w, es).tasks[t].phase, net)
    decreases |es|
  {
    if es != [] {
      assert !RepliesTo(es[0], t);
      assert forall j :: 0 <= j < |es| - 1 ==> es[1..][j] == es[j + 1];
      StepKeepsInv(w, es[0]);
      OverStays(Step(w, es[0]), es[1..], t, net);
    }
  }

  ghost predicate Matches(phase: Phase, net: NetReply) {
    phase.Over? && !phase.result.ThrewAuth? ==>
      phase.result == match net
                      case Response(status) => Returned(status)
                      case NetworkError => ThrewNetwork
  }
}
