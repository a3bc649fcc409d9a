/** Concurrent flag evaluation: any number of `Evaluate` calls race each other,
    the `flag.changed` handler, the clock and changes on the server.

    The steps are the stretches between lock operations and I/O: look up the
    cache, have the server read the flag, put the result.  The server is a
    function from time to flag definitions, so "the value resolved at time r"
    has a meaning independent of the client. */
module FlagProtocol {
  import opened Prelude
  import opened FlagCache

  datatype Override = Override(tenant: string, value: bool)
  datatype Detail = Detail(defaultValue: bool, overrides: seq<Override>)

  /** What the HTTP round trip produced; `decoded` is None when the body is not the expected JSON. */
  datatype HttpReply = NoReply | Http(status: int, decoded: Option<Detail>)

  datatype Source = Institution | Fallback

  datatype Fetched =
    | Resolved(value: bool, source: Source, reason: string)
    | Undeclared(reason: string) // hard error: no fallback for this flag

  type Fallbacks = map<string, bool>
  type Server = (int, string) -> Option<Detail>

  /** Tenant override beats default; the empty tenant never matches an override. */
  function Resolve(detail: Detail, tenant: string): bool {
    if tenant == "" then detail.defaultValue else FirstOverride(detail.overrides, tenant, detail.defaultValue)
  }

  function FirstOverride(overrides: seq<Override>, tenant: string, otherwise: bool): bool {
    if overrides == [] then otherwise
    else if overrides[0].tenant == tenant then overrides[0].value
    else FirstOverride(overrides[1..], tenant, otherwise)
  }

  /** The override list behaves like the map in which the first entry for a tenant wins. */
  lemma {:induction false} FirstOverrideWins(overrides: seq<Override>, tenant: string, otherwise: bool)
    ensures (forall i :: 0 <= i < |overrides| ==> overrides[i].tenant != tenant) ==>
              FirstOverride(overrides, tenant, otherwise) == otherwise
    ensures forall i | 0 <= i < |overrides| && overrides[i].tenant == tenant
                       && (forall j :: 0 <= j < i ==> overrides[j].tenant != tenant) ::
              FirstOverride(overrides, tenant, otherwise) == overrides[i].value
  {
    if overrides != [] && overrides[0].tenant != tenant {
      var rest := overrides[1..];
      FirstOverrideWins(rest, tenant, otherwise);
      forall i | 0 <= i < |overrides| && overrides[i].tenant == tenant
                 && (forall j :: 0 <= j < i ==> overrides[j].tenant != tenant)
        ensures FirstOverride(overrides, tenant, otherwise) == overrides[i].value
      {
        assert rest[i - 1] == overrides[i];
        assert forall j :: 0 <= j < i - 1 ==> rest[j] == overrides[j + 1];
      }
      if forall i :: 0 <= i < |overrides| ==> overrides[i].tenant != tenant {
        assert forall i :: 0 <= i < |rest| ==> rest[i] == overrides[i + 1];
      }
    }
  }

  /** Entry `i` is the first for the tenant. */
  ghost predicate FirstFor(overrides: seq<Override>, tenant: string, i: nat) {
    && i < |overrides| && overrides[i].tenant == tenant
    && forall j :: 0 <= j < i ==> overrides[j].tenant != tenant
  }

  /** `v` is the flag's value for the tenant: its first override's, and the default's
      if it has none or no tenant is given. */
  ghost predicate ValueFor(detail: Detail, tenant: string, v: bool) {
    && (tenant == "" ==> v == detail.defaultValue)
    && ((forall o :: o in detail.overrides ==> o.tenant != tenant) ==> v == detail.defaultValue)
    && (forall i: nat :: tenant != "" && FirstFor(detail.overrides, tenant, i) ==> v == detail.overrides[i].value)
  }

  lemma {:induction false} FirstExists(overrides: seq<Override>, tenant: string)
    requires exists o :: o in overrides && o.tenant == tenant
    ensures exists i: nat :: FirstFor(overrides, tenant, i)
  {
    var front, n := overrides[..|overrides| - 1], |overrides| - 1;
    if exists o :: o in front && o.tenant == tenant {
      FirstExists(front, tenant);
      var i: nat :| FirstFor(front, tenant, i);
      assert FirstFor(overrides, tenant, i);
    } else {
      assert forall j :: 0 <= j < n ==> overrides[j] == front[j] && front[j] in front;
      assert FirstFor(overrides, tenant, n);
    }
  }

  /** Resolution gives that value, and it is the only one. */
  lemma ResolveIsTheValue(detail: Detail, tenant: string, v: bool)
    ensures ValueFor(detail, tenant, v) <==> v == Resolve(detail, tenant)
  {
    FirstOverrideWins(detail.overrides, tenant, detail.defaultValue);
    if exists o :: o in detail.overrides && o.tenant == tenant {
      FirstExists(detail.overrides, tenant);
      var i: nat :| FirstFor(detail.overrides, tenant, i);
      assert detail.overrides[i] in detail.overrides;
    }
  }

  function FallBack(fallbacks: Fallbacks, flag: string, reason: string): Fetched {
    if flag in fallbacks then Resolved(fallbacks[flag], Fallback, "institution_error:" + reason)
    else Undeclared(reason)
  }

  /** The reply is usable exactly when it decodes and its status is below 400. */
  predicate Usable(reply: HttpReply) {
    reply.Http? && reply.status < 400 && reply.decoded.Some?
  }

  function FetchOutcome(fallbacks: Fallbacks, flag: string, tenant: string, reply: HttpReply): Fetched {
    match reply
    case NoReply => FallBack(fallbacks, flag, "connection")
    case Http(status, decoded) =>
      if status == 404 then FallBack(fallbacks, flag, "flag_unknown")
      else if status >= 400 then FallBack(fallbacks, flag, "institution status")
      else match decoded
        case None => FallBack(fallbacks, flag, "decode")
        case Some(detail) => Resolved(Resolve(detail, tenant), Institution, "")
  }

  // ---- The machine ----

  /** Where a value came from: bookkeeping for the theorems only. */
  datatype Origin = ReadAt(time: int) | Declared

  datatype Phase =
    | Asked(start: int)                                          // cache miss, request out
    | Answered(start: int, readAt: int, outcome: Fetched)        // server has read the flag
    | Returned(value: bool, origin: Origin, at: int)
    | Failed

  datatype Call = Call(flag: string, tenant: string, phase: Phase)

  datatype Config = Config(ttl: int, fallbacks: Fallbacks, limit: nat) // limit: longest fetch

  datatype State = State(now: int, cache: Store, origins: map<Key, Origin>, calls: seq<Call>)

  datatype Event =
    | Tick(time: int)
    | Begin(flag: string, tenant: string)
    | Answer(call: nat, reply: HttpReply)
    | Finish(call: nat)
    | FlagChanged(flag: string)

  predicate Pending(p: Phase) {
    p.Asked? || p.Answered?
  }

  function KeyOf(c: Call): Key {
    Key(c.flag, c.tenant)
  }

  /** The clock may not run past the time limit of a fetch that is still out, and a
      usable reply carries what the server holds at the moment it reads. */
  predicate Enabled(cfg: Config, server: Server, s: State, e: Event) {
    match e
    case Tick(t) =>
      && s.now <= t
      && forall i :: 0 <= i < |s.calls| && Pending(s.calls[i].phase) ==> t <= s.calls[i].phase.start + cfg.limit
    case Begin(_, _) => true
    case Answer(i, reply) =>
      && i < |s.calls| && s.calls[i].phase.Asked?
      && (Usable(reply) ==> server(s.now, s.calls[i].flag) == reply.decoded)
    case Finish(i) => i < |s.calls| && s.calls[i].phase.Answered?
    case FlagChanged(_) => true
  }

  function OriginOf(readAt: int, outcome: Fetched): Origin
    requires outcome.Resolved?
  {
    if outcome.source == Institution then ReadAt(readAt) else Declared
  }

  function Step(cfg: Config, server: Server, s: State, e: Event): State
    requires Enabled(cfg, server, s, e)
  {
    match e
    case Tick(t) => s.(now := t)
    case Begin(flag, tenant) => Began(s, flag, tenant)
    case Answer(i, reply) =>
      var c := s.calls[i];
      var outcome := FetchOutcome(cfg.fallbacks, c.flag, c.tenant, reply);
      s.(calls := s.calls[i := c.(phase := Answered(c.phase.start, s.now, outcome))])
    case Finish(i) => Finished(cfg, s, i)
    case FlagChanged(flag) =>
      if flag == "" then s
      else s.(cache := AfterInvalidate(s.cache, flag))
  }

  function Began(s: State, flag: string, tenant: string): State {
    var k := Key(flag, tenant);
    var origin := if k in s.origins then s.origins[k] else Declared;
    var phase :=
      if k in s.cache && !Expired(s.cache[k], s.now) then Returned(s.cache[k].value, origin, s.now)
      else Asked(s.now);
    s.(cache := AfterGet(s.cache, k, s.now), calls := s.calls + [Call(flag, tenant, phase)])
  }

  function Finished(cfg: Config, s: State, i: nat): State
    requires i < |s.calls| && s.calls[i].phase.Answered?
  {
    var c := s.calls[i];
    match c.phase.outcome
    case Undeclared(_) => s.(calls := s.calls[i := c.(phase := Failed)])
    case Resolved(v, _, _) =>
      var origin := OriginOf(c.phase.readAt, c.phase.outcome);
      s.(cache := AfterPut(s.cache, cfg.ttl, KeyOf(c), v, s.now),
         origins := s.origins[KeyOf(c) := origin],
         calls := s.calls[i := c.(phase := Returned(v, origin, s.now))])
  }

  ghost predicate ValidRun(cfg: Config, server: Server, s: State, es: seq<Event>)
    decreases |es|
  {
    es == [] || (Enabled(cfg, server, s, es[0]) && ValidRun(cfg, server, Step(cfg, server, s, es[0]), es[1..]))
  }

  ghost function Run(cfg: Config, server: Server, s: State, es: seq<Event>): State
    requires ValidRun(cfg, server, s, es)
    decreases |es|
  {
    if es == [] then s else Run(cfg, server, Step(cfg, server, s, es[0]), es[1..])
  }

  predicate Init(s: State) {
    s.cache == map[] && s.origins == map[] && s.calls == []
  }

  // ---- Bounded staleness ----

  /** `v` is a legitimate answer for the key: the declared fallback, or what the
      server resolved at the time named by `origin`. */
  predicate Truthful(cfg: Config, server: Server, k: Key, v: bool, origin: Origin) {
    match origin
    case Declared => k.flag in cfg.fallbacks && v == cfg.fallbacks[k.flag]
    case ReadAt(r) => server(r, k.flag).Some? && v == Resolve(server(r, k.flag).value, k.tenant)
  }

  predicate NoOlderThan(origin: Origin, bound: int) {
    origin.ReadAt? ==> origin.time >= bound
  }

  predicate NotFuture(origin: Origin, now: int) {
    origin.ReadAt? ==> origin.time <= now
  }

  function Lag(cfg: Config): nat {
    (if cfg.ttl > 0 then cfg.ttl else 0) + cfg.limit
  }

  ghost predicate CacheSound(cfg: Config, server: Server, s: State) {
    forall k :: k in s.cache ==>
      && k in s.origins
      && Truthful(cfg, server, k, s.cache[k].value, s.origins[k])
      && NotFuture(s.origins[k], s.now)
      && NoOlderThan(s.origins[k], s.cache[k].expiresAt - cfg.ttl - cfg.limit)
      && s.cache[k].expiresAt - cfg.ttl <= s.now
  }

  ghost predicate CallSound(cfg: Config, server: Server, now: int, c: Call) {
    match c.phase
    case Asked(start) => start <= now <= start + cfg.limit
    case Answered(start, readAt, outcome) =>
      && start <= readAt <= now <= start + cfg.limit
      && (match outcome
          case Resolved(v, _, _) => Truthful(cfg, server, KeyOf(c), v, OriginOf(readAt, outcome))
          case Undeclared(_) => c.flag !in cfg.fallbacks)
    case Returned(v, origin, at) =>
      && at <= now
      && Truthful(cfg, server, KeyOf(c), v, origin)
      && NotFuture(origin, at)
      && NoOlderThan(origin, at - Lag(cfg))
    case Failed => c.flag !in cfg.fallbacks
  }

  ghost predicate Inv(cfg: Config, server: Server, s: State) {
    && CacheSound(cfg, server, s)
    && forall i :: 0 <= i < |s.calls| ==> CallSound(cfg, server, s.now, s.calls[i])
  }

  lemma BeginKeepsInv(cfg: Config, server: Server, s: State, flag: string, tenant: string)
    requires Inv(cfg, server, s)
    ensures Inv(cfg, server, Began(s, flag, tenant))
  {
  }

  lemma FinishKeepsInv(cfg: Config, server: Server, s: State, i: nat)
    requires Inv(cfg, server, s) && Enabled(cfg, server, s, Finish(i))
    ensures Inv(cfg, server, Finished(cfg, s, i))
  {
    assert CallSound(cfg, server, s.now, s.calls[i]);
  }

  lemma AnswerKeepsInv(cfg: Config, server: Server, s: State, i: nat, reply: HttpReply)
    requires Inv(cfg, server, s) && Enabled(cfg, server, s, Answer(i, reply))
    ensures Inv(cfg, server, Step(cfg, server, s, Answer(i, reply)))
  {
    assert CallSound(cfg, server, s.now, s.calls[i]);
  }

  lemma StepKeepsInv(cfg: Config, server: Server, s: State, e: Event)
    requires Inv(cfg, server, s) && Enabled(cfg, server, s, e)
    ensures Inv(cfg, server, Step(cfg, server, s, e))
  {
    match e
    case Begin(flag, tenant) => BeginKeepsInv(cfg, server, s, flag, tenant);
    case Answer(i, reply) => AnswerKeepsInv(cfg, server, s, i, reply);
    case Finish(i) => FinishKeepsInv(cfg, server, s, i);
    case FlagChanged(_) =>
    case Tick(t) =>
  }

  lemma {:induction false} RunKeepsInv(cfg: Config, server: Server, s: State, es: seq<Event>)
    requires Inv(cfg, server, s) && ValidRun(cfg, server, s, es)
    ensures Inv(cfg, server, Run(cfg, server, s, es))
    decreases |es|
  {
    if es != [] {
      StepKeepsInv(cfg, server, s, es[0]);
      RunKeepsInv(cfg, server, Step(cfg, server, s, es[0]), es[1..]);
    }
  }

  /** Every value ever returned is the declared fallback or what the server
      resolved for that flag and tenant at most TTL + limit before. */
  lemma BoundedStaleness(cfg: Config, server: Server, s: State, es: seq<Event>, i: nat)
    requires Init(s) && ValidRun(cfg, server, s, es)
    requires i < |Run(cfg, server, s, es).calls| && Run(cfg, server, s, es).calls[i].phase.Returned?
    ensures var c := Run(cfg, server, s, es).calls[i];
            || (c.flag in cfg.fallbacks && c.phase.value == cfg.fallbacks[c.flag])
            || exists r :: c.phase.at - Lag(cfg) <= r <= c.phase.at && server(r, c.flag).Some?
                 && ValueFor(server(r, c.flag).value, c.tenant, c.phase.value)
  {
    RunKeepsInv(cfg, server, s, es);
    var c := Run(cfg, server, s, es).calls[i];
    assert CallSound(cfg, server, Run(cfg, server, s, es).now, c);
    if c.phase.origin.ReadAt? {
      assert server(c.phase.origin.time, c.flag).Some?;
      ResolveIsTheValue(server(c.phase.origin.time, c.flag).value, c.tenant, c.phase.value);
    }
  }

  /** A call fails only for a flag without a declared fallback. */
  lemma DeclaredFlagsNeverFail(cfg: Config, server: Server, s: State, es: seq<Event>, i: nat)
    requires Init(s) && ValidRun(cfg, server, s, es)
    requires i < |Run(cfg, server, s, es).calls|
    requires Run(cfg, server, s, es).calls[i].flag in cfg.fallbacks
    ensures !Run(cfg, server, s, es).calls[i].phase.Failed?
  {
    RunKeepsInv(cfg, server, s, es);
    assert CallSound(cfg, server, Run(cfg, server, s, es).now, Run(cfg, server, s, es).calls[i]);
  }

  /** A cached value is returned as long as its deadline has not passed. */
  lemma LaterHit(cfg: Config, server: Server, s: State, flag: string, t: int)
    requires Key(flag, "") in s.cache && Key(flag, "") in s.origins
    requires s.now <= t <= s.cache[Key(flag, "")].expiresAt
    requires forall i :: 0 <= i < |s.calls| ==> !Pending(s.calls[i].phase)
    ensures var es := [Tick(t), Begin(flag, "")];
            var k := Key(flag, "");
            && ValidRun(cfg, server, s, es)
            && Run(cfg, server, s, es).calls == s.calls + [Call(flag, "", Returned(s.cache[k].value, s.origins[k], t))]
  {
    RunLast(cfg, server, Step(cfg, server, s, Tick(t)), Begin(flag, ""));
    RunPush(cfg, server, s, Tick(t), [Begin(flag, "")]);
    assert [Tick(t)] + [Begin(flag, "")] == [Tick(t), Begin(flag, "")];
  }

  /** The first call, answered at once and put in the cache as late as allowed. */
  lemma LatePut(cfg: Config, server: Server, s: State, flag: string, detail: Detail, rest: seq<Event>)
    requires Init(s) && server(s.now, flag) == Some(detail)
    requires ValidRun(cfg, server, AfterLatePut(cfg, s, flag, Resolve(detail, "")), rest)
    ensures var es := [Begin(flag, ""), Answer(0, Http(200, Some(detail))), Tick(s.now + cfg.limit), Finish(0)];
            && ValidRun(cfg, server, s, es + rest)
            && Run(cfg, server, s, es + rest) == Run(cfg, server, AfterLatePut(cfg, s, flag, Resolve(detail, "")), rest)
  {
    var e0, e1, e2, e3 := Begin(flag, ""), Answer(0, Http(200, Some(detail))), Tick(s.now + cfg.limit), Event.Finish(0);
    var s1 := Step(cfg, server, s, e0);
    var s2 := Step(cfg, server, s1, e1);
    var s3 := Step(cfg, server, s2, e2);
    assert Step(cfg, server, s3, e3) == AfterLatePut(cfg, s, flag, Resolve(detail, ""));
    RunPush(cfg, server, s3, e3, rest);
    RunPush(cfg, server, s2, e2, [e3] + rest);
    RunPush(cfg, server, s1, e1, [e2] + ([e3] + rest));
    RunPush(cfg, server, s, e0, [e1] + ([e2] + ([e3] + rest)));
    assert [e0, e1, e2, e3] + rest == [e0] + ([e1] + ([e2] + ([e3] + rest)));
  }

  function AfterLatePut(cfg: Config, s: State, flag: string, v: bool): State {
    var k, now := Key(flag, ""), s.now + cfg.limit;
    State(now, map[k := Entry(v, now + cfg.ttl)], map[k := ReadAt(s.now)],
          [Call(flag, "", Returned(v, ReadAt(s.now), now))])
  }

  /** The bound cannot be improved: a run in which a value exactly TTL + limit old is returned. */
  lemma BoundIsAttained(cfg: Config, server: Server, s: State, flag: string, detail: Detail) returns (es: seq<Event>)
    requires Init(s) && cfg.ttl > 0 && server(s.now, flag) == Some(detail)
    ensures ValidRun(cfg, server, s, es)
    ensures var s' := Run(cfg, server, s, es);
            && s'.calls != []
            && s'.calls[|s'.calls| - 1] ==
                 Call(flag, "", Returned(Resolve(detail, ""), ReadAt(s.now), s.now + Lag(cfg)))
  {
    var late := AfterLatePut(cfg, s, flag, Resolve(detail, ""));
    var rest := [Tick(s.now + Lag(cfg)), Begin(flag, "")];
    LaterHit(cfg, server, late, flag, s.now + Lag(cfg));
    LatePut(cfg, server, s, flag, detail, rest);
    es := [Begin(flag, ""), Answer(0, Http(200, Some(detail))), Tick(s.now + cfg.limit), Event.Finish(0)] + rest;
  }

  lemma RunLast(cfg: Config, server: Server, s: State, e: Event)
    requires Enabled(cfg, server, s, e)
    ensures ValidRun(cfg, server, s, [e]) && Run(cfg, server, s, [e]) == Step(cfg, server, s, e)
  {
    assert [e][1..] == [];
    assert ValidRun(cfg, server, Step(cfg, server, s, e), []);
  }

  lemma RunPush(cfg: Config, server: Server, s: State, e: Event, es: seq<Event>)
    requires Enabled(cfg, server, s, e) && ValidRun(cfg, server, Step(cfg, server, s, e), es)
    ensures ValidRun(cfg, server, s, [e] + es)
    ensures Run(cfg, server, s, [e] + es) == Run(cfg, server, Step(cfg, server, s, e), es)
  {
    assert ([e] + es)[1..] == es;
  }

  /** A fetched value, a fallback too, answers every evaluation for the same flag and
      tenant until its deadline, without another fetch, and none after it. */
  lemma FinishedIsServed(cfg: Config, server: Server, s: State, i: nat, t: int)
    requires Enabled(cfg, server, s, Finish(i)) && s.calls[i].phase.outcome.Resolved? && s.now <= t
    ensures var c := s.calls[i];
            var later := Step(cfg, server, s, Finish(i)).(now := t);
            var next := Step(cfg, server, later, Begin(c.flag, c.tenant)).calls[|s.calls|];
            && next.flag == c.flag && next.tenant == c.tenant
            && (t <= s.now + cfg.ttl ==> next.phase.Returned? && next.phase.value == c.phase.outcome.value)
            && (t > s.now + cfg.ttl ==> next.phase == Asked(t))
  {
  }

  // ---- What flag.changed guarantees ----

  /** Every value of `flag` that the server sourced and that is returned by a call
      still open in `s`, or begun after, was read at `since` or later. */
  ghost predicate FreshFrom(s: State, s': State, flag: string, since: int) {
    forall i | 0 <= i < |s'.calls| && s'.calls[i].flag == flag && s'.calls[i].phase.Returned? ::
      (i < |s.calls| ==> !s.calls[i].phase.Returned?) ==> NoOlderThan(s'.calls[i].phase.origin, since)
  }

  /** A fetch of the flag that the server answered before `since` but whose result is not in the cache yet. */
  predicate StaleInHand(c: Call, flag: string, since: int) {
    && c.flag == flag && c.phase.Answered? && c.phase.readAt < since
    && c.phase.outcome.Resolved? && c.phase.outcome.source == Institution
  }

  ghost predicate Purged(s: State, flag: string, since: int) {
    && since <= s.now
    && (forall k :: k in s.cache && k.flag == flag ==> k in s.origins && NoOlderThan(s.origins[k], since))
    && (forall i :: 0 <= i < |s.calls| ==> !StaleInHand(s.calls[i], flag, since))
  }

  /** After `flag.changed` is handled, every later server-sourced value of the
      flag, for every tenant and whether cached or fetched, was read after the
      change was handled, in every continuation: if and only if no fetch of the
      flag was at that moment holding an answer read earlier. */
  lemma InvalidationGuarantee(cfg: Config, server: Server, s: State, flag: string)
    requires Inv(cfg, server, s) && flag != ""
    ensures var s' := Step(cfg, server, s, FlagChanged(flag));
            (forall es :: ValidRun(cfg, server, s', es) ==> FreshFrom(s', Run(cfg, server, s', es), flag, s.now))
            <==> (forall i :: 0 <= i < |s.calls| ==> !StaleInHand(s.calls[i], flag, s.now))
  {
    var s' := Step(cfg, server, s, FlagChanged(flag));
    if i :| 0 <= i < |s.calls| && StaleInHand(s.calls[i], flag, s.now) {
      RunLast(cfg, server, s', Finish(i));
      assert !FreshFrom(s', Run(cfg, server, s', [Finish(i)]), flag, s.now) by {
        assert Run(cfg, server, s', [Finish(i)]).calls[i].phase.Returned?;
      }
    } else {
      assert Purged(s', flag, s.now);
      assert FreshFrom(s', s', flag, s.now);
      forall es | ValidRun(cfg, server, s', es)
        ensures FreshFrom(s', Run(cfg, server, s', es), flag, s.now)
      {
        PurgedRun(cfg, server, s', s', es, flag, s.now);
      }
    }
  }

  lemma BeginKeepsPurged(s0: State, s: State, f: string, tenant: string, flag: string, since: int)
    requires Purged(s, flag, since) && FreshFrom(s0, s, flag, since) && |s0.calls| <= |s.calls|
    ensures Purged(Began(s, f, tenant), flag, since) && FreshFrom(s0, Began(s, f, tenant), flag, since)
  {
  }

  lemma FinishKeepsPurged(cfg: Config, s0: State, s: State, i: nat, flag: string, since: int)
    requires Purged(s, flag, since) && FreshFrom(s0, s, flag, since)
    requires i < |s.calls| && s.calls[i].phase.Answered?
    ensures Purged(Finished(cfg, s, i), flag, since) && FreshFrom(s0, Finished(cfg, s, i), flag, since)
  {
    assert !StaleInHand(s.calls[i], flag, since);
  }

  lemma PurgedStep(cfg: Config, server: Server, s0: State, s: State, e: Event, flag: string, since: int)
    requires Purged(s, flag, since) && FreshFrom(s0, s, flag, since) && Enabled(cfg, server, s, e)
    requires |s0.calls| <= |s.calls|
    ensures var s' := Step(cfg, server, s, e);
            Purged(s', flag, since) && FreshFrom(s0, s', flag, since) && |s0.calls| <= |s'.calls|
  {
    match e
    case Tick(_) =>
    case Begin(f, tenant) => BeginKeepsPurged(s0, s, f, tenant, flag, since);
    case Answer(i, reply) =>
    case Finish(i) => FinishKeepsPurged(cfg, s0, s, i, flag, since);
    case FlagChanged(_) =>
  }

  lemma {:induction false} PurgedRun(cfg: Config, server: Server, s0: State, s: State, es: seq<Event>,
                                     flag: string, since: int)
    requires Purged(s, flag, since) && FreshFrom(s0, s, flag, since) && ValidRun(cfg, server, s, es)
    requires |s0.calls| <= |s.calls|
    ensures FreshFrom(s0, Run(cfg, server, s, es), flag, since)
    decreases |es|
  {
    if es != [] {
      PurgedStep(cfg, server, s0, s, es[0], flag, since);
      PurgedRun(cfg, server, s0, Step(cfg, server, s, es[0]), es[1..], flag, since);
    }
  }

  /** What a caller can check: with no fetch of the flag out, the guarantee holds. */
  lemma InvalidationWithoutFetch(cfg: Config, server: Server, s: State, flag: string, es: seq<Event>)
    requires Inv(cfg, server, s) && flag != ""
    requires forall i :: 0 <= i < |s.calls| && s.calls[i].flag == flag ==> !Pending(s.calls[i].phase)
    requires ValidRun(cfg, server, Step(cfg, server, s, FlagChanged(flag)), es)
    ensures var s' := Step(cfg, server, s, FlagChanged(flag));
            FreshFrom(s', Run(cfg, server, s', es), flag, s.now)
  {
    InvalidationGuarantee(cfg, server, s, flag);
  }

  /** The event leaves every other flag's entries, values and deadlines, and every call, as they were. */
  lemma InvalidationIsLocal(cfg: Config, server: Server, s: State, flag: string, k: Key)
    requires k.flag != flag
    ensures var s' := Step(cfg, server, s, FlagChanged(flag));
            && (k in s'.cache <==> k in s.cache)
            && (k in s.cache ==> s'.cache[k] == s.cache[k])
            && s'.calls == s.calls && s'.now == s.now
  {
  }
}
