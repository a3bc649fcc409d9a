/** The SDK's client object: one method per atomic stretch of `Evaluate` and of
    the message handler, each proved to be the protocol's step. */
module FlagClient {
  import opened Prelude
  import opened FlagCache
  import opened FlagProtocol

  /** What OnDecision is told after a successful evaluation. */
  datatype Label = FromCache | FromInstitution | FromFallback
  datatype Decision = Decision(flag: string, tenant: string, value: bool, source: Label, reason: string)

  // ---- What OnDecision is told ----

  /** The decision belongs to a call that has returned: its flag, tenant and value, and
      the label of the place its value came from. */
  predicate Tells(d: Decision, c: Call, missed: bool) {
    && c.phase.Returned?
    && d.flag == c.flag && d.tenant == c.tenant && d.value == c.phase.value
    && d.source == (if !missed then FromCache else if c.phase.origin.ReadAt? then FromInstitution else FromFallback)
    && (d.source != FromFallback ==> d.reason == "")
  }

  /** A call that has not returned a value missed the cache; what the institution
      resolved carries no reason. */
  predicate Underway(c: Call, missed: bool) {
    && (!c.phase.Returned? ==> missed)
    && (c.phase.Answered? && c.phase.outcome.Resolved? && c.phase.outcome.source == Institution ==>
          c.phase.outcome.reason == "")
  }

  /** `returned` lists the calls that have returned a value, in the order they did, and
      there is exactly one decision for each, in that order. */
  ghost predicate Ledger(calls: seq<Call>, decisions: seq<Decision>, returned: seq<nat>, fetched: set<nat>) {
    && |decisions| == |returned|
    && (forall i, j :: 0 <= i < j < |returned| ==> returned[i] != returned[j])
    && (forall i :: 0 <= i < |decisions| ==>
          returned[i] < |calls| && Tells(decisions[i], calls[returned[i]], returned[i] in fetched))
    && (forall i :: 0 <= i < |calls| && calls[i].phase.Returned? ==> i in returned)
    && (forall i :: 0 <= i < |calls| ==> Underway(calls[i], i in fetched))
    && (forall i :: i in fetched ==> i < |calls|)
  }

  /** A call that misses stays open. */
  lemma CallMisses(calls: seq<Call>, decisions: seq<Decision>, returned: seq<nat>, fetched: set<nat>, c: Call)
    requires Ledger(calls, decisions, returned, fetched) && c.phase.Asked?
    ensures Ledger(calls + [c], decisions, returned, fetched + {|calls|})
  {
  }

  /** A call that hits returns at once. */
  lemma CallHits(calls: seq<Call>, decisions: seq<Decision>, returned: seq<nat>, fetched: set<nat>,
                 c: Call, d: Decision)
    requires Ledger(calls, decisions, returned, fetched) && Tells(d, c, false)
    ensures Ledger(calls + [c], decisions + [d], returned + [|calls|], fetched)
  {
    assert |calls| in returned + [|calls|];
    assert forall i :: i in returned ==> i in returned + [|calls|];
    forall i | 0 <= i < |returned|
      ensures returned[i] < |calls|
    {
      assert Tells(decisions[i], calls[returned[i]], returned[i] in fetched);
    }
  }

  /** A call moves on without returning a value. */
  lemma CallMoves(calls: seq<Call>, decisions: seq<Decision>, returned: seq<nat>, fetched: set<nat>, i: nat, c: Call)
    requires Ledger(calls, decisions, returned, fetched) && i < |calls| && !calls[i].phase.Returned?
    requires !c.phase.Returned? && Underway(c, true)
    ensures Ledger(calls[i := c], decisions, returned, fetched)
  {
  }

  /** A call returns the value it fetched. */
  lemma CallReturns(calls: seq<Call>, decisions: seq<Decision>, returned: seq<nat>, fetched: set<nat>,
                    i: nat, c: Call, d: Decision)
    requires Ledger(calls, decisions, returned, fetched) && i < |calls| && !calls[i].phase.Returned?
    requires Tells(d, c, true)
    ensures Ledger(calls[i := c], decisions + [d], returned + [i], fetched)
  {
    assert Underway(calls[i], i in fetched);
    assert i in returned + [i];
    assert forall k :: k in returned ==> k in returned + [i];
  }

  class Client {
    const cfg: Config
    const cache: TtlCache
    var calls: seq<Call>
    var decisions: seq<Decision>
    var origins: map<Key, Origin> // bookkeeping for the theorems; no decision depends on it
    ghost var fetched: set<nat>   // the calls that missed the cache
    ghost var returned: seq<nat>  // the calls that returned a value, in the order they did

    /** The protocol state, given what the clock shows. */
    ghost function At(now: int): State
      reads this, cache
    {
      State(now, cache.m, origins, calls)
    }

    ghost predicate Valid()
      reads this
    {
      cache.ttl == cfg.ttl && Ledger(calls, decisions, returned, fetched)
    }

    constructor (cfg: Config)
      ensures Valid() && this.cfg == cfg && fresh(cache)
      ensures forall now :: Init(At(now))
      ensures decisions == []
    {
      this.cfg := cfg;
      var emptyCache := new TtlCache(cfg.ttl);
      cache := emptyCache;
      calls := [];
      decisions := [];
      origins := map[];
      fetched := {};
      returned := [];
    }

    /** The override loop of `fetchWithSource`, with its early return. */
    method ScanOverrides(detail: Detail, tenant: string) returns (v: bool)
      ensures v == Resolve(detail, tenant) && ValueFor(detail, tenant, v)
    {
      ResolveIsTheValue(detail, tenant, Resolve(detail, tenant));
      if tenant != "" {
        for i := 0 to |detail.overrides|
          invariant FirstOverride(detail.overrides, tenant, detail.defaultValue)
                 == FirstOverride(detail.overrides[i..], tenant, detail.defaultValue)
        {
          if detail.overrides[i].tenant == tenant {
            return detail.overrides[i].value;
          }
        }
      }
      return detail.defaultValue;
    }

    method FetchWithSource(flag: string, tenant: string, reply: HttpReply) returns (r: Fetched)
      ensures r == FetchOutcome(cfg.fallbacks, flag, tenant, reply)
      // a reply below 400 that decodes gives the tenant's first override, else the default
      ensures reply.Http? && reply.status < 400 && reply.decoded.Some? ==>
                var detail := reply.decoded.value;
                && r.Resolved? && r.source == Institution && r.reason == ""
                && (forall i | 0 <= i < |detail.overrides| && detail.overrides[i].tenant == tenant != ""
                               && (forall j :: 0 <= j < i ==> detail.overrides[j].tenant != tenant) ::
                      r.value == detail.overrides[i].value)
                && (tenant == "" || (forall o :: o in detail.overrides ==> o.tenant != tenant) ==>
                      r.value == detail.defaultValue)
      // anything else gives the declared fallback with the reason, or the hard error
      ensures !(reply.Http? && reply.status < 400 && reply.decoded.Some?) ==>
                var reason := if reply.NoReply? then "connection"
                              else if reply.status == 404 then "flag_unknown"
                              else if reply.status >= 400 then "institution status"
                              else "decode";
                && (flag in cfg.fallbacks ==>
                      r == Resolved(cfg.fallbacks[flag], Fallback, "institution_error:" + reason))
                && (flag !in cfg.fallbacks ==> r == Undeclared(reason))
    {
      if reply.NoReply? {
        return FallBack(cfg.fallbacks, flag, "connection");
      }
      if reply.status == 404 {
        return FallBack(cfg.fallbacks, flag, "flag_unknown");
      }
      if reply.status >= 400 {
        return FallBack(cfg.fallbacks, flag, "institution status");
      }
      if reply.decoded.None? {
        return FallBack(cfg.fallbacks, flag, "decode");
      }
      var v := ScanOverrides(reply.decoded.value, tenant);
      assert forall i: nat :: FirstFor(reply.decoded.value.overrides, tenant, i) && tenant != "" ==>
               v == reply.decoded.value.overrides[i].value;
      return Resolved(v, Institution, "");
    }

    /** `Evaluate` up to a cache hit or the start of the fetch. */
    method Begin(ghost server: Server, flag: string, tenant: string, now: int) returns (call: nat)
      requires Valid()
      modifies this`calls, this`decisions, this`fetched, this`returned, cache
      ensures At(now) == Step(cfg, server, old(At(now)), Event.Begin(flag, tenant)) && Valid()
      ensures call == old(|calls|) == |calls| - 1
      ensures decisions == match calls[call].phase
                           case Returned(v, _, _) => old(decisions) + [Decision(flag, tenant, v, FromCache, "")]
                           case _ => old(decisions)
    {
      var key := Key(flag, tenant);
      call := |calls|;
      var v, ok := cache.Get(key, now);
      if ok {
        var origin := if key in origins then origins[key] else Declared;
        var c, d := Call(flag, tenant, Returned(v, origin, now)), Decision(flag, tenant, v, FromCache, "");
        CallHits(calls, decisions, returned, fetched, c, d);
        calls, decisions := calls + [c], decisions + [d];
        returned := returned + [call];
      } else {
        var c := Call(flag, tenant, Asked(now));
        CallMisses(calls, decisions, returned, fetched, c);
        calls := calls + [c];
        fetched := fetched + {call};
      }
    }

    method Receive(ghost server: Server, call: nat, reply: HttpReply, now: int)
      requires Valid() && Enabled(cfg, server, At(now), Answer(call, reply))
      modifies this`calls
      ensures At(now) == Step(cfg, server, old(At(now)), Answer(call, reply)) && Valid()
    {
      var c := calls[call];
      var outcome := FetchWithSource(c.flag, c.tenant, reply);
      CallMoves(calls, decisions, returned, fetched, call, c.(phase := Answered(c.phase.start, now, outcome)));
      calls := calls[call := c.(phase := Answered(c.phase.start, now, outcome))];
    }

    /** The rest of `Evaluate`: cache the value and report it, or fail without a trace. */
    method Finish(ghost server: Server, call: nat, now: int)
      requires Valid() && Enabled(cfg, server, At(now), Event.Finish(call))
      modifies this, cache
      ensures At(now) == Step(cfg, server, old(At(now)), Event.Finish(call))
      ensures Valid()
      ensures decisions == match old(calls)[call].phase.outcome
                           case Undeclared(_) => old(decisions)
                           case Resolved(v, source, reason) =>
                             old(decisions) + [Decision(calls[call].flag, calls[call].tenant, v,
                               if source == Institution then FromInstitution else FromFallback, reason)]
    {
      var c := calls[call];
      match c.phase.outcome
      case Undeclared(_) =>
        CallMoves(calls, decisions, returned, fetched, call, c.(phase := Failed));
        calls := calls[call := c.(phase := Failed)];
      case Resolved(v, source, reason) =>
        cache.Put(KeyOf(c), v, now);
        var origin := OriginOf(c.phase.readAt, c.phase.outcome);
        origins := origins[KeyOf(c) := origin];
        var d := Decision(c.flag, c.tenant, v, if source == Institution then FromInstitution else FromFallback, reason);
        assert Underway(c, call in fetched);
        CallReturns(calls, decisions, returned, fetched, call, c.(phase := Returned(v, origin, now)), d);
        calls := calls[call := c.(phase := Returned(v, origin, now))];
        decisions := decisions + [d];
        returned := returned + [call];
    }

    method OnFlagChanged(ghost server: Server, flag: string, now: int)
      requires Valid()
      modifies cache
      ensures At(now) == Step(cfg, server, old(At(now)), FlagChanged(flag)) && Valid()
    {
      if flag != "" {
        cache.Invalidate(flag);
      }
    }
  }
}
