/** Evaluations against the history of a whole run: which of them are answered from the
    cache, and with what value, is read off the fetches that came back and the
    invalidations, in the order they happened. */
module FlagHistory {
  import opened FlagCache
  import opened FlagProtocol

  /** What an event does to the cache: an evaluation looks its key up, a value that came
      back is put there, a fallback too, and a named flag is invalidated. */
  function OpsOf(s: State, e: Event): seq<Op> {
    match e
    case Begin(flag, tenant) => [Op.Get(Key(flag, tenant), s.now)]
    case Finish(i) =>
      if i < |s.calls| && s.calls[i].phase.Answered? && s.calls[i].phase.outcome.Resolved? then
        [Op.Put(Key(s.calls[i].flag, s.calls[i].tenant), s.calls[i].phase.outcome.value, s.now)]
      else []
    case FlagChanged(flag) => if flag == "" then [] else [Op.Invalidate(flag, s.now)]
    case _ => []
  }

  ghost function OpsDone(cfg: Config, server: Server, s: State, es: seq<Event>): seq<Op>
    requires ValidRun(cfg, server, s, es)
    decreases |es|
  {
    if es == [] then [] else OpsOf(s, es[0]) + OpsDone(cfg, server, Step(cfg, server, s, es[0]), es[1..])
  }

  ghost predicate InPast(ops: seq<Op>, now: int) {
    forall i :: 0 <= i < |ops| ==> ops[i].at <= now
  }

  /** The operations so far account for the cache. */
  ghost predicate Recorded(cfg: Config, s: State, ops: seq<Op>) {
    s.cache == ApplyAll(cfg.ttl, ops) && InPast(ops, s.now)
  }

  lemma ApplyLast(ttl: int, ops: seq<Op>, op: Op)
    ensures ApplyAll(ttl, ops + [op]) == Apply(ApplyAll(ttl, ops), ttl, op)
  {
    assert (ops + [op])[..|ops|] == ops;
  }

  lemma StepRecorded(cfg: Config, server: Server, s: State, e: Event, ops: seq<Op>)
    requires Recorded(cfg, s, ops) && Enabled(cfg, server, s, e)
    ensures Recorded(cfg, Step(cfg, server, s, e), ops + OpsOf(s, e))
  {
    if |OpsOf(s, e)| == 1 {
      ApplyLast(cfg.ttl, ops, OpsOf(s, e)[0]);
      assert OpsOf(s, e) == [OpsOf(s, e)[0]];
    } else {
      assert ops + OpsOf(s, e) == ops;
    }
  }

  lemma {:induction false} RunRecorded(cfg: Config, server: Server, s: State, es: seq<Event>, ops: seq<Op>)
    requires Recorded(cfg, s, ops) && ValidRun(cfg, server, s, es)
    ensures Recorded(cfg, Run(cfg, server, s, es), ops + OpsDone(cfg, server, s, es))
    decreases |es|
  {
    if es == [] {
      assert ops + [] == ops;
    } else {
      var s' := Step(cfg, server, s, es[0]);
      StepRecorded(cfg, server, s, es[0], ops);
      RunRecorded(cfg, server, s', es[1..], ops + OpsOf(s, es[0]));
      assert ops + (OpsOf(s, es[0]) + OpsDone(cfg, server, s', es[1..]))
          == (ops + OpsOf(s, es[0])) + OpsDone(cfg, server, s', es[1..]);
    }
  }

  /** The evaluation begun in `s` as its last call. */
  ghost predicate AnswersAs(s: State, c: Call, ttl: int, ops: seq<Op>) {
    var k := Key(c.flag, c.tenant);
    && (c.phase.Returned? <==> exists i :: LatestWrite(ops, k, i) && s.now <= ops[i].at + ttl)
    && (forall i :: LatestWrite(ops, k, i) && c.phase.Returned? ==> c.phase.value == ops[i].v)
    && (!c.phase.Returned? ==> c.phase == Asked(s.now))
  }

  lemma BegunAnswers(s: State, ttl: int, ops: seq<Op>, flag: string, tenant: string)
    requires Explained(ttl, ops, s.cache, Key(flag, tenant), s.now)
    ensures var next := Began(s, flag, tenant);
            && |next.calls| == |s.calls| + 1 && next.calls[..|s.calls|] == s.calls
            && next.calls[|s.calls|].flag == flag && next.calls[|s.calls|].tenant == tenant
            && AnswersAs(s, next.calls[|s.calls|], ttl, ops)
  {
    var k := Key(flag, tenant);
    if k in s.cache && !Expired(s.cache[k], s.now) {
      assert k in Live(s.cache, s.now);
    } else {
      assert k !in Live(s.cache, s.now);
    }
  }

  /** At any point of any run an evaluation is answered from the cache, with the value
      that came back last for its flag and tenant, if and only if the flag has not been
      invalidated since and the TTL has not passed; otherwise it starts a fetch. */
  lemma AnsweredFromHistory(cfg: Config, server: Server, s: State, es: seq<Event>, flag: string, tenant: string)
    requires Init(s) && ValidRun(cfg, server, s, es)
    ensures var s' := Run(cfg, server, s, es);
            var calls := Step(cfg, server, s', Begin(flag, tenant)).calls;
            && |calls| == |s'.calls| + 1 && calls[..|s'.calls|] == s'.calls
            && calls[|s'.calls|].flag == flag && calls[|s'.calls|].tenant == tenant
            && AnswersAs(s', calls[|s'.calls|], cfg.ttl, OpsDone(cfg, server, s, es))
  {
    var s', ops := Run(cfg, server, s, es), OpsDone(cfg, server, s, es);
    RunRecorded(cfg, server, s, es, []);
    assert [] + ops == ops;
    AnswersLatestWrite(cfg.ttl, ops, Key(flag, tenant), s'.now);
    BegunAnswers(s', cfg.ttl, ops, flag, tenant);
  }
}
