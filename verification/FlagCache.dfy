/** The TTL cache of the Go flag SDK: a map that is changed in place and drops
    expired entries only when somebody looks them up. */
module FlagCache {
  import opened Prelude

  datatype Key = Key(flag: string, tenant: string)
  datatype Entry = Entry(value: bool, expiresAt: int)

  type Store = map<Key, Entry>

  predicate Expired(e: Entry, now: int) {
    now > e.expiresAt
  }

  /** What the cache stands for at time `now`: the entries not yet expired. */
  ghost function Live(m: Store, now: int): map<Key, bool> {
    map k | k in m && !Expired(m[k], now) :: m[k].value
  }

  // ---- The stores the three operations leave behind ----

  function AfterGet(m: Store, k: Key, now: int): Store {
    if k in m && Expired(m[k], now) then m - {k} else m
  }

  function AfterPut(m: Store, ttl: int, k: Key, v: bool, now: int): Store {
    m[k := Entry(v, now + ttl)]
  }

  function AfterInvalidate(m: Store, flag: string): Store {
    map k | k in m && k.flag != flag :: m[k]
  }

  class TtlCache {
    const ttl: int
    var m: Store

    constructor (ttl: int)
      ensures this.ttl == ttl && m == map[]
    {
      this.ttl := ttl;
      m := map[];
    }

    method Get(k: Key, now: int) returns (value: bool, ok: bool)
      modifies this
      ensures ok <==> k in Live(old(m), now)
      ensures value == (ok && Live(old(m), now)[k])
      ensures m == AfterGet(old(m), k, now)
      ensures forall t :: t >= now ==> Live(m, t) == Live(old(m), t)
    {
      if k !in m {
        return false, false;
      }
      var e := m[k];
      if now > e.expiresAt {
        m := m - {k};
        return false, false;
      }
      return e.value, true;
    }

    method Put(k: Key, v: bool, now: int)
      modifies this
      ensures m == AfterPut(old(m), ttl, k, v, now)
    {
      m := m[k := Entry(v, now + ttl)];
    }

    /** Go lets a loop delete from the map it ranges over; the order is arbitrary. */
    method Invalidate(flag: string)
      modifies this
      ensures m == AfterInvalidate(old(m), flag)
    {
      var unvisited := m.Keys;
      while unvisited != {}
        invariant unvisited <= old(m).Keys
        invariant forall k :: k in m <==> k in old(m) && (k in unvisited || k.flag != flag)
        invariant forall k :: k in m ==> m[k] == old(m)[k]
        decreases |unvisited|
      {
        var k :| k in unvisited;
        unvisited := unvisited - {k};
        if k.flag == flag {
          m := m - {k};
        }
      }
    }

    method Size() returns (n: nat)
      ensures n == |m| && forall t :: |Live(m, t)| <= n
    {
      forall t
        ensures |Live(m, t)| <= |m|
      {
        LiveFits(m, t);
      }
      n := |m|;
    }
  }

  lemma LiveFits(m: Store, t: int)
    ensures |Live(m, t)| <= |m|
  {
    assert Live(m, t).Keys <= m.Keys;
    SubsetSize(Live(m, t).Keys, m.Keys);
    assert |Live(m, t)| == |Live(m, t).Keys| && |m| == |m.Keys|;
  }

  // ---- The lazy map refines the map of unexpired entries ----

  /** The deletion inside a lookup is invisible, now and at every later time. */
  lemma GetChangesNothing(m: Store, k: Key, now: int, t: int)
    requires t >= now
    ensures Live(AfterGet(m, k, now), t) == Live(m, t)
  {
  }

  /** A put is an update of the abstract map until its deadline and a removal after it. */
  lemma PutUpdates(m: Store, ttl: int, k: Key, v: bool, now: int, t: int)
    ensures Live(AfterPut(m, ttl, k, v, now), t)
         == if t <= now + ttl then Live(m, t)[k := v] else Live(m, t) - {k}
  {
    var m' := AfterPut(m, ttl, k, v, now);
    assert forall j :: j in Live(m', t) <==> if j == k then t <= now + ttl else j in Live(m, t);
  }

  /** Invalidation removes exactly one flag, for all its tenants at once. */
  lemma InvalidateFilters(m: Store, flag: string, t: int)
    ensures Live(AfterInvalidate(m, flag), t) == map k | k in Live(m, t) && k.flag != flag :: Live(m, t)[k]
  {
  }

  // ---- Against the history of operations ----

  datatype Op =
    | Get(k: Key, at: int)
    | Put(k: Key, v: bool, at: int)
    | Invalidate(flag: string, at: int)

  function Apply(m: Store, ttl: int, op: Op): Store {
    match op
    case Get(k, now) => AfterGet(m, k, now)
    case Put(k, v, now) => AfterPut(m, ttl, k, v, now)
    case Invalidate(flag, _) => AfterInvalidate(m, flag)
  }

  function ApplyAll(ttl: int, ops: seq<Op>): Store {
    if ops == [] then map[] else Apply(ApplyAll(ttl, ops[..|ops| - 1]), ttl, ops[|ops| - 1])
  }

  /** `ops[i]` is the write a reader of `k` should see. */
  ghost predicate LatestWrite(ops: seq<Op>, k: Key, i: int) {
    && 0 <= i < |ops| && ops[i].Put? && ops[i].k == k
    && forall j :: i < j < |ops| ==>
         !(ops[j].Put? && ops[j].k == k) && !(ops[j].Invalidate? && ops[j].flag == k.flag)
  }

  predicate Concerns(op: Op, k: Key) {
    (op.Put? && op.k == k) || (op.Invalidate? && op.flag == k.flag)
  }

  lemma LatestWriteKept(ops: seq<Op>, op: Op, k: Key, i: int)
    requires !Concerns(op, k)
    ensures LatestWrite(ops + [op], k, i) <==> LatestWrite(ops, k, i)
  {
    var more := ops + [op];
    assert forall j :: 0 <= j < |ops| ==> more[j] == ops[j];
    if LatestWrite(more, k, i) {
      assert i < |ops|;
    }
  }

  lemma LatestWriteLast(ops: seq<Op>, op: Op, k: Key, i: int)
    requires Concerns(op, k)
    ensures LatestWrite(ops + [op], k, i) <==> op.Put? && i == |ops|
  {
    var more := ops + [op];
    assert more[|ops|] == op;
  }

  /** An operation that does not concern the key leaves what a later lookup of it finds. */
  lemma UnconcernedKept(m: Store, ttl: int, op: Op, k: Key, now: int)
    requires !Concerns(op, k) && op.at <= now
    ensures var m' := Apply(m, ttl, op);
            (k in Live(m', now) <==> k in Live(m, now)) && (k in Live(m, now) ==> m'[k] == m[k])
  {
  }

  /** What a lookup at `now` should find. */
  ghost predicate Explained(ttl: int, ops: seq<Op>, m: Store, k: Key, now: int) {
    && (k in Live(m, now) ==> exists i :: LatestWrite(ops, k, i))
    && forall i :: LatestWrite(ops, k, i) ==>
         && (k in Live(m, now) <==> now <= ops[i].at + ttl)
         && (k in Live(m, now) ==> m[k] == Entry(ops[i].v, ops[i].at + ttl))
  }

  lemma ExplainUnconcerned(ttl: int, ops: seq<Op>, op: Op, m: Store, k: Key, now: int)
    requires Explained(ttl, ops, m, k, now) && !Concerns(op, k) && op.at <= now
    ensures Explained(ttl, ops + [op], Apply(m, ttl, op), k, now)
  {
    UnconcernedKept(m, ttl, op, k, now);
    forall i
      ensures LatestWrite(ops + [op], k, i) <==> LatestWrite(ops, k, i)
    {
      LatestWriteKept(ops, op, k, i);
    }
  }

  lemma ExplainConcerned(ttl: int, ops: seq<Op>, op: Op, m: Store, k: Key, now: int)
    requires Concerns(op, k)
    ensures Explained(ttl, ops + [op], Apply(m, ttl, op), k, now)
  {
    forall i
      ensures LatestWrite(ops + [op], k, i) <==> op.Put? && i == |ops|
    {
      LatestWriteLast(ops, op, k, i);
    }
    assert op.Put? ==> LatestWrite(ops + [op], k, |ops|);
  }

  /** A lookup answers from the latest write that no later invalidation of the
      flag cancelled, if that is no older than the TTL, and otherwise misses:
      the lookups in between, with their deletions, never show. */
  lemma {:induction false} AnswersLatestWrite(ttl: int, ops: seq<Op>, k: Key, now: int)
    requires forall i :: 0 <= i < |ops| ==> ops[i].at <= now
    ensures Explained(ttl, ops, ApplyAll(ttl, ops), k, now)
    decreases |ops|
  {
    if ops != [] {
      var front, op := ops[..|ops| - 1], ops[|ops| - 1];
      AnswersLatestWrite(ttl, front, k, now);
      assert ops == front + [op];
      if Concerns(op, k) {
        ExplainConcerned(ttl, front, op, ApplyAll(ttl, front), k, now);
      } else {
        ExplainUnconcerned(ttl, front, op, ApplyAll(ttl, front), k, now);
      }
    }
  }
}
