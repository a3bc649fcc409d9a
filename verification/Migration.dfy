/** The batch loop of the payload migration: every row is skipped, found
    canonical, rewritten, or reported as failed, and only validated rewrites are
    written.  Validation and the per-type rewrites are arbitrary functions. */
module Migration {
  import opened Prelude

  /** `transform` returns None when the rewrite raises. */
  datatype Tools<!P> = Tools(
    skipTypes: set<string>,
    transformed: set<string>,
    validates: (string, P) -> bool,
    transform: (string, P, string) -> Option<P>)

  datatype Row<P> = Row(id: string, qtype: string, stem: Option<string>, payload: P)

  datatype Verdict<P> = Skipped | Already | Fixed(canon: P) | Failed

  datatype Stats = Stats(total: nat, ok: nat, already: nat, skip: nat, fail: nat)

  const ZERO: Stats := Stats(0, 0, 0, 0, 0)

  datatype Update<P> = Update(id: string, payload: P)

  /** `r["stem"] or "Question"` */
  function StemOr(stem: Option<string>): string {
    if stem.Some? && stem.value != "" then stem.value else "Question"
  }

  function Judge<P>(tools: Tools<P>, row: Row<P>): Verdict<P> {
    if row.qtype in tools.skipTypes then Skipped
    else if tools.validates(row.qtype, row.payload) then Already
    else if row.qtype !in tools.transformed then Skipped
    else match tools.transform(row.qtype, row.payload, StemOr(row.stem))
      case None => Failed
      case Some(canon) => if tools.validates(row.qtype, canon) then Fixed(canon) else Failed
  }

  /** What becomes of a row, in terms of the type lists, the validation and the rewrite
      of its payload under its own stem ("Question" if it has none). */
  lemma VerdictExplained<P>(tools: Tools<P>, row: Row<P>)
    ensures var v := Judge(tools, row);
            var stem := if row.stem == None || row.stem == Some("") then "Question" else row.stem.value;
            var canon := tools.transform(row.qtype, row.payload, stem);
            var canonical := tools.validates(row.qtype, row.payload);
            && (v == Skipped <==>
                  row.qtype in tools.skipTypes || (!canonical && row.qtype !in tools.transformed))
            && (v == Already <==> row.qtype !in tools.skipTypes && canonical)
            && (v.Fixed? <==>
                  && row.qtype !in tools.skipTypes && !canonical && row.qtype in tools.transformed
                  && canon.Some? && tools.validates(row.qtype, canon.value))
            && (v.Fixed? ==> v.canon == canon.value)
            && (v == Failed <==>
                  && row.qtype !in tools.skipTypes && !canonical && row.qtype in tools.transformed
                  && (canon.None? || !tools.validates(row.qtype, canon.value)))
  {
  }

  function Count<P>(s: Stats, v: Verdict<P>): Stats {
    var t := s.(total := s.total + 1);
    match v
    case Skipped => t.(skip := t.skip + 1)
    case Already => t.(already := t.already + 1)
    case Fixed(_) => t.(ok := t.ok + 1)
    case Failed => t.(fail := t.fail + 1)
  }

  /** The counters of one question type. */
  function StatsOf<P>(tools: Tools<P>, rows: seq<Row<P>>, qtype: string): Stats {
    if rows == [] then ZERO
    else
      var front, last := StatsOf(tools, rows[..|rows| - 1], qtype), rows[|rows| - 1];
      if last.qtype == qtype then Count(front, Judge(tools, last)) else front
  }

  function UpdatesOf<P>(tools: Tools<P>, rows: seq<Row<P>>): seq<Update<P>> {
    if rows == [] then []
    else
      var front, last := UpdatesOf(tools, rows[..|rows| - 1]), rows[|rows| - 1];
      match Judge(tools, last)
      case Fixed(canon) => front + [Update(last.id, canon)]
      case _ => front
  }

  /** The loop body of `main`, with its early continues. */
  method TakeRow<P>(tools: Tools<P>, r: Row<P>, tally: Stats, before: seq<Update<P>>)
    returns (st: Stats, updates: seq<Update<P>>)
    ensures st == Count(tally, Judge(tools, r))
    ensures updates == match Judge(tools, r)
                       case Fixed(canon) => before + [Update(r.id, canon)]
                       case _ => before
  {
    updates := before;
    st := tally.(total := tally.total + 1);
    if r.qtype in tools.skipTypes {
      return st.(skip := st.skip + 1), updates;
    }
    if tools.validates(r.qtype, r.payload) {
      return st.(already := st.already + 1), updates;
    }
    if r.qtype !in tools.transformed {
      return st.(skip := st.skip + 1), updates;
    }
    var canon := tools.transform(r.qtype, r.payload, StemOr(r.stem));
    if canon.None? {
      return st.(fail := st.fail + 1), updates;
    }
    if tools.validates(r.qtype, canon.value) {
      return st.(ok := st.ok + 1), updates + [Update(r.id, canon.value)];
    } else {
      return st.(fail := st.fail + 1), updates;
    }
  }

  ghost function Types<P>(rows: seq<Row<P>>): set<string> {
    set r | r in rows :: r.qtype
  }

  ghost predicate Tallied<P>(tools: Tools<P>, rows: seq<Row<P>>, stats: map<string, Stats>) {
    && stats.Keys == Types(rows)
    && forall qtype :: (if qtype in stats then stats[qtype] else ZERO) == StatsOf(tools, rows, qtype)
  }

  lemma OneMoreRow<P>(tools: Tools<P>, rows: seq<Row<P>>, r: Row<P>, stats: map<string, Stats>)
    requires Tallied(tools, rows, stats)
    ensures var st := if r.qtype in stats then stats[r.qtype] else ZERO;
            Tallied(tools, rows + [r], stats[r.qtype := Count(st, Judge(tools, r))])
  {
    assert (rows + [r])[..|rows|] == rows;
    assert Types(rows + [r]) == Types(rows) + {r.qtype} by {
      assert forall q :: q in rows + [r] <==> q in rows || q == r;
    }
  }

  /** The row loop of `main`. */
  method Migrate<P>(tools: Tools<P>, rows: seq<Row<P>>) returns (stats: map<string, Stats>, updates: seq<Update<P>>)
    ensures Tallied(tools, rows, stats)
    ensures updates == UpdatesOf(tools, rows)
  {
    stats, updates := map[], [];
    for i := 0 to |rows|
      invariant Tallied(tools, rows[..i], stats)
      invariant updates == UpdatesOf(tools, rows[..i])
    {
      var r := rows[i];
      assert rows[..i + 1] == rows[..i] + [r] && (rows[..i] + [r])[..i] == rows[..i];
      OneMoreRow(tools, rows[..i], r, stats);
      var st := if r.qtype in stats then stats[r.qtype] else ZERO;
      st, updates := TakeRow(tools, r, st, updates);
      stats := stats[r.qtype := st];
    }
    assert rows[..|rows|] == rows;
  }

  // ---- Accounting ----

  lemma {:induction false} TotalsAddUp<P>(tools: Tools<P>, rows: seq<Row<P>>, qtype: string)
    ensures var s := StatsOf(tools, rows, qtype);
            s.total == s.ok + s.already + s.skip + s.fail
  {
    if rows != [] {
      TotalsAddUp(tools, rows[..|rows| - 1], qtype);
    }
  }

  ghost function Pick(types: set<string>): (t: string)
    requires types != {}
    ensures t in types
  {
    var t :| t in types;
    t
  }

  datatype Outcome = Counted | Oks | Alreadys | Skips | Fails

  predicate CameOut<P>(v: Verdict<P>, o: Outcome) {
    match o
    case Counted => true
    case Oks => v.Fixed?
    case Alreadys => v.Already?
    case Skips => v.Skipped?
    case Fails => v.Failed?
  }

  predicate Fits<P>(tools: Tools<P>, row: Row<P>, qtype: string, o: Outcome) {
    row.qtype == qtype && CameOut(Judge(tools, row), o)
  }

  /** The rows, by position, of one type that came out one way. */
  ghost function RowsWith<P>(tools: Tools<P>, rows: seq<Row<P>>, qtype: string, o: Outcome): set<nat> {
    set i: nat | i < |rows| && Fits(tools, rows[i], qtype, o)
  }

  lemma OneMoreWith<P>(tools: Tools<P>, front: seq<Row<P>>, last: Row<P>, qtype: string, o: Outcome)
    ensures |RowsWith(tools, front + [last], qtype, o)|
         == |RowsWith(tools, front, qtype, o)| + if Fits(tools, last, qtype, o) then 1 else 0
  {
    var n, rows := |front|, front + [last];
    var before, after := RowsWith(tools, front, qtype, o), RowsWith(tools, rows, qtype, o);
    forall i: nat
      ensures i in after <==> i in before || (i == n && Fits(tools, last, qtype, o))
    {
      assert i < n ==> rows[i] == front[i];
    }
    assert n !in before;
    assert after == if Fits(tools, last, qtype, o) then before + {n} else before;
  }

  /** Each counter is the number of rows of its type that came out that way. */
  lemma {:induction false} CountersCount<P>(tools: Tools<P>, rows: seq<Row<P>>, qtype: string)
    ensures var s := StatsOf(tools, rows, qtype);
            && s.total == |RowsWith(tools, rows, qtype, Counted)|
            && s.ok == |RowsWith(tools, rows, qtype, Oks)|
            && s.already == |RowsWith(tools, rows, qtype, Alreadys)|
            && s.skip == |RowsWith(tools, rows, qtype, Skips)|
            && s.fail == |RowsWith(tools, rows, qtype, Fails)|
  {
    if rows != [] {
      var front, last := rows[..|rows| - 1], rows[|rows| - 1];
      CountersCount(tools, front, qtype);
      assert rows == front + [last];
      OneMoreWith(tools, front, last, qtype, Counted);
      OneMoreWith(tools, front, last, qtype, Oks);
      OneMoreWith(tools, front, last, qtype, Alreadys);
      OneMoreWith(tools, front, last, qtype, Skips);
      OneMoreWith(tools, front, last, qtype, Fails);
    }
  }

  /** The `ok` counters of the given types, summed. */
  ghost function TotalOk<P>(tools: Tools<P>, rows: seq<Row<P>>, types: set<string>): nat {
    if types == {} then 0
    else
      StatsOf(tools, rows, Pick(types)).ok + TotalOk(tools, rows, types - {Pick(types)})
  }

  lemma {:induction false} TotalOkStep<P>(tools: Tools<P>, rows: seq<Row<P>>, types: set<string>)
    requires rows != []
    ensures var front, last := rows[..|rows| - 1], rows[|rows| - 1];
            TotalOk(tools, rows, types) == TotalOk(tools, front, types)
              + if last.qtype in types && Judge(tools, last).Fixed? then 1 else 0
  {
    if types != {} {
      TotalOkStep(tools, rows, types - {Pick(types)});
    }
  }

  lemma {:induction false} TotalOkEmpty<P>(tools: Tools<P>, types: set<string>)
    ensures TotalOk(tools, [], types) == 0
  {
    if types != {} {
      TotalOkEmpty(tools, types - {Pick(types)});
    }
  }

  /** As many updates as the `ok` counters of all types together. */
  lemma {:induction false} UpdatesAreTheOks<P>(tools: Tools<P>, rows: seq<Row<P>>, types: set<string>)
    requires forall r :: r in rows ==> r.qtype in types
    ensures |UpdatesOf(tools, rows)| == TotalOk(tools, rows, types)
  {
    if rows == [] {
      TotalOkEmpty(tools, types);
    } else {
      assert rows[|rows| - 1] in rows && forall r :: r in rows[..|rows| - 1] ==> r in rows;
      UpdatesAreTheOks(tools, rows[..|rows| - 1], types);
      TotalOkStep(tools, rows, types);
    }
  }

  // ---- Writing the updates ----

  predicate DistinctIds<P>(rows: seq<Row<P>>) {
    forall i, j :: 0 <= i < j < |rows| ==> rows[i].id != rows[j].id
  }

  /** `UPDATE ... SET payload = $2 WHERE id = $1`. */
  function ApplyUpdate<P>(rows: seq<Row<P>>, u: Update<P>): (written: seq<Row<P>>)
    ensures |written| == |rows|
  {
    seq(|rows|, i requires 0 <= i < |rows| =>
      if rows[i].id == u.id then rows[i].(payload := u.payload) else rows[i])
  }

  /** The statement for each update in turn. */
  function ApplyUpdates<P>(rows: seq<Row<P>>, updates: seq<Update<P>>): (written: seq<Row<P>>)
    ensures |written| == |rows|
  {
    if updates == [] then rows
    else ApplyUpdate(ApplyUpdates(rows, updates[..|updates| - 1]), updates[|updates| - 1])
  }

  lemma {:induction false} UnseenIdNotUpdated<P>(tools: Tools<P>, rows: seq<Row<P>>, u: Update<P>)
    requires forall r :: r in rows ==> r.id != u.id
    ensures u !in UpdatesOf(tools, rows)
  {
    if rows != [] {
      assert rows[|rows| - 1] in rows && forall r :: r in rows[..|rows| - 1] ==> r in rows;
      UnseenIdNotUpdated(tools, rows[..|rows| - 1], u);
    }
  }

  lemma {:induction false} OtherRowsKept<P>(rows: seq<Row<P>>, updates: seq<Update<P>>, i: nat)
    requires i < |rows|
    requires forall u :: u in updates ==> u.id != rows[i].id
    ensures ApplyUpdates(rows, updates)[i] == rows[i]
  {
    if updates != [] {
      var n := |updates| - 1;
      assert updates[n] in updates && forall u :: u in updates[..n] ==> u in updates;
      OtherRowsKept(rows, updates[..n], i);
    }
  }

  /** What row `i` holds once the updates computed from the first `k` rows are in. */
  lemma {:induction false} WrittenSoFar<P>(tools: Tools<P>, rows: seq<Row<P>>, k: nat, i: nat)
    requires DistinctIds(rows) && i < k <= |rows|
    ensures var v := Judge(tools, rows[i]);
            ApplyUpdates(rows, UpdatesOf(tools, rows[..k]))[i]
              == if v.Fixed? then rows[i].(payload := v.canon) else rows[i]
  {
    var front, last := rows[..k - 1], rows[k - 1];
    assert rows[..k][..k - 1] == front;
    if i == k - 1 {
      forall u | u in UpdatesOf(tools, front)
        ensures u.id != rows[i].id
      {
        if u.id == rows[i].id {
          UnseenIdNotUpdated(tools, front, u);
        }
      }
      OtherRowsKept(rows, UpdatesOf(tools, front), i);
    } else {
      WrittenSoFar(tools, rows, k - 1, i);
    }
    if Judge(tools, last).Fixed? {
      OneMoreUpdate(rows, UpdatesOf(tools, front), Update(last.id, Judge(tools, last).canon), i);
    }
  }

  lemma OneMoreUpdate<P>(rows: seq<Row<P>>, updates: seq<Update<P>>, u: Update<P>, i: nat)
    requires i < |rows|
    ensures var before := ApplyUpdates(rows, updates)[i];
            ApplyUpdates(rows, updates + [u])[i] == if before.id == u.id then before.(payload := u.payload) else before
  {
    assert (updates + [u])[..|updates|] == updates;
  }

  /** An applied run rewrites exactly the rows judged fixable, each with a payload
      that validates for its type, and leaves every other row alone. */
  lemma AppliedRun<P>(tools: Tools<P>, rows: seq<Row<P>>, i: nat)
    requires DistinctIds(rows) && i < |rows|
    ensures var after := ApplyUpdates(rows, UpdatesOf(tools, rows));
            match Judge(tools, rows[i])
            case Fixed(canon) => after[i] == rows[i].(payload := canon) && tools.validates(rows[i].qtype, canon)
            case _ => after[i] == rows[i]
  {
    WrittenSoFar(tools, rows, |rows|, i);
    assert rows[..|rows|] == rows;
  }

  /** What a second run makes of each row. */
  lemma SecondVerdict<P>(tools: Tools<P>, rows: seq<Row<P>>, i: nat)
    requires DistinctIds(rows) && i < |rows|
    ensures var after := ApplyUpdates(rows, UpdatesOf(tools, rows));
            Judge(tools, after[i]) == if Judge(tools, rows[i]).Fixed? then Already else Judge(tools, rows[i])
  {
    AppliedRun(tools, rows, i);
  }

  lemma {:induction false} SecondRunFrom<P>(tools: Tools<P>, rows: seq<Row<P>>, after: seq<Row<P>>, qtype: string)
    requires |rows| == |after|
    requires forall i :: 0 <= i < |rows| ==> after[i].qtype == rows[i].qtype
    requires forall i :: 0 <= i < |rows| ==>
               Judge(tools, after[i]) == if Judge(tools, rows[i]).Fixed? then Already else Judge(tools, rows[i])
    ensures UpdatesOf(tools, after) == []
    ensures var s, s' := StatsOf(tools, rows, qtype), StatsOf(tools, after, qtype);
            s' == Stats(s.total, 0, s.already + s.ok, s.skip, s.fail)
  {
    if rows != [] {
      var n := |rows| - 1;
      SecondRunFrom(tools, rows[..n], after[..n], qtype);
      assert after[n].qtype == rows[n].qtype;
    }
  }

  /** The migration is idempotent: a second run writes nothing and finds every row
      rewritten by the first already canonical. */
  lemma SecondRunIsQuiet<P>(tools: Tools<P>, rows: seq<Row<P>>, qtype: string)
    requires DistinctIds(rows)
    ensures var after := ApplyUpdates(rows, UpdatesOf(tools, rows));
            var s := StatsOf(tools, rows, qtype);
            && UpdatesOf(tools, after) == []
            && StatsOf(tools, after, qtype) == Stats(s.total, 0, s.already + s.ok, s.skip, s.fail)
            && ApplyUpdates(after, UpdatesOf(tools, after)) == after
  {
    var after := ApplyUpdates(rows, UpdatesOf(tools, rows));
    forall i | 0 <= i < |rows|
      ensures after[i].qtype == rows[i].qtype
      ensures Judge(tools, after[i]) == if Judge(tools, rows[i]).Fixed? then Already else Judge(tools, rows[i])
    {
      AppliedRun(tools, rows, i);
      SecondVerdict(tools, rows, i);
    }
    SecondRunFrom(tools, rows, after, qtype);
  }
}
