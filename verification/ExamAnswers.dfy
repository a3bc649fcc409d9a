/** What late answers of the AI do to the review screen: which codes on it survive,
    answer by answer and over whole sessions. */
module ExamAnswers {
  import opened Prelude
  import opened ExamDiff
  import opened ExamReview

  // ---- Answers that come late ----

  /** An answer merged into the list of the click, written to the row of the click:
      nothing on screen is lost exactly when the captured list or the answer still
      has every topic the row holds by then. */
  lemma LateRegeneration(p: Proposal, i: nat, captured: seq<TopicRow>, aiTopics: seq<Topic>)
    requires Distinct(p) && i < |p|
    ensures KeepsCodes(p, Landed(p, i, MergeRegenerated(captured, aiTopics)))
       <==> RowCodes(p[i].topics) <= RowCodes(captured) + Codes(aiTopics)
  {
    var topics := MergeRegenerated(captured, aiTopics);
    MergeConservesCodes(captured, aiTopics);
    ReplacedTopics(p, i, topics);
  }

  lemma ReplacedTopics(p: Proposal, i: nat, topics: seq<TopicRow>)
    requires DistinctHeaders(p) && i < |p|
    ensures KeepsCodes(p, WithTopics(p, i, topics)) <==> RowCodes(p[i].topics) <= RowCodes(topics)
  {
    var q := WithTopics(p, i, topics);
    if KeepsCodes(p, q) {
      assert Covered(p[i], q);
      var j :| 0 <= j < |q| && Covers(q[j], p[i]);
      assert i == j;
    } else if RowCodes(p[i].topics) <= RowCodes(topics) {
      KeepsCodesPointwise(p, q);
    }
  }

  /** Past the end nothing is overwritten. */
  lemma LandedPastEnd(p: Proposal, i: nat, topics: seq<TopicRow>)
    requires i >= |p|
    ensures KeepsCodes(p, Landed(p, i, topics))
  {
    KeepsCodesPointwise(p, Landed(p, i, topics));
  }

  /** Whatever the AI answers, nothing is lost exactly when the list of the click
      still has every topic of the row. */
  lemma LateRegenerationSafe(p: Proposal, i: nat, captured: seq<TopicRow>)
    requires Distinct(p) && i < |p|
    ensures (forall ai :: DistinctTopics(ai) ==> KeepsCodes(p, Landed(p, i, MergeRegenerated(captured, ai))))
       <==> RowCodes(p[i].topics) <= RowCodes(captured)
  {
    forall ai
      ensures KeepsCodes(p, Landed(p, i, MergeRegenerated(captured, ai)))
         <==> RowCodes(p[i].topics) <= RowCodes(captured) + Codes(ai)
    {
      LateRegeneration(p, i, captured, ai);
    }
    assert DistinctTopics([]) && Codes([]) == {};
  }

  /** A row survives an analysis diffed against `baseline` exactly when baseline and
      answer together still have its code and its topics. */
  ghost predicate StillHeld(r: SubjectRow, baseline: Option<Proposal>, next: seq<Subject>) {
    var b := if baseline.Some? then baseline.value else [];
    var code := r.header.code;
    && (code in SubjectRowCodes(b) || code in SubjectCodes(next))
    && RowCodes(r.topics) <= Under(b, code) + NextUnder(next, code)
  }

  lemma UntaggedCovers(r: SubjectRow, next: seq<Subject>)
    requires DistinctSubjects(next)
    ensures Covered(r, Untagged(next)) <==> StillHeld(r, None, next)
  {
    var rows, code := Untagged(next), r.header.code;
    CoveredUnder(r, rows);
    LastSubjectFound(rows, code);
    if code in SubjectRowCodes(rows) {
      var j :| 0 <= j < |rows| && rows[j].header.code == code;
      assert next[j] in next;
    }
    if code in SubjectCodes(next) {
      var j :| 0 <= j < |next| && next[j].header.code == code;
      assert rows[j] in rows;
      UnderAt(rows, j);
      NextUnderAt(next, j);
      PlainCodes(next[j].topics);
    }
  }

  lemma PlainCodes(topics: seq<Topic>)
    ensures RowCodes(Plain(topics)) == Codes(topics)
  {
    var rows := Plain(topics);
    forall i | 0 <= i < |rows|
      ensures rows[i].topic.code in Codes(topics) && topics[i].code in RowCodes(rows)
    {
      assert rows[i] in rows && topics[i] in topics;
    }
  }

  /** A re-analysis is diffed against the screen of the click: nothing on the screen
      of its landing is lost exactly when every row is still held by that baseline
      and the answer. */
  lemma LateReanalysis(p: Proposal, baseline: Option<Proposal>, next: seq<Subject>)
    requires (baseline.Some? ==> Distinct(baseline.value)) && DistinctSubjects(next)
    ensures KeepsCodes(p, Analysed(baseline, next)) <==>
              forall i :: 0 <= i < |p| ==> StillHeld(p[i], baseline, next)
  {
    forall i | 0 <= i < |p|
      ensures Covered(p[i], Analysed(baseline, next)) <==> StillHeld(p[i], baseline, next)
    {
      match baseline
      case None => UntaggedCovers(p[i], next);
      case Some(b) =>
        DiffKeepsDistinctHeaders(b, next);
        CoveredUnder(p[i], DiffedExam(b, next));
        DiffConservesExam(b, next, p[i].header.code);
    }
  }

  /** Whatever the AI answers, nothing is lost exactly when the baseline still covers
      the screen. */
  lemma LateReanalysisSafe(p: Proposal, b: Proposal)
    requires Distinct(b)
    ensures (forall next :: DistinctSubjects(next) ==> KeepsCodes(p, Analysed(Some(b), next))) <==> KeepsCodes(p, b)
  {
    forall i, next: seq<Subject> | 0 <= i < |p|
      ensures Covered(p[i], b) ==> StillHeld(p[i], Some(b), next)
      ensures Covered(p[i], b) <==> StillHeld(p[i], Some(b), [])
    {
      CoveredUnder(p[i], b);
      assert NextUnder([], p[i].header.code) == {} && SubjectCodes([]) == {};
    }
    forall next | DistinctSubjects(next)
      ensures KeepsCodes(p, Analysed(Some(b), next)) <==>
                forall i :: 0 <= i < |p| ==> StillHeld(p[i], Some(b), next)
    {
      LateReanalysis(p, Some(b), next);
    }
    assert DistinctSubjects([]);
  }

  // ---- Whole sessions ----

  lemma KeptTopicCodes(rows: seq<TopicRow>, j: nat)
    requires j < |rows|
    ensures RowCodes(rows) <= RowCodes(rows[j := rows[j].(kept := true)])
  {
    var rows' := rows[j := rows[j].(kept := true)];
    forall i | 0 <= i < |rows|
      ensures rows[i].topic.code in RowCodes(rows')
    {
      assert rows'[i] in rows';
    }
  }

  /** What has to hold before an action for every code on screen to stay there. */
  ghost predicate LosesNothing(s: Session, a: Action) {
    match a
    case LandAnalysis(next) => forall i :: 0 <= i < |s.rows| ==> StillHeld(s.rows[i], s.baseline, next)
    case LandTopics(k, aiTopics) =>
      k < |s.asked| && s.asked[k].row < |s.rows| ==>
        RowCodes(s.rows[s.asked[k].row].topics) <= RowCodes(s.asked[k].captured) + Codes(aiTopics)
    case EditCode(i, j, code) => i < |s.rows| && j < |s.rows[i].topics| && s.rows[i].topics[j].topic.code == code
    case RemoveSubject(_) => false
    case RemoveTopic(_, _) => false
    case _ => true
  }

  lemma RemovedSubjectIsLost(p: Proposal, i: nat)
    requires DistinctHeaders(p) && i < |p|
    ensures !KeepsCodes(p, p[..i] + p[i + 1..])
  {
    var q := p[..i] + p[i + 1..];
    forall j | 0 <= j < |q|
      ensures !Covers(q[j], p[i])
    {
      assert q[j] == if j < i then p[j] else p[j + 1];
    }
    assert !Covered(p[i], q);
  }

  lemma RemovedTopicIsLost(rows: seq<TopicRow>, j: nat)
    requires DistinctRows(rows) && j < |rows|
    ensures !(RowCodes(rows) <= RowCodes(rows[..j] + rows[j + 1..]))
  {
    var rest := rows[..j] + rows[j + 1..];
    assert rows[j] in rows;
    forall k | 0 <= k < |rest|
      ensures rest[k].topic.code != rows[j].topic.code
    {
      assert rest[k] == if k < j then rows[k] else rows[k + 1];
    }
    assert rows[j].topic.code !in RowCodes(rest);
  }

  lemma EditedCodeIsLost(rows: seq<TopicRow>, j: nat, code: string)
    requires DistinctRows(rows) && j < |rows|
    ensures RowCodes(rows) <= RowCodes(WithCode(rows, j, code)) <==> rows[j].topic.code == code
  {
    var rows' := WithCode(rows, j, code);
    if rows[j].topic.code == code {
      assert rows' == rows;
    } else {
      assert rows[j] in rows;
      forall k | 0 <= k < |rows'|
        ensures rows'[k].topic.code != rows[j].topic.code
      {
        assert k != j ==> rows'[k] == rows[k];
      }
      assert rows[j].topic.code !in RowCodes(rows');
    }
  }

  lemma AddedTopicCodes(rows: seq<TopicRow>, row: TopicRow)
    ensures RowCodes(rows) <= RowCodes(rows + [row])
  {
    forall r | r in rows
      ensures r in rows + [row]
    {
    }
  }

  lemma FillKeepsCodes(p: Proposal, filled: map<string, seq<Topic>>)
    ensures KeepsCodes(p, Filled(p, filled))
  {
    forall i | 0 <= i < |p|
      ensures Covers(FillRow(p[i], filled), p[i])
    {
      if p[i].header.code in filled {
        MergeConservesCodes(p[i].topics, filled[p[i].header.code]);
      }
    }
    KeepsCodesPointwise(p, Filled(p, filled));
  }

  predicate TouchesTopics(a: Action) {
    a.KeepTopic? || a.AddTopic? || a.EditCode? || a.RemoveTopic?
  }

  lemma TopicActionKeepsCodes(s: Session, a: Action)
    requires Sound(s) && Enabled(s, a) && TouchesTopics(a)
    ensures KeepsCodes(s.rows, RowsAfter(s, a)) <==> LosesNothing(s, a)
  {
    var p := s.rows;
    match a
    case KeepTopic(i, j) =>
      KeptTopicCodes(p[i].topics, j);
      ReplacedTopics(p, i, p[i].topics[j := p[i].topics[j].(kept := true)]);
    case AddTopic(i, code) =>
      AddedTopicCodes(p[i].topics, TopicRow(Topic(code, "New topic", None), None, false));
      ReplacedTopics(p, i, p[i].topics + [TopicRow(Topic(code, "New topic", None), None, false)]);
    case EditCode(i, j, code) =>
      EditedCodeIsLost(p[i].topics, j, code);
      ReplacedTopics(p, i, WithCode(p[i].topics, j, code));
    case RemoveTopic(i, j) =>
      RemovedTopicIsLost(p[i].topics, j);
      ReplacedTopics(p, i, p[i].topics[..j] + p[i].topics[j + 1..]);
  }

  lemma LandingKeepsCodes(s: Session, k: nat, aiTopics: seq<Topic>)
    requires Sound(s) && Enabled(s, LandTopics(k, aiTopics))
    ensures KeepsCodes(s.rows, RowsAfter(s, LandTopics(k, aiTopics))) <==> LosesNothing(s, LandTopics(k, aiTopics))
  {
    var i, captured := s.asked[k].row, s.asked[k].captured;
    if i < |s.rows| {
      LateRegeneration(s.rows, i, captured, aiTopics);
    } else {
      LandedPastEnd(s.rows, i, MergeRegenerated(captured, aiTopics));
    }
  }

  /** One action, exactly: it keeps everything on screen if and only if it may. */
  lemma StepKeepsCodes(s: Session, a: Action)
    requires Sound(s) && Enabled(s, a)
    ensures KeepsCodes(s.rows, Step(s, a).rows) <==> LosesNothing(s, a)
  {
    var p, q := s.rows, RowsAfter(s, a);
    if TouchesTopics(a) {
      TopicActionKeepsCodes(s, a);
    } else {
      match a
      case LandAnalysis(next) => LateReanalysis(p, s.baseline, next);
      case LandTopics(k, aiTopics) => LandingKeepsCodes(s, k, aiTopics);
      case FillEmpty(filled) => FillKeepsCodes(p, filled);
      case RemoveSubject(i) => RemovedSubjectIsLost(p, i);
      case _ => KeepsCodesPointwise(p, q);
    }
  }

  ghost function Safely(): (Session, Action) -> bool {
    (s, a) => LosesNothing(s, a)
  }

  /** At no moment of the session is a code missing that was on screen earlier. */
  ghost predicate NothingEverMissing(s: Session, actions: seq<Action>)
    requires ValidRun(s, actions)
    decreases |actions|
  {
    actions == [] ||
    (KeepsCodes(s.rows, Step(s, actions[0]).rows) && NothingEverMissing(Step(s, actions[0]), actions[1..]))
  }

  /** Over a session, whatever the AI answers and in whatever order, every code that
      was ever on screen stays there if and only if each action, judged when it is
      taken, loses nothing; only late answers and the admin's own removals can. */
  lemma {:induction false} NoCodeIsLost(s: Session, actions: seq<Action>)
    requires ValidRun(s, actions) && SoundThroughout(s, actions)
    ensures NothingEverMissing(s, actions) <==> Throughout(s, actions, Safely())
    ensures Throughout(s, actions, Safely()) ==> KeepsCodes(s.rows, Run(s, actions).rows)
    decreases |actions|
  {
    if actions == [] {
      KeepsCodesPointwise(s.rows, s.rows);
    } else {
      StepKeepsCodes(s, actions[0]);
      NoCodeIsLost(Step(s, actions[0]), actions[1..]);
      if Throughout(s, actions, Safely()) {
        KeepsCodesTransitive(s.rows, Step(s, actions[0]).rows, Run(s, actions).rows);
      }
    }
  }

  /** An answer that lands on what it was asked for: the row, or the screen, has
      gained no code since. */
  ghost predicate Timely(s: Session, a: Action) {
    && (a.LandTopics? && a.request < |s.asked| && s.asked[a.request].row < |s.rows| ==>
          RowCodes(s.rows[s.asked[a.request].row].topics) <= RowCodes(s.asked[a.request].captured))
    && (a.LandAnalysis? ==> KeepsCodes(s.rows, if s.baseline.Some? then s.baseline.value else []))
  }

  /** Timely answers are safe whatever they say. */
  lemma TimelyIsSafe(s: Session, a: Action)
    requires Sound(s) && Enabled(s, a) && Timely(s, a) && !IsRemoval(a)
    ensures LosesNothing(s, a)
  {
    if a.LandAnalysis? {
      var b := if s.baseline.Some? then s.baseline.value else [];
      forall i | 0 <= i < |s.rows|
        ensures StillHeld(s.rows[i], s.baseline, a.next)
      {
        assert Covered(s.rows[i], b);
        CoveredUnder(s.rows[i], b);
      }
    }
  }

  ghost function InTime(): (Session, Action) -> bool {
    (s, a) => Timely(s, a) && !IsRemoval(a) && KeepsDistinct(s, a)
  }

  /** So a session in which answers are timely and nothing is taken away by hand
      loses no code. */
  lemma {:induction false} TimelySessionsLoseNothing(s: Session, actions: seq<Action>)
    requires Sound(s) && ValidRun(s, actions) && Throughout(s, actions, InTime())
    ensures KeepsCodes(s.rows, Run(s, actions).rows)
    decreases |actions|
  {
    if actions == [] {
      KeepsCodesPointwise(s.rows, s.rows);
    } else {
      var s' := Step(s, actions[0]);
      StepKeepsDistinct(s, actions[0]);
      TimelyIsSafe(s, actions[0]);
      StepKeepsCodes(s, actions[0]);
      TimelySessionsLoseNothing(s', actions[1..]);
      KeepsCodesTransitive(s.rows, s'.rows, Run(s, actions).rows);
    }
  }

  /** What a regeneration that lands on its row leaves in the payload: the AI's list. */
  lemma RegenerateThenSave(s: Session, k: nat, aiTopics: seq<Topic>)
    requires Enabled(s, LandTopics(k, aiTopics)) && s.asked[k].row < |s.rows|
    ensures CleanTopics(Step(s, LandTopics(k, aiTopics)).rows[s.asked[k].row].topics) == aiTopics
  {
    RegeneratedPayload(s.asked[k].captured, aiTopics);
  }

  // ---- Runs that lose a code without any removal ----

  lemma RunCons(s: Session, a: Action, rest: seq<Action>)
    requires Enabled(s, a) && ValidRun(Step(s, a), rest)
    ensures ValidRun(s, [a] + rest) && Run(s, [a] + rest) == Run(Step(s, a), rest)
  {
    assert ([a] + rest)[1..] == rest;
  }

  lemma RunOne(s: Session, a: Action)
    requires Enabled(s, a)
    ensures ValidRun(s, [a]) && Run(s, [a]) == Step(s, a)
  {
    RunCons(s, a, []);
    assert [a] + [] == [a];
  }

  /** A topic added while a regeneration of its subject is under way survives the
      answer exactly when the AI happens to hand out its code. */
  lemma AddedWhileAsking(s: Session, i: nat, code: string, aiTopics: seq<Topic>) returns (actions: seq<Action>)
    requires Enabled(s, AskTopics(i)) && Enabled(s, AddTopic(i, code)) && DistinctTopics(aiTopics)
    ensures actions == [AskTopics(i), AddTopic(i, code), LandTopics(|s.asked|, aiTopics)]
    ensures ValidRun(s, actions) && |Run(s, actions).rows| == |s.rows|
    ensures code in RowCodes(Run(s, actions).rows[i].topics) <==> code in Codes(aiTopics)
  {
    var ask, add, land := AskTopics(i), AddTopic(i, code), LandTopics(|s.asked|, aiTopics);
    var s1 := Step(s, ask);
    var s2 := Step(s1, add);
    RunOne(s2, land);
    RunCons(s1, add, [land]);
    RunCons(s, ask, [add] + [land]);
    actions := [ask, add, land];
    assert actions == [ask] + ([add] + [land]);
    MergeConservesCodes(s.rows[i].topics, aiTopics);
  }

  /** A subject added while a re-analysis is under way survives exactly when the AI
      proposes its code. */
  lemma AddedWhileAnalysing(s: Session, code: string, next: seq<Subject>) returns (actions: seq<Action>)
    requires Distinct(s.rows) && Enabled(s, AddSubject(code)) && DistinctSubjects(next)
    ensures actions == [CaptureBaseline, StartJob, AddSubject(code), LandAnalysis(next)]
    ensures ValidRun(s, actions)
    ensures code in SubjectRowCodes(Run(s, actions).rows) <==> code in SubjectCodes(next)
  {
    var add, land := AddSubject(code), LandAnalysis(next);
    var s1 := Step(s, CaptureBaseline);
    var s2 := Step(s1, StartJob);
    var s3 := Step(s2, add);
    RunOne(s3, land);
    RunCons(s2, add, [land]);
    RunCons(s1, StartJob, [add] + [land]);
    RunCons(s, CaptureBaseline, [StartJob] + ([add] + [land]));
    actions := [CaptureBaseline, StartJob, add, land];
    assert actions == [CaptureBaseline] + ([StartJob] + ([add] + [land]));
    DiffConservesExam(s.rows, next, code);
  }

  /** The session after row `i` was asked for, then row `j`, which re-enables the
      button of row `i`, and then row `i` again. */
  function Asked(s: Session, i: nat, j: nat): Session
    requires i < |s.rows| && j < |s.rows|
  {
    var r, q := Request(i, s.rows[i].topics), Request(j, s.rows[j].topics);
    s.(asked := s.asked + [r, q, r], generating := Some(s.rows[i].header.code))
  }

  lemma AskTwice(s: Session, i: nat, j: nat, rest: seq<Action>)
    requires i < |s.rows| && j < |s.rows| && s.generating == None
    requires s.rows[i].header.code != s.rows[j].header.code && ValidRun(Asked(s, i, j), rest)
    ensures var all := [AskTopics(i), AskTopics(j), AskTopics(i)] + rest;
            ValidRun(s, all) && Run(s, all) == Run(Asked(s, i, j), rest)
  {
    var a0, a1 := AskTopics(i), AskTopics(j);
    var r, q := Request(i, s.rows[i].topics), Request(j, s.rows[j].topics);
    var s1 := Step(s, a0);
    var s2 := Step(s1, a1);
    assert s.asked + [r] + [q] + [r] == s.asked + [r, q, r];
    assert Step(s2, a0) == Asked(s, i, j);
    RunCons(s2, a0, rest);
    RunCons(s1, a1, [a0] + rest);
    RunCons(s, a0, [a1] + ([a0] + rest));
    assert [a0, a1, a0] + rest == [a0] + ([a1] + ([a0] + rest));
  }

  /** Two answers for one row, each merged into the list captured with it: the second
      drops what the first brought unless it hands it out again. */
  lemma TwoLandings(s: Session, n: nat, i: nat, captured: seq<TopicRow>, first: seq<Topic>, second: seq<Topic>)
    requires i < |s.rows| && n + 2 < |s.asked|
    requires s.asked[n] == Request(i, captured) && s.asked[n + 2] == Request(i, captured)
    requires DistinctTopics(first) && DistinctTopics(second)
    ensures var l1, l2 := LandTopics(n, first), LandTopics(n + 1, second);
            && ValidRun(s, [l1]) && ValidRun(s, [l1, l2])
            && |Run(s, [l1]).rows| == |s.rows| && |Run(s, [l1, l2]).rows| == |s.rows|
            && RowCodes(Run(s, [l1]).rows[i].topics) == RowCodes(captured) + Codes(first)
            && RowCodes(Run(s, [l1, l2]).rows[i].topics) == RowCodes(captured) + Codes(second)
  {
    var l1, l2 := LandTopics(n, first), LandTopics(n + 1, second);
    var s1 := Step(s, l1);
    RunOne(s, l1);
    RunOne(s1, l2);
    RunCons(s, l1, [l2]);
    assert [l1] + [l2] == [l1, l2];
    MergeConservesCodes(captured, first);
    MergeConservesCodes(captured, second);
  }

  /** So from any screen with two subjects a run without removals loses a code: any
      that the first answer brings and the second does not. */
  lemma TwoAnswers(s: Session, i: nat, j: nat, first: seq<Topic>, second: seq<Topic>)
    requires i < |s.rows| && j < |s.rows| && s.generating == None
    requires s.rows[i].header.code != s.rows[j].header.code
    requires DistinctTopics(first) && DistinctTopics(second)
    ensures var n := |s.asked|;
            var asks := [AskTopics(i), AskTopics(j), AskTopics(i)];
            var one, both := asks + [LandTopics(n, first)], asks + [LandTopics(n, first), LandTopics(n + 1, second)];
            && ValidRun(s, one) && ValidRun(s, both)
            && |Run(s, one).rows| == |s.rows| && |Run(s, both).rows| == |s.rows|
            && RowCodes(Run(s, one).rows[i].topics) == RowCodes(s.rows[i].topics) + Codes(first)
            && RowCodes(Run(s, both).rows[i].topics) == RowCodes(s.rows[i].topics) + Codes(second)
  {
    var n := |s.asked|;
    TwoLandings(Asked(s, i, j), n, i, s.rows[i].topics, first, second);
    AskTwice(s, i, j, [LandTopics(n, first)]);
    AskTwice(s, i, j, [LandTopics(n, first), LandTopics(n + 1, second)]);
  }
}
