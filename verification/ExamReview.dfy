/** The review screen over a whole session.  The AI answers later: a re-analysis
    or a regeneration is one event when it is asked for, capturing what is on
    screen, and another when its answer lands, in any order and with Keep marks,
    edits of codes, and rows added and removed by hand in between. */
module ExamReview {
  import opened Prelude
  import opened ExamDiff
  import opened FreshCodes

  type Proposal = seq<SubjectRow>

  /** A regeneration not answered yet: the row index and the topics at the click. */
  datatype Request = Request(row: nat, captured: seq<TopicRow>)

  datatype Session = Session(
    rows: Proposal,
    baseline: Option<Proposal>,  // baselineRef
    awaiting: bool,              // a research job is being polled
    asked: seq<Request>,
    generating: Option<string>)  // regenSubject: its button is disabled

  datatype Action =
    | CaptureBaseline                            // "Re-analyze" is clicked
    | StartJob                                   // its job, or a first research, is being watched
    | JobFails
    | LandAnalysis(next: seq<Subject>)
    | AskTopics(row: nat)                        // "Regenerate topics" is clicked
    | TopicsFail(request: nat)
    | LandTopics(request: nat, aiTopics: seq<Topic>)
    | FillEmpty(filled: map<string, seq<Topic>>) // results without an error, by subject code
    | KeepSubject(row: nat)
    | KeepTopic(row: nat, topic: nat)
    | AddSubject(code: string)
    | AddTopic(row: nat, code: string)
    | EditCode(row: nat, topic: nat, code: string)
    | RemoveSubject(row: nat)
    | RemoveTopic(row: nat, topic: nat)

  /** Actions by which the admin takes a code off the screen on purpose. */
  predicate IsRemoval(a: Action) {
    a.RemoveSubject? || a.RemoveTopic? || a.EditCode?
  }

  ghost predicate DistinctSubjects(subjects: seq<Subject>) {
    && (forall i, j :: 0 <= i < j < |subjects| ==> subjects[i].header.code != subjects[j].header.code)
    && (forall i :: 0 <= i < |subjects| ==> DistinctTopics(subjects[i].topics))
  }

  /** The AI hands out lists without repeated codes; a row added by hand gets a fresh code. */
  ghost predicate Enabled(s: Session, a: Action) {
    var p := s.rows;
    match a
    case CaptureBaseline => true
    case StartJob => true
    case JobFails => s.awaiting
    case LandAnalysis(next) => s.awaiting && DistinctSubjects(next)
    case AskTopics(i) => i < |p| && s.generating != Some(p[i].header.code)
    case TopicsFail(k) => k < |s.asked|
    case LandTopics(k, aiTopics) => k < |s.asked| && DistinctTopics(aiTopics)
    case FillEmpty(filled) => forall code :: code in filled ==> DistinctTopics(filled[code])
    case KeepSubject(i) => i < |p|
    case KeepTopic(i, j) => i < |p| && j < |p[i].topics|
    case AddSubject(code) => IsFresh("NEW_SUBJECT_", SubjectRowCodes(p), code)
    case AddTopic(i, code) => i < |p| && IsFresh("NEW_TOPIC_", RowCodes(p[i].topics), code)
    case EditCode(i, j, _) => i < |p| && j < |p[i].topics|
    case RemoveSubject(i) => i < |p|
    case RemoveTopic(i, j) => i < |p| && j < |p[i].topics|
  }

  function WithTopics(p: Proposal, i: nat, topics: seq<TopicRow>): Proposal
    requires i < |p|
  {
    p[i := p[i].(topics := topics)]
  }

  /** What spreading a missing row leaves: no code, no name. */
  const NO_HEADER: Header := Header("", "", None, false, None)

  function Headless(topics: seq<TopicRow>): SubjectRow {
    SubjectRow(NO_HEADER, topics, None, false)
  }

  /** `subjects[index] = {...subjects[index], topics}`: an index past the end, when
      rows have gone since the click, appends a row without a header. */
  function Landed(p: Proposal, i: nat, topics: seq<TopicRow>): Proposal {
    if i < |p| then WithTopics(p, i, topics)
    else p + seq(i - |p|, k => Headless([])) + [Headless(topics)]
  }

  function Untagged(next: seq<Subject>): (rows: Proposal)
    ensures |rows| == |next|
    ensures forall i :: 0 <= i < |next| ==> rows[i] == SubjectRow(next[i].header, Plain(next[i].topics), None, false)
  {
    seq(|next|, i requires 0 <= i < |next| => SubjectRow(next[i].header, Plain(next[i].topics), None, false))
  }

  function Plain(topics: seq<Topic>): (rows: seq<TopicRow>)
    ensures |rows| == |topics| && forall i :: 0 <= i < |rows| ==> rows[i] == TopicRow(topics[i], None, false)
  {
    seq(|topics|, i requires 0 <= i < |topics| => TopicRow(topics[i], None, false))
  }

  /** An analysis is diffed against the baseline of the moment, if there is one. */
  function Analysed(baseline: Option<Proposal>, next: seq<Subject>): Proposal {
    match baseline
    case Some(b) => DiffedExam(b, next)
    case None => Untagged(next)
  }

  function FillRow(row: SubjectRow, filled: map<string, seq<Topic>>): SubjectRow {
    if row.header.code in filled then row.(topics := MergeRegenerated(row.topics, filled[row.header.code])) else row
  }

  function Filled(p: Proposal, filled: map<string, seq<Topic>>): (rows: Proposal)
    ensures |rows| == |p| && forall i :: 0 <= i < |p| ==> rows[i] == FillRow(p[i], filled)
  {
    seq(|p|, i requires 0 <= i < |p| => FillRow(p[i], filled))
  }

  function WithCode(rows: seq<TopicRow>, j: nat, code: string): seq<TopicRow>
    requires j < |rows|
  {
    rows[j := rows[j].(topic := rows[j].topic.(code := code))]
  }

  /** The rows on screen after an action. */
  ghost function RowsAfter(s: Session, a: Action): Proposal
    requires Enabled(s, a)
  {
    var p := s.rows;
    match a
    case LandAnalysis(next) => Analysed(s.baseline, next)
    case LandTopics(k, aiTopics) => Landed(p, s.asked[k].row, MergeRegenerated(s.asked[k].captured, aiTopics))
    case FillEmpty(filled) => Filled(p, filled)
    case KeepSubject(i) => p[i := p[i].(kept := true)]
    case KeepTopic(i, j) => WithTopics(p, i, p[i].topics[j := p[i].topics[j].(kept := true)])
    case AddSubject(code) => p + [SubjectRow(Header(code, "New subject", None, true, None), [], None, false)]
    case AddTopic(i, code) =>
      WithTopics(p, i, p[i].topics + [TopicRow(Topic(code, "New topic", None), None, false)])
    case EditCode(i, j, code) => WithTopics(p, i, WithCode(p[i].topics, j, code))
    case RemoveSubject(i) => p[..i] + p[i + 1..]
    case RemoveTopic(i, j) => WithTopics(p, i, p[i].topics[..j] + p[i].topics[j + 1..])
    case _ => p
  }

  ghost function Step(s: Session, a: Action): Session
    requires Enabled(s, a)
  {
    var s' := s.(rows := RowsAfter(s, a));
    match a
    case CaptureBaseline => s'.(baseline := Some(s.rows))
    case StartJob => s'.(awaiting := true)
    case JobFails => s'.(awaiting := false)
    case LandAnalysis(_) => s'.(awaiting := false)
    case AskTopics(i) =>
      s'.(asked := s.asked + [Request(i, s.rows[i].topics)], generating := Some(s.rows[i].header.code))
    case TopicsFail(k) => s'.(asked := s.asked[..k] + s.asked[k + 1..], generating := None)
    case LandTopics(k, _) => s'.(asked := s.asked[..k] + s.asked[k + 1..], generating := None)
    case _ => s'
  }

  ghost predicate ValidRun(s: Session, actions: seq<Action>)
    decreases |actions|
  {
    actions == [] || (Enabled(s, actions[0]) && ValidRun(Step(s, actions[0]), actions[1..]))
  }

  ghost function Run(s: Session, actions: seq<Action>): Session
    requires ValidRun(s, actions)
    decreases |actions|
  {
    if actions == [] then s else Run(Step(s, actions[0]), actions[1..])
  }

  // ---- Codes stay distinct ----

  ghost predicate DistinctHeaders(p: Proposal) {
    forall i, j :: 0 <= i < j < |p| ==> p[i].header.code != p[j].header.code
  }

  ghost predicate DistinctWithin(p: Proposal) {
    forall i :: 0 <= i < |p| ==> DistinctRows(p[i].topics)
  }

  ghost predicate Distinct(p: Proposal) {
    DistinctHeaders(p) && DistinctWithin(p)
  }

  /** No repeated code on screen or in anything captured for an answer to come. */
  ghost predicate Sound(s: Session) {
    && Distinct(s.rows)
    && (s.baseline.Some? ==> Distinct(s.baseline.value))
    && forall k :: 0 <= k < |s.asked| ==> DistinctRows(s.asked[k].captured)
  }

  lemma DiffKeepsDistinctHeaders(p: Proposal, next: seq<Subject>)
    requires DistinctHeaders(p) && DistinctSubjects(next)
    ensures DistinctHeaders(DiffedExam(p, next))
  {
    var codes, rows := SubjectCodes(next), DiffedExam(p, next);
    var dropped := DroppedSubjects(p, codes);
    assert forall i :: 0 <= i < |next| ==> rows[i].header == next[i].header;
    forall i, j | 0 <= i < j < |rows|
      ensures rows[i].header.code != rows[j].header.code
    {
      if j >= |next| {
        var q := DroppedSubjectFrom(p, codes, j - |next|);
        assert rows[j] == dropped[j - |next|];
        if i < |next| {
          assert next[i] in next;
        } else {
          var r := DroppedSubjectFrom(p, codes, i - |next|);
          assert rows[i] == dropped[i - |next|] && r != q;
        }
      }
    }
  }

  lemma DiffKeepsDistinctWithin(p: Proposal, next: seq<Subject>)
    requires DistinctWithin(p) && DistinctSubjects(next)
    ensures DistinctWithin(DiffedExam(p, next))
  {
    var codes, rows := SubjectCodes(next), DiffedExam(p, next);
    forall i | 0 <= i < |rows|
      ensures DistinctRows(rows[i].topics)
    {
      if i < |next| {
        LastSubjectFound(p, next[i].header.code);
        match LastSubject(p, next[i].header.code)
        case None =>
        case Some(prev) => DiffKeepsDistinct(prev.topics, next[i].topics);
      } else {
        var q := DroppedSubjectFrom(p, codes, i - |next|);
        assert rows[i] == DroppedSubjects(p, codes)[i - |next|];
        assert DistinctRows(p[q].topics);
      }
    }
  }

  lemma StripKeepsCodes(rows: seq<TopicRow>)
    ensures RowCodes(Strip(rows)) == RowCodes(rows)
    ensures DistinctRows(rows) ==> DistinctRows(Strip(rows))
  {
    forall i | 0 <= i < |rows|
      ensures rows[i].topic.code in RowCodes(Strip(rows)) && Strip(rows)[i].topic.code in RowCodes(rows)
    {
      assert Strip(rows)[i] in Strip(rows) && rows[i] in rows;
    }
  }

  lemma MergeKeepsDistinct(current: seq<TopicRow>, aiTopics: seq<Topic>)
    requires DistinctRows(current) && DistinctTopics(aiTopics)
    ensures DistinctRows(MergeRegenerated(current, aiTopics))
  {
    StripKeepsCodes(current);
    DiffKeepsDistinct(Strip(current), aiTopics);
  }

  lemma AddKeepsDistinct(rows: seq<TopicRow>, code: string)
    requires DistinctRows(rows) && code !in RowCodes(rows)
    ensures DistinctRows(rows + [TopicRow(Topic(code, "New topic", None), None, false)])
  {
    assert forall j :: 0 <= j < |rows| ==> rows[j] in rows && rows[j].topic.code in RowCodes(rows);
  }

  lemma RemoveKeepsDistinct(rows: seq<TopicRow>, j: nat)
    requires DistinctRows(rows) && j < |rows|
    ensures DistinctRows(rows[..j] + rows[j + 1..])
  {
  }

  lemma WithTopicsDistinct(p: Proposal, i: nat, topics: seq<TopicRow>)
    requires Distinct(p) && i < |p|
    ensures Distinct(WithTopics(p, i, topics)) <==> DistinctRows(topics)
  {
    var q := WithTopics(p, i, topics);
    assert q[i].topics == topics;
  }

  lemma RemoveSubjectDistinct(p: Proposal, i: nat)
    requires Distinct(p) && i < |p|
    ensures Distinct(p[..i] + p[i + 1..])
  {
  }

  lemma AddSubjectDistinct(p: Proposal, row: SubjectRow)
    requires Distinct(p) && DistinctRows(row.topics)
    ensures Distinct(p + [row]) <==> row.header.code !in SubjectRowCodes(p)
  {
    var q := p + [row];
    assert q[|p|] == row;
    if row.header.code !in SubjectRowCodes(p) {
      assert forall i :: 0 <= i < |p| ==> p[i] in p && p[i].header.code in SubjectRowCodes(p);
    } else {
      var r :| r in p && r.header.code == row.header.code;
      var i :| 0 <= i < |p| && p[i] == r;
      assert q[i].header.code == q[|p|].header.code;
    }
  }

  lemma FillKeepsDistinct(p: Proposal, filled: map<string, seq<Topic>>)
    requires Distinct(p) && forall code :: code in filled ==> DistinctTopics(filled[code])
    ensures Distinct(Filled(p, filled))
  {
    forall i | 0 <= i < |p|
      ensures DistinctRows(FillRow(p[i], filled).topics)
    {
      if p[i].header.code in filled {
        MergeKeepsDistinct(p[i].topics, filled[p[i].header.code]);
      }
    }
  }

  lemma AnalysisDistinct(baseline: Option<Proposal>, next: seq<Subject>)
    requires (baseline.Some? ==> Distinct(baseline.value)) && DistinctSubjects(next)
    ensures Distinct(Analysed(baseline, next))
  {
    if baseline.Some? {
      DiffKeepsDistinctHeaders(baseline.value, next);
      DiffKeepsDistinctWithin(baseline.value, next);
    }
  }

  /** A landing past the end is fine only right past the end, and only if no
      headerless row is there yet. */
  lemma LandedDistinct(p: Proposal, i: nat, topics: seq<TopicRow>)
    requires Distinct(p) && DistinctRows(topics)
    ensures Distinct(Landed(p, i, topics)) <==> i < |p| || (i == |p| && NO_HEADER.code !in SubjectRowCodes(p))
  {
    var q := Landed(p, i, topics);
    if i < |p| {
      WithTopicsDistinct(p, i, topics);
    } else if i == |p| {
      assert q == p + [Headless(topics)];
      AddSubjectDistinct(p, Headless(topics));
    } else {
      assert q[|p|].header.code == q[i].header.code;
    }
  }

  lemma WithCodeDistinct(rows: seq<TopicRow>, j: nat, code: string)
    requires DistinctRows(rows) && j < |rows|
    ensures DistinctRows(WithCode(rows, j, code)) <==>
              forall k :: 0 <= k < |rows| && k != j ==> rows[k].topic.code != code
  {
    var rows' := WithCode(rows, j, code);
    if DistinctRows(rows') {
      forall k | 0 <= k < |rows| && k != j
        ensures rows[k].topic.code != code
      {
        assert rows'[k].topic.code != rows'[j].topic.code;
      }
    }
  }

  /** What has to hold before an action for codes to stay distinct: only typing over
      a code, and an answer to a row that is no longer there, can repeat one. */
  ghost predicate KeepsDistinct(s: Session, a: Action) {
    match a
    case EditCode(i, j, code) =>
      i < |s.rows| && forall k :: 0 <= k < |s.rows[i].topics| && k != j ==> s.rows[i].topics[k].topic.code != code
    case LandTopics(k, _) =>
      k < |s.asked| ==>
        var i := s.asked[k].row;
        i < |s.rows| || (i == |s.rows| && NO_HEADER.code !in SubjectRowCodes(s.rows))
    case _ => true
  }

  lemma RowsKeepDistinct(s: Session, a: Action)
    requires Sound(s) && Enabled(s, a)
    ensures Distinct(RowsAfter(s, a)) <==> KeepsDistinct(s, a)
  {
    var p := s.rows;
    match a {
      case LandAnalysis(next) => AnalysisDistinct(s.baseline, next);
      case LandTopics(k, aiTopics) =>
        MergeKeepsDistinct(s.asked[k].captured, aiTopics);
        LandedDistinct(p, s.asked[k].row, MergeRegenerated(s.asked[k].captured, aiTopics));
      case FillEmpty(filled) => FillKeepsDistinct(p, filled);
      case AddSubject(code) => AddSubjectDistinct(p, RowsAfter(s, a)[|p|]);
      case RemoveSubject(i) => RemoveSubjectDistinct(p, i);
      case KeepSubject(i) => assert DistinctRows(p[i].topics);
      case KeepTopic(i, j) => WithTopicsDistinct(p, i, p[i].topics[j := p[i].topics[j].(kept := true)]);
      case AddTopic(i, code) =>
        AddKeepsDistinct(p[i].topics, code);
        WithTopicsDistinct(p, i, p[i].topics + [TopicRow(Topic(code, "New topic", None), None, false)]);
      case EditCode(i, j, code) =>
        WithCodeDistinct(p[i].topics, j, code);
        WithTopicsDistinct(p, i, WithCode(p[i].topics, j, code));
      case RemoveTopic(i, j) =>
        RemoveKeepsDistinct(p[i].topics, j);
        WithTopicsDistinct(p, i, p[i].topics[..j] + p[i].topics[j + 1..]);
      case _ =>
    }
  }

  lemma StepKeepsDistinct(s: Session, a: Action)
    requires Sound(s) && Enabled(s, a)
    ensures Sound(Step(s, a)) <==> KeepsDistinct(s, a)
  {
    RowsKeepDistinct(s, a);
    var s' := Step(s, a);
    forall k | 0 <= k < |s'.asked|
      ensures DistinctRows(s'.asked[k].captured)
    {
      if a.AskTopics? && k == |s.asked| {
        assert DistinctRows(s.rows[a.row].topics);
      } else {
        assert s'.asked[k] in s.asked;
      }
    }
  }

  /** A property of every action of a run, judged in the state it is taken in. */
  ghost predicate Throughout(s: Session, actions: seq<Action>, good: (Session, Action) -> bool)
    requires ValidRun(s, actions)
    decreases |actions|
  {
    actions == [] || (good(s, actions[0]) && Throughout(Step(s, actions[0]), actions[1..], good))
  }

  ghost predicate SoundThroughout(s: Session, actions: seq<Action>)
    requires ValidRun(s, actions)
    decreases |actions|
  {
    Sound(s) && (actions == [] || SoundThroughout(Step(s, actions[0]), actions[1..]))
  }

  ghost function Distinctly(): (Session, Action) -> bool {
    (s, a) => KeepsDistinct(s, a)
  }

  /** Subject codes, and topic codes within a subject, stay distinct over a session
      exactly as long as no code is typed over another and no answer lands past the end. */
  lemma {:induction false} CodesStayDistinct(s: Session, actions: seq<Action>)
    requires Sound(s) && ValidRun(s, actions)
    ensures SoundThroughout(s, actions) <==> Throughout(s, actions, Distinctly())
    decreases |actions|
  {
    if actions != [] {
      StepKeepsDistinct(s, actions[0]);
      var s' := Step(s, actions[0]);
      if Sound(s') {
        CodesStayDistinct(s', actions[1..]);
      } else {
        assert !SoundThroughout(s', actions[1..]);
      }
    }
  }

  // ---- What a diff holds under each subject code ----

  function Under(p: Proposal, code: string): set<string> {
    match LastSubject(p, code)
    case Some(r) => RowCodes(r.topics)
    case None => {}
  }

  ghost function NextUnder(next: seq<Subject>, code: string): set<string> {
    set s, t | s in next && s.header.code == code && t in s.topics :: t.code
  }

  lemma UnderAt(p: Proposal, i: nat)
    requires DistinctHeaders(p) && i < |p|
    ensures Under(p, p[i].header.code) == RowCodes(p[i].topics)
  {
    LastSubjectFound(p, p[i].header.code);
    assert p[i] in p && p[i].header.code in SubjectRowCodes(p);
    var r := LastSubject(p, p[i].header.code).value;
    var j :| 0 <= j < |p| && p[j] == r;
    assert i == j;
  }

  lemma NextUnderAt(next: seq<Subject>, i: nat)
    requires DistinctSubjects(next) && i < |next|
    ensures NextUnder(next, next[i].header.code) == Codes(next[i].topics)
  {
    assert forall s :: s in next && s.header.code == next[i].header.code ==> s == next[i];
  }

  lemma NextUnderNone(next: seq<Subject>, code: string)
    requires code !in SubjectCodes(next)
    ensures NextUnder(next, code) == {}
  {
  }

  lemma AllTaggedCodes(topics: seq<Topic>, status: Status)
    ensures RowCodes(AllTagged(topics, status)) == Codes(topics)
  {
    var rows := AllTagged(topics, status);
    forall i | 0 <= i < |rows|
      ensures rows[i].topic.code in Codes(topics) && topics[i].code in RowCodes(rows)
    {
      assert rows[i] in rows && topics[i] in topics;
    }
  }

  lemma AllRemovedCodes(rows: seq<TopicRow>)
    ensures RowCodes(AllRemoved(rows)) == RowCodes(rows)
  {
    forall i | 0 <= i < |rows|
      ensures rows[i].topic.code in RowCodes(AllRemoved(rows)) && AllRemoved(rows)[i].topic.code in RowCodes(rows)
    {
      assert AllRemoved(rows)[i] in AllRemoved(rows) && rows[i] in rows;
    }
  }

  lemma TaggedSubjectCodes(b: Proposal, s: Subject)
    ensures RowCodes(TagSubject(LastSubject(b, s.header.code), s).topics) == Under(b, s.header.code) + Codes(s.topics)
  {
    match LastSubject(b, s.header.code)
    case None => AllTaggedCodes(s.topics, Added);
    case Some(prev) => DiffConservesCodes(prev.topics, s.topics);
  }

  /** Conservation for a whole exam: the diff's subjects are those of either side,
      and under each it holds exactly the topic codes of both. */
  lemma DiffConservesExam(b: Proposal, next: seq<Subject>, code: string)
    requires Distinct(b) && DistinctSubjects(next)
    ensures code in SubjectRowCodes(DiffedExam(b, next)) <==> code in SubjectRowCodes(b) || code in SubjectCodes(next)
    ensures Under(DiffedExam(b, next), code) == Under(b, code) + NextUnder(next, code)
  {
    var rows, codes := DiffedExam(b, next), SubjectCodes(next);
    DiffKeepsDistinctHeaders(b, next);
    LastSubjectFound(b, code);
    LastSubjectFound(rows, code);
    if code in codes {
      var j :| 0 <= j < |next| && next[j].header.code == code;
      assert rows[j] in rows && rows[j].header.code == code;
      UnderAt(rows, j);
      NextUnderAt(next, j);
      TaggedSubjectCodes(b, next[j]);
    } else {
      NextUnderNone(next, code);
      DroppedUnder(b, next, code);
    }
  }

  lemma DroppedUnder(b: Proposal, next: seq<Subject>, code: string)
    requires Distinct(b) && DistinctSubjects(next) && code !in SubjectCodes(next)
    ensures code in SubjectRowCodes(DiffedExam(b, next)) <==> code in SubjectRowCodes(b)
    ensures Under(DiffedExam(b, next), code) == Under(b, code)
  {
    var rows, codes := DiffedExam(b, next), SubjectCodes(next);
    LastSubjectFound(b, code);
    LastSubjectFound(rows, code);
    if code in SubjectRowCodes(rows) {
      DroppedCodeFromBase(b, next, code);
    }
    if code in SubjectRowCodes(b) {
      var i :| 0 <= i < |b| && b[i].header.code == code;
      DroppedSubjectAt(b, codes, i);
      var k := |next| + SubjectRank(b, codes, i);
      assert rows[k] in rows;
      DiffKeepsDistinctHeaders(b, next);
      UnderAt(rows, k);
      UnderAt(b, i);
      AllRemovedCodes(b[i].topics);
    }
  }

  lemma DroppedCodeFromBase(b: Proposal, next: seq<Subject>, code: string)
    requires code in SubjectRowCodes(DiffedExam(b, next)) && code !in SubjectCodes(next)
    ensures code in SubjectRowCodes(b)
  {
    var rows := DiffedExam(b, next);
    assert forall k :: 0 <= k < |next| ==> next[k] in next && rows[k].header == next[k].header;
    var k :| 0 <= k < |rows| && rows[k].header.code == code;
    var i := DroppedSubjectFrom(b, SubjectCodes(next), k - |next|);
    assert b[i] in b;
  }

  // ---- No code is lost ----

  ghost predicate Covers(q: SubjectRow, r: SubjectRow) {
    q.header.code == r.header.code && RowCodes(r.topics) <= RowCodes(q.topics)
  }

  /** Every subject of `p` is still in `q`, with all its topics. */
  ghost predicate KeepsCodes(p: Proposal, q: Proposal) {
    forall i :: 0 <= i < |p| ==> Covered(p[i], q)
  }

  ghost predicate Covered(r: SubjectRow, q: Proposal) {
    exists j :: 0 <= j < |q| && Covers(q[j], r)
  }

  lemma KeepsCodesPointwise(p: Proposal, q: Proposal)
    requires |p| <= |q| && forall i :: 0 <= i < |p| ==> Covers(q[i], p[i])
    ensures KeepsCodes(p, q)
  {
    forall i | 0 <= i < |p|
      ensures Covered(p[i], q)
    {
      assert Covers(q[i], p[i]);
    }
  }

  lemma KeepsCodesTransitive(p: Proposal, q: Proposal, r: Proposal)
    requires KeepsCodes(p, q) && KeepsCodes(q, r)
    ensures KeepsCodes(p, r)
  {
    forall i | 0 <= i < |p|
      ensures Covered(p[i], r)
    {
      assert Covered(p[i], q);
      var j :| 0 <= j < |q| && Covers(q[j], p[i]);
      assert Covered(q[j], r);
      var k :| 0 <= k < |r| && Covers(r[k], q[j]);
      assert Covers(r[k], p[i]);
    }
  }

  /** With distinct subjects, what is covered can be read off by code. */
  lemma CoveredUnder(r: SubjectRow, q: Proposal)
    requires DistinctHeaders(q)
    ensures Covered(r, q) <==> r.header.code in SubjectRowCodes(q) && RowCodes(r.topics) <= Under(q, r.header.code)
  {
    if r.header.code in SubjectRowCodes(q) {
      var j :| 0 <= j < |q| && q[j].header.code == r.header.code;
      UnderAt(q, j);
      if Covered(r, q) {
        var k :| 0 <= k < |q| && Covers(q[k], r);
        assert k == j;
      } else {
        assert !Covers(q[j], r);
      }
    }
  }

  lemma MergeConservesCodes(current: seq<TopicRow>, aiTopics: seq<Topic>)
    ensures RowCodes(MergeRegenerated(current, aiTopics)) == RowCodes(current) + Codes(aiTopics)
  {
    StripKeepsCodes(current);
    DiffConservesCodes(Strip(current), aiTopics);
  }

  /** A re-analysis diffed against the screen itself loses nothing, even if the AI repeats codes. */
  lemma ReanalyzeKeepsCodes(p: Proposal, next: seq<Subject>)
    requires Distinct(p)
    ensures KeepsCodes(p, DiffedExam(p, next))
  {
    var codes, rows := SubjectCodes(next), DiffedExam(p, next);
    forall i | 0 <= i < |p|
      ensures Covered(p[i], rows)
    {
      var code := p[i].header.code;
      if code in SubjectCodes(next) {
        var j :| 0 <= j < |next| && next[j].header.code == code;
        LastSubjectFound(p, code);
        assert p[i] in p;
        assert LastSubject(p, code) == Some(p[i]);
        DiffConservesCodes(p[i].topics, next[j].topics);
        assert Covers(rows[j], p[i]);
      } else {
        DroppedSubjectAt(p, codes, i);
        var k := SubjectRank(p, codes, i);
        AllRemovedCodes(p[i].topics);
        assert rows[|next| + k] == DroppedSubjects(p, codes)[k];
        assert Covers(rows[|next| + k], p[i]);
      }
    }
  }
}
