/** Re-analysis review: a proposal from the AI is diffed against the exam on
    screen, rows it dropped are put back tagged `Removed`, and saving leaves
    those out again unless the admin chose to keep them. */
module ExamDiff {
  import opened Prelude

  datatype Status = Added | Removed | Modified | Unchanged

  datatype Topic = Topic(code: string, title: string, description: Option<string>)

  /** A topic on screen; `status` and `kept` are the diff-only fields. */
  datatype TopicRow = TopicRow(topic: Topic, status: Option<Status>, kept: bool)

  /** A subject without its topics. */
  datatype Header = Header(code: string, name: string, description: Option<string>,
                           isMandatory: bool, poolCode: Option<string>)

  datatype Subject = Subject(header: Header, topics: seq<Topic>)

  datatype SubjectRow = SubjectRow(header: Header, topics: seq<TopicRow>, status: Option<Status>, kept: bool)

  // ---- Diffing topics ----

  predicate TopicChanged(a: Topic, b: Topic) {
    a.title != b.title || a.description != b.description
  }

  predicate SubjectChanged(a: Header, b: Header) {
    || a.name != b.name || a.description != b.description
    || a.isMandatory != b.isMandatory || a.poolCode != b.poolCode
  }

  function Codes(topics: seq<Topic>): set<string> {
    set t | t in topics :: t.code
  }

  function RowCodes(rows: seq<TopicRow>): set<string> {
    set r | r in rows :: r.topic.code
  }

  /** The row a `Map` built from the list holds for the code: the last one. */
  function LastTopic(rows: seq<TopicRow>, code: string): Option<TopicRow> {
    if rows == [] then None
    else if rows[|rows| - 1].topic.code == code then Some(rows[|rows| - 1])
    else LastTopic(rows[..|rows| - 1], code)
  }

  function TagTopic(prev: Option<TopicRow>, t: Topic): TopicRow {
    match prev
    case None => TopicRow(t, Some(Added), false)
    case Some(p) => TopicRow(t, Some(if TopicChanged(p.topic, t) then Modified else Unchanged), false)
  }

  function TagTopics(baseline: seq<TopicRow>, next: seq<Topic>): (rows: seq<TopicRow>)
    ensures |rows| == |next|
    ensures forall i :: 0 <= i < |next| ==> rows[i] == TagTopic(LastTopic(baseline, next[i].code), next[i])
  {
    seq(|next|, i requires 0 <= i < |next| => TagTopic(LastTopic(baseline, next[i].code), next[i]))
  }

  /** The baseline rows the AI dropped, re-tagged; a Keep from an earlier review stays on them. */
  function DroppedTopics(baseline: seq<TopicRow>, codes: set<string>): (rows: seq<TopicRow>)
    ensures forall r :: r in rows ==> r.status == Some(Removed)
  {
    if baseline == [] then []
    else
      var front, last := DroppedTopics(baseline[..|baseline| - 1], codes), baseline[|baseline| - 1];
      if last.topic.code in codes then front else front + [last.(status := Some(Removed))]
  }

  function DiffedTopics(baseline: seq<TopicRow>, next: seq<Topic>): seq<TopicRow> {
    TagTopics(baseline, next) + DroppedTopics(baseline, Codes(next))
  }

  function Strip(rows: seq<TopicRow>): (stripped: seq<TopicRow>)
    ensures |stripped| == |rows|
    ensures forall i :: 0 <= i < |rows| ==> stripped[i] == TopicRow(rows[i].topic, None, false)
  {
    seq(|rows|, i requires 0 <= i < |rows| => TopicRow(rows[i].topic, None, false))
  }

  /** A per-subject regeneration diffs against the current topics without their flags. */
  function MergeRegenerated(current: seq<TopicRow>, aiTopics: seq<Topic>): seq<TopicRow> {
    DiffedTopics(Strip(current), aiTopics)
  }

  /** `new Map(...)` over the rows: later rows overwrite earlier ones. */
  method IndexTopics(rows: seq<TopicRow>) returns (byCode: map<string, TopicRow>)
    ensures forall code :: LastTopic(rows, code) == if code in byCode then Some(byCode[code]) else None
  {
    byCode := map[];
    for i := 0 to |rows|
      invariant forall code :: LastTopic(rows[..i], code) == if code in byCode then Some(byCode[code]) else None
    {
      assert rows[..i + 1][..i] == rows[..i];
      byCode := byCode[rows[i].topic.code := rows[i]];
    }
    assert rows[..|rows|] == rows;
  }

  method DiffTopics(baseline: seq<TopicRow>, next: seq<Topic>) returns (out: seq<TopicRow>)
    ensures out == DiffedTopics(baseline, next)
  {
    var baseByCode := IndexTopics(baseline);
    var nextCodes := Codes(next);
    out := [];
    for i := 0 to |next|
      invariant out == TagTopics(baseline, next)[..i]
    {
      var prev := if next[i].code in baseByCode then Some(baseByCode[next[i].code]) else None;
      out := out + [TagTopic(prev, next[i])];
    }
    for i := 0 to |baseline|
      invariant out == TagTopics(baseline, next) + DroppedTopics(baseline[..i], nextCodes)
    {
      assert baseline[..i + 1][..i] == baseline[..i];
      if baseline[i].topic.code !in nextCodes {
        out := out + [baseline[i].(status := Some(Removed))];
      }
    }
    assert baseline[..|baseline|] == baseline;
  }

  // ---- Diffing exams ----

  function SubjectCodes(subjects: seq<Subject>): set<string> {
    set s | s in subjects :: s.header.code
  }

  function SubjectRowCodes(rows: seq<SubjectRow>): set<string> {
    set r | r in rows :: r.header.code
  }

  function LastSubject(rows: seq<SubjectRow>, code: string): Option<SubjectRow> {
    if rows == [] then None
    else if rows[|rows| - 1].header.code == code then Some(rows[|rows| - 1])
    else LastSubject(rows[..|rows| - 1], code)
  }

  function AllTagged(topics: seq<Topic>, status: Status): (rows: seq<TopicRow>)
    ensures |rows| == |topics|
    ensures forall i :: 0 <= i < |rows| ==> rows[i] == TopicRow(topics[i], Some(status), false)
  {
    seq(|topics|, i requires 0 <= i < |topics| => TopicRow(topics[i], Some(status), false))
  }

  function AllRemoved(topics: seq<TopicRow>): (rows: seq<TopicRow>)
    ensures |rows| == |topics|
    ensures forall i :: 0 <= i < |rows| ==> rows[i] == topics[i].(status := Some(Removed))
  {
    seq(|topics|, i requires 0 <= i < |topics| => topics[i].(status := Some(Removed)))
  }

  function TagSubject(prev: Option<SubjectRow>, s: Subject): SubjectRow {
    match prev
    case None => SubjectRow(s.header, AllTagged(s.topics, Added), Some(Added), false)
    case Some(p) =>
      SubjectRow(s.header, DiffedTopics(p.topics, s.topics),
                 Some(if SubjectChanged(p.header, s.header) then Modified else Unchanged), false)
  }

  function TagSubjects(baseline: seq<SubjectRow>, next: seq<Subject>): (rows: seq<SubjectRow>)
    ensures |rows| == |next|
    ensures forall i :: 0 <= i < |next| ==> rows[i] == TagSubject(LastSubject(baseline, next[i].header.code), next[i])
  {
    seq(|next|, i requires 0 <= i < |next| => TagSubject(LastSubject(baseline, next[i].header.code), next[i]))
  }

  function DroppedSubjects(baseline: seq<SubjectRow>, codes: set<string>): (rows: seq<SubjectRow>)
    ensures forall r :: r in rows ==> r.status == Some(Removed)
  {
    if baseline == [] then []
    else
      var front, last := DroppedSubjects(baseline[..|baseline| - 1], codes), baseline[|baseline| - 1];
      if last.header.code in codes then front
      else front + [last.(status := Some(Removed), topics := AllRemoved(last.topics))]
  }

  function DiffedExam(baseline: seq<SubjectRow>, next: seq<Subject>): seq<SubjectRow> {
    TagSubjects(baseline, next) + DroppedSubjects(baseline, SubjectCodes(next))
  }

  method IndexSubjects(rows: seq<SubjectRow>) returns (byCode: map<string, SubjectRow>)
    ensures forall code :: LastSubject(rows, code) == if code in byCode then Some(byCode[code]) else None
  {
    byCode := map[];
    for i := 0 to |rows|
      invariant forall code :: LastSubject(rows[..i], code) == if code in byCode then Some(byCode[code]) else None
    {
      assert rows[..i + 1][..i] == rows[..i];
      byCode := byCode[rows[i].header.code := rows[i]];
    }
    assert rows[..|rows|] == rows;
  }

  method DiffSubject(prev: Option<SubjectRow>, s: Subject) returns (row: SubjectRow)
    ensures row == TagSubject(prev, s)
  {
    match prev
    case None =>
      row := SubjectRow(s.header, AllTagged(s.topics, Added), Some(Added), false);
    case Some(p) =>
      var topics := DiffTopics(p.topics, s.topics);
      var status := if SubjectChanged(p.header, s.header) then Modified else Unchanged;
      row := SubjectRow(s.header, topics, Some(status), false);
  }

  method DiffExam(baseline: seq<SubjectRow>, next: seq<Subject>) returns (subjects: seq<SubjectRow>)
    ensures subjects == DiffedExam(baseline, next)
  {
    var baseByCode := IndexSubjects(baseline);
    var nextCodes := SubjectCodes(next);
    subjects := [];
    for i := 0 to |next|
      invariant subjects == TagSubjects(baseline, next)[..i]
    {
      var code := next[i].header.code;
      var row := DiffSubject(if code in baseByCode then Some(baseByCode[code]) else None, next[i]);
      subjects := subjects + [row];
    }
    for i := 0 to |baseline|
      invariant subjects == TagSubjects(baseline, next) + DroppedSubjects(baseline[..i], nextCodes)
    {
      assert baseline[..i + 1][..i] == baseline[..i];
      var s := baseline[i];
      if s.header.code !in nextCodes {
        subjects := subjects + [s.(status := Some(Removed), topics := AllRemoved(s.topics))];
      }
    }
    assert baseline[..|baseline|] == baseline;
  }

  // ---- Saving ----

  predicate IsDropped(status: Option<Status>, kept: bool) {
    status == Some(Removed) && !kept
  }

  function CleanTopics(rows: seq<TopicRow>): seq<Topic> {
    if rows == [] then []
    else if IsDropped(rows[0].status, rows[0].kept) then CleanTopics(rows[1..])
    else [rows[0].topic] + CleanTopics(rows[1..])
  }

  function CleanForSave(rows: seq<SubjectRow>): seq<Subject> {
    if rows == [] then []
    else if IsDropped(rows[0].status, rows[0].kept) then CleanForSave(rows[1..])
    else [Subject(rows[0].header, CleanTopics(rows[0].topics))] + CleanForSave(rows[1..])
  }

  // ---- What is saved of any list of rows ----

  /** Each row is saved on its own account, whatever its neighbours are. */
  lemma {:induction false} CleanTopicsAppend(a: seq<TopicRow>, b: seq<TopicRow>)
    ensures CleanTopics(a + b) == CleanTopics(a) + CleanTopics(b)
  {
    if a == [] {
      assert a + b == b;
    } else {
      assert (a + b)[1..] == a[1..] + b;
      CleanTopicsAppend(a[1..], b);
    }
  }

  lemma {:induction false} CleanForSaveAppend(a: seq<SubjectRow>, b: seq<SubjectRow>)
    ensures CleanForSave(a + b) == CleanForSave(a) + CleanForSave(b)
  {
    if a == [] {
      assert a + b == b;
    } else {
      assert (a + b)[1..] == a[1..] + b;
      CleanForSaveAppend(a[1..], b);
    }
  }

  lemma CutAround<T>(s: seq<T>, i: nat)
    requires i < |s|
    ensures s == s[..i] + ([s[i]] + s[i + 1..])
  {
  }

  /** A topic is saved, in its place and once, unless it is tagged removed and not kept;
      its diff fields are not saved. */
  lemma TopicSavedInPlace(rows: seq<TopicRow>, i: nat)
    requires i < |rows|
    ensures CleanTopics(rows) == CleanTopics(rows[..i])
              + ((if rows[i].status == Some(Removed) && !rows[i].kept then [] else [rows[i].topic])
                 + CleanTopics(rows[i + 1..]))
  {
    CutAround(rows, i);
    CleanTopicsAppend(rows[..i], [rows[i]] + rows[i + 1..]);
    CleanTopicsAppend([rows[i]], rows[i + 1..]);
    assert [rows[i]][1..] == [] && CleanTopics([]) == [];
  }

  /** A subject likewise, with those of its topics that are saved themselves. */
  lemma SubjectSavedInPlace(rows: seq<SubjectRow>, i: nat)
    requires i < |rows|
    ensures CleanForSave(rows) == CleanForSave(rows[..i])
              + ((if rows[i].status == Some(Removed) && !rows[i].kept then []
                  else [Subject(rows[i].header, CleanTopics(rows[i].topics))])
                 + CleanForSave(rows[i + 1..]))
  {
    CutAround(rows, i);
    CleanForSaveAppend(rows[..i], [rows[i]] + rows[i + 1..]);
    CleanForSaveAppend([rows[i]], rows[i + 1..]);
    assert [rows[i]][1..] == [] && CleanForSave([]) == [];
  }

  // ---- Save undoes diff ----

  /** Rows as a diff lays them out: the AI's topics first, then only dropped ones. */
  ghost predicate TopicLayout(rows: seq<TopicRow>, next: seq<Topic>) {
    && |rows| >= |next|
    && (forall i :: 0 <= i < |next| ==> rows[i].topic == next[i] && rows[i].status != Some(Removed))
    && (forall i :: |next| <= i < |rows| ==> rows[i].status == Some(Removed))
  }

  ghost predicate Layout(rows: seq<SubjectRow>, next: seq<Subject>) {
    && |rows| >= |next|
    && (forall i :: 0 <= i < |next| ==>
          && rows[i].header == next[i].header && rows[i].status != Some(Removed)
          && TopicLayout(rows[i].topics, next[i].topics))
    && (forall i :: |next| <= i < |rows| ==> rows[i].status == Some(Removed))
  }

  /** The topics of the rows marked to keep, in row order. */
  function ChosenTopics(rows: seq<TopicRow>): seq<Topic> {
    if rows == [] then []
    else (if rows[0].kept then [rows[0].topic] else []) + ChosenTopics(rows[1..])
  }

  function ChosenSubjects(rows: seq<SubjectRow>): seq<Subject> {
    if rows == [] then []
    else
      (if rows[0].kept then [Subject(rows[0].header, CleanTopics(rows[0].topics))] else [])
      + ChosenSubjects(rows[1..])
  }

  lemma {:induction false} SaveDroppedTopics(rows: seq<TopicRow>)
    requires forall r :: r in rows ==> r.status == Some(Removed)
    ensures CleanTopics(rows) == ChosenTopics(rows)
  {
    if rows != [] {
      SaveDroppedTopics(rows[1..]);
    }
  }

  lemma {:induction false} SaveTopics(rows: seq<TopicRow>, next: seq<Topic>)
    requires TopicLayout(rows, next)
    ensures CleanTopics(rows) == next + ChosenTopics(rows[|next|..])
  {
    if next == [] {
      SaveDroppedTopics(rows);
      assert rows[0..] == rows;
    } else {
      SaveTopics(rows[1..], next[1..]);
      assert rows[1..][|next[1..]|..] == rows[|next|..];
      assert next == [next[0]] + next[1..];
    }
  }

  lemma {:induction false} SaveSubjects(rows: seq<SubjectRow>, next: seq<Subject>)
    requires Layout(rows, next)
    ensures var saved := CleanForSave(rows);
            && |saved| >= |next|
            && saved[|next|..] == ChosenSubjects(rows[|next|..])
            && forall i :: 0 <= i < |next| ==>
                 saved[i] == Subject(next[i].header, next[i].topics + ChosenTopics(rows[i].topics[|next[i].topics|..]))
    decreases |rows|
  {
    if next != [] {
      SaveTopics(rows[0].topics, next[0].topics);
      SaveSubjects(rows[1..], next[1..]);
      assert rows[1..][|next[1..]|..] == rows[|next|..];
      var rest := CleanForSave(rows[1..]);
      assert CleanForSave(rows)[1..] == rest;
      assert CleanForSave(rows)[|next|..] == rest[|next| - 1..];
    } else if rows != [] {
      SaveSubjects(rows[1..], []);
      assert rows[0..] == rows && rows[1..][0..] == rows[1..];
      assert CleanForSave(rows[1..])[0..] == CleanForSave(rows[1..]);
    }
  }

  lemma DiffTopicLayout(baseline: seq<TopicRow>, next: seq<Topic>)
    ensures TopicLayout(DiffedTopics(baseline, next), next)
  {
  }

  lemma DiffLayout(baseline: seq<SubjectRow>, next: seq<Subject>)
    ensures Layout(DiffedExam(baseline, next), next)
  {
    var rows := DiffedExam(baseline, next);
    forall i | 0 <= i < |next|
      ensures TopicLayout(rows[i].topics, next[i].topics)
    {
      match LastSubject(baseline, next[i].header.code)
      case None =>
      case Some(p) => DiffTopicLayout(p.topics, next[i].topics);
    }
  }

  /** Two lists of rows that differ at most in Keep marks. */
  ghost predicate SameButKept(a: seq<SubjectRow>, b: seq<SubjectRow>) {
    && |a| == |b|
    && forall i :: 0 <= i < |a| ==>
         && a[i].header == b[i].header && a[i].status == b[i].status && |a[i].topics| == |b[i].topics|
         && forall j :: 0 <= j < |a[i].topics| ==>
              a[i].topics[j].topic == b[i].topics[j].topic && a[i].topics[j].status == b[i].topics[j].status
  }

  /** Whatever set of rows the admin marks to keep after a re-analysis, the save
      payload is the AI's exam, each subject followed by exactly its kept dropped
      topics and the whole by exactly the kept dropped subjects, in baseline
      order; a kept subject still loses the topics not kept themselves. */
  lemma SaveAfterKeep(baseline: seq<SubjectRow>, next: seq<Subject>, rows: seq<SubjectRow>)
    requires SameButKept(DiffedExam(baseline, next), rows)
    ensures var saved := CleanForSave(rows);
            && |next| <= |rows| && |next| <= |saved|
            && saved[|next|..] == ChosenSubjects(rows[|next|..])
            && (forall i :: 0 <= i < |next| ==>
                  && |next[i].topics| <= |rows[i].topics|
                  && saved[i] == Subject(next[i].header,
                                         next[i].topics + ChosenTopics(rows[i].topics[|next[i].topics|..])))
  {
    DiffLayout(baseline, next);
    forall i | 0 <= i < |next|
      ensures TopicLayout(rows[i].topics, next[i].topics)
    {
      assert TopicLayout(DiffedExam(baseline, next)[i].topics, next[i].topics);
    }
    SaveSubjects(rows, next);
  }

  ghost predicate NoTopicKept(rows: seq<TopicRow>) {
    forall r :: r in rows && r.status == Some(Removed) ==> !r.kept
  }

  /** No Keep mark on a dropped row that saving would honour. */
  ghost predicate NothingKept(rows: seq<SubjectRow>) {
    forall r :: r in rows ==> if r.status == Some(Removed) then !r.kept else NoTopicKept(r.topics)
  }

  lemma {:induction false} SaveTopicsExact(rows: seq<TopicRow>, next: seq<Topic>)
    requires TopicLayout(rows, next)
    ensures CleanTopics(rows) == next <==> NoTopicKept(rows)
  {
    if rows != [] {
      var tail := rows[1..];
      assert rows == [rows[0]] + tail;
      if next == [] {
        SaveTopicsExact(tail, []);
      } else {
        SaveTopicsExact(tail, next[1..]);
        assert next == [next[0]] + next[1..];
      }
    }
  }

  /** Saving one row after the AI's topics and then the rest. */
  lemma SaveFirst(rows: seq<SubjectRow>, next: seq<Subject>)
    requires Layout(rows, next) && next != []
    ensures CleanForSave(rows) == next <==>
              NoTopicKept(rows[0].topics) && CleanForSave(rows[1..]) == next[1..]
  {
    SaveTopicsExact(rows[0].topics, next[0].topics);
    assert next == [next[0]] + next[1..];
  }

  lemma NothingKeptFirst(rows: seq<SubjectRow>)
    requires rows != []
    ensures NothingKept(rows) <==> NothingKept([rows[0]]) && NothingKept(rows[1..])
  {
    assert rows == [rows[0]] + rows[1..];
  }

  lemma {:induction false} SaveExact(rows: seq<SubjectRow>, next: seq<Subject>)
    requires Layout(rows, next)
    ensures CleanForSave(rows) == next <==> NothingKept(rows)
  {
    if rows != [] {
      NothingKeptFirst(rows);
      if next == [] {
        SaveExact(rows[1..], []);
      } else {
        SaveFirst(rows, next);
        SaveExact(rows[1..], next[1..]);
      }
    }
  }

  lemma KeepLayout(a: seq<SubjectRow>, b: seq<SubjectRow>, next: seq<Subject>)
    requires Layout(a, next) && SameButKept(a, b)
    ensures Layout(b, next)
  {
    forall i | 0 <= i < |next|
      ensures TopicLayout(b[i].topics, next[i].topics)
    {
      assert TopicLayout(a[i].topics, next[i].topics);
    }
  }

  /** Saving a diff gives back the AI's exam exactly when nothing dropped is kept. */
  lemma SaveUndoesDiff(baseline: seq<SubjectRow>, next: seq<Subject>, rows: seq<SubjectRow>)
    requires SameButKept(DiffedExam(baseline, next), rows)
    ensures CleanForSave(rows) == next <==> NothingKept(rows)
  {
    DiffLayout(baseline, next);
    KeepLayout(DiffedExam(baseline, next), rows, next);
    SaveExact(rows, next);
  }

  function AllTopics(rows: seq<TopicRow>): (topics: seq<Topic>)
    ensures |topics| == |rows| && forall i :: 0 <= i < |rows| ==> topics[i] == rows[i].topic
  {
    seq(|rows|, i requires 0 <= i < |rows| => rows[i].topic)
  }

  lemma {:induction false} SavedNoLonger(rows: seq<TopicRow>)
    ensures |CleanTopics(rows)| <= |rows|
  {
    if rows != [] {
      SavedNoLonger(rows[1..]);
    }
  }

  lemma FirstOfRemoved(rows: seq<TopicRow>)
    requires rows != []
    ensures CleanTopics(AllRemoved(rows)) ==
              (if rows[0].kept then [rows[0].topic] else []) + CleanTopics(AllRemoved(rows[1..]))
    ensures AllTopics(rows) == [rows[0].topic] + AllTopics(rows[1..])
  {
    assert AllRemoved(rows)[1..] == AllRemoved(rows[1..]);
  }

  /** Of a dropped subject's topics exactly those marked themselves are saved: all of
      them only if every single one is marked. */
  lemma {:induction false} KeptSubjectTopics(rows: seq<TopicRow>)
    ensures CleanTopics(AllRemoved(rows)) == ChosenTopics(rows)
    ensures CleanTopics(AllRemoved(rows)) == AllTopics(rows) <==> forall r :: r in rows ==> r.kept
  {
    if rows != [] {
      var rest := rows[1..];
      KeptSubjectTopics(rest);
      FirstOfRemoved(rows);
      SavedNoLonger(AllRemoved(rest));
      if rows[0].kept {
        assert ([rows[0].topic] + CleanTopics(AllRemoved(rest)))[1..] == CleanTopics(AllRemoved(rest));
        assert AllTopics(rows)[1..] == AllTopics(rest);
        assert forall r :: r in rows <==> r == rows[0] || r in rest;
      }
    }
  }

  /** So a subject kept as a whole, straight after a re-analysis that dropped it, is
      saved with exactly those of its topics that had been kept before: none, if none had. */
  lemma KeptSubjectSaved(baseline: seq<SubjectRow>, next: seq<Subject>, p: nat)
    requires p < |baseline| && baseline[p].header.code !in SubjectCodes(next)
    ensures var k := |next| + SubjectRank(baseline, SubjectCodes(next), p);
            var rows := DiffedExam(baseline, next);
            && k < |rows| && rows[k].header == baseline[p].header
            && CleanForSave([rows[k].(kept := true)])
               == [Subject(baseline[p].header, ChosenTopics(baseline[p].topics))]
            && (CleanForSave([rows[k].(kept := true)]) == [Subject(baseline[p].header, AllTopics(baseline[p].topics))]
                <==> forall t :: t in baseline[p].topics ==> t.kept)
  {
    DroppedSubjectAt(baseline, SubjectCodes(next), p);
    KeptSubjectTopics(baseline[p].topics);
    var k := |next| + SubjectRank(baseline, SubjectCodes(next), p);
    var row := DiffedExam(baseline, next)[k].(kept := true);
    assert [row][1..] == [];
    assert CleanForSave([row]) == [Subject(row.header, CleanTopics(row.topics))];
  }

  /** A failing input: the admin keeps the dropped subject and its only topic is gone. */
  lemma KeptSubjectLosesTopic()
    ensures var topic := TopicRow(Topic("T", "Topic", None), None, false);
            var row := SubjectRow(Header("S", "Subject", None, true, None), [topic], None, false);
            var rows := DiffedExam([row], []);
            |rows| == 1 && CleanForSave([rows[0].(kept := true)]) == [Subject(row.header, [])]
  {
    var topic := TopicRow(Topic("T", "Topic", None), None, false);
    var row := SubjectRow(Header("S", "Subject", None, true, None), [topic], None, false);
    KeptSubjectSaved([row], [], 0);
    assert [row][..0] == [] && DroppedSubjects([], {}) == [];
    assert ChosenTopics([topic]) == ChosenTopics([topic][1..]) == [];
  }

  /** No row that the admin kept in an earlier review is dropped again by `next`. */
  ghost predicate NoKeptRowDropped(baseline: seq<SubjectRow>, next: seq<Subject>) {
    && (forall s :: s in baseline && s.kept ==> s.header.code in SubjectCodes(next))
    && (forall s :: s in next && LastSubject(baseline, s.header.code).Some? ==>
          NoKeptTopicDropped(LastSubject(baseline, s.header.code).value.topics, s.topics))
  }

  ghost predicate NoKeptTopicDropped(baseline: seq<TopicRow>, next: seq<Topic>) {
    forall t :: t in baseline && t.kept ==> t.topic.code in Codes(next)
  }

  /** Keep is sticky.  The baseline of a re-analysis is the proposal on screen
      with its marks, so straight after the diff the payload already equals the
      AI's exam exactly when no row kept earlier was dropped again. */
  lemma FreshDiffSavesNext(baseline: seq<SubjectRow>, next: seq<Subject>)
    ensures CleanForSave(DiffedExam(baseline, next)) == next <==> NoKeptRowDropped(baseline, next)
  {
    DiffLayout(baseline, next);
    SaveExact(DiffedExam(baseline, next), next);
    TaggedKept(baseline, next);
    DroppedKept(baseline, SubjectCodes(next));
    var tagged, dropped := TagSubjects(baseline, next), DroppedSubjects(baseline, SubjectCodes(next));
    assert forall r :: r in DiffedExam(baseline, next) <==> r in tagged || r in dropped;
    assert NothingKept(DiffedExam(baseline, next)) <==> NothingKept(tagged) && NothingKept(dropped);
  }

  lemma TaggedKept(baseline: seq<SubjectRow>, next: seq<Subject>)
    ensures NothingKept(TagSubjects(baseline, next)) <==>
              forall s :: s in next && LastSubject(baseline, s.header.code).Some? ==>
                NoKeptTopicDropped(LastSubject(baseline, s.header.code).value.topics, s.topics)
  {
    var tagged := TagSubjects(baseline, next);
    forall i | 0 <= i < |next|
      ensures NoTopicKept(tagged[i].topics) <==>
                (LastSubject(baseline, next[i].header.code).Some? ==>
                  NoKeptTopicDropped(LastSubject(baseline, next[i].header.code).value.topics, next[i].topics))
    {
      match LastSubject(baseline, next[i].header.code)
      case None =>
      case Some(p) => DiffedTopicsKept(p.topics, next[i].topics);
    }
    assert forall i :: 0 <= i < |next| ==> tagged[i].status != Some(Removed);
    if NothingKept(tagged) {
      forall s | s in next && LastSubject(baseline, s.header.code).Some?
        ensures NoKeptTopicDropped(LastSubject(baseline, s.header.code).value.topics, s.topics)
      {
        var i :| 0 <= i < |next| && next[i] == s;
        assert tagged[i] in tagged;
      }
    }
  }

  lemma DiffedTopicsKept(baseline: seq<TopicRow>, next: seq<Topic>)
    ensures NoTopicKept(DiffedTopics(baseline, next)) <==> NoKeptTopicDropped(baseline, next)
  {
    var tagged, dropped := TagTopics(baseline, next), DroppedTopics(baseline, Codes(next));
    DroppedTopicsKept(baseline, Codes(next));
    assert forall r :: r in DiffedTopics(baseline, next) <==> r in tagged || r in dropped;
    assert NoTopicKept(DiffedTopics(baseline, next)) <==> NoTopicKept(dropped);
  }

  lemma {:induction false} DroppedTopicsKept(baseline: seq<TopicRow>, codes: set<string>)
    ensures NoTopicKept(DroppedTopics(baseline, codes)) <==>
              forall t :: t in baseline && t.kept ==> t.topic.code in codes
  {
    if baseline != [] {
      var n := |baseline| - 1;
      DroppedTopicsKept(baseline[..n], codes);
      assert baseline == baseline[..n] + [baseline[n]];
      var again := baseline[n].(status := Some(Removed));
      if baseline[n].topic.code !in codes {
        assert again in DroppedTopics(baseline, codes);
      }
    }
  }

  lemma {:induction false} DroppedKept(baseline: seq<SubjectRow>, codes: set<string>)
    ensures NothingKept(DroppedSubjects(baseline, codes)) <==>
              forall s :: s in baseline && s.kept ==> s.header.code in codes
  {
    if baseline != [] {
      var n := |baseline| - 1;
      DroppedKept(baseline[..n], codes);
      assert baseline == baseline[..n] + [baseline[n]];
      var again := baseline[n].(status := Some(Removed), topics := AllRemoved(baseline[n].topics));
      if baseline[n].header.code !in codes {
        assert again in DroppedSubjects(baseline, codes);
      }
    }
  }

  /** Regenerating a subject forgets its marks: whatever was on screen, the
      subject's topics in the payload are the AI's list and nothing else. */
  lemma RegeneratedPayload(current: seq<TopicRow>, aiTopics: seq<Topic>)
    ensures CleanTopics(MergeRegenerated(current, aiTopics)) == aiTopics
  {
    DiffTopicLayout(Strip(current), aiTopics);
    SaveTopicsExact(MergeRegenerated(current, aiTopics), aiTopics);
    DiffedTopicsKept(Strip(current), aiTopics);
  }

  // ---- What the tags mean, and what a diff conserves ----

  /** What the map holds for a code is the last row with it. */
  lemma {:induction false} LastTopicWins(rows: seq<TopicRow>, i: nat)
    requires i < |rows| && forall j :: i < j < |rows| ==> rows[j].topic.code != rows[i].topic.code
    ensures LastTopic(rows, rows[i].topic.code) == Some(rows[i])
  {
    if i < |rows| - 1 {
      LastTopicWins(rows[..|rows| - 1], i);
    }
  }

  lemma {:induction false} LastSubjectWins(rows: seq<SubjectRow>, i: nat)
    requires i < |rows| && forall j :: i < j < |rows| ==> rows[j].header.code != rows[i].header.code
    ensures LastSubject(rows, rows[i].header.code) == Some(rows[i])
  {
    if i < |rows| - 1 {
      LastSubjectWins(rows[..|rows| - 1], i);
    }
  }

  lemma {:induction false} LastTopicFound(rows: seq<TopicRow>, code: string)
    ensures LastTopic(rows, code).None? <==> code !in RowCodes(rows)
    ensures LastTopic(rows, code).Some? ==>
              LastTopic(rows, code).value in rows && LastTopic(rows, code).value.topic.code == code
  {
    if rows != [] {
      var n := |rows| - 1;
      LastTopicFound(rows[..n], code);
      assert rows == rows[..n] + [rows[n]];
      assert rows[n].topic.code in RowCodes(rows);
    }
  }

  lemma {:induction false} LastSubjectFound(rows: seq<SubjectRow>, code: string)
    ensures LastSubject(rows, code).None? <==> code !in SubjectRowCodes(rows)
    ensures LastSubject(rows, code).Some? ==>
              LastSubject(rows, code).value in rows && LastSubject(rows, code).value.header.code == code
  {
    if rows != [] {
      var n := |rows| - 1;
      LastSubjectFound(rows[..n], code);
      assert rows == rows[..n] + [rows[n]];
      assert rows[n].header.code in SubjectRowCodes(rows);
    }
  }

  function TopicAgain(r: TopicRow): TopicRow {
    r.(status := Some(Removed))
  }

  /** How many dropped topics come before position `p` of the baseline. */
  function TopicRank(baseline: seq<TopicRow>, codes: set<string>, p: nat): nat
    requires p <= |baseline|
  {
    |DroppedTopics(baseline[..p], codes)|
  }

  lemma {:induction false} DroppedTopicsPrefix(baseline: seq<TopicRow>, codes: set<string>, p: nat)
    requires p <= |baseline|
    ensures DroppedTopics(baseline[..p], codes) <= DroppedTopics(baseline, codes)
  {
    if p < |baseline| {
      var front := baseline[..|baseline| - 1];
      DroppedTopicsPrefix(front, codes, p);
      assert front[..p] == baseline[..p];
    } else {
      assert baseline[..p] == baseline;
    }
  }

  /** Every baseline topic whose code is gone is re-injected, at its rank: in baseline order and once. */
  lemma DroppedTopicAt(baseline: seq<TopicRow>, codes: set<string>, p: nat)
    requires p < |baseline| && baseline[p].topic.code !in codes
    ensures var k := TopicRank(baseline, codes, p);
            k < |DroppedTopics(baseline, codes)| && DroppedTopics(baseline, codes)[k] == TopicAgain(baseline[p])
  {
    DroppedTopicsPrefix(baseline, codes, p + 1);
    assert baseline[..p + 1][..p] == baseline[..p];
  }

  /** And every re-injected topic comes from there. */
  lemma {:induction false} DroppedTopicFrom(baseline: seq<TopicRow>, codes: set<string>, k: nat) returns (p: nat)
    requires k < |DroppedTopics(baseline, codes)|
    ensures p < |baseline| && baseline[p].topic.code !in codes && TopicRank(baseline, codes, p) == k
    ensures DroppedTopics(baseline, codes)[k] == TopicAgain(baseline[p])
  {
    var n := |baseline| - 1;
    var front := baseline[..n];
    if k < |DroppedTopics(front, codes)| {
      p := DroppedTopicFrom(front, codes, k);
      assert front[..p] == baseline[..p];
    } else {
      p := n;
    }
  }

  function SubjectAgain(r: SubjectRow): SubjectRow {
    r.(status := Some(Removed), topics := AllRemoved(r.topics))
  }

  /** How many dropped subjects come before position `p` of the baseline. */
  function SubjectRank(baseline: seq<SubjectRow>, codes: set<string>, p: nat): nat
    requires p <= |baseline|
  {
    |DroppedSubjects(baseline[..p], codes)|
  }

  lemma {:induction false} DroppedSubjectsPrefix(baseline: seq<SubjectRow>, codes: set<string>, p: nat)
    requires p <= |baseline|
    ensures DroppedSubjects(baseline[..p], codes) <= DroppedSubjects(baseline, codes)
  {
    if p < |baseline| {
      var front := baseline[..|baseline| - 1];
      DroppedSubjectsPrefix(front, codes, p);
      assert front[..p] == baseline[..p];
    } else {
      assert baseline[..p] == baseline;
    }
  }

  /** Every baseline subject whose code is gone is re-injected, at its rank: in baseline order and once. */
  lemma DroppedSubjectAt(baseline: seq<SubjectRow>, codes: set<string>, p: nat)
    requires p < |baseline| && baseline[p].header.code !in codes
    ensures var k := SubjectRank(baseline, codes, p);
            k < |DroppedSubjects(baseline, codes)| && DroppedSubjects(baseline, codes)[k] == SubjectAgain(baseline[p])
  {
    DroppedSubjectsPrefix(baseline, codes, p + 1);
    assert baseline[..p + 1][..p] == baseline[..p];
  }

  /** And every re-injected subject comes from there. */
  lemma {:induction false} DroppedSubjectFrom(baseline: seq<SubjectRow>, codes: set<string>, k: nat) returns (p: nat)
    requires k < |DroppedSubjects(baseline, codes)|
    ensures p < |baseline| && baseline[p].header.code !in codes && SubjectRank(baseline, codes, p) == k
    ensures DroppedSubjects(baseline, codes)[k] == SubjectAgain(baseline[p])
  {
    var n := |baseline| - 1;
    var front := baseline[..n];
    if k < |DroppedSubjects(front, codes)| {
      p := DroppedSubjectFrom(front, codes, k);
      assert front[..p] == baseline[..p];
    } else {
      p := n;
    }
  }

  ghost predicate DistinctRows(rows: seq<TopicRow>) {
    forall i, j :: 0 <= i < j < |rows| ==> rows[i].topic.code != rows[j].topic.code
  }

  ghost predicate DistinctTopics(topics: seq<Topic>) {
    forall i, j :: 0 <= i < j < |topics| ==> topics[i].code != topics[j].code
  }

  lemma DroppedCodes(baseline: seq<TopicRow>, codes: set<string>)
    ensures RowCodes(DroppedTopics(baseline, codes)) == RowCodes(baseline) - codes
  {
    var dropped := DroppedTopics(baseline, codes);
    forall i | 0 <= i < |dropped|
      ensures dropped[i].topic.code in RowCodes(baseline) - codes
    {
      var p := DroppedTopicFrom(baseline, codes, i);
      assert baseline[p] in baseline;
    }
    forall p: nat | p < |baseline| && baseline[p].topic.code !in codes
      ensures baseline[p].topic.code in RowCodes(dropped)
    {
      DroppedTopicAt(baseline, codes, p);
      assert dropped[TopicRank(baseline, codes, p)] in dropped;
    }
  }

  lemma TaggedCodes(baseline: seq<TopicRow>, next: seq<Topic>)
    ensures RowCodes(TagTopics(baseline, next)) == Codes(next)
  {
    var tagged := TagTopics(baseline, next);
    forall i | 0 <= i < |next|
      ensures next[i].code in RowCodes(tagged) && tagged[i].topic.code in Codes(next)
    {
      assert tagged[i] in tagged && next[i] in next;
    }
  }

  /** Conservation: a topic diff holds exactly the codes of both sides. */
  lemma DiffConservesCodes(baseline: seq<TopicRow>, next: seq<Topic>)
    ensures RowCodes(DiffedTopics(baseline, next)) == RowCodes(baseline) + Codes(next)
  {
    var tagged, dropped := TagTopics(baseline, next), DroppedTopics(baseline, Codes(next));
    assert forall r :: r in DiffedTopics(baseline, next) <==> r in tagged || r in dropped;
    assert RowCodes(DiffedTopics(baseline, next)) == RowCodes(tagged) + RowCodes(dropped);
    TaggedCodes(baseline, next);
    DroppedCodes(baseline, Codes(next));
  }

  /** The tag of a row says which side of the diff it is on and whether its content
      changed; only a dropped row can carry a Keep mark, the one it had. */
  lemma TopicTags(baseline: seq<TopicRow>, next: seq<Topic>, r: TopicRow)
    requires r in DiffedTopics(baseline, next)
    ensures r.status.Some?
    ensures r.status == Some(Added) <==> r.topic.code !in RowCodes(baseline)
    ensures r.status == Some(Removed) <==> r.topic.code !in Codes(next)
    ensures r.status == Some(Unchanged) <==>
              r.topic.code in Codes(next) && LastTopic(baseline, r.topic.code).Some?
              && LastTopic(baseline, r.topic.code).value.topic == r.topic
    ensures r.kept ==> r.status == Some(Removed) && exists p :: p in baseline && p.kept && p.topic == r.topic
  {
    LastTopicFound(baseline, r.topic.code);
    var tagged, dropped := TagTopics(baseline, next), DroppedTopics(baseline, Codes(next));
    if r in tagged {
      TaggedCodes(baseline, next);
      assert r.topic.code in RowCodes(tagged);
      var i :| 0 <= i < |tagged| && tagged[i] == r;
      assert r == TagTopic(LastTopic(baseline, next[i].code), next[i]);
    } else {
      assert r in dropped;
      DroppedCodes(baseline, Codes(next));
      assert r.topic.code in RowCodes(dropped);
      var k :| 0 <= k < |dropped| && dropped[k] == r;
      var p := DroppedTopicFrom(baseline, Codes(next), k);
      assert baseline[p] in baseline;
    }
  }

  lemma DiffKeepsDistinct(baseline: seq<TopicRow>, next: seq<Topic>)
    requires DistinctRows(baseline) && DistinctTopics(next)
    ensures DistinctRows(DiffedTopics(baseline, next))
  {
    var codes, rows := Codes(next), DiffedTopics(baseline, next);
    var dropped := DroppedTopics(baseline, codes);
    forall i, j | 0 <= i < j < |rows|
      ensures rows[i].topic.code != rows[j].topic.code
    {
      if j >= |next| {
        var q := DroppedTopicFrom(baseline, codes, j - |next|);
        assert rows[j] == dropped[j - |next|];
        if i < |next| {
          assert next[i] in next;
        } else {
          var p := DroppedTopicFrom(baseline, codes, i - |next|);
          assert rows[i] == dropped[i - |next|] && p != q;
        }
      }
    }
  }

  lemma {:induction false} LastStripped(rows: seq<TopicRow>, code: string)
    ensures LastTopic(Strip(rows), code).Some? <==> LastTopic(rows, code).Some?
    ensures LastTopic(rows, code).Some? ==>
              LastTopic(Strip(rows), code).value.topic == LastTopic(rows, code).value.topic
  {
    if rows != [] {
      assert Strip(rows)[..|rows| - 1] == Strip(rows[..|rows| - 1]);
      LastStripped(rows[..|rows| - 1], code);
    }
  }

  /** A regeneration compares with the texts on screen and forgets the Keep marks. */
  lemma RegeneratedTags(current: seq<TopicRow>, aiTopics: seq<Topic>, r: TopicRow)
    requires r in MergeRegenerated(current, aiTopics)
    ensures r.status.Some? && !r.kept
    ensures r.status == Some(Added) <==> r.topic.code !in RowCodes(current)
    ensures r.status == Some(Removed) <==> r.topic.code !in Codes(aiTopics)
    ensures r.status == Some(Unchanged) <==>
              r.topic.code in Codes(aiTopics) && LastTopic(current, r.topic.code).Some?
              && LastTopic(current, r.topic.code).value.topic == r.topic
  {
    TopicTags(Strip(current), aiTopics, r);
    LastStripped(current, r.topic.code);
    LastTopicFound(current, r.topic.code);
    LastTopicFound(Strip(current), r.topic.code);
  }

  // ---- Both sides can be read off the diff ----

  /** Leaving out the rows tagged added, the codes are the baseline's; leaving out
      those tagged removed, the topics are the AI's, in order. */
  lemma SidesRecovered(baseline: seq<TopicRow>, next: seq<Topic>)
    ensures (set r | r in DiffedTopics(baseline, next) && r.status != Some(Added) :: r.topic.code) == RowCodes(baseline)
    ensures forall i :: 0 <= i < |DiffedTopics(baseline, next)| ==>
              (DiffedTopics(baseline, next)[i].status != Some(Removed) <==> i < |next|)
    ensures forall i :: 0 <= i < |next| ==> DiffedTopics(baseline, next)[i].topic == next[i]
  {
    var rows := DiffedTopics(baseline, next);
    DiffTopicLayout(baseline, next);
    DiffConservesCodes(baseline, next);
    forall code | code in RowCodes(baseline)
      ensures exists r :: r in rows && r.status != Some(Added) && r.topic.code == code
    {
      assert code in RowCodes(rows);
      var r :| r in rows && r.topic.code == code;
      TopicTags(baseline, next, r);
    }
    forall r | r in rows && r.status != Some(Added)
      ensures r.topic.code in RowCodes(baseline)
    {
      TopicTags(baseline, next, r);
    }
  }

  lemma DroppedSubjectCodes(baseline: seq<SubjectRow>, codes: set<string>, r: SubjectRow)
    requires r in DroppedSubjects(baseline, codes)
    ensures r.header.code !in codes && r.header.code in SubjectRowCodes(baseline)
  {
    var k :| 0 <= k < |DroppedSubjects(baseline, codes)| && DroppedSubjects(baseline, codes)[k] == r;
    var p := DroppedSubjectFrom(baseline, codes, k);
    assert baseline[p] in baseline;
  }

  /** The tag of a subject says which side it is on and whether its own fields changed. */
  lemma SubjectTags(baseline: seq<SubjectRow>, next: seq<Subject>, r: SubjectRow)
    requires r in DiffedExam(baseline, next)
    ensures r.status.Some?
    ensures r.status == Some(Added) <==> r.header.code !in SubjectRowCodes(baseline)
    ensures r.status == Some(Removed) <==> r.header.code !in SubjectCodes(next)
    ensures r.status == Some(Unchanged) <==>
              r.header.code in SubjectCodes(next) && LastSubject(baseline, r.header.code).Some?
              && LastSubject(baseline, r.header.code).value.header == r.header
    ensures r.status == Some(Added) || r.status == Some(Removed) ==>
              forall t :: t in r.topics ==> t.status == r.status
    ensures r.kept ==> r.status == Some(Removed)
    ensures r.status == Some(Added) ==> forall t :: t in r.topics ==> !t.kept
  {
    LastSubjectFound(baseline, r.header.code);
    var tagged, dropped := TagSubjects(baseline, next), DroppedSubjects(baseline, SubjectCodes(next));
    if r in tagged {
      var i :| 0 <= i < |tagged| && tagged[i] == r;
      assert next[i] in next;
      assert r == TagSubject(LastSubject(baseline, next[i].header.code), next[i]);
    } else {
      assert r in dropped;
      DroppedSubjectCodes(baseline, SubjectCodes(next), r);
      var k :| 0 <= k < |dropped| && dropped[k] == r;
      var p := DroppedSubjectFrom(baseline, SubjectCodes(next), k);
    }
  }

  /** Inside a subject that both sides have, the topics carry the tags of their own diff. */
  lemma TopicTagsWithin(baseline: seq<SubjectRow>, next: seq<Subject>, i: nat, r: TopicRow)
    requires i < |next| && next[i].header.code in SubjectRowCodes(baseline)
    requires r in DiffedExam(baseline, next)[i].topics
    ensures LastSubject(baseline, next[i].header.code).Some?
    ensures var prev := LastSubject(baseline, next[i].header.code).value.topics;
            && r.status.Some?
            && (r.status == Some(Added) <==> r.topic.code !in RowCodes(prev))
            && (r.status == Some(Removed) <==> r.topic.code !in Codes(next[i].topics))
            && (r.status == Some(Unchanged) <==>
                  r.topic.code in Codes(next[i].topics) && LastTopic(prev, r.topic.code).Some?
                  && LastTopic(prev, r.topic.code).value.topic == r.topic)
  {
    LastSubjectFound(baseline, next[i].header.code);
    TopicTags(LastSubject(baseline, next[i].header.code).value.topics, next[i].topics, r);
  }

  /** And they are exactly the topics of both sides. */
  lemma TopicsWithin(baseline: seq<SubjectRow>, next: seq<Subject>, i: nat)
    requires i < |next| && next[i].header.code in SubjectRowCodes(baseline)
    ensures LastSubject(baseline, next[i].header.code).Some?
    ensures var rows := DiffedExam(baseline, next)[i].topics;
            && |next[i].topics| <= |rows|
            && (forall k :: 0 <= k < |next[i].topics| ==> rows[k].topic == next[i].topics[k])
            && RowCodes(rows)
               == RowCodes(LastSubject(baseline, next[i].header.code).value.topics) + Codes(next[i].topics)
  {
    LastSubjectFound(baseline, next[i].header.code);
    DiffConservesCodes(LastSubject(baseline, next[i].header.code).value.topics, next[i].topics);
    DiffLayout(baseline, next);
  }
}
