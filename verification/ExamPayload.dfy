/** What each action on the review screen does to the payload that would be saved. */
module ExamPayload {
  import opened Prelude
  import opened ExamDiff
  import opened ExamReview
  import opened ExamAnswers

  /** What one row contributes to the payload. */
  function SavedOf(row: SubjectRow): seq<Subject> {
    if row.status == Some(Removed) && !row.kept then [] else [Subject(row.header, CleanTopics(row.topics))]
  }

  /** The payload with the contribution of row `i` replaced. */
  function Replaced(p: Proposal, i: nat, saved: seq<Subject>): seq<Subject>
    requires i < |p|
  {
    CleanForSave(p[..i]) + (saved + CleanForSave(p[i + 1..]))
  }

  lemma RowReplaced(p: Proposal, i: nat, row: SubjectRow)
    requires i < |p|
    ensures CleanForSave(p[i := row]) == Replaced(p, i, SavedOf(row))
  {
    SubjectSavedInPlace(p[i := row], i);
    assert p[i := row][..i] == p[..i] && p[i := row][i + 1..] == p[i + 1..];
  }

  /** After "+ Add topic" the subject's saved topics end in the new one, whatever the
      tags of the others. */
  lemma AddedTopicIsSaved(s: Session, i: nat, code: string)
    requires Enabled(s, AddTopic(i, code))
    ensures var rows := RowsAfter(s, AddTopic(i, code));
            var topics := CleanTopics(s.rows[i].topics) + [Topic(code, "New topic", None)];
            && |rows| == |s.rows| && CleanTopics(rows[i].topics) == topics
            && CleanForSave(rows) == Replaced(s.rows, i,
                 if s.rows[i].status == Some(Removed) && !s.rows[i].kept then []
                 else [Subject(s.rows[i].header, topics)])
  {
    var added := TopicRow(Topic(code, "New topic", None), None, false);
    CleanTopicsAppend(s.rows[i].topics, [added]);
    assert [added][1..] == [] && CleanTopics([added]) == [added.topic];
    RowReplaced(s.rows, i, s.rows[i].(topics := s.rows[i].topics + [added]));
  }

  lemma AddedSubjectIsSaved(s: Session, code: string)
    requires Enabled(s, AddSubject(code))
    ensures CleanForSave(RowsAfter(s, AddSubject(code)))
         == CleanForSave(s.rows) + [Subject(Header(code, "New subject", None, true, None), [])]
  {
    var row := SubjectRow(Header(code, "New subject", None, true, None), [], None, false);
    CleanForSaveAppend(s.rows, [row]);
    assert [row][1..] == [] && CleanForSave([]) == [];
  }

  /** Keep makes a topic be saved in its place, and changes nothing else. */
  lemma KeptTopicIsSaved(s: Session, i: nat, j: nat)
    requires Enabled(s, KeepTopic(i, j))
    ensures var rows, topics := RowsAfter(s, KeepTopic(i, j)), s.rows[i].topics;
            var saved := CleanTopics(topics[..j]) + ([topics[j].topic] + CleanTopics(topics[j + 1..]));
            && |rows| == |s.rows| && CleanTopics(rows[i].topics) == saved
            && CleanForSave(rows) == Replaced(s.rows, i,
                 if s.rows[i].status == Some(Removed) && !s.rows[i].kept then []
                 else [Subject(s.rows[i].header, saved)])
  {
    var topics := s.rows[i].topics;
    var kept := topics[j := topics[j].(kept := true)];
    TopicSavedInPlace(kept, j);
    assert kept[..j] == topics[..j] && kept[j + 1..] == topics[j + 1..];
    RowReplaced(s.rows, i, s.rows[i].(topics := kept));
  }

  /** Keep makes a subject be saved in its place, with the topics saved themselves. */
  lemma KeptSubjectIsSaved(s: Session, i: nat)
    requires Enabled(s, KeepSubject(i))
    ensures CleanForSave(RowsAfter(s, KeepSubject(i)))
         == Replaced(s.rows, i, [Subject(s.rows[i].header, CleanTopics(s.rows[i].topics))])
  {
    RowReplaced(s.rows, i, s.rows[i].(kept := true));
  }

  /** Typing over a code changes that code in the payload and nothing else. */
  lemma EditedCodeIsSaved(s: Session, i: nat, j: nat, code: string)
    requires Enabled(s, EditCode(i, j, code))
    ensures var rows, topics := RowsAfter(s, EditCode(i, j, code)), s.rows[i].topics;
            var edited := if topics[j].status == Some(Removed) && !topics[j].kept then []
                          else [Topic(code, topics[j].topic.title, topics[j].topic.description)];
            var saved := CleanTopics(topics[..j]) + (edited + CleanTopics(topics[j + 1..]));
            && |rows| == |s.rows| && CleanTopics(rows[i].topics) == saved
            && CleanForSave(rows) == Replaced(s.rows, i,
                 if s.rows[i].status == Some(Removed) && !s.rows[i].kept then []
                 else [Subject(s.rows[i].header, saved)])
  {
    var topics := s.rows[i].topics;
    var edited := WithCode(topics, j, code);
    TopicSavedInPlace(edited, j);
    assert edited[..j] == topics[..j] && edited[j + 1..] == topics[j + 1..];
    RowReplaced(s.rows, i, s.rows[i].(topics := edited));
  }

  lemma RemovedTopicIsNotSaved(s: Session, i: nat, j: nat)
    requires Enabled(s, RemoveTopic(i, j))
    ensures var rows, topics := RowsAfter(s, RemoveTopic(i, j)), s.rows[i].topics;
            var saved := CleanTopics(topics[..j]) + CleanTopics(topics[j + 1..]);
            && |rows| == |s.rows| && CleanTopics(rows[i].topics) == saved
            && CleanForSave(rows) == Replaced(s.rows, i,
                 if s.rows[i].status == Some(Removed) && !s.rows[i].kept then []
                 else [Subject(s.rows[i].header, saved)])
  {
    var topics := s.rows[i].topics;
    CleanTopicsAppend(topics[..j], topics[j + 1..]);
    RowReplaced(s.rows, i, s.rows[i].(topics := topics[..j] + topics[j + 1..]));
  }

  lemma RemovedSubjectIsNotSaved(s: Session, i: nat)
    requires Enabled(s, RemoveSubject(i))
    ensures CleanForSave(RowsAfter(s, RemoveSubject(i))) == Replaced(s.rows, i, [])
  {
    CleanForSaveAppend(s.rows[..i], s.rows[i + 1..]);
    assert [] + CleanForSave(s.rows[i + 1..]) == CleanForSave(s.rows[i + 1..]);
  }

  /** An answer to a regeneration replaces the saved topics of the row it lands on by the
      AI's list; the row's own fields, and all other rows, stay. */
  lemma LandedTopicsAreSaved(s: Session, k: nat, aiTopics: seq<Topic>)
    requires Enabled(s, LandTopics(k, aiTopics)) && s.asked[k].row < |s.rows|
    ensures var i := s.asked[k].row;
            CleanForSave(RowsAfter(s, LandTopics(k, aiTopics))) == Replaced(s.rows, i,
              if s.rows[i].status == Some(Removed) && !s.rows[i].kept then []
              else [Subject(s.rows[i].header, aiTopics)])
  {
    var i := s.asked[k].row;
    RegeneratedPayload(s.asked[k].captured, aiTopics);
    RowReplaced(s.rows, i, s.rows[i].(topics := MergeRegenerated(s.asked[k].captured, aiTopics)));
  }

  /** An answer for the row just past the end, its own being gone, adds a subject without
      a header to the payload. */
  lemma StrayTopicsAreSaved(s: Session, k: nat, aiTopics: seq<Topic>)
    requires Enabled(s, LandTopics(k, aiTopics)) && s.asked[k].row == |s.rows|
    ensures CleanForSave(RowsAfter(s, LandTopics(k, aiTopics))) == CleanForSave(s.rows) + [Subject(NO_HEADER, aiTopics)]
  {
    var last := [Headless(MergeRegenerated(s.asked[k].captured, aiTopics))];
    RegeneratedPayload(s.asked[k].captured, aiTopics);
    CleanForSaveAppend(s.rows, last);
    assert Landed(s.rows, |s.rows|, last[0].topics) == s.rows + last;
    assert last[1..] == [] && CleanForSave([]) == [];
  }

  /** Filling empty subjects does the same to every subject it has a list for. */
  lemma FilledTopicsAreSaved(p: Proposal, filled: map<string, seq<Topic>>, i: nat)
    requires i < |p|
    ensures var row := Filled(p, filled)[i];
            && row.header == p[i].header && row.status == p[i].status && row.kept == p[i].kept
            && (p[i].header.code in filled ==> CleanTopics(row.topics) == filled[p[i].header.code])
            && (p[i].header.code !in filled ==> row.topics == p[i].topics)
  {
    if p[i].header.code in filled {
      RegeneratedPayload(p[i].topics, filled[p[i].header.code]);
    }
  }

  lemma {:induction false} PlainTopicsSaved(topics: seq<Topic>)
    ensures CleanTopics(Plain(topics)) == topics
  {
    if topics != [] {
      assert Plain(topics)[1..] == Plain(topics[1..]);
      PlainTopicsSaved(topics[1..]);
    }
  }

  /** With no baseline yet the AI's exam is saved as it is. */
  lemma {:induction false} FirstAnalysisIsSaved(next: seq<Subject>)
    ensures CleanForSave(Analysed(None, next)) == next
  {
    if next != [] {
      assert Untagged(next)[1..] == Untagged(next[1..]);
      PlainTopicsSaved(next[0].topics);
      FirstAnalysisIsSaved(next[1..]);
      assert next == [next[0]] + next[1..];
    }
  }

  // ---- Answers that land on what was asked ----

  /** A re-analysis whose answer lands with nothing done meanwhile: the payload is the
      AI's exam if and only if no row kept on screen is dropped again. */
  lemma ReanalysisIsSaved(s: Session, next: seq<Subject>) returns (actions: seq<Action>)
    requires DistinctSubjects(next)
    ensures actions == [CaptureBaseline, StartJob, LandAnalysis(next)] && ValidRun(s, actions)
    ensures CleanForSave(Run(s, actions).rows) == next <==> NoKeptRowDropped(s.rows, next)
    ensures Run(s, actions).rows == DiffedExam(s.rows, next)
  {
    var land := LandAnalysis(next);
    var s1 := Step(s, CaptureBaseline);
    var s2 := Step(s1, StartJob);
    RunOne(s2, land);
    RunCons(s1, StartJob, [land]);
    RunCons(s, CaptureBaseline, [StartJob] + [land]);
    actions := [CaptureBaseline, StartJob, land];
    assert actions == [CaptureBaseline] + ([StartJob] + [land]);
    FreshDiffSavesNext(s.rows, next);
  }

  /** A regeneration likewise: each topic of the row is tagged against what the row
      showed, and no Keep mark is left on it. */
  lemma RegenerationOnScreen(s: Session, i: nat, aiTopics: seq<Topic>, r: TopicRow)
    requires Enabled(s, AskTopics(i)) && DistinctTopics(aiTopics)
    ensures var actions := [AskTopics(i), LandTopics(|s.asked|, aiTopics)];
            ValidRun(s, actions) && |Run(s, actions).rows| == |s.rows|
    ensures var actions := [AskTopics(i), LandTopics(|s.asked|, aiTopics)];
            var before, after := s.rows[i].topics, Run(s, actions).rows[i].topics;
            r in after ==>
              && r.status.Some? && !r.kept
              && (r.status == Some(Added) <==> r.topic.code !in RowCodes(before))
              && (r.status == Some(Removed) <==> r.topic.code !in Codes(aiTopics))
              && (r.status == Some(Unchanged) <==>
                    r.topic.code in Codes(aiTopics) && LastTopic(before, r.topic.code).Some?
                    && LastTopic(before, r.topic.code).value.topic == r.topic)
  {
    var ask, land := AskTopics(i), LandTopics(|s.asked|, aiTopics);
    RunOne(Step(s, ask), land);
    RunCons(s, ask, [land]);
    assert [ask, land] == [ask] + [land];
    assert Run(s, [ask, land]).rows[i].topics == MergeRegenerated(s.rows[i].topics, aiTopics);
    if r in MergeRegenerated(s.rows[i].topics, aiTopics) {
      RegeneratedTags(s.rows[i].topics, aiTopics, r);
    }
  }
}
