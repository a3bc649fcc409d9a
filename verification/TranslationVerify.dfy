/** The verification screen's edit state: one edited payload per draft, rebuilt
    from the previous one on every edit. */
module TranslationVerify {
  import opened Prelude
  import opened JsonLens
  import opened PathText

  datatype Item = Item(questionId: string, language: string, payload: Json)

  function RowKey(item: Item): string {
    item.questionId + "::" + item.language
  }

  lemma LongerTailHasColon(a: Item, b: Item)
    requires RowKey(a) == RowKey(b) && |a.language| < |b.language|
    ensures ':' in b.language
  {
    var key, back := RowKey(a), |RowKey(a)| - |a.language| - 1;
    assert key[back] == ':';
    assert RowKey(b)[back] == b.language[|b.language| - |a.language| - 1];
  }

  /** Drafts of different questions or languages have different keys, as language codes have no colon. */
  lemma RowKeyInjective(a: Item, b: Item)
    requires ':' !in a.language && ':' !in b.language
    requires RowKey(a) == RowKey(b)
    ensures a.questionId == b.questionId && a.language == b.language
  {
    if |a.language| < |b.language| {
      LongerTailHasColon(a, b);
    }
    if |b.language| < |a.language| {
      LongerTailHasColon(b, a);
    }
    var key := RowKey(a);
    assert a.language == key[|key| - |a.language|..] && b.language == RowKey(b)[|key| - |b.language|..];
    assert a.questionId == key[..|a.questionId|] && b.questionId == RowKey(b)[..|b.questionId|];
  }

  /** One call of `saveEdit`. */
  datatype Save = Save(item: Item, path: string, value: string)

  predicate Saveable(save: Save) {
    Parse(save.path) != []
  }

  function Saved(edits: map<string, Json>, save: Save): Json
    requires Saveable(save)
  {
    var k := RowKey(save.item);
    Set(if k in edits then edits[k] else save.item.payload, Parse(save.path), Scalar(save.value))
  }

  function Session(saves: seq<Save>): map<string, Json>
    requires forall save :: save in saves ==> Saveable(save)
  {
    if saves == [] then map[]
    else
      var before, last := Session(saves[..|saves| - 1]), saves[|saves| - 1];
      before[RowKey(last.item) := Saved(before, last)]
  }

  class Screen {
    var edits: map<string, Json>
    ghost var saves: seq<Save>

    ghost predicate Valid()
      reads this
    {
      && (forall save :: save in saves ==> Saveable(save))
      && edits == Session(saves)
    }

    constructor ()
      ensures Valid() && saves == []
    {
      edits := map[];
      saves := [];
    }

    /** Returns the payload sent to the server. */
    method SaveEdit(item: Item, path: string, value: string) returns (next: Json)
      requires Valid() && Saveable(Save(item, path, value))
      modifies this
      ensures Valid() && saves == old(saves) + [Save(item, path, value)]
      ensures next == Saved(old(edits), Save(item, path, value))
      ensures edits == old(edits)[RowKey(item) := next]
      ensures var base := if RowKey(item) in old(edits) then old(edits)[RowKey(item)] else item.payload;
              Get(next, Parse(path)) == Scalar(value) <==> Addressable(base, Parse(path))
    {
      var k := RowKey(item);
      var base := if k in edits then edits[k] else item.payload;
      next := Set(base, Parse(path), Scalar(value));
      GetAfterSet(base, Parse(path), Scalar(value));
      edits := edits[k := next];
      saves := saves + [Save(item, path, value)];
      assert saves[..|saves| - 1] == old(saves);
    }
  }

  /** The edits made to one row, in order. */
  function EditsOf(saves: seq<Save>, key: string): seq<Edit> {
    if saves == [] then []
    else
      var before, last := EditsOf(saves[..|saves| - 1], key), saves[|saves| - 1];
      if RowKey(last.item) == key then before + [Edit(Parse(last.path), Scalar(last.value))] else before
  }

  /** The payload the first edit of a row starts from.  The list may be loaded again
      later with another payload for the row; it is not looked at any more. */
  function FirstPayload(saves: seq<Save>, key: string): Option<Json> {
    if saves == [] then None
    else
      var before, last := FirstPayload(saves[..|saves| - 1], key), saves[|saves| - 1];
      if before == None && RowKey(last.item) == key then Some(last.item.payload) else before
  }

  lemma ApplyPush(payload: Json, edits: seq<Edit>, e: Edit)
    requires (forall d :: d in edits ==> d.path != []) && e.path != []
    ensures ApplyEdits(payload, edits + [e]) == Set(ApplyEdits(payload, edits), e.path, e.value)
  {
    assert (edits + [e])[..|edits|] == edits;
  }

  ghost predicate AllSaveable(saves: seq<Save>) {
    forall save :: save in saves ==> Saveable(save)
  }

  ghost predicate RowSaved(saves: seq<Save>, key: string)
    requires AllSaveable(saves)
  {
    && (forall e :: e in EditsOf(saves, key) ==> e.path != [] && e.value != Undefined)
    && (key in Session(saves) <==> EditsOf(saves, key) != [])
    && (key in Session(saves) <==> FirstPayload(saves, key).Some?)
    && (key in Session(saves) ==>
          Session(saves)[key] == ApplyEdits(FirstPayload(saves, key).value, EditsOf(saves, key)))
  }

  lemma Push(saves: seq<Save>, save: Save, key: string)
    requires AllSaveable(saves) && Saveable(save)
    ensures AllSaveable(saves + [save])
    ensures Session(saves + [save]) == Session(saves)[RowKey(save.item) := Saved(Session(saves), save)]
    ensures EditsOf(saves + [save], key) ==
              if RowKey(save.item) == key then EditsOf(saves, key) + [Edit(Parse(save.path), Scalar(save.value))]
              else EditsOf(saves, key)
    ensures FirstPayload(saves + [save], key) ==
              if FirstPayload(saves, key) == None && RowKey(save.item) == key then Some(save.item.payload)
              else FirstPayload(saves, key)
  {
    assert (saves + [save])[..|saves|] == saves;
  }

  lemma OneMoreSave(saves: seq<Save>, save: Save, key: string)
    requires AllSaveable(saves) && Saveable(save) && RowSaved(saves, key)
    ensures AllSaveable(saves + [save]) && RowSaved(saves + [save], key)
  {
    Push(saves, save, key);
    if RowKey(save.item) == key {
      var base := if key in Session(saves) then FirstPayload(saves, key).value else save.item.payload;
      ApplyPush(base, EditsOf(saves, key), Edit(Parse(save.path), Scalar(save.value)));
    }
  }

  /** Edits of different drafts do not mix: what is saved for a row is its own
      edits applied to the payload it had at the first of them. */
  lemma {:induction false} RowsAreIndependent(saves: seq<Save>, key: string)
    requires AllSaveable(saves)
    ensures RowSaved(saves, key)
  {
    if saves != [] {
      var front, last := saves[..|saves| - 1], saves[|saves| - 1];
      assert last in saves && forall save :: save in front ==> save in saves;
      RowsAreIndependent(front, key);
      OneMoreSave(front, last, key);
      assert saves == front + [last];
    }
  }

  /** The payload finally saved for a row holds, at every path that may be
      edited, the last text typed there or what the translation had before. */
  lemma SavedPayload(saves: seq<Save>, key: string, paths: set<Path>, q: Path)
    requires AllSaveable(saves) && FirstPayload(saves, key).Some?
    requires Editable(FirstPayload(saves, key).value, paths) && q in paths
    requires forall e :: e in EditsOf(saves, key) ==> e.path in paths
    ensures key in Session(saves)
    ensures var payload := FirstPayload(saves, key).value;
            Get(Session(saves)[key], q) == LastWritten(EditsOf(saves, key), q, Get(payload, q))
  {
    RowsAreIndependent(saves, key);
    EditHistory(FirstPayload(saves, key).value, EditsOf(saves, key), paths, q);
  }
}
