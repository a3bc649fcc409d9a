/** Selecting every translation that matches a filter, page by page, up to a cap. */
module Selection {
  import opened Prelude

  datatype Page = Page(ids: seq<string>, total: int)

  /** The server pages through one fixed list: any non-empty stretch of what is
      left, and the size of the whole. */
  ghost predicate Serves(fetchPage: nat -> Page, list: seq<string>) {
    forall offset: nat ::
      && fetchPage(offset).total == |list|
      && (offset >= |list| ==> fetchPage(offset).ids == [])
      && (offset < |list| ==> fetchPage(offset).ids != [] && fetchPage(offset).ids <= list[offset..])
  }

  /** `ids` is one page after another, each asked for at the number of ids
      collected before it. */
  ghost predicate Collected(fetchPage: nat -> Page, ids: seq<string>)
    decreases |ids|
  {
    || ids == []
    || exists o: nat :: o < |ids| && fetchPage(o).ids == ids[o..] && Collected(fetchPage, ids[..o])
  }

  lemma CollectOne(fetchPage: nat -> Page, ids: seq<string>)
    requires Collected(fetchPage, ids) && fetchPage(|ids|).ids != []
    ensures Collected(fetchPage, ids + fetchPage(|ids|).ids)
  {
    var more := ids + fetchPage(|ids|).ids;
    assert more[..|ids|] == ids && more[|ids|..] == fetchPage(|ids|).ids;
  }

  /** Whatever stretch sizes the server picks, what has been collected from a
      fixed list is its beginning. */
  lemma {:induction false} CollectedIsPrefix(fetchPage: nat -> Page, list: seq<string>, ids: seq<string>)
    requires Serves(fetchPage, list) && Collected(fetchPage, ids)
    ensures ids <= list
    decreases |ids|
  {
    if ids != [] {
      var o: nat :| o < |ids| && fetchPage(o).ids == ids[o..] && Collected(fetchPage, ids[..o]);
      CollectedIsPrefix(fetchPage, list, ids[..o]);
      assert ids == ids[..o] + fetchPage(o).ids;
    }
  }

  /** What the caller gets when the server pages through a fixed list. */
  ghost predicate FirstOf(list: seq<string>, cap: int, ids: seq<string>, capped: bool) {
    && ids == list[..if |list| < cap then |list| else if cap > 0 then cap else 0]
    && (capped <==> |list| > cap)
  }

  lemma Sliced(fetchPage: nat -> Page, list: seq<string>, all: seq<string>, total: int, cap: int)
    requires Serves(fetchPage, list) && Collected(fetchPage, all) && total == |list| && 0 < cap
    requires |all| >= total || |all| >= cap || fetchPage(|all|).ids == []
    ensures FirstOf(list, cap, if cap < |all| then all[..cap] else all, |all| >= cap && total > cap)
  {
    CollectedIsPrefix(fetchPage, list, all);
  }

  /** Pages are asked for at strictly growing offsets, so a function of the offset
      stands for every server, also one whose list and total change meanwhile.
      `total == None` is the initial Infinity; `all` is what was collected. */
  method ResolveAllMatching(fetchPage: nat -> Page, cap: int)
    returns (ids: seq<string>, capped: bool, ghost all: seq<string>)
    ensures |ids| <= if cap > 0 then cap else 0
    ensures Collected(fetchPage, all) && ids <= all
    ensures forall list :: Serves(fetchPage, list) ==>
              (FirstOf(list, cap, ids, capped) <==> !(cap == 0 && list == []))
    ensures cap <= 0 ==> ids == [] && capped
  {
    ids := [];
    var offset, total: Option<int> := 0, None;
    while (total == None || |ids| < total.value) && |ids| < cap
      invariant offset == |ids| && Collected(fetchPage, ids)
      invariant total == None ==> ids == []
      invariant cap <= 0 ==> total == None
      invariant forall list :: Serves(fetchPage, list) ==> total == None || total == Some(|list|)
      decreases cap - |ids|
    {
      var page := fetchPage(offset);
      total := Some(page.total);
      if page.ids == [] {
        break;
      }
      CollectOne(fetchPage, ids);
      ids := ids + page.ids;
      offset := offset + |page.ids|;
    }
    capped := |ids| >= cap && (total == None || total.value > cap);
    all := ids;
    if 0 <= cap < |ids| {
      ids := ids[..cap];
    }
    forall list | Serves(fetchPage, list)
      ensures FirstOf(list, cap, ids, capped) <==> !(cap == 0 && list == [])
    {
      if cap > 0 {
        Sliced(fetchPage, list, all, |list|, cap);
      }
    }
  }
}
