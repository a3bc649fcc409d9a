/** Reading and persistently updating a JSON document along a path of property
    names, the way JavaScript property access and the update helper of the
    verification screen do it. */
module JsonLens {
  import opened Decimal

  /** `Undefined` is both a missing property and a hole in an array. */
  datatype Json =
    | Undefined
    | Null
    | Scalar(text: string)
    | Arr(items: seq<Json>)
    | Obj(fields: map<string, Json>)

  type Path = seq<string>

  predicate Missing(j: Json) {
    j.Undefined? || j.Null?
  }

  /** `j[key]`: an array answers only to the canonical spelling of an index. */
  function Prop(j: Json, key: string): Json {
    match j
    case Arr(items) => if Canonical(key) && Val(key) < |items| then items[Val(key)] else Undefined
    case Obj(fields) => if key in fields then fields[key] else Undefined
    case _ => Undefined
  }

  function Get(j: Json, path: Path): Json
    decreases |path|
  {
    if path == [] then j else Get(Prop(j, path[0]), path[1..])
  }

  /** `arr[n] = v`, with holes up to `n` if the array is shorter. */
  function Put(items: seq<Json>, n: nat, v: Json): (r: seq<Json>)
    ensures |r| == if n < |items| then |items| else n + 1
    ensures forall i :: 0 <= i < |r| ==> r[i] == if i == n then v else if i < |items| then items[i] else Undefined
  {
    if n < |items| then items[n := v] else items + seq(n - |items|, i => Undefined) + [v]
  }

  /** `arr[Number(key)] = v`; a key that is not a number leaves the elements alone. */
  function PutAt(items: seq<Json>, key: string, v: Json): seq<Json> {
    if AllDigits(key) then Put(items, Val(key), v) else items
  }

  /** What spreading a value into an object literal contributes. */
  function Spread(j: Json): map<string, Json> {
    if j.Obj? then j.fields else map[]
  }

  /** The node created where one is missing, chosen by the segment that follows. */
  function FreshNode(nextKey: string): Json {
    if AllDigits(nextKey) then Arr([]) else Obj(map[])
  }

  function OrFresh(j: Json, nextKey: string): Json {
    if Missing(j) then FreshNode(nextKey) else j
  }

  /** The container copied with one entry replaced; anything but an array becomes an object. */
  function With(j: Json, key: string, v: Json): Json {
    if j.Arr? then Arr(PutAt(j.items, key, v)) else Obj(Spread(j)[key := v])
  }

  /** The entry the update descends into: an array is indexed by the number the key denotes. */
  function Entry(j: Json, key: string): Json {
    if j.Arr? then
      if AllDigits(key) && Val(key) < |j.items| then j.items[Val(key)] else Undefined
    else Prop(j, key)
  }

  function Set(j: Json, path: Path, v: Json): Json
    requires path != []
    decreases |path|
  {
    if |path| == 1 then With(j, path[0], v)
    else With(j, path[0], Set(OrFresh(Entry(j, path[0]), path[1]), path[1..], v))
  }

  /** Every array met on the way, existing or created, is addressed by a canonical index. */
  predicate Addressable(j: Json, path: Path)
    decreases |path|
  {
    path == [] ||
    (&& (j.Arr? ==> Canonical(path[0]))
     && (|path| == 1 || Addressable(OrFresh(Prop(j, path[0]), path[1]), path[1..])))
  }

  // ---- One level ----

  lemma ValInjective(a: string, b: string)
    requires Canonical(a) && Canonical(b) && Val(a) == Val(b)
    ensures a == b
  {
    DecVal(a);
    DecVal(b);
  }

  predicate KeyFits(j: Json, key: string) {
    j.Arr? ==> Canonical(key)
  }

  lemma PropWith(j: Json, key: string, v: Json, other: string)
    requires KeyFits(j, key)
    ensures Prop(With(j, key, v), other) == if other == key then v else Prop(j, other)
    ensures Entry(j, key) == Prop(j, key)
    ensures With(j, key, v).Arr? == j.Arr?
  {
    if j.Arr? && Canonical(other) && Val(other) == Val(key) {
      ValInjective(key, other);
    }
  }

  lemma WithWith(j: Json, key: string, v: Json, w: Json)
    ensures With(With(j, key, v), key, w) == With(j, key, w)
    ensures j.Arr? && !AllDigits(key) ==> With(j, key, v) == j
    ensures !(j.Arr? && !AllDigits(key)) ==> Entry(With(j, key, v), key) == v
  {
    if j.Arr? {
      assert PutAt(PutAt(j.items, key, v), key, w) == PutAt(j.items, key, w);
    }
  }

  lemma PutsCommute(items: seq<Json>, m: nat, v: Json, n: nat, w: Json)
    requires m != n
    ensures Put(Put(items, m, v), n, w) == Put(Put(items, n, w), m, v)
  {
  }

  lemma WithCommute(j: Json, a: string, v: Json, b: string, w: Json)
    requires a != b && KeyFits(j, a) && KeyFits(j, b)
    ensures With(With(j, a, v), b, w) == With(With(j, b, w), a, v)
  {
    if j.Arr? {
      if Val(a) == Val(b) {
        ValInjective(a, b);
      }
      PutsCommute(j.items, Val(a), v, Val(b), w);
    } else {
      assert Spread(j)[a := v][b := w] == Spread(j)[b := w][a := v];
    }
  }

  // ---- Get after set ----

  lemma {:induction false} GetMissing(j: Json, path: Path)
    requires path != [] && !j.Arr? && !j.Obj?
    ensures Get(j, path) == Undefined
    decreases |path|
  {
    if |path| > 1 {
      GetMissing(Undefined, path[1..]);
    }
  }

  lemma {:induction false} GetFresh(key: string, path: Path)
    requires path != []
    ensures Get(FreshNode(key), path) == Undefined
  {
    if |path| > 1 {
      GetMissing(Undefined, path[1..]);
    }
  }

  /** Reading back what was set gives the value exactly when the path is
      addressable: `list[01]` writes element 1 but does not read it. */
  lemma {:induction false} GetAfterSet(j: Json, path: Path, v: Json)
    requires path != [] && v != Undefined
    ensures Get(Set(j, path, v), path) == v <==> Addressable(j, path)
    decreases |path|
  {
    var key, rest := path[0], path[1..];
    if KeyFits(j, key) {
      var x := if |path| == 1 then v else Set(OrFresh(Entry(j, key), path[1]), rest, v);
      PropWith(j, key, x, key);
      if |path| > 1 {
        GetAfterSet(OrFresh(Prop(j, key), path[1]), rest, v);
      }
    } else if |path| > 1 {
      GetMissing(Undefined, rest);
    }
  }

  /** A set never leaves a missing node behind, so a second one descends into what the first built. */
  lemma SetIntoBuilt(j: Json, path: Path, x: Json, w: Json)
    requires |path| > 1 && (x.Arr? || x.Obj?) && !(j.Arr? && !AllDigits(path[0]))
    ensures Set(With(j, path[0], x), path, w) == With(j, path[0], Set(x, path[1..], w))
  {
    WithWith(j, path[0], x, Set(x, path[1..], w));
  }

  lemma SetBuilds(j: Json, path: Path, v: Json)
    requires path != []
    ensures Set(j, path, v).Arr? || Set(j, path, v).Obj?
  {
  }

  lemma {:induction false} SetSet(j: Json, path: Path, v: Json, w: Json)
    requires path != []
    ensures Set(Set(j, path, v), path, w) == Set(j, path, w)
    decreases |path|
  {
    if |path| == 1 {
      WithWith(j, path[0], v, w);
    } else {
      SetSetBelow(j, path, v, w);
    }
  }

  lemma {:induction false} SetSetBelow(j: Json, path: Path, v: Json, w: Json)
    requires |path| > 1
    ensures Set(Set(j, path, v), path, w) == Set(j, path, w)
    decreases |path|, 0
  {
    var key, node := path[0], OrFresh(Entry(j, path[0]), path[1]);
    var x := Set(node, path[1..], v);
    assert Set(j, path, v) == With(j, key, x);
    if j.Arr? && !AllDigits(key) {
      WithWith(j, key, x, w);
    } else {
      SetBuilds(node, path[1..], v);
      SetIntoBuilt(j, path, x, w);
      SetSet(node, path[1..], v, w);
    }
  }

  /** Setting below a property that is missing or null creates an array if the next
      segment is all digits, with holes up to the element, and an object with that one
      entry otherwise. */
  lemma SetCreates(j: Json, a: string, b: string, v: Json)
    requires KeyFits(j, a) && (Prop(j, a) == Undefined || Prop(j, a) == Null)
    ensures var made := Prop(Set(j, [a, b], v), a);
            && (AllDigits(b) ==>
                  && made.Arr? && |made.items| == Val(b) + 1 && made.items[Val(b)] == v
                  && forall i :: 0 <= i < Val(b) ==> made.items[i] == Undefined)
            && (!AllDigits(b) ==> made == Obj(map[b := v]))
  {
    assert [a, b][1..] == [b];
    PropWith(j, a, NewEntry(j, [a, b], v), a);
    assert Set(j, [a, b], v) == With(j, a, NewEntry(j, [a, b], v));
    assert NewEntry(j, [a, b], v) == With(OrFresh(Prop(j, a), b), b, v);
  }

  /** What is set into: an array keeps its other elements, an object its other
      properties, and anything else becomes an object with the one entry. */
  lemma SetOne(j: Json, key: string, v: Json)
    ensures match j
            case Arr(items) =>
              && Set(j, [key], v).Arr?
              && (!AllDigits(key) ==> Set(j, [key], v) == j)
              && (AllDigits(key) ==>
                    var items' := Set(j, [key], v).items;
                    && |items'| == (if Val(key) < |items| then |items| else Val(key) + 1)
                    && items'[Val(key)] == v
                    && forall i :: 0 <= i < |items'| && i != Val(key) ==>
                         items'[i] == if i < |items| then items[i] else Undefined)
            case Obj(fields) => Set(j, [key], v) == Obj(fields[key := v])
            case _ => Set(j, [key], v) == Obj(map[key := v])
  {
  }

  // ---- Other paths ----

  /** Neither path is a prefix of the other. */
  predicate Incomparable(p: Path, q: Path) {
    p != [] && q != [] && (p[0] != q[0] || Incomparable(p[1..], q[1..]))
  }

  /** Setting one path leaves every incomparable path reading as before. */
  lemma {:induction false} SetFrame(j: Json, p: Path, v: Json, q: Path)
    requires Incomparable(p, q) && Addressable(j, p)
    ensures Get(Set(j, p, v), q) == Get(j, q)
    decreases |p|
  {
    var key := p[0];
    var x := if |p| == 1 then v else Set(OrFresh(Entry(j, key), p[1]), p[1..], v);
    PropWith(j, key, x, q[0]);
    if q[0] == key {
      var child := Prop(j, key);
      SetFrame(OrFresh(child, p[1]), p[1..], v, q[1..]);
      if Missing(child) {
        GetMissing(child, q[1..]);
        GetFresh(p[1], q[1..]);
      }
    }
  }

  /** Down to the fork both paths find, or would create, the same nodes: nothing
      is created where one continues with an index and the other with a name. */
  predicate Agree(j: Json, p: Path, q: Path)
    decreases |p|
  {
    && p != [] && q != []
    && (p[0] == q[0] ==>
          && |p| > 1 && |q| > 1
          && OrFresh(Prop(j, p[0]), p[1]) == OrFresh(Prop(j, q[0]), q[1])
          && Agree(OrFresh(Prop(j, p[0]), p[1]), p[1..], q[1..]))
  }

  lemma {:induction false} AgreeIncomparable(j: Json, p: Path, q: Path)
    requires Agree(j, p, q)
    ensures Incomparable(p, q) && Agree(j, q, p)
    decreases |p|
  {
    if p[0] == q[0] {
      AgreeIncomparable(OrFresh(Prop(j, p[0]), p[1]), p[1..], q[1..]);
    }
  }

  /** Incomparable, and at the fork both continue with an index or both with a name. */
  predicate Apart(p: Path, q: Path) {
    && p != [] && q != []
    && if p[0] == q[0] then Apart(p[1..], q[1..]) else AllDigits(p[0]) == AllDigits(q[0])
  }

  lemma FreshNodesAgree(p: Path, q: Path)
    requires Apart(p, q)
    ensures FreshNode(p[0]) == FreshNode(q[0])
  {
  }

  /** Such paths agree in every document. */
  lemma {:induction false} ApartAgree(j: Json, p: Path, q: Path)
    requires Apart(p, q)
    ensures Agree(j, p, q)
    decreases |p|
  {
    if p[0] == q[0] {
      FreshNodesAgree(p[1..], q[1..]);
      ApartAgree(OrFresh(Prop(j, p[0]), p[1]), p[1..], q[1..]);
    }
  }

  /** Every node on the way to the last segment exists. */
  predicate Resolves(j: Json, path: Path)
    decreases |path|
  {
    |path| <= 1 || (!Missing(Prop(j, path[0])) && Resolves(Prop(j, path[0]), path[1..]))
  }

  /** And incomparable paths agree in every document in which they resolve. */
  lemma {:induction false} ResolvedAgree(j: Json, p: Path, q: Path)
    requires Incomparable(p, q) && Resolves(j, p) && Resolves(j, q)
    ensures Agree(j, p, q)
    decreases |p|
  {
    if p[0] == q[0] {
      ResolvedAgree(Prop(j, p[0]), p[1..], q[1..]);
    }
  }

  lemma {:induction false} AddressableAfterSet(j: Json, p: Path, v: Json)
    requires Addressable(j, p) && p != []
    ensures Addressable(Set(j, p, v), p)
    decreases |p|
  {
    var key := p[0];
    var x := if |p| == 1 then v else Set(OrFresh(Entry(j, key), p[1]), p[1..], v);
    PropWith(j, key, x, key);
    if |p| > 1 {
      AddressableAfterSet(OrFresh(Prop(j, key), p[1]), p[1..], v);
    }
  }

  lemma {:induction false} AddressableAgree(j: Json, p: Path, v: Json, q: Path)
    requires Addressable(j, p) && Addressable(j, q) && Agree(j, p, q)
    ensures Addressable(Set(j, p, v), q)
    decreases |p|
  {
    PropWith(j, p[0], NewEntry(j, p, v), q[0]);
    if p[0] == q[0] {
      AddressableAgree(OrFresh(Prop(j, p[0]), p[1]), p[1..], v, q[1..]);
      SetBuilds(OrFresh(Prop(j, p[0]), p[1]), p[1..], v);
    }
  }

  /** What a set puts under its first property. */
  function NewEntry(j: Json, p: Path, v: Json): Json
    requires p != []
  {
    if |p| == 1 then v else Set(OrFresh(Entry(j, p[0]), p[1]), p[1..], v)
  }

  predicate SameOrAgree(j: Json, p: Path, q: Path) {
    p == q || Agree(j, p, q)
  }

  /** Paths that agree go on agreeing when one of them, or a third that agrees with both, is set. */
  lemma {:induction false} AgreeAfterSet(j: Json, p: Path, v: Json, q: Path, r: Path)
    requires Addressable(j, p) && Agree(j, q, r) && SameOrAgree(j, p, q) && SameOrAgree(j, p, r)
    ensures Agree(Set(j, p, v), q, r)
    decreases |q|
  {
    if q[0] == r[0] {
      PropWith(j, p[0], NewEntry(j, p, v), q[0]);
      if p[0] == q[0] {
        var node := OrFresh(Prop(j, p[0]), p[1]);
        SetBuilds(node, p[1..], v);
        AgreeAfterSet(node, p[1..], v, q[1..], r[1..]);
      }
    }
  }

  // ---- When sets commute ----

  lemma SetAside(j: Json, p: Path, v: Json, q: Path, w: Json)
    requires p != [] && q != [] && p[0] != q[0] && KeyFits(j, p[0]) && KeyFits(j, q[0])
    ensures Set(Set(j, p, v), q, w) == With(With(j, p[0], NewEntry(j, p, v)), q[0], NewEntry(j, q, w))
  {
    var j' := With(j, p[0], NewEntry(j, p, v));
    assert Set(j, p, v) == j';
    PropWith(j, p[0], NewEntry(j, p, v), q[0]);
    PropWith(j, q[0], w, q[0]);
    PropWith(j', q[0], w, q[0]);
    assert Entry(j', q[0]) == Entry(j, q[0]);
    assert NewEntry(j', q, w) == NewEntry(j, q, w);
  }

  lemma SetsAsideCommute(j: Json, p: Path, v: Json, q: Path, w: Json)
    requires p != [] && q != [] && p[0] != q[0] && KeyFits(j, p[0]) && KeyFits(j, q[0])
    ensures Set(Set(j, p, v), q, w) == Set(Set(j, q, w), p, v)
  {
    SetAside(j, p, v, q, w);
    SetAside(j, q, w, p, v);
    WithCommute(j, p[0], NewEntry(j, p, v), q[0], NewEntry(j, q, w));
  }

  /** Two sets through the same first property happen one after the other in the node below it. */
  lemma SetTwiceBelow(j: Json, p: Path, v: Json, q: Path, w: Json)
    requires |p| > 1 && |q| > 1 && p[0] == q[0] && KeyFits(j, p[0])
    ensures Set(Set(j, p, v), q, w)
         == With(j, p[0], Set(Set(OrFresh(Prop(j, p[0]), p[1]), p[1..], v), q[1..], w))
  {
    PropWith(j, p[0], v, p[0]);
    var node := OrFresh(Prop(j, p[0]), p[1]);
    SetBuilds(node, p[1..], v);
    SetIntoBuilt(j, q, Set(node, p[1..], v), w);
  }

  lemma SetKeepsArray(j: Json, p: Path, v: Json)
    requires p != []
    ensures Set(j, p, v).Arr? <==> j.Arr?
  {
  }

  lemma WithInjective(j: Json, key: string, v: Json, w: Json)
    requires KeyFits(j, key)
    ensures With(j, key, v) == With(j, key, w) <==> v == w
  {
    PropWith(j, key, v, key);
    PropWith(j, key, w, key);
  }

  /** Sets at incomparable addressable paths commute if and only if the paths agree
      on the nodes to be created; in particular if both resolve already. */
  lemma {:induction false} SetsCommute(j: Json, p: Path, v: Json, q: Path, w: Json)
    requires Incomparable(p, q) && Addressable(j, p) && Addressable(j, q)
    ensures Set(Set(j, p, v), q, w) == Set(Set(j, q, w), p, v) <==> Agree(j, p, q)
    decreases |p|
  {
    if p[0] != q[0] {
      SetsAsideCommute(j, p, v, q, w);
    } else {
      var child, pp, qq := Prop(j, p[0]), p[1..], q[1..];
      var x, y := OrFresh(child, p[1]), OrFresh(child, q[1]);
      SetTwiceBelow(j, p, v, q, w);
      SetTwiceBelow(j, q, w, p, v);
      WithInjective(j, p[0], Set(Set(x, pp, v), qq, w), Set(Set(y, qq, w), pp, v));
      if x == y {
        SetsCommute(x, pp, v, qq, w);
      } else {
        SetKeepsArray(x, pp, v);
        SetKeepsArray(Set(x, pp, v), qq, w);
        SetKeepsArray(y, qq, w);
        SetKeepsArray(Set(y, qq, w), pp, v);
      }
    }
  }

  // ---- Histories of edits ----

  datatype Edit = Edit(path: Path, value: Json)

  function ApplyEdits(j: Json, edits: seq<Edit>): Json
    requires forall e :: e in edits ==> e.path != []
  {
    if edits == [] then j
    else Set(ApplyEdits(j, edits[..|edits| - 1]), edits[|edits| - 1].path, edits[|edits| - 1].value)
  }

  /** The value last written to exactly this path, or what was there before. */
  function LastWritten(edits: seq<Edit>, path: Path, original: Json): Json {
    if edits == [] then original
    else if edits[|edits| - 1].path == path then edits[|edits| - 1].value
    else LastWritten(edits[..|edits| - 1], path, original)
  }

  /** Paths that can be edited together: addressable in the payload and, pairwise,
      agreeing on the nodes to be created. */
  ghost predicate Editable(j: Json, paths: set<Path>) {
    && (forall p :: p in paths ==> p != [] && Addressable(j, p))
    && (forall p, q :: p in paths && q in paths ==> SameOrAgree(j, p, q))
  }

  lemma EditKeepsEditable(j: Json, e: Edit, paths: set<Path>)
    requires Editable(j, paths) && e.path in paths
    ensures Editable(Set(j, e.path, e.value), paths)
  {
    forall q | q in paths
      ensures Addressable(Set(j, e.path, e.value), q)
    {
      if q == e.path {
        AddressableAfterSet(j, q, e.value);
      } else {
        assert SameOrAgree(j, e.path, q);
        AddressableAgree(j, e.path, e.value, q);
      }
    }
    forall q, r | q in paths && r in paths
      ensures SameOrAgree(Set(j, e.path, e.value), q, r)
    {
      if q != r {
        assert SameOrAgree(j, q, r) && SameOrAgree(j, e.path, q) && SameOrAgree(j, e.path, r);
        AgreeAfterSet(j, e.path, e.value, q, r);
      }
    }
  }

  lemma {:induction false} EditsKeepEditable(j: Json, edits: seq<Edit>, paths: set<Path>)
    requires Editable(j, paths) && forall e :: e in edits ==> e.path in paths
    ensures Editable(ApplyEdits(j, edits), paths)
    decreases |edits|
  {
    if edits != [] {
      var front, last := edits[..|edits| - 1], edits[|edits| - 1];
      assert last in edits && forall e :: e in front ==> e in edits;
      EditsKeepEditable(j, front, paths);
      EditKeepsEditable(ApplyEdits(j, front), last, paths);
    }
  }

  /** After any sequence of edits the document holds, at each editable path, the
      value last written there or the original one. */
  lemma {:induction false} EditHistory(j: Json, edits: seq<Edit>, paths: set<Path>, q: Path)
    requires Editable(j, paths) && (forall e :: e in edits ==> e.path in paths && e.value != Undefined) && q in paths
    ensures Get(ApplyEdits(j, edits), q) == LastWritten(edits, q, Get(j, q))
    decreases |edits|
  {
    if edits != [] {
      var front, last := edits[..|edits| - 1], edits[|edits| - 1];
      var before := ApplyEdits(j, front);
      assert last in edits && forall e :: e in front ==> e in edits;
      EditHistory(j, front, paths, q);
      EditsKeepEditable(j, front, paths);
      if last.path == q {
        GetAfterSet(before, q, last.value);
      } else {
        assert SameOrAgree(before, last.path, q);
        AgreeIncomparable(before, last.path, q);
        SetFrame(before, last.path, last.value, q);
      }
    }
  }

  /** Exchanging two neighbouring edits of different paths does not change the document. */
  lemma NeighboursCommute(j: Json, edits: seq<Edit>, paths: set<Path>, e: Edit, f: Edit)
    requires Editable(j, paths) && (forall d :: d in edits ==> d.path in paths)
    requires e.path in paths && f.path in paths && e.path != f.path
    ensures ApplyEdits(j, edits + [e, f]) == ApplyEdits(j, edits + [f, e])
  {
    var before := ApplyEdits(j, edits);
    EditsKeepEditable(j, edits, paths);
    assert SameOrAgree(before, e.path, f.path);
    AgreeIncomparable(before, e.path, f.path);
    SetsCommute(before, e.path, e.value, f.path, f.value);
    assert (edits + [e, f])[..|edits| + 1] == edits + [e] && (edits + [e])[..|edits|] == edits;
    assert (edits + [f, e])[..|edits| + 1] == edits + [f] && (edits + [f])[..|edits|] == edits;
  }

  /** If two incomparable paths do not agree, the second edit undoes or is lost to
      the first: in one order or the other a value just written is not read back. */
  lemma DisagreementLosesAnEdit(j: Json, p: Path, v: Json, q: Path, w: Json)
    requires Incomparable(p, q) && Addressable(j, p) && Addressable(j, q) && v != Undefined && w != Undefined
    ensures Agree(j, p, q) <==>
              && Get(Set(Set(j, p, v), q, w), q) == w
              && Get(Set(Set(j, q, w), p, v), p) == v
  {
    GetAfterSet(Set(j, p, v), q, w);
    GetAfterSet(Set(j, q, w), p, v);
    if Agree(j, p, q) {
      AgreeIncomparable(j, p, q);
      AddressableAgree(j, p, v, q);
      AddressableAgree(j, q, w, p);
    } else {
      DisagreementBlocks(j, p, v, q, w);
    }
  }

  lemma AddressableInto(j: Json, p: Path, v: Json, q: Path)
    requires |p| > 1 && |q| > 1 && p[0] == q[0] && KeyFits(j, p[0])
    ensures Addressable(Set(j, p, v), q) <==> Addressable(Set(OrFresh(Prop(j, p[0]), p[1]), p[1..], v), q[1..])
  {
    PropWith(j, p[0], NewEntry(j, p, v), q[0]);
    SetBuilds(OrFresh(Prop(j, p[0]), p[1]), p[1..], v);
  }

  lemma NotInArray(j: Json, p: Path, v: Json, q: Path)
    requires j.Arr? && p != [] && q != [] && !AllDigits(q[0])
    ensures !Addressable(Set(j, p, v), q)
  {
    SetKeepsArray(j, p, v);
  }

  lemma {:induction false} DisagreementBlocks(j: Json, p: Path, v: Json, q: Path, w: Json)
    requires Incomparable(p, q) && Addressable(j, p) && Addressable(j, q) && !Agree(j, p, q)
    ensures !Addressable(Set(j, p, v), q) || !Addressable(Set(j, q, w), p)
    decreases |p|
  {
    var x, y := OrFresh(Prop(j, p[0]), p[1]), OrFresh(Prop(j, p[0]), q[1]);
    AddressableInto(j, p, v, q);
    AddressableInto(j, q, w, p);
    if x == y {
      DisagreementBlocks(x, p[1..], v, q[1..], w);
    } else if x.Arr? {
      NotInArray(x, p[1..], v, q[1..]);
    } else {
      NotInArray(y, q[1..], w, p[1..]);
    }
  }
}
