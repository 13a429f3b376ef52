/** A configuration that is not well formed does go stale: for each of the three ways
    to break well-formedness there is a short run after which the cache answers wrongly. */
module TagsNecessity {
  import opened Templates
  import opened TagRanges
  import opened TagsModel
  import opened ClickHouseTags
  import opened TagsAgreement

  /** One of the two columns of a range. */
  function Col(r: Range, key: bool): Column {
    if key then Keys(r) else Values(r)
  }

  function ColOf(c: Config, list: string, k: nat, key: bool): Column
    requires list in c.tagsmap && k < |c.tagsmap[list]|
  {
    Col(c.tagsmap[list][k], key)
  }

  // ------------------------------- a right answer needs right texts, everywhere

  /** Two lists of tags that can differ in what they show only. */
  ghost predicate SameOriginals(a: seq<Tag>, b: seq<Tag>) {
    |a| == |b| && forall i :: 0 <= i < |a| ==> a[i].origKey == b[i].origKey && a[i].origValue == b[i].origValue
  }

  lemma OriginalsOfRange(r: Range, r': Range, v: Long)
    requires SameRange(r, r')
    ensures SameOriginals(r.tags, FreshTags(r', v))
  {
    assert |r.tags| == |Keys(r).orig| && |r'.tags| == |Keys(r').orig|;
    forall i | 0 <= i < |r.tags|
      ensures r.tags[i].origKey == r'.tags[i].origKey && r.tags[i].origValue == r'.tags[i].origValue
    {
      assert Keys(r).orig[i] == Keys(r').orig[i] && Values(r).orig[i] == Values(r').orig[i];
    }
  }

  lemma {:induction false} ShownOriginals(rs: seq<Range>, rs': seq<Range>, v: Long, n: nat)
    requires SameRanges(rs, rs') && n <= |rs|
    ensures SameOriginals(Shown(rs, v, n), FreshShown(rs', v, n))
  {
    if n > 0 {
      ShownOriginals(rs, rs', v, n - 1);
      OriginalsOfRange(rs[n - 1], rs'[n - 1], v);
    }
  }

  lemma SameRangesReflexive(rs: seq<Range>)
    ensures SameRanges(rs, rs)
  {
  }

  lemma {:induction false} ShownFreshMeansTagsFresh(rs: seq<Range>, v: Long, n: nat, k: nat)
    requires k < n <= |rs| && rs[k].CheckInRange(v)
    requires Shown(rs, v, n) == FreshShown(rs, v, n)
    ensures rs[k].tags == FreshTags(rs[k], v)
  {
    hide FreshTags, SameRanges, SameRange;
    SameRangesReflexive(rs);
    ShownOriginals(rs, rs, v, n - 1);
    var a, b := Shown(rs, v, n - 1), FreshShown(rs, v, n - 1);
    var x := if rs[n - 1].CheckInRange(v) then rs[n - 1].tags else [];
    var y := if rs[n - 1].CheckInRange(v) then FreshTags(rs[n - 1], v) else [];
    SplitEqual(a, x, b, y);
    if k < n - 1 {
      ShownFreshMeansTagsFresh(rs, v, n - 1, k);
    }
  }

  lemma SplitEqual<T>(a: seq<T>, x: seq<T>, b: seq<T>, y: seq<T>)
    requires a + x == b + y && |a| == |b|
    ensures a == b && x == y
  {
    assert a == (a + x)[..|a|] && b == (b + y)[..|b|];
    assert x == (a + x)[|a|..] && y == (b + y)[|b|..];
  }

  lemma ContributionOriginals(c: Config, id: ObjectId, i: nat, c': Config)
    requires Wired(c) && Wired(c') && SameShape(c, c') && c.smap == c'.smap
    requires id in c.tags && i < |c.tags[id]|
    ensures WiredInfo(c, c.tags[id][i]) && WiredInfo(c', c'.tags[id][i])
    ensures SameOriginals(Contribution(c, id, i), FreshContribution(c', c'.tags[id][i]))
  {
    var t := c.tags[id][i];
    assert SameInfo(t, c'.tags[id][i]);
    assert WiredInfo(c, t) && WiredInfo(c', c'.tags[id][i]);
    if t.anyTags == [] {
      var v, rs := c.smap[t.sid], c.tagsmap[t.list];
      var rs' := if Outdated(c, t) then RefreshedAll(rs, v) else rs;
      assert SameRanges(rs, c'.tagsmap[t.list]);
      assert SameRanges(rs', c'.tagsmap[t.list]) by {
        forall k | 0 <= k < |rs| ensures SameRange(rs'[k], c'.tagsmap[t.list][k]) {
          assert SameRange(rs[k], c'.tagsmap[t.list][k]);
        }
      }
      ShownOriginals(rs', c'.tagsmap[t.list], v, |rs'|);
    }
  }

  lemma {:induction false} OutputOriginals(c: Config, id: ObjectId, n: nat)
    requires Wired(c) && id in c.tags && n <= |c.tags[id]|
    ensures SameOriginals(Output(c, id, n), FreshOutput(c, id, n))
  {
    if n > 0 {
      OutputOriginals(c, id, n - 1);
      AfterKeepsShape(c, id, n - 1);
      SameShapeSymmetric(c, After(c, id, n - 1));
      ContributionOriginals(After(c, id, n - 1), id, n - 1, c);
    }
  }

  lemma SameShapeSymmetric(a: Config, b: Config)
    requires SameShape(a, b)
    ensures SameShape(b, a)
  {
    forall list | list in a.tagsmap ensures SameRanges(b.tagsmap[list], a.tagsmap[list]) {
      assert SameRanges(a.tagsmap[list], b.tagsmap[list]);
    }
    forall id | id in a.tags ensures SameInfos(b.tags[id], a.tags[id]) {
      assert SameInfos(a.tags[id], b.tags[id]);
    }
  }

  lemma {:induction false} AgreementOfParts(c: Config, id: ObjectId, n: nat, i: nat)
    requires Wired(c) && id in c.tags && i < n <= |c.tags[id]|
    requires Output(c, id, n) == FreshOutput(c, id, n)
    ensures WiredInfo(After(c, id, i), After(c, id, i).tags[id][i]) && WiredInfo(c, c.tags[id][i])
    ensures Contribution(After(c, id, i), id, i) == FreshContribution(c, c.tags[id][i])
  {
    OutputOriginals(c, id, n - 1);
    var c0 := After(c, id, n - 1);
    assert WiredInfo(c0, c0.tags[id][n - 1]) && WiredInfo(c, c.tags[id][n - 1]);
    SplitEqual(Output(c, id, n - 1), Contribution(c0, id, n - 1),
               FreshOutput(c, id, n - 1), FreshContribution(c, c.tags[id][n - 1]));
    if i < n - 1 {
      AgreementOfParts(c, id, n - 1, i);
    }
  }

  /** If a request is answered as a recomputation would, then every user finds the ranges
      around its value right at the moment it is served. */
  lemma AgreementMeansCoherent(c: Config, id: ObjectId, i: nat, list: string, k: nat)
    requires Wired(c) && GetTags(c, id) == Recomputed(c, id)
    requires IsUser(c, id, i, list) && k < |c.tagsmap[list]|
    requires c.tagsmap[list][k].CheckInRange(c.smap[c.tags[id][i].sid])
    ensures var c0 := After(c, id, i);
            && i < |c0.tags[id]| && WiredInfo(c0, c0.tags[id][i])
            && list in Served(c0, id, i).tagsmap && k < |Served(c0, id, i).tagsmap[list]|
            && CoherentRange(Served(c0, id, i).tagsmap[list][k], c.smap[c.tags[id][i].sid])
  {
    var c0, v := After(c, id, i), c.smap[c.tags[id][i].sid];
    AfterKeepsShape(c, id, i);
    assert SameInfo(c.tags[id][i], c0.tags[id][i]);
    AgreementOfParts(c, id, |c.tags[id]|, i);
    ServedKeepsWired(c0, id, i);
    ServedKeepsShape(c0, id, i);
    var c1 := Served(c0, id, i);
    SameShapeTransitive(c, c0, c1);
    var rs := c1.tagsmap[list];
    assert SameRanges(c.tagsmap[list], rs);
    FreshShownOfSame(c.tagsmap[list], rs, v, |rs|);
    assert Shown(rs, v, |rs|) == FreshShown(rs, v, |rs|);
    assert SameRange(c.tagsmap[list][k], rs[k]);
    ShownFreshMeansTagsFresh(rs, v, |rs|, k);
    FreshTagsAreCoherent(rs[k], v);
  }

  lemma FreshTagsAreCoherent(r: Range, v: Long)
    requires r.tags == FreshTags(r, v)
    ensures CoherentRange(r, v)
  {
    forall i | 0 <= i < |r.tags|
      ensures Keys(r).text[i] == Render(Keys(r).orig[i], v, r.vmin, r.vmax)
      ensures Values(r).text[i] == Render(Values(r).orig[i], v, r.vmin, r.vmax)
    {
      assert r.tags[i] == FreshTags(r, v)[i];
    }
  }

  // ----------------------------------------------- what serving leaves untouched

  lemma {:induction false} InfoUntouched(c: Config, id: ObjectId, n: nat, x: ObjectId, j: nat)
    requires Wired(c) && id in c.tags && n <= |c.tags[id]|
    requires x in c.tags && j < |c.tags[x]| && (x != id || j >= n)
    ensures x in After(c, id, n).tags && j < |After(c, id, n).tags[x]|
    ensures After(c, id, n).tags[x][j] == c.tags[x][j]
  {
    if n > 0 {
      InfoUntouched(c, id, n - 1, x, j);
    }
  }

  lemma {:induction false} ListUntouched(c: Config, id: ObjectId, n0: nat, n: nat, list: string)
    requires Wired(c) && id in c.tags && n0 <= n <= |c.tags[id]| && list in After(c, id, n0).tagsmap
    requires forall j :: n0 <= j < n ==> !IsUser(c, id, j, list)
    ensures list in After(c, id, n).tagsmap
    ensures After(c, id, n).tagsmap[list] == After(c, id, n0).tagsmap[list]
    decreases n
  {
    if n0 < n {
      ListUntouched(c, id, n0, n - 1, list);
      var c0 := After(c, id, n - 1);
      InfoUntouched(c, id, n - 1, id, n - 1);
      assert !IsUser(c, id, n - 1, list);
    }
  }

  /** Whoever has been served is up to date. */
  lemma {:induction false} ServedIsUpToDate(c: Config, id: ObjectId, n: nat, j: nat)
    requires Wired(c) && id in c.tags && j < n <= |c.tags[id]| && c.tags[id][j].anyTags == []
    ensures j < |After(c, id, n).tags[id]|
    ensures WiredInfo(After(c, id, n), After(c, id, n).tags[id][j])
    ensures !Outdated(After(c, id, n), After(c, id, n).tags[id][j])
  {
    var c0, c1 := After(c, id, n - 1), After(c, id, n);
    assert WiredInfo(c1, c1.tags[id][j]) && WiredInfo(c0, c0.tags[id][n - 1]);
    if j < n - 1 {
      ServedIsUpToDate(c, id, n - 1, j);
    } else {
      InfoUntouched(c, id, n - 1, id, j);
    }
  }

  lemma ServedColumn(c: Config, id: ObjectId, i: nat, list: string, k: nat, key: bool)
    requires Wired(c) && id in c.tags && i < |c.tags[id]| && list in c.tagsmap && k < |c.tagsmap[list]|
    ensures WiredInfo(c, c.tags[id][i])
    ensures list in Served(c, id, i).tagsmap && k < |Served(c, id, i).tagsmap[list]|
    ensures var t, r := c.tags[id][i], c.tagsmap[list][k];
            ColOf(Served(c, id, i), list, k, key) ==
            if t.anyTags == [] && t.list == list && Outdated(c, t) then Refresh(Col(r, key), c.smap[t.sid], r.vmin, r.vmax)
            else Col(r, key)
  {
    assert WiredInfo(c, c.tags[id][i]);
  }

  /** A column that is no longer live keeps its texts for good. */
  lemma {:induction false} DeadStays(c: Config, id: ObjectId, n0: nat, n: nat, list: string, k: nat, key: bool)
    requires Wired(c) && id in c.tags && n0 <= n <= |c.tags[id]| && list in c.tagsmap && k < |c.tagsmap[list]|
    requires var a := After(c, id, n0); list in a.tagsmap && k < |a.tagsmap[list]| && !ColOf(a, list, k, key).live
    ensures var a, b := After(c, id, n0), After(c, id, n);
            list in b.tagsmap && k < |b.tagsmap[list]| && ColOf(b, list, k, key) == ColOf(a, list, k, key)
    decreases n
  {
    if n0 < n {
      DeadStays(c, id, n0, n - 1, list, k, key);
      ServedColumn(After(c, id, n - 1), id, n - 1, list, k, key);
    }
  }

  // ------------------------------------------------------- first and last users

  lemma {:induction false} FirstUser(c: Config, id: ObjectId, i: nat, list: string) returns (a: nat)
    requires IsUser(c, id, i, list)
    ensures a <= i && IsUser(c, id, a, list) && forall j :: 0 <= j < a ==> !IsUser(c, id, j, list)
  {
    if j :| 0 <= j < i && IsUser(c, id, j, list) {
      a := FirstUser(c, id, j, list);
    } else {
      a := i;
    }
  }

  lemma {:induction false} LastUser(c: Config, id: ObjectId, i: nat, list: string) returns (z: nat)
    requires IsUser(c, id, i, list)
    ensures i <= z && IsUser(c, id, z, list) && forall j :: z < j ==> !IsUser(c, id, j, list)
    decreases |c.tags[id]| - i
  {
    if j :| i < j && IsUser(c, id, j, list) {
      z := LastUser(c, id, j, list);
    } else {
      z := i;
    }
  }

  // ------------------------------------------------------- unsteady ranges fail

  lemma RunLast(c: Config, ops: seq<Op>, op: Op)
    requires Wired(c)
    ensures Run(c, ops + [op]) == Apply(Run(c, ops), op)
  {
    assert (ops + [op])[..|ops|] == ops;
  }

  lemma ReachedRun(c: Config, ops: seq<Op>)
    requires Loaded(c)
    ensures AllReached(Run(c, ops))
  {
    if ops == [] {
      LoadedIsReached(c);
    } else {
      ReachedRun(c, ops[..|ops| - 1]);
      var c0 := Run(c, ops[..|ops| - 1]);
      match ops[|ops| - 1]
      case Update(_, _) =>
      case Get(id) =>
        if id in c0.tags { ReachedAfter(c0, id, |c0.tags[id]|); }
    }
  }

  lemma {:induction false} ReachedAfter(c: Config, id: ObjectId, n: nat)
    requires Wired(c) && AllReached(c) && id in c.tags && n <= |c.tags[id]|
    ensures AllReached(After(c, id, n))
  {
    hide Wired, AllReached;
    if n > 0 {
      ReachedAfter(c, id, n - 1);
      ServedStaysReached(After(c, id, n - 1), id, n - 1);
    }
  }

  /** A wrong text in sight of a user makes the answer wrong. */
  lemma WrongTextShows(c: Config, id: ObjectId, i: nat, list: string, k: nat, key: bool, m: nat)
    requires Wired(c) && IsUser(c, id, i, list) && k < |c.tagsmap[list]|
    requires c.tagsmap[list][k].CheckInRange(c.smap[c.tags[id][i].sid])
    requires var c0 := After(c, id, i);
             && i < |c0.tags[id]| && WiredInfo(c0, c0.tags[id][i])
             && list in Served(c0, id, i).tagsmap && k < |Served(c0, id, i).tagsmap[list]|
             && var r := Served(c0, id, i).tagsmap[list][k];
                m < |Col(r, key).orig| && m < |Col(r, key).text|
                && Col(r, key).text[m] != Render(Col(r, key).orig[m], c.smap[c.tags[id][i].sid], r.vmin, r.vmax)
    ensures GetTags(c, id) != Recomputed(c, id)
  {
    if GetTags(c, id) == Recomputed(c, id) {
      AgreementMeansCoherent(c, id, i, list, k);
    }
  }

  /** A text with a placeholder behind one without is delivered as it was written. */
  lemma HiddenStateShows(c: Config, id: ObjectId, i: nat, list: string, k: nat, key: bool, m: nat)
    requires Wired(c) && AllReached(c) && IsUser(c, id, i, list) && k < |c.tagsmap[list]|
    requires WiredInfo(c, c.tags[id][i]) && c.tagsmap[list][k].CheckInRange(c.smap[c.tags[id][i].sid])
    requires var o := ColOf(c, list, k, key).orig; Stop(o) < m < |o| && HasPlaceholder(o[m])
    ensures GetTags(c, id) != Recomputed(c, id)
  {
    var v, r := c.smap[c.tags[id][i].sid], c.tagsmap[list][k];
    ReachedAfter(c, id, i);
    var c2 := After(c, id, i);
    ServedStaysReached(c2, id, i);
    ServedKeepsWired(c2, id, i);
    var c3 := Served(c2, id, i);
    AfterKeepsShape(c, id, i);
    ServedKeepsShape(c2, id, i);
    SameShapeTransitive(c, c2, c3);
    assert SameRange(c.tagsmap[list][k], c3.tagsmap[list][k]);
    assert ReachedRange(c3.tagsmap[list][k]);
    RenderFixedIffPlain(ColOf(c, list, k, key).orig[m], v, r.vmin, r.vmax);
    WrongTextShows(c, id, i, list, k, key, m);
  }

  /** Such a text is never replaced at all. */
  lemma HiddenTextFails(c: Config, id: ObjectId, i: nat, list: string, k: nat, key: bool, m: nat)
    requires Loaded(c) && IsUser(c, id, i, list) && k < |c.tagsmap[list]|
    requires var o := ColOf(c, list, k, key).orig; Stop(o) < m < |o| && HasPlaceholder(o[m])
    ensures !Transparent(c)
  {
    var sid, r := c.tags[id][i].sid, c.tagsmap[list][k];
    assert WiredInfo(c, c.tags[id][i]) && Unused(r);
    var ops := [Update(sid, r.vmin)];
    RunLast(c, [], Update(sid, r.vmin));
    ReachedRun(c, ops);
    var c1 := Run(c, ops);
    assert WiredInfo(c1, c1.tags[id][i]);
    HiddenStateShows(c1, id, i, list, k, key, m);
    assert GetTags(Run(c, ops), id) != Recomputed(Run(c, ops), id);
  }

  // -------------------------------------------------- tools for the stale runs

  lemma {:induction false} RunSplit(c: Config, xs: seq<Op>, ys: seq<Op>)
    requires Wired(c)
    ensures Run(c, xs + ys) == Run(Run(c, xs), ys)
    decreases |ys|
  {
    hide Wired, Apply;
    if ys == [] {
      assert xs + ys == xs;
    } else {
      var zs, op := ys[..|ys| - 1], ys[|ys| - 1];
      RunSplit(c, xs, zs);
      assert xs + ys == (xs + zs) + [op] && ys == zs + [op];
      RunLast(c, xs + zs, op);
      RunLast(Run(c, xs), zs, op);
    }
  }

  lemma RunOne(c: Config, op: Op)
    requires Wired(c)
    ensures Run(c, [op]) == Apply(c, op)
  {
    assert [op][..0] == [];
  }

  /** Setting a sensor and asking for tags, as two calls of one run. */
  lemma RunSetGet(c: Config, sid: ObjectId, v: Long, id: ObjectId)
    requires Wired(c)
    ensures Wired(UpdateState(c, sid, v))
    ensures Run(c, [Update(sid, v), Get(id)]) == GetState(UpdateState(c, sid, v), id)
  {
    RunOne(c, Update(sid, v));
    RunOne(UpdateState(c, sid, v), Get(id));
    assert [Update(sid, v)] + [Get(id)] == [Update(sid, v), Get(id)];
    RunSplit(c, [Update(sid, v)], [Get(id)]);
  }

  lemma SameUser(c: Config, c': Config, id: ObjectId, i: int, list: string)
    requires SameShape(c, c')
    ensures IsUser(c, id, i, list) <==> IsUser(c', id, i, list)
    ensures IsUser(c, id, i, list) ==> c.tags[id][i].sid == c'.tags[id][i].sid
  {
    if id in c.tags && 0 <= i < |c.tags[id]| {
      assert SameInfo(c.tags[id][i], c'.tags[id][i]);
    }
  }

  /** A column that is replaced for ever because all its texts have a placeholder. */
  predicate Evergreen(c: Column) {
    c.live && |c.text| == |c.orig| && Stop(c.orig) == |c.orig|
  }

  lemma {:induction false} EvergreenStays(c: Config, id: ObjectId, n: nat, list: string, k: nat, key: bool)
    requires Wired(c) && id in c.tags && n <= |c.tags[id]|
    requires list in c.tagsmap && k < |c.tagsmap[list]| && Evergreen(ColOf(c, list, k, key))
    ensures var a := After(c, id, n);
            list in a.tagsmap && k < |a.tagsmap[list]| && Evergreen(ColOf(a, list, k, key))
            && SameRange(c.tagsmap[list][k], a.tagsmap[list][k])
  {
    if n > 0 {
      EvergreenStays(c, id, n - 1, list, k, key);
      ServedColumn(After(c, id, n - 1), id, n - 1, list, k, key);
    }
  }

  /** The last user of a list that is served leaves its own value in the texts. */
  lemma LastUserWrites(c: Config, id: ObjectId, z: nat, list: string, k: nat, key: bool)
    requires Wired(c) && IsUser(c, id, z, list) && !c.tags[id][z].initOk
    requires forall j :: z < j ==> !IsUser(c, id, j, list)
    requires k < |c.tagsmap[list]| && Evergreen(ColOf(c, list, k, key))
    ensures var c', r := GetState(c, id), c.tagsmap[list][k];
            list in c'.tagsmap && k < |c'.tagsmap[list]| && SameRange(r, c'.tagsmap[list][k])
            && Coherent(ColOf(c', list, k, key), c.smap[c.tags[id][z].sid], r.vmin, r.vmax)
  {
    EvergreenStays(c, id, z, list, k, key);
    InfoUntouched(c, id, z, id, z);
    ServedColumn(After(c, id, z), id, z, list, k, key);
    ListUntouched(c, id, z + 1, |c.tags[id]|, list);
  }

  /** A stale text that the first user of the list does not refresh is delivered. */
  lemma StaleShows(c: Config, id: ObjectId, a: nat, list: string, k: nat, key: bool, m: nat)
    requires Wired(c) && IsUser(c, id, a, list) && k < |c.tagsmap[list]|
    requires forall j :: 0 <= j < a ==> !IsUser(c, id, j, list)
    requires WiredInfo(c, c.tags[id][a])
    requires !ColOf(c, list, k, key).live || !Outdated(c, c.tags[id][a])
    requires c.tagsmap[list][k].CheckInRange(c.smap[c.tags[id][a].sid])
    requires var col, r := ColOf(c, list, k, key), c.tagsmap[list][k];
             m < |col.orig| == |col.text| &&
             col.text[m] != Render(col.orig[m], c.smap[c.tags[id][a].sid], r.vmin, r.vmax)
    ensures GetTags(c, id) != Recomputed(c, id)
  {
    ListUntouched(c, id, 0, a, list);
    InfoUntouched(c, id, a, id, a);
    ServedColumn(After(c, id, a), id, a, list, k, key);
    WrongTextShows(c, id, a, list, k, key, m);
  }

  /** The first user of a list finds it as it was and writes its own value. */
  lemma FirstUserWrites(c: Config, id: ObjectId, i: nat, list: string, k: nat, key: bool)
    requires Wired(c) && IsUser(c, id, i, list) && !c.tags[id][i].initOk
    requires forall j :: 0 <= j < i ==> !IsUser(c, id, j, list)
    requires k < |c.tagsmap[list]| && |ColOf(c, list, k, key).text| == |ColOf(c, list, k, key).orig|
    ensures var c', r := After(c, id, i + 1), c.tagsmap[list][k];
            list in c'.tagsmap && k < |c'.tagsmap[list]|
            && ColOf(c', list, k, key) == Refresh(Col(r, key), c.smap[c.tags[id][i].sid], r.vmin, r.vmax)
  {
    ListUntouched(c, id, 0, i, list);
    InfoUntouched(c, id, i, id, i);
    ServedColumn(After(c, id, i), id, i, list, k, key);
  }

  /** A column with a placeholder-free text is dead after its first refresh, and stays so. */
  lemma FirstRefreshFreezes(c: Config, id: ObjectId, i: nat, list: string, k: nat, key: bool)
    requires Wired(c) && IsUser(c, id, i, list) && !c.tags[id][i].initOk
    requires forall j :: 0 <= j < i ==> !IsUser(c, id, j, list)
    requires k < |c.tagsmap[list]|
    requires var col := ColOf(c, list, k, key); col.live && |col.text| == |col.orig| && Stop(col.orig) < |col.orig|
    ensures var c', r := GetState(c, id), c.tagsmap[list][k];
            list in c'.tagsmap && k < |c'.tagsmap[list]|
            && ColOf(c', list, k, key) == Refresh(Col(r, key), c.smap[c.tags[id][i].sid], r.vmin, r.vmax)
  {
    FirstUserWrites(c, id, i, list, k, key);
    hide Wired, After;
    DeadStays(c, id, i + 1, |c.tags[id]|, list, k, key);
  }

  /** `%v` in front of a text without a placeholder: the first refresh is the last one. */
  lemma FrozenTextFails(c: Config, id: ObjectId, i: nat, list: string, k: nat, key: bool, m: nat)
    requires Loaded(c) && IsUser(c, id, i, list) && k < |c.tagsmap[list]|
    requires forall j :: 0 <= j < i ==> !IsUser(c, id, j, list)
    requires var o := ColOf(c, list, k, key).orig; m < Stop(o) < |o| && Contains(o[m], VALUE)
    ensures !Transparent(c)
  {
    var sid, r := c.tags[id][i].sid, c.tagsmap[list][k];
    assert WiredInfo(c, c.tags[id][i]) && Unused(r);
    var w := Contrast(r.vmin);
    RunSetGet(c, sid, w, id);
    var c1 := UpdateState(c, sid, w);
    assert forall j :: IsUser(c1, id, j, list) == IsUser(c, id, j, list);
    FrozenStateShows(c1, id, i, list, k, key, m, w);
    hide Loaded, Wired, GetState, UpdateState;
    RunOne(GetState(c1, id), Update(sid, r.vmin));
    RunSplit(c, [Update(sid, w), Get(id)], [Update(sid, r.vmin)]);
    var ops := [Update(sid, w), Get(id)] + [Update(sid, r.vmin)];
    assert GetTags(Run(c, ops), id) != Recomputed(Run(c, ops), id);
  }

  lemma FrozenStateShows(c: Config, id: ObjectId, i: nat, list: string, k: nat, key: bool, m: nat, w: Long)
    requires Wired(c) && IsUser(c, id, i, list) && !c.tags[id][i].initOk
    requires forall j :: 0 <= j < i ==> !IsUser(c, id, j, list)
    requires WiredInfo(c, c.tags[id][i]) && c.smap[c.tags[id][i].sid] == w
    requires k < |c.tagsmap[list]| && Unused(c.tagsmap[list][k]) && w == Contrast(c.tagsmap[list][k].vmin)
    requires var o := ColOf(c, list, k, key).orig; m < Stop(o) < |o| && Contains(o[m], VALUE)
    ensures var c' := UpdateState(GetState(c, id), c.tags[id][i].sid, c.tagsmap[list][k].vmin);
            Wired(c') && GetTags(c', id) != Recomputed(c', id)
  {
    var sid, r := c.tags[id][i].sid, c.tagsmap[list][k];
    FirstRefreshFreezes(c, id, i, list, k, key);
    GetKeepsShape(c, id);
    var c2 := GetState(c, id);
    RunOne(c2, Update(sid, r.vmin));
    var c3 := UpdateState(c2, sid, r.vmin);
    UserKept(c, c2, c3, id, i, list, k);
    ContrastShows(ColOf(c, list, k, key).orig[m], r.vmin, r.vmin, r.vmax);
    StaleShows(c3, id, i, list, k, key, m);
  }

  /** What a request and a later update leave as it was, for one user and one range. */
  lemma UserKept(c: Config, c1: Config, c2: Config, id: ObjectId, i: nat, list: string, k: nat)
    requires Wired(c) && SameShape(c, c1) && c2.tags == c1.tags && c2.tagsmap == c1.tagsmap
    requires Wired(c2) && IsUser(c, id, i, list) && k < |c.tagsmap[list]|
    requires forall j :: 0 <= j < i ==> !IsUser(c, id, j, list)
    ensures IsUser(c2, id, i, list) && WiredInfo(c2, c2.tags[id][i])
    ensures forall j :: 0 <= j < i ==> !IsUser(c2, id, j, list)
    ensures c2.tags[id][i].sid == c.tags[id][i].sid
    ensures k < |c2.tagsmap[list]| && SameRange(c.tagsmap[list][k], c2.tagsmap[list][k])
  {
    SameUser(c, c1, id, i, list);
    forall j | 0 <= j < i ensures !IsUser(c2, id, j, list) {
      SameUser(c, c1, id, j, list);
    }
    assert WiredInfo(c, c.tags[id][i]) && SameRanges(c.tagsmap[list], c1.tagsmap[list]);
    assert SameRange(c.tagsmap[list][k], c1.tagsmap[list][k]);
  }

  // ----------------------------------------------------- shared `%v` lists fail

  lemma SteadyValueIsEvergreen(r: Range, key: bool, m: nat)
    requires Unused(r) && SteadyRange(r)
    requires m < |Col(r, key).orig| && Contains(Col(r, key).orig[m], VALUE)
    ensures Evergreen(Col(r, key))
  {
    if Stop(Col(r, key).orig) < |Col(r, key).orig| {
      SteadyFacts(Col(r, key).orig);
    }
  }

  /** Two users under one sensor: the second leaves its value in the text, and a second
      request refreshes nobody. */
  lemma SharedUnderOneSensorFails(c: Config, id: ObjectId, a: nat, z: nat, list: string, k: nat, key: bool, m: nat)
    requires Loaded(c) && IsUser(c, id, a, list) && IsUser(c, id, z, list) && a < z
    requires forall j :: 0 <= j < a ==> !IsUser(c, id, j, list)
    requires forall j :: z < j ==> !IsUser(c, id, j, list)
    requires k < |c.tagsmap[list]| && SteadyRange(c.tagsmap[list][k])
    requires var o := ColOf(c, list, k, key).orig; m < |o| && Contains(o[m], VALUE)
    ensures !Transparent(c)
  {
    var sa, sz, r := c.tags[id][a].sid, c.tags[id][z].sid, c.tagsmap[list][k];
    var w := Contrast(r.vmin);
    assert WiredInfo(c, c.tags[id][a]) && WiredInfo(c, c.tags[id][z]) && Unused(r);
    assert sa != sz by { assert DistinctSensors(c.tags[id]); }
    SteadyValueIsEvergreen(r, key, m);
    var c1 := UpdateState(c, sa, r.vmin);
    RunOne(c, Update(sa, r.vmin));
    RunSetGet(c1, sz, w, id);
    var c2 := UpdateState(c1, sz, w);
    assert forall j :: IsUser(c2, id, j, list) == IsUser(c, id, j, list);
    SharedStateShows(c2, id, a, z, list, k, key, m);
    hide Loaded, Wired, GetState, UpdateState;
    RunSplit(c, [Update(sa, r.vmin)], [Update(sz, w), Get(id)]);
    var ops := [Update(sa, r.vmin)] + [Update(sz, w), Get(id)];
    assert GetTags(Run(c, ops), id) != Recomputed(Run(c, ops), id);
  }

  lemma SharedStateShows(c: Config, id: ObjectId, a: nat, z: nat, list: string, k: nat, key: bool, m: nat)
    requires Wired(c) && IsUser(c, id, a, list) && IsUser(c, id, z, list) && a < z
    requires forall j :: 0 <= j < a ==> !IsUser(c, id, j, list)
    requires forall j :: z < j ==> !IsUser(c, id, j, list)
    requires !c.tags[id][z].initOk && k < |c.tagsmap[list]| && Evergreen(ColOf(c, list, k, key))
    requires WiredInfo(c, c.tags[id][a]) && WiredInfo(c, c.tags[id][z])
    requires var r := c.tagsmap[list][k];
             r.vmin <= r.vmax && c.smap[c.tags[id][a].sid] == r.vmin
             && c.smap[c.tags[id][z].sid] == Contrast(r.vmin)
    requires var o := ColOf(c, list, k, key).orig; m < |o| && Contains(o[m], VALUE)
    ensures GetTags(GetState(c, id), id) != Recomputed(GetState(c, id), id)
  {
    var r, c' := c.tagsmap[list][k], GetState(c, id);
    LastUserWrites(c, id, z, list, k, key);
    ServedIsUpToDate(c, id, |c.tags[id]|, a);
    GetKeepsShape(c, id);
    UserKept(c, c', c', id, a, list, k);
    ContrastShows(ColOf(c, list, k, key).orig[m], r.vmin, r.vmin, r.vmax);
    StaleShows(c', id, a, list, k, key, m);
  }

  /** The state of a user that was served and whose list was then rewritten by a user
      of another sensor. */
  lemma RewrittenElsewhere(c: Config, id: ObjectId, a: nat, id': ObjectId, z: nat,
                           list: string, k: nat, key: bool, w: Long)
    requires Wired(c) && id != id' && IsUser(c, id, a, list) && IsUser(c, id', z, list)
    requires forall j :: 0 <= j < a ==> !IsUser(c, id, j, list)
    requires forall j :: z < j ==> !IsUser(c, id', j, list)
    requires !c.tags[id'][z].initOk
    requires k < |c.tagsmap[list]| && Evergreen(ColOf(c, list, k, key))
    ensures Wired(UpdateState(GetState(c, id), c.tags[id'][z].sid, w))
    ensures var c1 := GetState(c, id);
            var c2 := UpdateState(c1, c.tags[id'][z].sid, w);
            var c3, r := GetState(c2, id'), c.tagsmap[list][k];
            && SameShape(c, c3)
            && list in c3.tagsmap && k < |c3.tagsmap[list]| && SameRange(r, c3.tagsmap[list][k])
            && Coherent(ColOf(c3, list, k, key), w, r.vmin, r.vmax)
            && id in c3.tags && a < |c3.tags[id]| && c3.tags[id][a].initOk
            && WiredInfo(c, c.tags[id][a]) && c3.tags[id][a].prevValue == c.smap[c.tags[id][a].sid]
  {
    var sid := c.tags[id'][z].sid;
    var c1 := GetState(c, id);
    assert WiredInfo(c, c.tags[id][a]) && WiredInfo(c, c.tags[id'][z]);
    ServedIsUpToDate(c, id, |c.tags[id]|, a);
    InfoUntouched(c, id, |c.tags[id]|, id', z);
    EvergreenStays(c, id, |c.tags[id]|, list, k, key);
    GetKeepsShape(c, id);
    SameUser(c, c1, id, a, list);
    var c2 := UpdateState(c1, sid, w);
    RunOne(c1, Update(sid, w));
    forall j ensures IsUser(c2, id', j, list) == IsUser(c, id', j, list) { SameUser(c, c1, id', j, list); }
    LastUserWrites(c2, id', z, list, k, key);
    InfoUntouched(c2, id', |c2.tags[id']|, id, a);
    GetKeepsShape(c2, id');
    assert SameShape(c1, c2) by { RangesSame(c1); }
    SameShapeTransitive(c, c1, c2);
    SameShapeTransitive(c, c2, GetState(c2, id'));
  }

  lemma RangesSame(c: Config)
    ensures SameShape(c, c)
  {
  }

  function TwoSensorRun(sa: ObjectId, v: Long, id: ObjectId, sz: ObjectId, w: Long, id': ObjectId): seq<Op> {
    [Update(sa, v), Get(id)] + [Update(sz, w), Get(id')] + [Update(sa, v)]
  }

  lemma TwoSensorRunState(c: Config, sa: ObjectId, v: Long, id: ObjectId, sz: ObjectId, w: Long, id': ObjectId)
    requires Wired(c)
    ensures Wired(UpdateState(c, sa, v))
    ensures var c2 := GetState(UpdateState(c, sa, v), id);
            Wired(UpdateState(c2, sz, w)) &&
            Run(c, TwoSensorRun(sa, v, id, sz, w, id'))
            == UpdateState(GetState(UpdateState(c2, sz, w), id'), sa, v)
  {
    RunSetGet(c, sa, v, id);
    var c2 := GetState(UpdateState(c, sa, v), id);
    RunSetGet(c2, sz, w, id');
    RunOne(GetState(UpdateState(c2, sz, w), id'), Update(sa, v));
    hide Wired, GetState, UpdateState;
    var first, second := [Update(sa, v), Get(id)], [Update(sz, w), Get(id')];
    RunSplit(c, first, second);
    RunSplit(c, first + second, [Update(sa, v)]);
  }

  /** Users under two sensors: the second rewrites the text, the first sees no change of
      its own value and delivers it. */
  lemma TwoUsersShow(c: Config, id: ObjectId, a: nat, id': ObjectId, z: nat, list: string, k: nat, key: bool, m: nat)
    requires Wired(c) && id != id' && IsUser(c, id, a, list) && IsUser(c, id', z, list)
    requires forall j :: 0 <= j < a ==> !IsUser(c, id, j, list)
    requires forall j :: z < j ==> !IsUser(c, id', j, list)
    requires !c.tags[id'][z].initOk && k < |c.tagsmap[list]| && Evergreen(ColOf(c, list, k, key))
    requires WiredInfo(c, c.tags[id][a])
    requires var r := c.tagsmap[list][k]; r.vmin <= r.vmax && c.smap[c.tags[id][a].sid] == r.vmin
    requires var o := ColOf(c, list, k, key).orig; m < |o| && Contains(o[m], VALUE)
    ensures var r := c.tagsmap[list][k];
            var c2 := UpdateState(GetState(c, id), c.tags[id'][z].sid, Contrast(r.vmin));
            Wired(c2) &&
            var c5 := UpdateState(GetState(c2, id'), c.tags[id][a].sid, r.vmin);
            Wired(c5) && GetTags(c5, id) != Recomputed(c5, id)
  {
    var sa, sz, r := c.tags[id][a].sid, c.tags[id'][z].sid, c.tagsmap[list][k];
    var w := Contrast(r.vmin);
    RewrittenElsewhere(c, id, a, id', z, list, k, key, w);
    var c4 := GetState(UpdateState(GetState(c, id), sz, w), id');
    RunOne(c4, Update(sa, r.vmin));
    var c5 := UpdateState(c4, sa, r.vmin);
    UserKept(c, c4, c5, id, a, list, k);
    ContrastShows(ColOf(c, list, k, key).orig[m], r.vmin, r.vmin, r.vmax);
    StaleShows(c5, id, a, list, k, key, m);
  }

  lemma SharedByTwoSensorsFails(c: Config, id: ObjectId, a: nat, id': ObjectId, z: nat,
                                list: string, k: nat, key: bool, m: nat)
    requires Loaded(c) && id != id' && IsUser(c, id, a, list) && IsUser(c, id', z, list)
    requires forall j :: 0 <= j < a ==> !IsUser(c, id, j, list)
    requires forall j :: z < j ==> !IsUser(c, id', j, list)
    requires k < |c.tagsmap[list]| && SteadyRange(c.tagsmap[list][k])
    requires var o := ColOf(c, list, k, key).orig; m < |o| && Contains(o[m], VALUE)
    ensures !Transparent(c)
  {
    var sa, sz, r := c.tags[id][a].sid, c.tags[id'][z].sid, c.tagsmap[list][k];
    var w := Contrast(r.vmin);
    assert WiredInfo(c, c.tags[id][a]) && Unused(r);
    SteadyValueIsEvergreen(r, key, m);
    TwoSensorRunState(c, sa, r.vmin, id, sz, w, id');
    var c1 := UpdateState(c, sa, r.vmin);
    assert forall x, j :: IsUser(c1, x, j, list) == IsUser(c, x, j, list);
    TwoUsersShow(c1, id, a, id', z, list, k, key, m);
    var ops := TwoSensorRun(sa, r.vmin, id, sz, w, id');
    assert GetTags(Run(c, ops), id) != Recomputed(Run(c, ops), id);
  }

  // --------------------------------------------------------------- the theorem

  lemma UnsteadyFails(c: Config, id: ObjectId, i: nat, list: string, k: nat)
    requires Loaded(c) && IsUser(c, id, i, list) && k < |c.tagsmap[list]|
    requires !SteadyRange(c.tagsmap[list][k])
    ensures !Transparent(c)
  {
    var key := !Steady(Keys(c.tagsmap[list][k]).orig);
    var o := ColOf(c, list, k, key).orig;
    var m := UnsteadyWitness(o);
    if Stop(o) < m {
      HiddenTextFails(c, id, i, list, k, key, m);
    } else {
      var a := FirstUser(c, id, i, list);
      FrozenTextFails(c, id, a, list, k, key, m);
    }
  }

  /** The values of a documented configuration, which a list in use cannot carry unharmed:
      the third text switches the replacing off for the first one. */
  lemma DocumentedExampleGoesStale(c: Config, id: ObjectId, i: nat, list: string, k: nat)
    requires Loaded(c) && IsUser(c, id, i, list) && k < |c.tagsmap[list]|
    requires Values(c.tagsmap[list][k]).orig == ["%v", "%min", "text"]
    ensures !Transparent(c)
  {
    var o := Values(c.tagsmap[list][k]).orig;
    assert o[0] == VALUE && StartsWith(VALUE, VALUE) && Contains(o[0], VALUE);
    forall p | p in {VALUE, MIN, MAX} { NotContained(o[2], p); }
    assert !HasPlaceholder(o[2]);
    UnsteadyFails(c, id, i, list, k);
  }

  lemma SharedFails(c: Config, id: ObjectId, i: nat, id': ObjectId, i': nat, list: string, k: nat)
    requires Loaded(c) && IsUser(c, id, i, list) && IsUser(c, id', i', list) && (id != id' || i < i')
    requires k < |c.tagsmap[list]| && SteadyRange(c.tagsmap[list][k]) && MentionsValue(c.tagsmap[list][k])
    ensures !Transparent(c)
  {
    var key := Mentions(Keys(c.tagsmap[list][k]).orig, VALUE);
    var o := ColOf(c, list, k, key).orig;
    var m :| 0 <= m < |o| && Contains(o[m], VALUE);
    var a := FirstUser(c, id, i, list);
    var z := LastUser(c, id', i', list);
    if id == id' {
      SharedUnderOneSensorFails(c, id, a, z, list, k, key, m);
    } else {
      SharedByTwoSensorsFails(c, id, a, id', z, list, k, key, m);
    }
  }

  lemma TransparentIsWellFormed(c: Config)
    requires Loaded(c) && Transparent(c)
    ensures WellFormed(c)
  {
    hide Transparent;
    forall list, id, i, k | IsUser(c, id, i, list) && 0 <= k < |c.tagsmap[list]|
      ensures SteadyRange(c.tagsmap[list][k])
    {
      if !SteadyRange(c.tagsmap[list][k]) { UnsteadyFails(c, id, i, list, k); }
    }
    forall list, id, i, id', i', k | IsUser(c, id, i, list) && IsUser(c, id', i', list)
      && (id != id' || i != i') && 0 <= k < |c.tagsmap[list]|
      ensures !MentionsValue(c.tagsmap[list][k])
    {
      if MentionsValue(c.tagsmap[list][k]) {
        if id == id' && i' < i {
          SharedFails(c, id', i', id, i, list, k);
        } else {
          SharedFails(c, id, i, id', i', list, k);
        }
      }
    }
  }

  /** Exactly the well-formed configurations are never caught with a stale tag. */
  lemma TransparentIffWellFormed(c: Config)
    requires Loaded(c)
    ensures Transparent(c) <==> WellFormed(c)
  {
    if WellFormed(c) {
      WellFormedIsTransparent(c);
    }
    if Transparent(c) {
      TransparentIsWellFormed(c);
    }
  }
}
