/** On a well-formed configuration the cached tags are always the recomputed ones. */
module TagsAgreement {
  import opened Templates
  import opened TagRanges
  import opened TagsModel
  import opened ClickHouseTags

  // ---------------------------------------------------------- well-formedness

  ghost predicate SteadyRange(r: Range) {
    Steady(Keys(r).orig) && Steady(Values(r).orig)
  }

  ghost predicate Mentions(orig: seq<string>, p: string) {
    exists m :: 0 <= m < |orig| && Contains(orig[m], p)
  }

  ghost predicate MentionsValue(r: Range) {
    Mentions(Keys(r).orig, VALUE) || Mentions(Values(r).orig, VALUE)
  }

  /** The lists in use are steady, and a list that mentions `%v` has one user only.
      Only the configuration text is looked at, so this can be checked at load time. */
  ghost predicate WellFormed(c: Config)
    requires Wired(c)
  {
    && (forall list, id, i, k :: IsUser(c, id, i, list) && 0 <= k < |c.tagsmap[list]| ==>
          SteadyRange(c.tagsmap[list][k]))
    && (forall list, id, i, id', i' ::
          IsUser(c, id, i, list) && IsUser(c, id', i', list) && (id != id' || i != i') ==>
          forall k :: 0 <= k < |c.tagsmap[list]| ==> !MentionsValue(c.tagsmap[list][k]))
  }

  lemma WellFormedDependsOnShape(c: Config, c': Config)
    requires Wired(c) && Wired(c') && SameShape(c, c') && WellFormed(c)
    ensures WellFormed(c')
  {
    forall list, id, i | IsUser(c', id, i, list) ensures IsUser(c, id, i, list) {
      assert SameInfo(c.tags[id][i], c'.tags[id][i]);
    }
    forall list, id, i, k | IsUser(c', id, i, list) && 0 <= k < |c'.tagsmap[list]|
      ensures SteadyRange(c'.tagsmap[list][k])
    {
      assert IsUser(c, id, i, list) && SameRange(c.tagsmap[list][k], c'.tagsmap[list][k]);
      assert SteadyRange(c.tagsmap[list][k]);
    }
    forall list, id, i, id', i', k | IsUser(c', id, i, list) && IsUser(c', id', i', list)
      && (id != id' || i != i') && 0 <= k < |c'.tagsmap[list]|
      ensures !MentionsValue(c'.tagsmap[list][k])
    {
      assert IsUser(c, id, i, list) && IsUser(c, id', i', list) && SameRange(c.tagsmap[list][k], c'.tagsmap[list][k]);
      assert !MentionsValue(c.tagsmap[list][k]);
    }
  }

  // ---------------------------------------------------- the invariant of a run

  ghost predicate ReachedRange(r: Range) {
    Reached(Keys(r), r.vmin, r.vmax) && Reached(Values(r), r.vmin, r.vmax)
  }

  ghost predicate CoherentRange(r: Range, v: Long) {
    Coherent(Keys(r), v, r.vmin, r.vmax) && Coherent(Values(r), v, r.vmin, r.vmax)
  }

  ghost predicate CoherentList(rs: seq<Range>, v: Long) {
    forall k :: 0 <= k < |rs| ==> CoherentRange(rs[k], v)
  }

  ghost predicate ReachedList(rs: seq<Range>) {
    forall k :: 0 <= k < |rs| ==> ReachedRange(rs[k])
  }

  ghost predicate AllReached(c: Config) {
    forall list :: list in c.tagsmap ==> ReachedList(c.tagsmap[list])
  }

  /** Whoever has been refreshed finds its list right for the value it remembers. */
  ghost predicate Synced(c: Config)
    requires Wired(c)
  {
    && AllReached(c)
    && forall list, id, i :: IsUser(c, id, i, list) && c.tags[id][i].initOk ==>
         CoherentList(c.tagsmap[list], c.tags[id][i].prevValue)
  }

  lemma LoadedIsReached(c: Config)
    requires Loaded(c)
    ensures AllReached(c)
  {
    forall list, k | list in c.tagsmap && 0 <= k < |c.tagsmap[list]| ensures ReachedRange(c.tagsmap[list][k]) {
      assert Unused(c.tagsmap[list][k]);
    }
  }

  lemma LoadedIsSynced(c: Config)
    requires Loaded(c)
    ensures Synced(c)
  {
    LoadedIsReached(c);
  }

  lemma RefreshedStaysReached(rs: seq<Range>, v: Long)
    requires ReachedList(rs)
    ensures ReachedList(RefreshedAll(rs, v))
  {
    forall k | 0 <= k < |rs| ensures ReachedRange(RefreshedAll(rs, v)[k]) {
      RefreshStaysReached(Keys(rs[k]), v, rs[k].vmin, rs[k].vmax);
      RefreshStaysReached(Values(rs[k]), v, rs[k].vmin, rs[k].vmax);
    }
  }

  lemma ServedStaysReached(c: Config, id: ObjectId, i: nat)
    requires Wired(c) && id in c.tags && i < |c.tags[id]| && AllReached(c)
    ensures AllReached(Served(c, id, i))
  {
    var t := c.tags[id][i];
    assert WiredInfo(c, t);
    if t.anyTags == [] {
      RefreshedStaysReached(c.tagsmap[t.list], c.smap[t.sid]);
    }
  }

  lemma RefreshedIsCoherent(rs: seq<Range>, v: Long)
    requires ReachedList(rs) && forall k :: 0 <= k < |rs| ==> SteadyRange(rs[k])
    ensures CoherentList(RefreshedAll(rs, v), v)
  {
    forall k | 0 <= k < |rs| ensures CoherentRange(RefreshedAll(rs, v)[k], v) {
      RefreshMakesCoherent(Keys(rs[k]), v, rs[k].vmin, rs[k].vmax);
      RefreshMakesCoherent(Values(rs[k]), v, rs[k].vmin, rs[k].vmax);
    }
  }

  lemma CoherentListForAny(rs: seq<Range>, v: Long, w: Long)
    requires CoherentList(rs, v) && forall k :: 0 <= k < |rs| ==> !MentionsValue(rs[k])
    ensures CoherentList(rs, w)
  {
    forall k | 0 <= k < |rs| ensures CoherentRange(rs[k], w) {
      assert CoherentRange(rs[k], v) && !MentionsValue(rs[k]);
      CoherentForAny(Keys(rs[k]), v, w, rs[k].vmin, rs[k].vmax);
      CoherentForAny(Values(rs[k]), v, w, rs[k].vmin, rs[k].vmax);
    }
  }

  /** The list a user is served from is right for the value it is served with. */
  lemma ServedListIsCoherent(c: Config, id: ObjectId, i: nat)
    requires Wired(c) && WellFormed(c) && Synced(c)
    requires id in c.tags && i < |c.tags[id]| && c.tags[id][i].anyTags == []
    ensures WiredInfo(c, c.tags[id][i])
    ensures var t := c.tags[id][i];
            t.list in Served(c, id, i).tagsmap && CoherentList(Served(c, id, i).tagsmap[t.list], c.smap[t.sid])
  {
    var t := c.tags[id][i];
    assert IsUser(c, id, i, t.list);
    if Outdated(c, t) {
      RefreshedIsCoherent(c.tagsmap[t.list], c.smap[t.sid]);
    }
  }

  lemma ServedStaysSynced(c: Config, id: ObjectId, i: nat)
    requires Wired(c) && WellFormed(c) && Synced(c) && id in c.tags && i < |c.tags[id]|
    ensures Wired(Served(c, id, i)) && Synced(Served(c, id, i))
  {
    ServedKeepsWired(c, id, i);
    ServedKeepsShape(c, id, i);
    ServedStaysReached(c, id, i);
    var c', t := Served(c, id, i), c.tags[id][i];
    if t.anyTags == [] && Outdated(c, t) {
      ServedListIsCoherent(c, id, i);
      WellFormedDependsOnShape(c, c');
      forall list, x, j | IsUser(c', x, j, list) && c'.tags[x][j].initOk
        ensures CoherentList(c'.tagsmap[list], c'.tags[x][j].prevValue)
      {
        if x != id || j != i {
          assert IsUser(c, x, j, list);
          if list == t.list {
            assert IsUser(c', id, i, list);
            CoherentListForAny(c'.tagsmap[list], c.smap[t.sid], c'.tags[x][j].prevValue);
          }
        }
      }
    }
  }

  // --------------------------------------------------------- what is returned

  lemma CoherentTagsAreFresh(r: Range, v: Long)
    requires CoherentRange(r, v)
    ensures r.tags == FreshTags(r, v)
  {
    forall i | 0 <= i < |r.tags| ensures r.tags[i] == FreshTags(r, v)[i] {
      assert Keys(r).text[i] == Render(Keys(r).orig[i], v, r.vmin, r.vmax);
      assert Values(r).text[i] == Render(Values(r).orig[i], v, r.vmin, r.vmax);
    }
  }

  lemma {:induction false} CoherentShownIsFresh(rs: seq<Range>, v: Long, n: nat)
    requires CoherentList(rs, v) && n <= |rs|
    ensures Shown(rs, v, n) == FreshShown(rs, v, n)
  {
    if n > 0 {
      CoherentShownIsFresh(rs, v, n - 1);
      CoherentTagsAreFresh(rs[n - 1], v);
    }
  }

  lemma ContributionIsFresh(c: Config, id: ObjectId, i: nat)
    requires Wired(c) && WellFormed(c) && Synced(c) && id in c.tags && i < |c.tags[id]|
    ensures WiredInfo(c, c.tags[id][i])
    ensures Contribution(c, id, i) == FreshContribution(c, c.tags[id][i])
  {
    var t, c' := c.tags[id][i], Served(c, id, i);
    if t.anyTags == [] {
      ServedKeepsWired(c, id, i);
      ServedKeepsShape(c, id, i);
      ServedListIsCoherent(c, id, i);
      var rs := c'.tagsmap[t.list];
      CoherentShownIsFresh(rs, c.smap[t.sid], |rs|);
      FreshShownOfSame(c.tagsmap[t.list], rs, c.smap[t.sid], |rs|);
    }
  }

  lemma AfterWellFormed(c: Config, id: ObjectId, n: nat)
    requires Wired(c) && WellFormed(c) && id in c.tags && n <= |c.tags[id]|
    ensures WellFormed(After(c, id, n))
  {
    AfterKeepsShape(c, id, n);
    WellFormedDependsOnShape(c, After(c, id, n));
  }

  lemma {:induction false} AfterStaysSynced(c: Config, id: ObjectId, n: nat)
    requires Wired(c) && WellFormed(c) && Synced(c) && id in c.tags && n <= |c.tags[id]|
    ensures Synced(After(c, id, n))
  {
    hide Wired, WellFormed, Synced;
    if n > 0 {
      AfterStaysSynced(c, id, n - 1);
      AfterWellFormed(c, id, n - 1);
      ServedStaysSynced(After(c, id, n - 1), id, n - 1);
    }
  }

  lemma NextContributionIsFresh(c: Config, id: ObjectId, n: nat)
    requires Wired(c) && WellFormed(c) && Synced(c) && id in c.tags && n < |c.tags[id]|
    ensures WiredInfo(After(c, id, n), After(c, id, n).tags[id][n]) && WiredInfo(c, c.tags[id][n])
    ensures Contribution(After(c, id, n), id, n) == FreshContribution(c, c.tags[id][n])
  {
    var c0 := After(c, id, n);
    AfterStaysSynced(c, id, n);
    AfterWellFormed(c, id, n);
    ContributionIsFresh(c0, id, n);
    AfterKeepsShape(c, id, n);
    FreshContributionOfSame(c, c0, id, n);
  }

  lemma {:induction false} OutputIsFresh(c: Config, id: ObjectId, n: nat)
    requires Wired(c) && WellFormed(c) && Synced(c) && id in c.tags && n <= |c.tags[id]|
    ensures Output(c, id, n) == FreshOutput(c, id, n)
  {
    if n > 0 {
      NextContributionIsFresh(c, id, n - 1);
      hide Wired, WellFormed, Synced, After;
      OutputIsFresh(c, id, n - 1);
    }
  }

  /** One request: the answer is the recomputed one and the invariant survives. */
  lemma GetAgrees(c: Config, id: ObjectId)
    requires Wired(c) && WellFormed(c) && Synced(c)
    ensures GetTags(c, id) == Recomputed(c, id)
    ensures WellFormed(GetState(c, id)) && Synced(GetState(c, id))
  {
    GetKeepsShape(c, id);
    WellFormedDependsOnShape(c, GetState(c, id));
    if id in c.tags {
      OutputIsFresh(c, id, |c.tags[id]|);
      AfterStaysSynced(c, id, |c.tags[id]|);
    }
  }

  lemma ApplyKeepsSynced(c: Config, op: Op)
    requires Wired(c) && WellFormed(c) && Synced(c)
    ensures WellFormed(Apply(c, op)) && Synced(Apply(c, op))
  {
    match op
    case Update(id, value) =>
      var c' := UpdateState(c, id, value);
      assert c'.tags == c.tags && c'.tagsmap == c.tagsmap;
      WellFormedDependsOnShape(c, c');
      forall list, x, j | IsUser(c', x, j, list) && c'.tags[x][j].initOk
        ensures CoherentList(c'.tagsmap[list], c'.tags[x][j].prevValue)
      {
        assert IsUser(c, x, j, list);
      }
    case Get(id) =>
      GetAgrees(c, id);
  }

  lemma {:induction false} RunKeepsSynced(c: Config, ops: seq<Op>)
    requires Wired(c) && WellFormed(c) && Synced(c)
    ensures WellFormed(Run(c, ops)) && Synced(Run(c, ops))
  {
    if ops != [] {
      RunKeepsSynced(c, ops[..|ops| - 1]);
      ApplyKeepsSynced(Run(c, ops[..|ops| - 1]), ops[|ops| - 1]);
    }
  }

  /** After any run from loading, any request returns what a recomputation would. */
  ghost predicate Transparent(c: Config)
    requires Wired(c)
  {
    forall ops: seq<Op>, id: ObjectId :: GetTags(Run(c, ops), id) == Recomputed(Run(c, ops), id)
  }

  lemma WellFormedIsTransparent(c: Config)
    requires Loaded(c) && WellFormed(c)
    ensures Transparent(c)
  {
    LoadedIsSynced(c);
    forall ops: seq<Op>, id: ObjectId ensures GetTags(Run(c, ops), id) == Recomputed(Run(c, ops), id) {
      RunKeepsSynced(c, ops);
      GetAgrees(Run(c, ops), id);
    }
  }
}
