/** The dynamic-tags configuration as a value: what one call does to it, what it
    returns, and what a recomputation from scratch would return instead. */
module TagsModel {
  import opened Templates
  import opened TagRanges

  type ObjectId = int

  /** One user of tag texts: either fixed tags, shown while the sensor is not zero, or
      the name of a shared list of ranges together with the value it was last refreshed for. */
  datatype TagsInfo = TagsInfo(anyTags: seq<Tag>, list: string, sid: ObjectId, prevValue: Long, initOk: bool)

  datatype Config = Config(smap: map<ObjectId, Long>,
                           tagsmap: map<string, seq<Range>>,
                           tags: map<ObjectId, seq<TagsInfo>>)

  /** Every user refers to a known sensor and a known list. */
  ghost predicate Wired(c: Config) {
    forall id, i :: id in c.tags && 0 <= i < |c.tags[id]| ==> WiredInfo(c, c.tags[id][i])
  }

  predicate WiredInfo(c: Config, t: TagsInfo) {
    t.sid in c.smap && (t.anyTags == [] ==> t.list in c.tagsmap)
  }

  ghost predicate IsUser(c: Config, id: ObjectId, i: int, list: string) {
    id in c.tags && 0 <= i < |c.tags[id]| && c.tags[id][i].anyTags == [] && c.tags[id][i].list == list
  }

  // ----------------------------------------------------- what the program does

  predicate Outdated(c: Config, t: TagsInfo)
    requires t.sid in c.smap
  {
    c.smap[t.sid] != t.prevValue || !t.initOk
  }

  function RefreshedAll(rs: seq<Range>, v: Long): seq<Range> {
    seq(|rs|, k requires 0 <= k < |rs| => Refreshed(rs[k], v))
  }

  /** The texts of the first `n` ranges that contain the value. */
  function Shown(rs: seq<Range>, v: Long, n: nat): seq<Tag>
    requires n <= |rs|
  {
    if n == 0 then []
    else Shown(rs, v, n - 1) + (if rs[n - 1].CheckInRange(v) then rs[n - 1].tags else [])
  }

  /** The configuration after serving user `i` of sensor `id`. */
  function Served(c: Config, id: ObjectId, i: nat): (c': Config)
    requires id in c.tags && i < |c.tags[id]| && WiredInfo(c, c.tags[id][i])
  {
    var t := c.tags[id][i];
    if t.anyTags != [] || !Outdated(c, t) then c
    else
      var v := c.smap[t.sid];
      Config(c.smap,
             c.tagsmap[t.list := RefreshedAll(c.tagsmap[t.list], v)],
             c.tags[id := c.tags[id][i := t.(initOk := true, prevValue := v)]])
  }

  /** The tags this user contributes. */
  function Contribution(c: Config, id: ObjectId, i: nat): seq<Tag>
    requires id in c.tags && i < |c.tags[id]| && WiredInfo(c, c.tags[id][i])
  {
    var t := c.tags[id][i];
    var v := c.smap[t.sid];
    if t.anyTags != [] then (if v != 0 then t.anyTags else [])
    else
      var rs := if Outdated(c, t) then RefreshedAll(c.tagsmap[t.list], v) else c.tagsmap[t.list];
      Shown(rs, v, |rs|)
  }

  /** The configuration after serving the first `n` users of `id`. */
  function After(c: Config, id: ObjectId, n: nat): (c': Config)
    requires Wired(c) && id in c.tags && n <= |c.tags[id]|
    ensures Wired(c') && c'.smap == c.smap && id in c'.tags && |c'.tags[id]| == |c.tags[id]|
  {
    if n == 0 then c
    else
      var c0 := After(c, id, n - 1);
      ServedKeepsWired(c0, id, n - 1);
      Served(c0, id, n - 1)
  }

  function Output(c: Config, id: ObjectId, n: nat): seq<Tag>
    requires Wired(c) && id in c.tags && n <= |c.tags[id]|
  {
    if n == 0 then []
    else Output(c, id, n - 1) + Contribution(After(c, id, n - 1), id, n - 1)
  }

  function GetState(c: Config, id: ObjectId): (c': Config)
    requires Wired(c)
    ensures Wired(c') && c'.smap == c.smap
  {
    if id in c.tags then After(c, id, |c.tags[id]|) else c
  }

  function GetTags(c: Config, id: ObjectId): seq<Tag>
    requires Wired(c)
  {
    if id in c.tags then Output(c, id, |c.tags[id]|) else []
  }

  function UpdateState(c: Config, id: ObjectId, value: Long): (c': Config)
    ensures Wired(c) ==> Wired(c')
  {
    if id in c.smap then c.(smap := c.smap[id := value]) else c
  }

  // --------------------------------------------------------------------- runs

  datatype Op = Update(id: ObjectId, value: Long) | Get(id: ObjectId)

  function Apply(c: Config, op: Op): (c': Config)
    requires Wired(c)
    ensures Wired(c')
  {
    match op
    case Update(id, value) => UpdateState(c, id, value)
    case Get(id) => GetState(c, id)
  }

  function Run(c: Config, ops: seq<Op>): (c': Config)
    requires Wired(c)
    ensures Wired(c')
  {
    if ops == [] then c else Apply(Run(c, ops[..|ops| - 1]), ops[|ops| - 1])
  }

  // --------------------------------------------------- recomputing from scratch

  function FreshTags(r: Range, v: Long): seq<Tag> {
    seq(|r.tags|, i requires 0 <= i < |r.tags| =>
      Tag(Render(r.tags[i].origKey, v, r.vmin, r.vmax), Render(r.tags[i].origValue, v, r.vmin, r.vmax),
          r.tags[i].origKey, r.tags[i].origValue))
  }

  function FreshShown(rs: seq<Range>, v: Long, n: nat): seq<Tag>
    requires n <= |rs|
  {
    if n == 0 then []
    else FreshShown(rs, v, n - 1) + (if rs[n - 1].CheckInRange(v) then FreshTags(rs[n - 1], v) else [])
  }

  function FreshContribution(c: Config, t: TagsInfo): seq<Tag>
    requires WiredInfo(c, t)
  {
    var v := c.smap[t.sid];
    if t.anyTags != [] then (if v != 0 then t.anyTags else [])
    else FreshShown(c.tagsmap[t.list], v, |c.tagsmap[t.list]|)
  }

  function FreshOutput(c: Config, id: ObjectId, n: nat): seq<Tag>
    requires Wired(c) && id in c.tags && n <= |c.tags[id]|
  {
    if n == 0 then []
    else FreshOutput(c, id, n - 1) + FreshContribution(c, c.tags[id][n - 1])
  }

  /** The tags of `id` computed from the sensor values alone: no cached text, flag or
      previous value is looked at. */
  function Recomputed(c: Config, id: ObjectId): seq<Tag>
    requires Wired(c)
  {
    if id in c.tags then FreshOutput(c, id, |c.tags[id]|) else []
  }

  // ------------------------------------------------------ order and completeness

  /** The ranges contribute in order: those that contain the value, bounds included, all
      their tags, the others nothing. */
  lemma {:induction false} ShownInOrder(rs: seq<Range>, v: Long, k: nat, n: nat)
    requires k < n <= |rs|
    ensures Shown(rs, v, 0) == [] && FreshShown(rs, v, 0) == []
    ensures Shown(rs, v, k) <= Shown(rs, v, k + 1) <= Shown(rs, v, n)
    ensures Shown(rs, v, k + 1)[|Shown(rs, v, k)|..] == if rs[k].vmin <= v <= rs[k].vmax then rs[k].tags else []
    ensures FreshShown(rs, v, k) <= FreshShown(rs, v, k + 1) <= FreshShown(rs, v, n)
    ensures FreshShown(rs, v, k + 1)[|FreshShown(rs, v, k)|..]
            == if rs[k].vmin <= v <= rs[k].vmax then FreshTags(rs[k], v) else []
  {
    hide FreshTags;
    ShownGrows(rs, v, n - 1);
    if k < n - 1 {
      ShownInOrder(rs, v, k, n - 1);
      hide Shown, FreshShown;
    }
  }

  lemma ShownGrows(rs: seq<Range>, v: Long, n: nat)
    requires n < |rs|
    ensures Shown(rs, v, n) <= Shown(rs, v, n + 1) && FreshShown(rs, v, n) <= FreshShown(rs, v, n + 1)
  {
  }

  /** The tags of a range computed from scratch: as written, each part shown as it should be. */
  lemma FreshTagsShow(r: Range, v: Long, i: nat)
    requires i < |r.tags|
    ensures |FreshTags(r, v)| == |r.tags|
    ensures var t, t' := r.tags[i], FreshTags(r, v)[i];
            && t'.origKey == t.origKey && t'.origValue == t.origValue
            && (forall parts :: PlainLiterals(parts) && t.origKey == Spelled(parts) ==>
                  t'.key == Filled(parts, v, r.vmin, r.vmax))
            && (forall parts :: PlainLiterals(parts) && t.origValue == Spelled(parts) ==>
                  t'.value == Filled(parts, v, r.vmin, r.vmax))
  {
    hide Render, Spelled, Filled, PlainLiterals;
    forall parts | PlainLiterals(parts)
      ensures Render(Spelled(parts), v, r.vmin, r.vmax) == Filled(parts, v, r.vmin, r.vmax)
    {
      RenderSpelled(parts, v, r.vmin, r.vmax);
    }
  }

  /** Fixed tags are shown while the value is not zero; otherwise it is the list that counts. */
  lemma RecomputedByUser(c: Config, t: TagsInfo)
    requires WiredInfo(c, t)
    ensures t.anyTags != [] ==> FreshContribution(c, t) == if c.smap[t.sid] == 0 then [] else t.anyTags
    ensures t.anyTags == [] ==>
      FreshContribution(c, t) == FreshShown(c.tagsmap[t.list], c.smap[t.sid], |c.tagsmap[t.list]|)
  {
  }

  /** Every user contributes; a sensor without users has no tags. */
  lemma AllUsersContribute(c: Config, id: ObjectId)
    requires Wired(c)
    ensures id in c.tags ==> GetTags(c, id) == Output(c, id, |c.tags[id]|) && Recomputed(c, id) == FreshOutput(c, id, |c.tags[id]|)
    ensures id !in c.tags ==> GetTags(c, id) == [] == Recomputed(c, id)
  {
  }

  /** The users contribute in order, in what is cached and in what is recomputed. */
  lemma {:induction false} UsersInOrder(c: Config, id: ObjectId, i: nat, n: nat)
    requires Wired(c) && id in c.tags && i < n <= |c.tags[id]|
    ensures Output(c, id, 0) == [] && FreshOutput(c, id, 0) == []
    ensures Output(c, id, i) <= Output(c, id, i + 1) <= Output(c, id, n)
    ensures WiredInfo(After(c, id, i), After(c, id, i).tags[id][i]) && WiredInfo(c, c.tags[id][i])
    ensures Output(c, id, i + 1)[|Output(c, id, i)|..] == Contribution(After(c, id, i), id, i)
    ensures FreshOutput(c, id, i) <= FreshOutput(c, id, i + 1) <= FreshOutput(c, id, n)
    ensures FreshOutput(c, id, i + 1)[|FreshOutput(c, id, i)|..] == FreshContribution(c, c.tags[id][i])
  {
    hide Contribution, FreshContribution;
    if i < n - 1 {
      UsersInOrder(c, id, i, n - 1);
    }
  }

  // -------------------------------------------------- what no call ever changes

  predicate SameRange(r: Range, r': Range) {
    r.vmin == r'.vmin && r.vmax == r'.vmax && Keys(r).orig == Keys(r').orig && Values(r).orig == Values(r').orig
  }

  predicate SameInfo(t: TagsInfo, t': TagsInfo) {
    t.anyTags == t'.anyTags && t.list == t'.list && t.sid == t'.sid
  }

  ghost predicate SameRanges(rs: seq<Range>, rs': seq<Range>) {
    |rs| == |rs'| && forall k :: 0 <= k < |rs| ==> SameRange(rs[k], rs'[k])
  }

  ghost predicate SameInfos(ts: seq<TagsInfo>, ts': seq<TagsInfo>) {
    |ts| == |ts'| && forall i :: 0 <= i < |ts| ==> SameInfo(ts[i], ts'[i])
  }

  ghost predicate SameShape(c: Config, c': Config) {
    && c.smap.Keys == c'.smap.Keys
    && c.tagsmap.Keys == c'.tagsmap.Keys
    && (forall list :: list in c.tagsmap ==> SameRanges(c.tagsmap[list], c'.tagsmap[list]))
    && c.tags.Keys == c'.tags.Keys
    && (forall id :: id in c.tags ==> SameInfos(c.tags[id], c'.tags[id]))
  }

  lemma ServedKeepsWired(c: Config, id: ObjectId, i: nat)
    requires Wired(c) && id in c.tags && i < |c.tags[id]|
    ensures Wired(Served(c, id, i))
  {
    var c', t := Served(c, id, i), c.tags[id][i];
    forall x, j | x in c'.tags && 0 <= j < |c'.tags[x]| ensures WiredInfo(c', c'.tags[x][j]) {
      assert WiredInfo(c, c.tags[x][j]);
    }
  }

  lemma ServedKeepsShape(c: Config, id: ObjectId, i: nat)
    requires Wired(c) && id in c.tags && i < |c.tags[id]|
    ensures SameShape(c, Served(c, id, i))
  {
    var c', t := Served(c, id, i), c.tags[id][i];
    if c' != c {
      forall list | list in c.tagsmap ensures SameRanges(c.tagsmap[list], c'.tagsmap[list]) {
        forall k | 0 <= k < |c.tagsmap[list]| ensures SameRange(c.tagsmap[list][k], c'.tagsmap[list][k]) {}
      }
    }
  }

  lemma SameShapeTransitive(a: Config, b: Config, c: Config)
    requires SameShape(a, b) && SameShape(b, c)
    ensures SameShape(a, c)
  {
    forall list | list in a.tagsmap ensures SameRanges(a.tagsmap[list], c.tagsmap[list]) {
      assert SameRanges(a.tagsmap[list], b.tagsmap[list]) && SameRanges(b.tagsmap[list], c.tagsmap[list]);
    }
    forall id | id in a.tags ensures SameInfos(a.tags[id], c.tags[id]) {
      assert SameInfos(a.tags[id], b.tags[id]) && SameInfos(b.tags[id], c.tags[id]);
    }
  }

  lemma {:induction false} AfterKeepsShape(c: Config, id: ObjectId, n: nat)
    requires Wired(c) && id in c.tags && n <= |c.tags[id]|
    ensures SameShape(c, After(c, id, n))
  {
    if n == 0 {
      assert After(c, id, 0) == c;
    } else {
      ServedKeepsShape(After(c, id, n - 1), id, n - 1);
      hide Wired, SameShape, Served;
      AfterKeepsShape(c, id, n - 1);
      SameShapeTransitive(c, After(c, id, n - 1), After(c, id, n));
    }
  }

  lemma GetKeepsShape(c: Config, id: ObjectId)
    requires Wired(c)
    ensures SameShape(c, GetState(c, id))
  {
    if id in c.tags { AfterKeepsShape(c, id, |c.tags[id]|); }
  }

  lemma FreshTagsOfSame(r: Range, r': Range, v: Long)
    requires SameRange(r, r')
    ensures FreshTags(r, v) == FreshTags(r', v)
  {
    assert |r.tags| == |Keys(r).orig| && |r'.tags| == |Keys(r').orig|;
    forall i | 0 <= i < |r.tags| ensures FreshTags(r, v)[i] == FreshTags(r', v)[i] {
      assert Keys(r).orig[i] == Keys(r').orig[i] && Values(r).orig[i] == Values(r').orig[i];
    }
  }

  lemma {:induction false} FreshShownOfSame(rs: seq<Range>, rs': seq<Range>, v: Long, n: nat)
    requires SameRanges(rs, rs') && n <= |rs|
    ensures FreshShown(rs, v, n) == FreshShown(rs', v, n)
  {
    if n > 0 {
      FreshShownOfSame(rs, rs', v, n - 1);
      FreshTagsOfSame(rs[n - 1], rs'[n - 1], v);
    }
  }

  lemma FreshContributionOfSame(c: Config, c': Config, id: ObjectId, i: nat)
    requires Wired(c) && Wired(c') && SameShape(c, c') && c.smap == c'.smap
    requires id in c.tags && i < |c.tags[id]|
    ensures WiredInfo(c, c.tags[id][i]) && WiredInfo(c', c'.tags[id][i])
    ensures FreshContribution(c, c.tags[id][i]) == FreshContribution(c', c'.tags[id][i])
  {
    var t, t' := c.tags[id][i], c'.tags[id][i];
    assert WiredInfo(c, t) && WiredInfo(c', t') && SameInfo(t, t');
    if t.anyTags == [] {
      FreshShownOfSame(c.tagsmap[t.list], c'.tagsmap[t.list], c.smap[t.sid], |c.tagsmap[t.list]|);
    }
  }

  lemma {:induction false} FreshOutputOfSame(c: Config, c': Config, id: ObjectId, n: nat)
    requires Wired(c) && Wired(c') && SameShape(c, c') && c.smap == c'.smap
    requires id in c.tags && n <= |c.tags[id]|
    ensures FreshOutput(c, id, n) == FreshOutput(c', id, n)
  {
    if n > 0 {
      FreshOutputOfSame(c, c', id, n - 1);
      FreshContributionOfSame(c, c', id, n - 1);
    }
  }

  /** A recomputation depends on the sensor values and the static configuration only. */
  lemma RecomputedDependsOnShape(c: Config, c': Config, id: ObjectId)
    requires Wired(c) && Wired(c') && SameShape(c, c') && c.smap == c'.smap
    ensures Recomputed(c, id) == Recomputed(c', id)
  {
    if id in c.tags {
      FreshOutputOfSame(c, c', id, |c.tags[id]|);
    }
  }
}
