/** The tag cache as the ClickHouse backend drives it: each message brings the value of one
    sensor and asks at once for the tags of that same sensor.  Not every sequence of updates
    and requests can arise in this way, so what is necessary there need not be necessary
    here. */
module TagsDelivery {
  import opened Templates
  import opened TagRanges
  import opened TagsModel
  import opened ClickHouseTags
  import opened TagsAgreement
  import opened TagsNecessity

  datatype Delivery = Delivery(id: ObjectId, value: Long)

  type WiredConfig = c: Config | Wired(c) witness Config(map[], map[], map[])

  function Told(c: WiredConfig, d: Delivery): WiredConfig {
    UpdateState(c, d.id, d.value)
  }

  function Delivered(c: WiredConfig, d: Delivery): WiredConfig {
    GetState(Told(c, d), d.id)
  }

  function DeliverAll(c: WiredConfig, ds: seq<Delivery>): WiredConfig {
    if ds == [] then c else Delivered(DeliverAll(c, ds[..|ds| - 1]), ds[|ds| - 1])
  }

  /** The tags asked for by `d` are the recomputed ones. */
  predicate AnswersRight(c: WiredConfig, d: Delivery) {
    GetTags(Told(c, d), d.id) == Recomputed(Told(c, d), d.id)
  }

  predicate Within(ds: seq<Delivery>, ids: set<ObjectId>) {
    forall i :: 0 <= i < |ds| ==> ds[i].id in ids
  }

  /** No sequence of messages for sensors in `ids` ever gets a wrong answer. */
  ghost predicate DeliveryTransparent(c: WiredConfig, ids: set<ObjectId>) {
    forall ds: seq<Delivery>, d: Delivery :: Within(ds, ids) && d.id in ids ==> AnswersRight(DeliverAll(c, ds), d)
  }

  lemma DeliveredKeepsShape(c: WiredConfig, d: Delivery)
    ensures SameShape(c, Delivered(c, d))
  {
    GetKeepsShape(Told(c, d), d.id);
    assert SameShape(c, Told(c, d)) by { RangesSame(c); }
    SameShapeTransitive(c, Told(c, d), Delivered(c, d));
  }

  lemma {:induction false} DeliverAllKeepsShape(c: WiredConfig, ds: seq<Delivery>)
    ensures SameShape(c, DeliverAll(c, ds))
  {
    if ds == [] {
      RangesSame(c);
    } else {
      var c' := DeliverAll(c, ds[..|ds| - 1]);
      DeliverAllKeepsShape(c, ds[..|ds| - 1]);
      DeliveredKeepsShape(c', ds[|ds| - 1]);
      SameShapeTransitive(c, c', DeliverAll(c, ds));
    }
  }

  lemma DeliverLast(c: WiredConfig, ds: seq<Delivery>, d: Delivery)
    ensures DeliverAll(c, ds + [d]) == Delivered(DeliverAll(c, ds), d)
  {
    assert (ds + [d])[..|ds|] == ds;
  }

  // ------------------------------------------------- only delivered sensors matter

  /** The configuration without the tags that no message can ask for. */
  function Asked(c: WiredConfig, ids: set<ObjectId>): (c': WiredConfig)
    ensures c'.smap == c.smap && c'.tagsmap == c.tagsmap && c'.tags.Keys == c.tags.Keys * ids
  {
    AskedIsWired(c, ids);
    c.(tags := map id | id in c.tags && id in ids :: c.tags[id])
  }

  lemma AskedIsWired(c: WiredConfig, ids: set<ObjectId>)
    ensures Wired(c.(tags := map id | id in c.tags && id in ids :: c.tags[id]))
  {
    var c' := c.(tags := map id | id in c.tags && id in ids :: c.tags[id]);
    forall id, i | id in c'.tags && 0 <= i < |c'.tags[id]| ensures WiredInfo(c', c'.tags[id][i]) {
      assert WiredInfo(c, c.tags[id][i]);
    }
  }

  lemma AskedIsLoaded(c: WiredConfig, ids: set<ObjectId>)
    requires Loaded(c)
    ensures Loaded(Asked(c, ids))
  {
  }

  lemma ServedAsked(c: WiredConfig, ids: set<ObjectId>, id: ObjectId, i: nat)
    requires id in ids && id in c.tags && i < |c.tags[id]|
    ensures WiredInfo(c, c.tags[id][i]) && WiredInfo(Asked(c, ids), Asked(c, ids).tags[id][i])
    ensures Wired(Served(c, id, i)) && Served(Asked(c, ids), id, i) == Asked(Served(c, id, i), ids)
    ensures Contribution(Asked(c, ids), id, i) == Contribution(c, id, i)
  {
    ServedKeepsWired(c, id, i);
  }

  lemma {:induction false} AfterAsked(c: WiredConfig, ids: set<ObjectId>, id: ObjectId, n: nat)
    requires id in ids && id in c.tags && n <= |c.tags[id]|
    ensures After(Asked(c, ids), id, n) == Asked(After(c, id, n), ids)
    ensures Output(Asked(c, ids), id, n) == Output(c, id, n)
  {
    hide Wired, Served, Contribution;
    if n > 0 {
      AfterAsked(c, ids, id, n - 1);
      ServedAsked(After(c, id, n - 1), ids, id, n - 1);
    }
  }

  lemma {:induction false} FreshAsked(c: WiredConfig, ids: set<ObjectId>, id: ObjectId, n: nat)
    requires id in ids && id in c.tags && n <= |c.tags[id]|
    ensures FreshOutput(Asked(c, ids), id, n) == FreshOutput(c, id, n)
  {
    if n > 0 { FreshAsked(c, ids, id, n - 1); }
  }

  lemma DeliveredAsked(c: WiredConfig, ids: set<ObjectId>, d: Delivery)
    requires d.id in ids
    ensures Delivered(Asked(c, ids), d) == Asked(Delivered(c, d), ids)
    ensures AnswersRight(Asked(c, ids), d) == AnswersRight(c, d)
  {
    var c' := Told(c, d);
    assert Told(Asked(c, ids), d) == Asked(c', ids);
    if d.id in c.tags {
      AfterAsked(c', ids, d.id, |c'.tags[d.id]|);
      FreshAsked(c', ids, d.id, |c'.tags[d.id]|);
    }
  }

  lemma {:induction false} DeliverAllAsked(c: WiredConfig, ids: set<ObjectId>, ds: seq<Delivery>)
    requires Within(ds, ids)
    ensures DeliverAll(Asked(c, ids), ds) == Asked(DeliverAll(c, ds), ids)
  {
    if ds != [] {
      DeliverAllAsked(c, ids, ds[..|ds| - 1]);
      DeliveredAsked(DeliverAll(c, ds[..|ds| - 1]), ids, ds[|ds| - 1]);
    }
  }

  lemma OnlyAskedMatter(c: WiredConfig, ids: set<ObjectId>)
    ensures DeliveryTransparent(Asked(c, ids), ids) <==> DeliveryTransparent(c, ids)
  {
    forall ds: seq<Delivery>, d: Delivery | Within(ds, ids) && d.id in ids
      ensures AnswersRight(DeliverAll(Asked(c, ids), ds), d) == AnswersRight(DeliverAll(c, ds), d)
    {
      DeliverAllAsked(c, ids, ds);
      DeliveredAsked(DeliverAll(c, ds), ids, d);
    }
  }

  // ------------------------------------------------------------------ sufficiency

  lemma {:induction false} DeliverAllKeepsSynced(c: WiredConfig, ds: seq<Delivery>)
    requires WellFormed(c) && Synced(c)
    ensures WellFormed(DeliverAll(c, ds)) && Synced(DeliverAll(c, ds))
  {
    hide WellFormed, Synced;
    if ds != [] {
      var c', d := DeliverAll(c, ds[..|ds| - 1]), ds[|ds| - 1];
      DeliverAllKeepsSynced(c, ds[..|ds| - 1]);
      ApplyKeepsSynced(c', Update(d.id, d.value));
      GetAgrees(Told(c', d), d.id);
    }
  }

  /** Well-formedness of what can be asked for is enough, whatever else is configured. */
  lemma WellFormedAnswersRight(c: WiredConfig, ids: set<ObjectId>, ds: seq<Delivery>, d: Delivery)
    requires Loaded(c) && WellFormed(Asked(c, ids)) && Within(ds, ids) && d.id in ids
    ensures AnswersRight(DeliverAll(c, ds), d)
  {
    AskedIsLoaded(c, ids);
    LoadedIsSynced(Asked(c, ids));
    DeliverAllKeepsSynced(Asked(c, ids), ds);
    var c' := DeliverAll(Asked(c, ids), ds);
    hide WellFormed, Synced;
    ApplyKeepsSynced(c', Update(d.id, d.value));
    GetAgrees(Told(c', d), d.id);
    DeliverAllAsked(c, ids, ds);
    DeliveredAsked(DeliverAll(c, ds), ids, d);
  }

  // -------------------------------------------------------------------- necessity

  ghost predicate HasListUser(c: Config, id: ObjectId) {
    exists i, list :: IsUser(c, id, i, list)
  }

  /** Every sensor that chooses from a list is delivered, and it is the one that owns the
      tags or owns no list-made tags itself.  Can be checked when the configuration is
      loaded. */
  ghost predicate Separate(c: Config, ids: set<ObjectId>) {
    && c.tags.Keys <= ids
    && forall id, i, list :: IsUser(c, id, i, list) ==> SensorFits(c, ids, id, c.tags[id][i].sid)
  }

  ghost predicate SensorFits(c: Config, ids: set<ObjectId>, id: ObjectId, sid: ObjectId) {
    sid in ids && (sid == id || !HasListUser(c, sid))
  }

  ghost predicate Reach(c: WiredConfig, ids: set<ObjectId>, c': WiredConfig) {
    SameShape(c, c') && exists ds :: Within(ds, ids) && DeliverAll(c, ds) == c'
  }

  lemma ReachStart(c: WiredConfig, ids: set<ObjectId>)
    ensures Reach(c, ids, c)
  {
    RangesSame(c);
    assert Within([], ids) && DeliverAll(c, []) == c;
  }

  /** One more message: the state is reached, and if nothing ever fails its answer is right. */
  lemma ReachStep(c: WiredConfig, ids: set<ObjectId>, c': WiredConfig, d: Delivery)
    requires Reach(c, ids, c') && d.id in ids
    ensures Reach(c, ids, Delivered(c', d))
    ensures DeliveryTransparent(c, ids) ==> AnswersRight(c', d)
  {
    var ds :| Within(ds, ids) && DeliverAll(c, ds) == c';
    DeliverLast(c, ds, d);
    assert Within(ds + [d], ids);
    DeliveredKeepsShape(c', d);
    SameShapeTransitive(c, c', Delivered(c', d));
    hide AnswersRight;
  }

  /** Asking for tags without list users changes nothing. */
  lemma {:induction false} NoListNoChange(c: WiredConfig, id: ObjectId, n: nat)
    requires !HasListUser(c, id) && id in c.tags && n <= |c.tags[id]|
    ensures After(c, id, n) == c
  {
    if n > 0 {
      NoListNoChange(c, id, n - 1);
      assert !IsUser(c, id, n - 1, c.tags[id][n - 1].list);
    }
  }

  lemma ListUsersStay(c: Config, c': Config, id: ObjectId)
    requires SameShape(c, c')
    ensures HasListUser(c, id) == HasListUser(c', id)
  {
    forall i, list ensures IsUser(c, id, i, list) == IsUser(c', id, i, list) { SameUser(c, c', id, i, list); }
  }

  /** A sensor without list-made tags can be set by a message and nothing else happens. */
  lemma SetQuietly(c: WiredConfig, ids: set<ObjectId>, c': WiredConfig, sid: ObjectId, v: Long)
    requires Reach(c, ids, c') && sid in ids && !HasListUser(c, sid)
    ensures Wired(UpdateState(c', sid, v)) && Reach(c, ids, UpdateState(c', sid, v))
  {
    var d := Delivery(sid, v);
    ReachStep(c, ids, c', d);
    var c'' := Told(c', d);
    ListUsersStay(c, c', sid);
    assert forall i, list :: IsUser(c'', sid, i, list) == IsUser(c', sid, i, list);
    if sid in c''.tags { NoListNoChange(c'', sid, |c''.tags[sid]|); }
    assert Delivered(c', d) == c'';
  }

  /** Setting the sensor of a user and asking for the tags, as one or two messages. */
  lemma SetAndAsk(c: WiredConfig, ids: set<ObjectId>, c': WiredConfig, sid: ObjectId, v: Long, id: ObjectId)
    requires Reach(c, ids, c') && id in ids && SensorFits(c, ids, id, sid)
    ensures var c'' := UpdateState(c', sid, v);
            && Wired(c'') && Reach(c, ids, GetState(c'', id))
            && (DeliveryTransparent(c, ids) ==> GetTags(c'', id) == Recomputed(c'', id))
  {
    if sid == id {
      ReachStep(c, ids, c', Delivery(id, v));
      assert Told(c', Delivery(id, v)) == UpdateState(c', sid, v);
    } else {
      SetQuietly(c, ids, c', sid, v);
      var c'' := UpdateState(c', sid, v);
      var d := Delivery(id, if id in c''.smap then c''.smap[id] else 0);
      assert Told(c'', d) == c'';
      ReachStep(c, ids, c'', d);
    }
  }

  lemma SetOneAndAskOther(c: WiredConfig, ids: set<ObjectId>, s1: ObjectId, v1: Long, s2: ObjectId, v2: Long, id: ObjectId)
    requires id in ids && s1 in ids && !HasListUser(c, s1) && SensorFits(c, ids, id, s2)
    ensures var c2 := UpdateState(UpdateState(c, s1, v1), s2, v2); Wired(c2) && Reach(c, ids, GetState(c2, id))
  {
    hide HasListUser, SensorFits, Reach, GetState, Wired, DeliveryTransparent;
    ReachStart(c, ids);
    SetQuietly(c, ids, c, s1, v1);
    SetAndAsk(c, ids, UpdateState(c, s1, v1), s2, v2, id);
  }

  lemma UpdatesCommute(c: Config, sa: ObjectId, va: Long, sz: ObjectId, vz: Long)
    requires sa != sz
    ensures UpdateState(UpdateState(c, sz, vz), sa, va) == UpdateState(UpdateState(c, sa, va), sz, vz)
  {
    if sa in c.smap && sz in c.smap {
      assert c.smap[sz := vz][sa := va] == c.smap[sa := va][sz := vz];
    }
  }

  /** Setting the sensors of two users under one sensor and asking: whichever of the two owns
      the tags is set last. */
  lemma SetBothAndAsk(c: WiredConfig, ids: set<ObjectId>, sa: ObjectId, va: Long, sz: ObjectId, vz: Long, id: ObjectId)
    requires id in ids && sa != sz && SensorFits(c, ids, id, sa) && SensorFits(c, ids, id, sz)
    ensures var c2 := UpdateState(UpdateState(c, sa, va), sz, vz); Wired(c2) && Reach(c, ids, GetState(c2, id))
  {
    hide HasListUser, Reach, GetState, UpdateState, Wired;
    if sa != id {
      SetOneAndAskOther(c, ids, sa, va, sz, vz, id);
    } else {
      SetOneAndAskOther(c, ids, sz, vz, sa, va, id);
      UpdatesCommute(c, sa, va, sz, vz);
    }
  }

  lemma UnsteadyFailsDelivered(c: WiredConfig, ids: set<ObjectId>, id: ObjectId, i: nat, list: string, k: nat)
    requires Loaded(c) && Separate(c, ids) && IsUser(c, id, i, list) && k < |c.tagsmap[list]|
    requires !SteadyRange(c.tagsmap[list][k])
    ensures !DeliveryTransparent(c, ids)
  {
    var key := !Steady(Keys(c.tagsmap[list][k]).orig);
    var o := ColOf(c, list, k, key).orig;
    var m := UnsteadyWitness(o);
    if Stop(o) < m {
      HiddenFailsDelivered(c, ids, id, i, list, k, key, m);
    } else {
      var a := FirstUser(c, id, i, list);
      FrozenFailsDelivered(c, ids, id, a, list, k, key, m);
    }
  }

  lemma HiddenFailsDelivered(c: WiredConfig, ids: set<ObjectId>, id: ObjectId, i: nat,
                             list: string, k: nat, key: bool, m: nat)
    requires Loaded(c) && Separate(c, ids) && IsUser(c, id, i, list) && k < |c.tagsmap[list]|
    requires var o := ColOf(c, list, k, key).orig; Stop(o) < m < |o| && HasPlaceholder(o[m])
    ensures !DeliveryTransparent(c, ids)
  {
    var sid, r := c.tags[id][i].sid, c.tagsmap[list][k];
    assert WiredInfo(c, c.tags[id][i]) && Unused(r);
    LoadedIsReached(c);
    var c1 := UpdateState(c, sid, r.vmin);
    ReachStart(c, ids);
    SetAndAsk(c, ids, c, sid, r.vmin, id);
    assert AllReached(c1) && WiredInfo(c1, c1.tags[id][i]);
    HiddenStateShows(c1, id, i, list, k, key, m);
  }

  lemma FrozenFailsDelivered(c: WiredConfig, ids: set<ObjectId>, id: ObjectId, i: nat,
                             list: string, k: nat, key: bool, m: nat)
    requires Loaded(c) && Separate(c, ids) && IsUser(c, id, i, list) && k < |c.tagsmap[list]|
    requires forall j :: 0 <= j < i ==> !IsUser(c, id, j, list)
    requires var o := ColOf(c, list, k, key).orig; m < Stop(o) < |o| && Contains(o[m], VALUE)
    ensures !DeliveryTransparent(c, ids)
  {
    var sid, r := c.tags[id][i].sid, c.tagsmap[list][k];
    assert WiredInfo(c, c.tags[id][i]) && Unused(r);
    var w := Contrast(r.vmin);
    var c1 := UpdateState(c, sid, w);
    ReachStart(c, ids);
    SetAndAsk(c, ids, c, sid, w, id);
    SetAndAsk(c, ids, GetState(c1, id), sid, r.vmin, id);
    assert forall j :: IsUser(c1, id, j, list) == IsUser(c, id, j, list);
    FrozenStateShows(c1, id, i, list, k, key, m, w);
  }

  /** Two users under one sensor, which may be one of the two sensors they watch. */
  lemma SharedUnderOneFailsDelivered(c: WiredConfig, ids: set<ObjectId>, id: ObjectId, a: nat, z: nat,
                                     list: string, k: nat, key: bool, m: nat)
    requires Loaded(c) && Separate(c, ids) && IsUser(c, id, a, list) && IsUser(c, id, z, list) && a < z
    requires forall j :: 0 <= j < a ==> !IsUser(c, id, j, list)
    requires forall j :: z < j ==> !IsUser(c, id, j, list)
    requires k < |c.tagsmap[list]| && SteadyRange(c.tagsmap[list][k])
    requires var o := ColOf(c, list, k, key).orig; m < |o| && Contains(o[m], VALUE)
    ensures !DeliveryTransparent(c, ids)
  {
    var sa, sz, r := c.tags[id][a].sid, c.tags[id][z].sid, c.tagsmap[list][k];
    var w := Contrast(r.vmin);
    assert WiredInfo(c, c.tags[id][a]) && WiredInfo(c, c.tags[id][z]) && Unused(r);
    assert sa != sz by { assert DistinctSensors(c.tags[id]); }
    SteadyValueIsEvergreen(r, key, m);
    var c2 := UpdateState(UpdateState(c, sa, r.vmin), sz, w);
    SetBothAndAsk(c, ids, sa, r.vmin, sz, w, id);
    var c3: WiredConfig := GetState(c2, id);
    assert UpdateState(c3, sz, w) == c3;
    SetAndAsk(c, ids, c3, sz, w, id);
    hide DeliveryTransparent, Reach, GetState;
    assert forall j :: IsUser(c2, id, j, list) == IsUser(c, id, j, list);
    SharedStateShows(c2, id, a, z, list, k, key, m);
  }

  lemma SharedByTwoFailsDelivered(c: WiredConfig, ids: set<ObjectId>, id: ObjectId, a: nat, id': ObjectId, z: nat,
                                  list: string, k: nat, key: bool, m: nat)
    requires Loaded(c) && Separate(c, ids) && id != id' && IsUser(c, id, a, list) && IsUser(c, id', z, list)
    requires forall j :: 0 <= j < a ==> !IsUser(c, id, j, list)
    requires forall j :: z < j ==> !IsUser(c, id', j, list)
    requires k < |c.tagsmap[list]| && SteadyRange(c.tagsmap[list][k])
    requires var o := ColOf(c, list, k, key).orig; m < |o| && Contains(o[m], VALUE)
    ensures !DeliveryTransparent(c, ids)
  {
    var sa, sz, r := c.tags[id][a].sid, c.tags[id'][z].sid, c.tagsmap[list][k];
    var w := Contrast(r.vmin);
    assert WiredInfo(c, c.tags[id][a]) && Unused(r);
    SteadyValueIsEvergreen(r, key, m);
    ReachStart(c, ids);
    SetAndAsk(c, ids, c, sa, r.vmin, id);
    var c1 := UpdateState(c, sa, r.vmin);
    SetAndAsk(c, ids, GetState(c1, id), sz, w, id');
    var c4 := GetState(UpdateState(GetState(c1, id), sz, w), id');
    SetAndAsk(c, ids, c4, sa, r.vmin, id);
    assert forall x, j :: IsUser(c1, x, j, list) == IsUser(c, x, j, list);
    TwoUsersShow(c1, id, a, id', z, list, k, key, m);
  }

  lemma TransparentDeliveryIsWellFormed(c: WiredConfig, ids: set<ObjectId>)
    requires Loaded(c) && Separate(c, ids) && DeliveryTransparent(c, ids)
    ensures WellFormed(c)
  {
    hide DeliveryTransparent, Separate;
    forall list, id, i, k | IsUser(c, id, i, list) && 0 <= k < |c.tagsmap[list]|
      ensures SteadyRange(c.tagsmap[list][k])
    {
      if !SteadyRange(c.tagsmap[list][k]) { UnsteadyFailsDelivered(c, ids, id, i, list, k); }
    }
    forall list, id, i, id', i', k | IsUser(c, id, i, list) && IsUser(c, id', i', list)
      && (id != id' || i != i') && 0 <= k < |c.tagsmap[list]|
      ensures !MentionsValue(c.tagsmap[list][k])
    {
      if MentionsValue(c.tagsmap[list][k]) {
        var key := Mentions(Keys(c.tagsmap[list][k]).orig, VALUE);
        var o := ColOf(c, list, k, key).orig;
        var m :| 0 <= m < |o| && Contains(o[m], VALUE);
        var first, last := if i < i' then i else i', if i < i' then i' else i;
        if id == id' {
          var a := FirstUser(c, id, first, list);
          var z := LastUser(c, id, last, list);
          SharedUnderOneFailsDelivered(c, ids, id, a, z, list, k, key, m);
        } else {
          var a := FirstUser(c, id, i, list);
          var z := LastUser(c, id', i', list);
          SharedByTwoFailsDelivered(c, ids, id, a, id', z, list, k, key, m);
        }
      }
    }
  }

  /** For configurations with separate sensors, messages never get a wrong answer exactly if
      what they can ask for is well formed. */
  lemma DeliveryTransparentIffWellFormed(c: WiredConfig, ids: set<ObjectId>)
    requires Loaded(c) && Separate(Asked(c, ids), ids)
    ensures DeliveryTransparent(c, ids) <==> WellFormed(Asked(c, ids))
  {
    hide AnswersRight, Separate, WellFormed;
    AskedIsLoaded(c, ids);
    if WellFormed(Asked(c, ids)) {
      forall ds: seq<Delivery>, d: Delivery | Within(ds, ids) && d.id in ids
        ensures AnswersRight(DeliverAll(c, ds), d)
      {
        WellFormedAnswersRight(c, ids, ds, d);
      }
    }
    if DeliveryTransparent(c, ids) {
      OnlyAskedMatter(c, ids);
      TransparentDeliveryIsWellFormed(Asked(c, ids), ids);
    }
  }

  // ----------------------------------------------------------- beyond separate sensors

  /** Nothing that would be replaced stands behind a text without a placeholder. */
  ghost predicate PlainTail(orig: seq<string>) {
    forall i :: Stop(orig) < i < |orig| ==> !HasPlaceholder(orig[i])
  }

  /** The first refresh of such a range makes it right, though it may be the last one. */
  lemma FirstRefreshIsRight(r: Range, v: Long)
    requires Unused(r) && PlainTail(Keys(r).orig) && PlainTail(Values(r).orig)
    ensures Refreshed(r, v).tags == FreshTags(r, v)
  {
    forall i | 0 <= i < |r.tags| ensures Refreshed(r, v).tags[i] == FreshTags(r, v)[i] {
      RenderFixedIffPlain(Keys(r).orig[i], v, r.vmin, r.vmax);
      RenderFixedIffPlain(Values(r).orig[i], v, r.vmin, r.vmax);
      assert Keys(Refreshed(r, v)).text[i] == Render(r.tags[i].origKey, v, r.vmin, r.vmax);
      assert Values(Refreshed(r, v)).text[i] == Render(r.tags[i].origValue, v, r.vmin, r.vmax);
    }
  }

  ghost predicate RightOnce(rs: seq<Range>, v: Long) {
    forall k :: 0 <= k < |rs| ==>
      Unused(rs[k]) && (rs[k].CheckInRange(v) ==> PlainTail(Keys(rs[k]).orig) && PlainTail(Values(rs[k]).orig))
  }

  lemma {:induction false} ShownOnceIsRight(rs: seq<Range>, v: Long, n: nat)
    requires RightOnce(rs, v) && n <= |rs|
    ensures Shown(RefreshedAll(rs, v), v, n) == FreshShown(rs, v, n)
  {
    hide Unused, PlainTail, Refreshed, FreshTags;
    if n > 0 {
      ShownOnceIsRight(rs, v, n - 1);
      if rs[n - 1].CheckInRange(v) { FirstRefreshIsRight(rs[n - 1], v); }
    }
  }

  /** One user in all, before and after the only refresh its list ever gets. */
  predicate LoneStates(c: Config, id: ObjectId, t: TagsInfo, rs: seq<Range>, v: Long, c': Config) {
    && t.sid in c'.smap && c'.smap[t.sid] == v
    && ((c'.tagsmap == c.tagsmap[t.list := rs] && c'.tags == map[id := [t]])
        || (c'.tagsmap == c.tagsmap[t.list := RefreshedAll(rs, v)]
            && c'.tags == map[id := [t.(initOk := true, prevValue := v)]]))
  }

  /** With a single user under a sensor, one request is one service. */
  lemma OneUser(c: WiredConfig, id: ObjectId)
    requires id in c.tags && |c.tags[id]| == 1
    ensures WiredInfo(c, c.tags[id][0])
    ensures GetState(c, id) == Served(c, id, 0) && GetTags(c, id) == Contribution(c, id, 0)
    ensures Recomputed(c, id) == FreshContribution(c, c.tags[id][0])
  {
    hide Wired, Served, Contribution, FreshContribution;
    assert WiredInfo(c, c.tags[id][0]) by { InfoAt(c, id, 0); }
    assert After(c, id, 0) == c && After(c, id, 1) == Served(c, id, 0);
    assert Output(c, id, 0) == [] && Output(c, id, 1) == [] + Contribution(c, id, 0);
    assert FreshOutput(c, id, 0) == [] && FreshOutput(c, id, 1) == [] + FreshContribution(c, c.tags[id][0]);
  }

  lemma InfoAt(c: WiredConfig, id: ObjectId, i: nat)
    requires id in c.tags && i < |c.tags[id]|
    ensures WiredInfo(c, c.tags[id][i])
  {
  }

  lemma RefreshedAllSame(rs: seq<Range>, v: Long)
    ensures SameRanges(rs, RefreshedAll(rs, v))
    ensures FreshShown(RefreshedAll(rs, v), v, |rs|) == FreshShown(rs, v, |rs|)
  {
    forall k | 0 <= k < |rs| ensures SameRange(rs[k], RefreshedAll(rs, v)[k]) {}
    FreshShownOfSame(rs, RefreshedAll(rs, v), v, |rs|);
  }

  lemma Overwritten<K, T>(m: map<K, seq<T>>, k: K, a: seq<T>, b: seq<T>)
    ensures m[k := a][k := b] == m[k := b]
  {
  }

  lemma LoneStep(c: Config, id: ObjectId, t: TagsInfo, rs: seq<Range>, v: Long, c': WiredConfig, d: Delivery)
    requires t.anyTags == [] && !t.initOk && d.id != t.sid && RightOnce(rs, v) && LoneStates(c, id, t, rs, v, c')
    ensures LoneStates(c, id, t, rs, v, Delivered(c', d)) && AnswersRight(c', d)
  {
    hide RightOnce, Wired, Shown, FreshShown, After, Output, FreshOutput, RefreshedAll;
    var c'' := Told(c', d);
    if d.id == id {
      OneUser(c'', id);
      ShownOnceIsRight(rs, v, |rs|);
      RefreshedAllSame(rs, v);
      var u := c''.tags[id][0];
      if !u.initOk {
        Overwritten(c.tagsmap, t.list, rs, RefreshedAll(rs, v));
        var u' := t.(initOk := true, prevValue := v);
        assert [u][0 := u'] == [u'];
        Overwritten(map[], id, [u], [u']);
      }
    }
  }

  lemma {:induction false} LoneRun(c: WiredConfig, ids: set<ObjectId>, id: ObjectId, t: TagsInfo, ds: seq<Delivery>)
    requires Loaded(c) && c.tags == map[id := [t]] && t.anyTags == [] && t.sid !in ids && Within(ds, ids)
    requires WiredInfo(c, t) && RightOnce(c.tagsmap[t.list], c.smap[t.sid])
    ensures LoneStates(c, id, t, c.tagsmap[t.list], c.smap[t.sid], DeliverAll(c, ds))
  {
    assert !c.tags[id][0].initOk;
    if ds == [] {
      assert c.tagsmap == c.tagsmap[t.list := c.tagsmap[t.list]];
    } else {
      LoneRun(c, ids, id, t, ds[..|ds| - 1]);
      hide LoneStates, Delivered, RightOnce;
      LoneStep(c, id, t, c.tagsmap[t.list], c.smap[t.sid], DeliverAll(c, ds[..|ds| - 1]), ds[|ds| - 1]);
    }
  }

  /** A sensor that is never delivered keeps its default, and a list that only its user has
      needs less than well-formedness: without separate sensors the condition above is
      sufficient but not necessary. */
  lemma UndeliveredSensorNeedsLess(c: WiredConfig, ids: set<ObjectId>, id: ObjectId, t: TagsInfo)
    requires Loaded(c) && c.tags == map[id := [t]] && t.anyTags == [] && t.sid !in ids
    requires WiredInfo(c, t) && RightOnce(c.tagsmap[t.list], c.smap[t.sid])
    ensures DeliveryTransparent(c, ids)
  {
    assert !c.tags[id][0].initOk;
    forall ds: seq<Delivery>, d: Delivery | Within(ds, ids) && d.id in ids ensures AnswersRight(DeliverAll(c, ds), d) {
      LoneRun(c, ids, id, t, ds);
      hide LoneStates, RightOnce, AnswersRight;
      LoneStep(c, id, t, c.tagsmap[t.list], c.smap[t.sid], DeliverAll(c, ds), d);
    }
  }

  /** A configuration that is not well formed and yet never fails, because sensor 1 is not
      delivered. */
  function QuietExample(): Config {
    Config(map[1 := 5],
           map["list" := [NewRange(0, 10, [("%v", "%v"), ("x", "%v")])]],
           map[2 := [TagsInfo([], "list", 1, 0, false)]])
  }

  lemma QuietExampleNeverFails()
    ensures var c := QuietExample();
            Loaded(c) && !WellFormed(Asked(c, {2})) && DeliveryTransparent(c, {2})
  {
    var c := QuietExample();
    var r := c.tagsmap["list"][0];
    assert Keys(r).orig == ["%v", "x"] && Values(r).orig == ["%v", "%v"];
    assert StartsWith(VALUE, VALUE) && Contains(VALUE, VALUE) && HasPlaceholder("%v");
    forall p | p in {VALUE, MIN, MAX} { NotContained("x", p); }
    assert !HasPlaceholder("x");
    assert ["%v", "x"][1..] == ["x"] && ["%v", "%v"][1..] == ["%v"] && ["%v"][1..] == [];
    assert Stop(["%v", "x"]) == 1 && Stop(["%v", "%v"]) == 2;
    assert Loaded(c);
    assert !SteadyRange(r) by { assert !HasPlaceholder(Keys(r).orig[1]) && Contains(Keys(r).orig[0], VALUE); }
    assert IsUser(Asked(c, {2}), 2, 0, "list");
    UndeliveredSensorNeedsLess(c, {2}, 2, TagsInfo([], "list", 1, 0, false));
  }
}
