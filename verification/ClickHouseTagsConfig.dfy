/** The tag cache as the program keeps it: three containers updated in place. */
module ClickHouseTags {
  import opened Templates
  import opened TagRanges
  import opened TagsModel

  // ------------------------------------------------------------------ loading

  /** Nothing rendered, nothing switched off yet. */
  ghost predicate Unused(r: Range) {
    && r.vmin <= r.vmax && r.needReplaceKey && r.needReplaceVal
    && Keys(r).text == Keys(r).orig && Values(r).text == Values(r).orig
  }

  ghost predicate DistinctSensors(ts: seq<TagsInfo>) {
    forall i, j :: 0 <= i < j < |ts| ==> ts[i].sid != ts[j].sid
  }

  /** A configuration as loading leaves it, before any tag was asked for. */
  ghost predicate Loaded(c: Config) {
    && Wired(c)
    && (forall list, k :: list in c.tagsmap && 0 <= k < |c.tagsmap[list]| ==> Unused(c.tagsmap[list][k]))
    && (forall id :: id in c.tags ==> DistinctSensors(c.tags[id]))
    && (forall id, i :: id in c.tags && 0 <= i < |c.tags[id]| ==> !c.tags[id][i].initOk)
  }

  /** A range read from the configuration; bounds given the wrong way round are swapped. */
  function NewRange(a: Long, b: Long, pairs: seq<(string, string)>): (r: Range)
    ensures Unused(r)
    ensures forall v: Long :: r.CheckInRange(v) <==> (a <= v <= b || b <= v <= a)
    ensures r.vmin <= r.vmax && {r.vmin, r.vmax} == {a, b}
    ensures |r.tags| == |pairs| && forall i :: 0 <= i < |pairs| ==>
      && r.tags[i].key == r.tags[i].origKey == pairs[i].0
      && r.tags[i].value == r.tags[i].origValue == pairs[i].1
  {
    Range(if a > b then b else a, if a > b then a else b,
          seq(|pairs|, i requires 0 <= i < |pairs| => Tag(pairs[i].0, pairs[i].1, pairs[i].0, pairs[i].1)),
          true, true)
  }

  function PutItem(lst: seq<TagsInfo>, sid: ObjectId, list: string): seq<TagsInfo> {
    if lst == [] then [TagsInfo([], list, sid, 0, false)]
    else if lst[0].sid == sid then [lst[0].(list := list)] + lst[1..]
    else [lst[0]] + PutItem(lst[1..], sid, list)
  }

  lemma {:induction false} PutItemAt(lst: seq<TagsInfo>, sid: ObjectId, list: string, at: nat)
    requires at <= |lst|
    requires forall i :: 0 <= i < at ==> lst[i].sid != sid
    requires at < |lst| ==> lst[at].sid == sid
    ensures PutItem(lst, sid, list) ==
            if at < |lst| then lst[at := lst[at].(list := list)] else lst + [TagsInfo([], list, sid, 0, false)]
  {
    if lst != [] && at > 0 {
      PutItemAt(lst[1..], sid, list, at - 1);
    }
  }

  /** After PutItem the sensors in the list are still distinct, and every entry is an
      old one or concerns `sid` and the new list. */
  lemma {:induction false} PutItemKeeps(lst: seq<TagsInfo>, sid: ObjectId, list: string)
    requires DistinctSensors(lst)
    ensures DistinctSensors(PutItem(lst, sid, list))
    ensures forall t :: t in PutItem(lst, sid, list) ==>
      t in lst || (t.sid == sid && t.list == list && (!t.initOk || exists o :: o in lst && o.initOk))
  {
    if lst != [] && lst[0].sid != sid {
      PutItemKeeps(lst[1..], sid, list);
      var rest := PutItem(lst[1..], sid, list);
      forall t | t in rest ensures t.sid != lst[0].sid {
        if t.sid != sid {
          var j :| 0 <= j < |lst[1..]| && lst[1..][j] == t;
          assert lst[j + 1] == t;
        }
      }
    }
  }

  lemma ItemStaysLoaded(c: Config, c': Config, id: ObjectId, sid: ObjectId, list: string)
    requires Loaded(c) && list in c.tagsmap && c'.tagsmap == c.tagsmap
    requires c'.smap == if sid in c.smap then c.smap else c.smap[sid := 0]
    requires c'.tags == c.tags[id := PutItem(if id in c.tags then c.tags[id] else [], sid, list)]
    ensures Loaded(c')
  {
    var lst := if id in c.tags then c.tags[id] else [];
    PutItemKeeps(lst, sid, list);
    forall x, i | x in c'.tags && 0 <= i < |c'.tags[x]|
      ensures WiredInfo(c', c'.tags[x][i]) && !c'.tags[x][i].initOk
    {
      var t := c'.tags[x][i];
      if x != id {
        assert WiredInfo(c, c.tags[x][i]);
      } else if t in lst {
        var j :| 0 <= j < |lst| && lst[j] == t;
        assert WiredInfo(c, c.tags[id][j]);
      }
    }
  }

  class ClickHouseTagsConfig {
    var smap: map<ObjectId, Long>
    var tagsmap: map<string, seq<Range>>
    var tags: map<ObjectId, seq<TagsInfo>>

    function View(): Config
      reads this
    {
      Config(smap, tagsmap, tags)
    }

    constructor (tagsmap: map<string, seq<Range>>)
      requires forall list, k :: list in tagsmap && 0 <= k < |tagsmap[list]| ==> Unused(tagsmap[list][k])
      ensures View() == Config(map[], tagsmap, map[]) && Loaded(View())
    {
      smap, this.tagsmap, tags := map[], tagsmap, map[];
    }

    /** The first registered default of a sensor wins. */
    method AddState(sid: ObjectId, defval: Long)
      modifies this
      ensures smap == if sid in old(smap) then old(smap) else old(smap)[sid := defval]
      ensures tagsmap == old(tagsmap) && tags == old(tags)
    {
      if sid !in smap {
        smap := smap[sid := defval];
      }
    }

    /** Fixed tags shown while sensor `sid` is not zero replace whatever `id` had. */
    method InitFromTags(id: ObjectId, sid: ObjectId, anyTags: seq<Tag>, defval: Long)
      requires Loaded(View()) && anyTags != []
      modifies this
      ensures Loaded(View()) && tagsmap == old(tagsmap)
      ensures smap == if sid in old(smap) then old(smap) else old(smap)[sid := defval]
      ensures tags == old(tags)[id := [TagsInfo(anyTags, "", sid, 0, false)]]
    {
      AddState(sid, defval);
      tags := tags[id := [TagsInfo(anyTags, "", sid, 0, false)]];
    }

    /** A named list of ranges chosen by sensor `sid` replaces whatever `id` had;
        an unknown name is an error and changes nothing. */
    method InitFromValues(id: ObjectId, sid: ObjectId, list: string, defval: Long) returns (ok: bool)
      requires Loaded(View())
      modifies this
      ensures Loaded(View()) && tagsmap == old(tagsmap)
      ensures ok == (list in tagsmap)
      ensures !ok ==> View() == old(View())
      ensures ok ==> smap == if sid in old(smap) then old(smap) else old(smap)[sid := defval]
      ensures ok ==> tags == old(tags)[id := [TagsInfo([], list, sid, 0, false)]]
    {
      ok := list in tagsmap;
      if ok {
        AddState(sid, defval);
        tags := tags[id := [TagsInfo([], list, sid, 0, false)]];
      }
    }

    /** The place of sensor `sid` among the users of `id`, appended if it is new. */
    method AddTagsInfo(id: ObjectId, sid: ObjectId) returns (at: nat)
      requires id in tags
      modifies this
      ensures tagsmap == old(tagsmap) && id in tags && at < |tags[id]| && tags[id][at].sid == sid
      ensures forall i :: 0 <= i < at && i < |old(tags)[id]| ==> old(tags)[id][i].sid != sid
      ensures at < |old(tags)[id]| ==> View() == old(View())
      ensures at >= |old(tags)[id]| ==>
        && at == |old(tags)[id]|
        && tags == old(tags)[id := old(tags)[id] + [TagsInfo([], "", sid, 0, false)]]
        && smap == if sid in old(smap) then old(smap) else old(smap)[sid := 0]
    {
      var lst := tags[id];
      for i := 0 to |lst|
        invariant forall k :: 0 <= k < i ==> lst[k].sid != sid
        invariant View() == old(View())
      {
        if lst[i].sid == sid {
          return i;
        }
      }
      AddState(sid, 0);
      tags := tags[id := lst + [TagsInfo([], "", sid, 0, false)]];
      at := |lst|;
    }

    /** One entry of a sensor's own tag section: the user of `sid` under `id` is pointed
        at the list, and is appended if there was none. */
    method InitFromTagsItem(id: ObjectId, sid: ObjectId, list: string) returns (ok: bool)
      requires Loaded(View())
      modifies this
      ensures Loaded(View()) && tagsmap == old(tagsmap)
      ensures ok == (list in tagsmap)
      ensures !ok ==> View() == old(View())
      ensures ok ==> smap == if sid in old(smap) then old(smap) else old(smap)[sid := 0]
      ensures ok ==> tags == old(tags)[id := PutItem(if id in old(tags) then old(tags)[id] else [], sid, list)]
    {
      ok := list in tagsmap;
      if ok {
        ghost var c := View();
        if id !in tags {
          tags := tags[id := []];
        }
        ghost var lst := tags[id];
        var at := AddTagsInfo(id, sid);
        tags := tags[id := tags[id][at := tags[id][at].(list := list)]];
        PutItemAt(lst, sid, list, at);
        assert tags[id] == PutItem(lst, sid, list);
        assert tags == c.tags[id := PutItem(lst, sid, list)];
        ItemStaysLoaded(c, View(), id, sid, list);
      }
    }

    // -------------------------------------------------------------- operation

    method UpdateTags(id: ObjectId, value: Long) returns (known: bool)
      modifies this
      ensures known == (id in old(smap))
      ensures View() == UpdateState(old(View()), id, value)
      ensures smap == if id in old(smap) then old(smap)[id := value] else old(smap)
      ensures tagsmap == old(tagsmap) && tags == old(tags)
    {
      known := id in smap;
      if known {
        smap := smap[id := value];
      }
    }

    method GetTags(id: ObjectId) returns (ts: seq<Tag>)
      requires Wired(View())
      modifies this
      ensures ts == TagsModel.GetTags(old(View()), id)
      ensures View() == GetState(old(View()), id)
    {
      if id in tags {
        ts := MakeTags(id);
      } else {
        ts := [];
      }
    }

    method MakeTags(id: ObjectId) returns (ts: seq<Tag>)
      requires Wired(View()) && id in tags
      modifies this
      ensures ts == Output(old(View()), id, |old(tags)[id]|)
      ensures View() == After(old(View()), id, |old(tags)[id]|)
    {
      ghost var c := View();
      ts := [];
      for n := 0 to |tags[id]|
        invariant id in tags && |tags[id]| == |c.tags[id]|
        invariant View() == After(c, id, n)
        invariant ts == Output(c, id, n)
      {
        assert WiredInfo(View(), tags[id][n]);
        var some := MakeUserTags(id, n);
        ts := ts + some;
        assert View() == After(c, id, n + 1);
      }
    }

    /** The body of the outer loop: one user, all ranges of its list. */
    method MakeUserTags(id: ObjectId, n: nat) returns (ts: seq<Tag>)
      requires id in tags && n < |tags[id]| && WiredInfo(View(), tags[id][n])
      modifies this
      ensures ts == Contribution(old(View()), id, n)
      ensures View() == Served(old(View()), id, n)
      ensures var t := old(tags)[id][n];
        && (t.anyTags != [] ==> View() == old(View()) && ts == if smap[t.sid] == 0 then [] else t.anyTags)
        && (t.anyTags == [] && t.initOk && old(smap)[t.sid] == t.prevValue ==> View() == old(View()))
        && (t.anyTags == [] ==>
              (smap == old(smap) && t.list in tagsmap
               && tags == old(tags)[id := old(tags)[id][n := t.(initOk := true, prevValue := smap[t.sid])]]
               && ts == Shown(tagsmap[t.list], smap[t.sid], |tagsmap[t.list]|)))
    {
      var t := tags[id][n];
      if t.anyTags != [] {
        ts := if smap[t.sid] != 0 then t.anyTags else [];
        return;
      }
      var outdated := smap[t.sid] != t.prevValue || !t.initOk;
      ts := MakeRangeTags(t.list, smap[t.sid], outdated);
      if outdated {
        tags := tags[id := tags[id][n := t.(initOk := true, prevValue := smap[t.sid])]];
      } else {
        assert tagsmap == old(tagsmap);
        assert tags[id][n := t] == tags[id] && tags[id := tags[id]] == tags;
      }
    }

    /** The inner loop: refresh each range in place if the user is outdated, and collect
        the texts of the ranges that contain the value. */
    method MakeRangeTags(list: string, v: Long, outdated: bool) returns (ts: seq<Tag>)
      requires list in tagsmap
      modifies this`tagsmap
      ensures var before := old(tagsmap)[list];
              var goal := if outdated then RefreshedAll(before, v) else before;
              tagsmap == old(tagsmap)[list := goal] && ts == Shown(goal, v, |goal|)
    {
      ghost var before := tagsmap[list];
      ghost var goal := if outdated then RefreshedAll(before, v) else before;
      ts := [];
      assert tagsmap == old(tagsmap)[list := before];
      for k := 0 to |tagsmap[list]|
        invariant list in tagsmap && |tagsmap[list]| == |before| == |goal|
        invariant tagsmap == old(tagsmap)[list := tagsmap[list]]
        invariant forall i :: 0 <= i < k ==> tagsmap[list][i] == goal[i]
        invariant forall i :: k <= i < |before| ==> tagsmap[list][i] == before[i]
        invariant ts == Shown(goal, v, k)
      {
        var r := MakeRange(list, k, v, outdated);
        if r.CheckInRange(v) {
          ts := ts + r.tags;
        }
      }
      assert tagsmap[list] == goal;
    }

    /** The refresh at the head of the inner loop. */
    method MakeRange(list: string, k: nat, v: Long, outdated: bool) returns (r: Range)
      requires list in tagsmap && k < |tagsmap[list]|
      modifies this`tagsmap
      ensures r == if outdated then Refreshed(old(tagsmap)[list][k], v) else old(tagsmap)[list][k]
      ensures tagsmap == old(tagsmap)[list := old(tagsmap)[list][k := r]]
    {
      r := tagsmap[list][k];
      if outdated {
        r := UpdateText(r, v);
      }
      tagsmap := tagsmap[list := tagsmap[list][k := r]];
    }
  }
}
