/** One range of the tag configuration: the tags shown while a sensor value lies in
    `[vmin, vmax]`, with their cached texts and the two "still worth replacing" flags. */
module TagRanges {
  import opened Templates

  datatype Tag = Tag(key: string, value: string, origKey: string, origValue: string)

  datatype Range = Range(vmin: Long, vmax: Long, tags: seq<Tag>,
                         needReplaceKey: bool, needReplaceVal: bool)
  {
    predicate CheckInRange(v: Long) {
      v >= vmin && v <= vmax
    }
  }

  /** Keys and values of a range are refreshed by the same rule and never mix,
      so both are seen as a column of texts with one flag. */
  datatype Column = Column(orig: seq<string>, text: seq<string>, live: bool)

  function Keys(r: Range): Column {
    Column(seq(|r.tags|, i requires 0 <= i < |r.tags| => r.tags[i].origKey),
           seq(|r.tags|, i requires 0 <= i < |r.tags| => r.tags[i].key), r.needReplaceKey)
  }

  function Values(r: Range): Column {
    Column(seq(|r.tags|, i requires 0 <= i < |r.tags| => r.tags[i].origValue),
           seq(|r.tags|, i requires 0 <= i < |r.tags| => r.tags[i].value), r.needReplaceVal)
  }

  // ------------------------------------------------------- refreshing a column

  /** Index of the first text without a placeholder. */
  function Stop(orig: seq<string>): (n: nat)
    ensures n <= |orig|
    ensures forall i :: 0 <= i < n ==> HasPlaceholder(orig[i])
    ensures n < |orig| ==> !HasPlaceholder(orig[n])
  {
    if orig == [] || !HasPlaceholder(orig[0]) then 0 else 1 + Stop(orig[1..])
  }

  /** A live column is rendered up to and including the first text without a
      placeholder; meeting such a text ends its life. */
  function Refresh(c: Column, v: Long, vmin: Long, vmax: Long): Column
    requires |c.text| == |c.orig|
  {
    if !c.live then c
    else Column(c.orig,
                seq(|c.orig|, i requires 0 <= i < |c.orig| =>
                  if i <= Stop(c.orig) then Render(c.orig[i], v, vmin, vmax) else c.text[i]),
                Stop(c.orig) == |c.orig|)
  }

  function Refreshed(r: Range, v: Long): (r': Range)
    ensures Keys(r') == Refresh(Keys(r), v, r.vmin, r.vmax)
    ensures Values(r') == Refresh(Values(r), v, r.vmin, r.vmax)
    ensures r'.vmin == r.vmin && r'.vmax == r.vmax && |r'.tags| == |r.tags|
  {
    var k, w := Refresh(Keys(r), v, r.vmin, r.vmax), Refresh(Values(r), v, r.vmin, r.vmax);
    Range(r.vmin, r.vmax,
          seq(|r.tags|, i requires 0 <= i < |r.tags| =>
            Tag(k.text[i], w.text[i], r.tags[i].origKey, r.tags[i].origValue)),
          k.live, w.live)
  }

  /** The three replacements of one text, and the test that may end the replacing. */
  method UpdateOne(orig: string, cached: string, need: bool, value: Long, vmin: Long, vmax: Long)
    returns (text: string, need': bool)
    ensures text == if need then Render(orig, value, vmin, vmax) else cached
    ensures need' == (need && HasPlaceholder(orig))
    ensures need ==> forall parts :: PlainLiterals(parts) && orig == Spelled(parts) ==>
      text == Filled(parts, value, vmin, vmax)
    ensures need && '%' !in orig ==> text == orig
  {
    text, need' := cached, need;
    if need {
      text := ReplaceAll(orig, VALUE, Decimal(value));
      text := ReplaceAll(text, MIN, Decimal(vmin));
      text := ReplaceAll(text, MAX, Decimal(vmax));
      SequentialIsSimultaneous(orig, Decimal(value), Decimal(vmin), Decimal(vmax));
      RenderFixedIffPlain(orig, value, vmin, vmax);
      if text == orig {
        need' := false;
      }
      forall parts | PlainLiterals(parts) && orig == Spelled(parts)
        ensures Render(orig, value, vmin, vmax) == Filled(parts, value, vmin, vmax)
      {
        RenderSpelled(parts, value, vmin, vmax);
      }
      if '%' !in orig {
        forall p | p in {VALUE, MIN, MAX} { NotContained(orig, p); }
      }
    }
  }

  /** One tag after the pass, given where the pass stops replacing keys and values. */
  function PassedTag(r: Range, v: Long, n: nat, keyStop: nat, valStop: nat): Tag
    requires n < |r.tags|
  {
    var t := r.tags[n];
    Tag(if r.needReplaceKey && n <= keyStop then Render(t.origKey, v, r.vmin, r.vmax) else t.key,
        if r.needReplaceVal && n <= valStop then Render(t.origValue, v, r.vmin, r.vmax) else t.value,
        t.origKey, t.origValue)
  }

  lemma PassedTagsAreRefreshed(r: Range, v: Long, tags: seq<Tag>)
    requires |tags| == |r.tags|
    requires forall i :: 0 <= i < |tags| ==>
      tags[i] == PassedTag(r, v, i, Stop(Keys(r).orig), Stop(Values(r).orig))
    ensures tags == Refreshed(r, v).tags
  {
  }

  lemma StopDecides(orig: seq<string>, n: nat)
    requires n < |orig| && n <= Stop(orig)
    ensures HasPlaceholder(orig[n]) <==> n + 1 <= Stop(orig)
  {
  }

  /** What a refresh does to one tag, told by the texts themselves: while the flag is set
      and every text so far has a placeholder, each part is shown as it should be, in order;
      behind a text without one nothing changes.  Keys and values do not mix. */
  lemma RefreshedTag(r: Range, v: Long, i: nat)
    requires i < |r.tags|
    ensures var r', t := Refreshed(r, v), r.tags[i];
            var keysSoFar := r.needReplaceKey && forall j :: 0 <= j < i ==> HasPlaceholder(r.tags[j].origKey);
            var valsSoFar := r.needReplaceVal && forall j :: 0 <= j < i ==> HasPlaceholder(r.tags[j].origValue);
            && r'.tags[i].origKey == t.origKey && r'.tags[i].origValue == t.origValue
            && (keysSoFar ==> forall parts :: PlainLiterals(parts) && t.origKey == Spelled(parts) ==>
                  r'.tags[i].key == Filled(parts, v, r.vmin, r.vmax))
            && (valsSoFar ==> forall parts :: PlainLiterals(parts) && t.origValue == Spelled(parts) ==>
                  r'.tags[i].value == Filled(parts, v, r.vmin, r.vmax))
            && (!keysSoFar ==> r'.tags[i].key == t.key)
            && (!valsSoFar ==> r'.tags[i].value == t.value)
  {
    hide HasPlaceholder, Spelled, Filled, PlainLiterals, Render, Stop;
    var keys, vals := Keys(r).orig, Values(r).orig;
    forall j | 0 <= j < |r.tags| ensures keys[j] == r.tags[j].origKey && vals[j] == r.tags[j].origValue {}
    forall parts | PlainLiterals(parts)
      ensures r.tags[i].origKey == Spelled(parts) ==>
        Render(r.tags[i].origKey, v, r.vmin, r.vmax) == Filled(parts, v, r.vmin, r.vmax)
      ensures r.tags[i].origValue == Spelled(parts) ==>
        Render(r.tags[i].origValue, v, r.vmin, r.vmax) == Filled(parts, v, r.vmin, r.vmax)
    {
      RenderSpelled(parts, v, r.vmin, r.vmax);
    }
  }

  /** A flag survives a refresh iff it was set and every text has a placeholder. */
  lemma RefreshedFlags(r: Range, v: Long)
    ensures Refreshed(r, v).needReplaceKey <==>
      (r.needReplaceKey && forall i :: 0 <= i < |r.tags| ==> HasPlaceholder(r.tags[i].origKey))
    ensures Refreshed(r, v).needReplaceVal <==>
      (r.needReplaceVal && forall i :: 0 <= i < |r.tags| ==> HasPlaceholder(r.tags[i].origValue))
  {
    hide HasPlaceholder, Render, Stop;
    var keys, vals := Keys(r).orig, Values(r).orig;
    forall j | 0 <= j < |r.tags| ensures keys[j] == r.tags[j].origKey && vals[j] == r.tags[j].origValue {}
  }

  /** Range::updateText: one pass over the tags, in which a text left unchanged by the
      replacement switches the replacing off for the rest of the range, for good. */
  method UpdateText(r: Range, value: Long) returns (r': Range)
    ensures r' == Refreshed(r, value)
  {
    var tags, needKey, needVal := r.tags, r.needReplaceKey, r.needReplaceVal;
    ghost var keys, vals := Keys(r).orig, Values(r).orig;
    ghost var keyStop, valStop := Stop(keys), Stop(vals);
    for n := 0 to |r.tags|
      invariant |tags| == |r.tags|
      invariant needKey == (r.needReplaceKey && n <= keyStop)
      invariant needVal == (r.needReplaceVal && n <= valStop)
      invariant forall i :: 0 <= i < n ==> tags[i] == PassedTag(r, value, i, keyStop, valStop)
      invariant forall i :: n <= i < |tags| ==> tags[i] == r.tags[i]
    {
      var t := tags[n];
      if needKey { StopDecides(keys, n); }
      if needVal { StopDecides(vals, n); }
      var key, value' := t.key, t.value;
      key, needKey := UpdateOne(t.origKey, key, needKey, value, r.vmin, r.vmax);
      value', needVal := UpdateOne(t.origValue, value', needVal, value, r.vmin, r.vmax);
      tags := tags[n := t.(key := key, value := value')];
    }
    PassedTagsAreRefreshed(r, value, tags);
    r' := Range(r.vmin, r.vmax, tags, needKey, needVal);
  }

  // --------------------------------------------- when a cached column is right

  /** Every text shows what it should for the value `v`. */
  ghost predicate Coherent(c: Column, v: Long, vmin: Long, vmax: Long) {
    |c.text| == |c.orig| && forall i :: 0 <= i < |c.orig| ==> c.text[i] == Render(c.orig[i], v, vmin, vmax)
  }

  /** The texts a range may carry without ever going stale: all of them have a
      placeholder, or none mentions `%v` and those with a placeholder come first. */
  ghost predicate Steady(orig: seq<string>) {
    || (forall i :: 0 <= i < |orig| ==> HasPlaceholder(orig[i]))
    || ((forall i :: 0 <= i < |orig| ==> !Contains(orig[i], VALUE))
        && (forall i, j :: 0 <= i < j < |orig| && HasPlaceholder(orig[j]) ==> HasPlaceholder(orig[i])))
  }

  /** What holds of every column the program can produce, steady or not. */
  ghost predicate Reached(c: Column, vmin: Long, vmax: Long) {
    && |c.text| == |c.orig|
    && (forall i :: Stop(c.orig) < i < |c.orig| ==> c.text[i] == c.orig[i])
    && (!c.live ==> Stop(c.orig) < |c.orig| && exists w: Long :: Frozen(c, w, vmin, vmax))
  }

  ghost predicate Frozen(c: Column, w: Long, vmin: Long, vmax: Long)
    requires |c.text| == |c.orig|
  {
    forall i :: 0 <= i <= Stop(c.orig) && i < |c.orig| ==> c.text[i] == Render(c.orig[i], w, vmin, vmax)
  }

  lemma RefreshStaysReached(c: Column, v: Long, vmin: Long, vmax: Long)
    requires Reached(c, vmin, vmax)
    ensures Reached(Refresh(c, v, vmin, vmax), vmin, vmax)
    ensures Refresh(c, v, vmin, vmax).orig == c.orig
  {
    if c.live {
      assert Frozen(Refresh(c, v, vmin, vmax), v, vmin, vmax);
    }
  }

  lemma SteadyFacts(orig: seq<string>)
    requires Steady(orig) && Stop(orig) < |orig|
    ensures forall i :: 0 <= i < |orig| ==> !Contains(orig[i], VALUE)
    ensures forall i :: Stop(orig) < i < |orig| ==> !HasPlaceholder(orig[i])
  {
  }

  /** A refreshed steady column is right, whether or not the refresh still did anything. */
  lemma RefreshMakesCoherent(c: Column, v: Long, vmin: Long, vmax: Long)
    requires Reached(c, vmin, vmax) && Steady(c.orig)
    ensures Coherent(Refresh(c, v, vmin, vmax), v, vmin, vmax)
  {
    var c' := Refresh(c, v, vmin, vmax);
    forall i | 0 <= i < |c.orig| ensures c'.text[i] == Render(c.orig[i], v, vmin, vmax) {
      if Stop(c.orig) < i {
        SteadyFacts(c.orig);
        RenderFixedIffPlain(c.orig[i], v, vmin, vmax);
      } else if !c.live {
        SteadyFacts(c.orig);
        var w :| Frozen(c, w, vmin, vmax);
        RenderIgnoresValue(c.orig[i], v, w, vmin, vmax);
      }
    }
  }

  /** Without `%v` one value is as good as another. */
  lemma CoherentForAny(c: Column, v: Long, w: Long, vmin: Long, vmax: Long)
    requires Coherent(c, v, vmin, vmax)
    requires forall i :: 0 <= i < |c.orig| ==> !Contains(c.orig[i], VALUE)
    ensures Coherent(c, w, vmin, vmax)
  {
    forall i | 0 <= i < |c.orig| ensures c.text[i] == Render(c.orig[i], w, vmin, vmax) {
      RenderIgnoresValue(c.orig[i], v, w, vmin, vmax);
    }
  }

  /** An unsteady column has a text hidden behind one without a placeholder, or a
      mention of `%v` in front of such a text. */
  lemma UnsteadyWitness(orig: seq<string>) returns (m: nat)
    requires !Steady(orig)
    ensures m < |orig| && Stop(orig) < |orig|
    ensures (Stop(orig) < m && HasPlaceholder(orig[m])) || (m < Stop(orig) && Contains(orig[m], VALUE))
  {
    if i :| 0 <= i < |orig| && Contains(orig[i], VALUE) {
      m := i;
    } else {
      var i: int, j: int :| 0 <= i < j < |orig| && HasPlaceholder(orig[j]) && !HasPlaceholder(orig[i]);
      m := j;
    }
  }
}
