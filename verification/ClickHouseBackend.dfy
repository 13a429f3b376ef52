/** The ClickHouse backend: seven column buffers filled row by row, written as one block,
    dropped as a whole on overflow; every row carries the dynamic tags of its sensor. */
module ClickHouseBackend {
  import opened LossyLogs
  import opened WholeBlocks
  import opened Templates
  import opened TagRanges
  import opened TagsModel
  import opened ClickHouseTags
  import opened TagsAgreement
  import opened TagsNecessity
  import opened TagsDelivery

  /** A sensor message with the names the object index finds for it, if any. */
  datatype Message = Message(id: ObjectId, value: Long, stamp: int, name: Option<string>,
                             node: Option<string>, supplier: Option<string>, fromAdmin: bool)

  datatype Row = Row(stamp: int, value: Long, name: string, node: string, producer: string,
                     tagKeys: seq<string>, tagValues: seq<string>)

  // ------------------------------------------------ what a row ought to contain

  /** The last value delivered for a sensor, or its default. */
  function LastValue(default: Long, msgs: seq<Message>, id: ObjectId): Long {
    if msgs == [] then default
    else
      var n := |msgs| - 1;
      if msgs[n].id == id then msgs[n].value else LastValue(default, msgs[..n], id)
  }

  /** The value after the newest message for the sensor is the one it delivered. */
  lemma {:induction false} LastValueIsNewest(default: Long, msgs: seq<Message>, id: ObjectId, j: nat)
    requires j < |msgs| && msgs[j].id == id && forall k :: j < k < |msgs| ==> msgs[k].id != id
    ensures LastValue(default, msgs, id) == msgs[j].value
  {
    if j < |msgs| - 1 { LastValueIsNewest(default, msgs[..|msgs| - 1], id, j); }
  }

  lemma {:induction false} NoValueNoChange(default: Long, msgs: seq<Message>, id: ObjectId)
    requires forall k :: 0 <= k < |msgs| ==> msgs[k].id != id
    ensures LastValue(default, msgs, id) == default
  {
    if msgs != [] { NoValueNoChange(default, msgs[..|msgs| - 1], id); }
  }

  function LastValues(defaults: map<ObjectId, Long>, msgs: seq<Message>): (m: map<ObjectId, Long>)
    ensures m.Keys == defaults.Keys
  {
    map id | id in defaults :: LastValue(defaults[id], msgs, id)
  }

  /** The loaded configuration with the sensor values the messages have brought. */
  function Informed(c: WiredConfig, msgs: seq<Message>): (c': Config)
    ensures Wired(c') && SameShape(c, c')
    ensures c'.tagsmap == c.tagsmap && c'.tags == c.tags && c'.smap.Keys == c.smap.Keys
    ensures forall id :: id in c.smap ==> c'.smap[id] == LastValue(c.smap[id], msgs, id)
  {
    InformedIsWired(c, msgs);
    c.(smap := LastValues(c.smap, msgs))
  }

  lemma InformedIsWired(c: Config, msgs: seq<Message>)
    requires Wired(c)
    ensures Wired(c.(smap := LastValues(c.smap, msgs))) && SameShape(c, c.(smap := LastValues(c.smap, msgs)))
  {
    var c' := c.(smap := LastValues(c.smap, msgs));
    forall id, i | id in c'.tags && 0 <= i < |c'.tags[id]| ensures WiredInfo(c', c'.tags[id][i]) {
      assert WiredInfo(c, c.tags[id][i]);
    }
  }

  function Firsts(ts: seq<(string, string)>): seq<string> {
    seq(|ts|, i requires 0 <= i < |ts| => ts[i].0)
  }

  function Seconds(ts: seq<(string, string)>): seq<string> {
    seq(|ts|, i requires 0 <= i < |ts| => ts[i].1)
  }

  function ShownKeys(ts: seq<Tag>): seq<string> {
    seq(|ts|, i requires 0 <= i < |ts| => ts[i].key)
  }

  function ShownValues(ts: seq<Tag>): seq<string> {
    seq(|ts|, i requires 0 <= i < |ts| => ts[i].value)
  }

  /** A row as a function of its message, the fixed tags and the dynamic tags. */
  function RowOf(m: Message, fixed: seq<(string, string)>, dyn: seq<Tag>): Row
    requires m.name.Some?
  {
    Row(m.stamp, m.value, m.name.value,
        match m.node case Some(n) => n case None => "",
        match m.supplier case Some(n) => n case None => if m.fromAdmin then "uniset-admin" else "",
        Firsts(fixed) + ShownKeys(dyn), Seconds(fixed) + ShownValues(dyn))
  }

  /** The fields of a row in terms of its message: what each column takes, the defaults for an
      unknown node and supplier, and the own, the global and the dynamic tags in that order. */
  lemma RowFields(m: Message, own: seq<(string, string)>, globals: seq<(string, string)>, dyn: seq<Tag>)
    requires m.name.Some?
    ensures var row := RowOf(m, own + globals, dyn);
            && row.stamp == m.stamp && row.value == m.value && row.name == m.name.value
            && (m.node.Some? ==> row.node == m.node.value) && (m.node.None? ==> row.node == "")
            && (m.supplier.Some? ==> row.producer == m.supplier.value)
            && (m.supplier.None? ==> row.producer == if m.fromAdmin then "uniset-admin" else "")
            && |row.tagKeys| == |row.tagValues| == |own| + |globals| + |dyn|
            && (forall i :: 0 <= i < |own| ==> row.tagKeys[i] == own[i].0 && row.tagValues[i] == own[i].1)
            && (forall i :: 0 <= i < |globals| ==>
                  row.tagKeys[|own| + i] == globals[i].0 && row.tagValues[|own| + i] == globals[i].1)
            && (forall i :: 0 <= i < |dyn| ==>
                  row.tagKeys[|own| + |globals| + i] == dyn[i].key && row.tagValues[|own| + |globals| + i] == dyn[i].value)
  {
    var row := RowOf(m, own + globals, dyn);
    forall i | 0 <= i < |own| + |globals|
      ensures row.tagKeys[i] == (own + globals)[i].0 && row.tagValues[i] == (own + globals)[i].1 {}
    forall i | 0 <= i < |dyn|
      ensures row.tagKeys[|own + globals| + i] == dyn[i].key && row.tagValues[|own + globals| + i] == dyn[i].value {}
  }

  predicate Known(params: map<ObjectId, seq<(string, string)>>, m: Message) {
    m.id in params && m.name.Some?
  }

  /** The row for the last of the accepted messages `msgs`. */
  function RowFor(c: WiredConfig, params: map<ObjectId, seq<(string, string)>>, globals: seq<(string, string)>,
                  msgs: seq<Message>): Row
    requires msgs != [] && Known(params, msgs[|msgs| - 1])
  {
    var m := msgs[|msgs| - 1];
    RowOf(m, params[m.id] + globals, Recomputed(Informed(c, msgs), m.id))
  }

  // ------------------------------------------------------- what the program stores

  function DeliveryOf(m: Message): Delivery {
    Delivery(m.id, m.value)
  }

  function Deliveries(msgs: seq<Message>): seq<Delivery> {
    seq(|msgs|, i requires 0 <= i < |msgs| => DeliveryOf(msgs[i]))
  }

  /** The tag cache after the accepted messages `msgs`. */
  function Cache(c: WiredConfig, msgs: seq<Message>): WiredConfig {
    DeliverAll(c, Deliveries(msgs))
  }

  lemma CacheStep(c: WiredConfig, msgs: seq<Message>, m: Message)
    ensures Cache(c, msgs + [m]) == Delivered(Cache(c, msgs), DeliveryOf(m))
  {
    assert Deliveries(msgs + [m]) == Deliveries(msgs) + [DeliveryOf(m)];
    DeliverLast(c, Deliveries(msgs), DeliveryOf(m));
  }

  /** The tags that come out of the cache for one more message. */
  function CachedTags(c: WiredConfig, msgs: seq<Message>, m: Message): seq<Tag> {
    TagsModel.GetTags(Told(Cache(c, msgs), DeliveryOf(m)), m.id)
  }

  /** The row the program builds for the last of the accepted messages `msgs`. */
  function RowBuilt(c: WiredConfig, params: map<ObjectId, seq<(string, string)>>, globals: seq<(string, string)>,
                    msgs: seq<Message>): Row
    requires msgs != [] && Known(params, msgs[|msgs| - 1])
  {
    var n := |msgs| - 1;
    RowOf(msgs[n], params[msgs[n].id] + globals, CachedTags(c, msgs[..n], msgs[n]))
  }

  ghost predicate AllKnown(params: map<ObjectId, seq<(string, string)>>, msgs: seq<Message>) {
    forall i :: 0 <= i < |msgs| ==> Known(params, msgs[i])
  }

  /** Every row ever offered is the one the cache gave for its message. */
  ghost predicate RowsRight(c: WiredConfig, params: map<ObjectId, seq<(string, string)>>, globals: seq<(string, string)>,
                            msgs: seq<Message>, rows: Log<Row>)
  {
    && |rows| == |msgs| && AllKnown(params, msgs)
    && forall i :: 0 <= i < |msgs| ==> rows[i].item == RowBuilt(c, params, globals, msgs[..i + 1])
  }

  lemma RowsStayRight(c: WiredConfig, params: map<ObjectId, seq<(string, string)>>, globals: seq<(string, string)>,
                      msgs: seq<Message>, rows: Log<Row>, m: Message, rows': Log<Row>)
    requires RowsRight(c, params, globals, msgs, rows) && Known(params, m)
    requires |rows'| == |rows| + 1 && forall i :: 0 <= i < |rows| ==> rows'[i].item == rows[i].item
    requires rows'[|rows|].item == RowBuilt(c, params, globals, msgs + [m])
    ensures RowsRight(c, params, globals, msgs + [m], rows')
  {
    var msgs' := msgs + [m];
    hide RowBuilt;
    forall i | 0 <= i < |msgs'| ensures rows'[i].item == RowBuilt(c, params, globals, msgs'[..i + 1]) {
      if i < |msgs| {
        assert msgs'[..i + 1] == msgs[..i + 1];
      } else {
        assert msgs'[..i + 1] == msgs';
      }
    }
  }

  // ---------------------------------------------- when the two are the same row

  /** Whatever the cached texts are, the cache knows the last value of every sensor. */
  lemma {:induction false} CacheIsInformed(c: WiredConfig, msgs: seq<Message>)
    ensures SameShape(c, Cache(c, msgs)) && Cache(c, msgs).smap == LastValues(c.smap, msgs)
  {
    DeliverAllKeepsShape(c, Deliveries(msgs));
    if msgs == [] {
      assert Cache(c, []) == c;
    } else {
      var n := |msgs| - 1;
      CacheIsInformed(c, msgs[..n]);
      CacheStep(c, msgs[..n], msgs[n]);
      assert msgs == msgs[..n] + [msgs[n]];
      hide Deliveries, DeliverAll;
    }
  }

  /** What the tags ought to be is the same for the cache and for the last values. */
  lemma RecomputedFromMessages(c: WiredConfig, msgs: seq<Message>)
    requires msgs != []
    ensures var n := |msgs| - 1;
            Recomputed(Told(Cache(c, msgs[..n]), DeliveryOf(msgs[n])), msgs[n].id) == Recomputed(Informed(c, msgs), msgs[n].id)
  {
    var n := |msgs| - 1;
    var c1, c2 := Told(Cache(c, msgs[..n]), DeliveryOf(msgs[n])), Informed(c, msgs);
    CacheIsInformed(c, msgs[..n]);
    assert SameShape(c1, c2);
    assert c1.smap == c2.smap;
    RecomputedDependsOnShape(c1, c2, msgs[n].id);
  }

  lemma RowsTellTags(m: Message, fixed: seq<(string, string)>, a: seq<Tag>, b: seq<Tag>)
    requires m.name.Some? && SameOriginals(a, b)
    ensures RowOf(m, fixed, a) == RowOf(m, fixed, b) <==> a == b
  {
    if RowOf(m, fixed, a) == RowOf(m, fixed, b) {
      SplitEqual(Firsts(fixed), ShownKeys(a), Firsts(fixed), ShownKeys(b));
      SplitEqual(Seconds(fixed), ShownValues(a), Seconds(fixed), ShownValues(b));
      forall i | 0 <= i < |a| ensures a[i] == b[i] {
        assert ShownKeys(a)[i] == ShownKeys(b)[i] && ShownValues(a)[i] == ShownValues(b)[i];
      }
    }
  }

  /** The stored row is the one called for exactly if the cache answered rightly. */
  lemma RowBuiltIffAnswerRight(c: WiredConfig, params: map<ObjectId, seq<(string, string)>>,
                               globals: seq<(string, string)>, msgs: seq<Message>)
    requires msgs != [] && Known(params, msgs[|msgs| - 1])
    ensures var n := |msgs| - 1;
            RowBuilt(c, params, globals, msgs) == RowFor(c, params, globals, msgs)
            <==> AnswersRight(Cache(c, msgs[..n]), DeliveryOf(msgs[n]))
  {
    var n := |msgs| - 1;
    var id, c' := msgs[n].id, Told(Cache(c, msgs[..n]), DeliveryOf(msgs[n]));
    RecomputedFromMessages(c, msgs);
    if id in c'.tags { OutputOriginals(c', id, |c'.tags[id]|); }
    hide RowOf;
    RowsTellTags(msgs[n], params[id] + globals, TagsModel.GetTags(c', id), Recomputed(c', id));
  }

  /** Every row that any accepted messages lead to is the one they call for. */
  ghost predicate RowsPure(c: WiredConfig, params: map<ObjectId, seq<(string, string)>>, globals: seq<(string, string)>) {
    forall msgs :: msgs != [] && AllKnown(params, msgs) ==>
      RowBuilt(c, params, globals, msgs) == RowFor(c, params, globals, msgs)
  }

  function MessageOf(d: Delivery): Message {
    Message(d.id, d.value, 0, Some(""), None, None, false)
  }

  function MessagesOf(ds: seq<Delivery>): (msgs: seq<Message>)
    ensures Deliveries(msgs) == ds
  {
    seq(|ds|, i requires 0 <= i < |ds| => MessageOf(ds[i]))
  }

  lemma RowsPureIffTransparent(c: WiredConfig, params: map<ObjectId, seq<(string, string)>>, globals: seq<(string, string)>)
    ensures RowsPure(c, params, globals) <==> DeliveryTransparent(c, params.Keys)
  {
    hide AnswersRight, RowBuilt, RowFor;
    if RowsPure(c, params, globals) {
      forall ds: seq<Delivery>, d: Delivery | Within(ds, params.Keys) && d.id in params.Keys
        ensures AnswersRight(DeliverAll(c, ds), d)
      {
        var msgs := MessagesOf(ds) + [MessageOf(d)];
        assert AllKnown(params, msgs) && msgs[..|ds|] == MessagesOf(ds);
        RowBuiltIffAnswerRight(c, params, globals, msgs);
      }
    }
    if DeliveryTransparent(c, params.Keys) {
      forall msgs | msgs != [] && AllKnown(params, msgs)
        ensures RowBuilt(c, params, globals, msgs) == RowFor(c, params, globals, msgs)
      {
        var n := |msgs| - 1;
        assert Within(Deliveries(msgs[..n]), params.Keys) && Known(params, msgs[n]);
        RowBuiltIffAnswerRight(c, params, globals, msgs);
      }
    }
  }

  /** Whatever the sensors, rows are right if what can be asked for is well formed. */
  lemma WellFormedRowsArePure(c: WiredConfig, params: map<ObjectId, seq<(string, string)>>, globals: seq<(string, string)>,
                              msgs: seq<Message>)
    requires Loaded(c) && WellFormed(Asked(c, params.Keys)) && msgs != [] && AllKnown(params, msgs)
    ensures RowBuilt(c, params, globals, msgs) == RowFor(c, params, globals, msgs)
  {
    var n := |msgs| - 1;
    assert Known(params, msgs[n]);
    WellFormedAnswersRight(c, params.Keys, Deliveries(msgs[..n]), DeliveryOf(msgs[n]));
    RowBuiltIffAnswerRight(c, params, globals, msgs);
  }

  /** With separate sensors rows are always right exactly if that is so. */
  lemma RowsPureIffWellFormed(c: WiredConfig, params: map<ObjectId, seq<(string, string)>>, globals: seq<(string, string)>)
    requires Loaded(c) && Separate(Asked(c, params.Keys), params.Keys)
    ensures RowsPure(c, params, globals) <==> WellFormed(Asked(c, params.Keys))
  {
    RowsPureIffTransparent(c, params, globals);
    DeliveryTransparentIffWellFormed(c, params.Keys);
  }

  /** Seven equally long columns read row by row. */
  function Zip(stamps: seq<int>, values: seq<Long>, names: seq<string>, nodes: seq<string>, producers: seq<string>,
               keys: seq<seq<string>>, vals: seq<seq<string>>): (rows: seq<Row>)
    requires |values| == |names| == |nodes| == |producers| == |keys| == |vals| == |stamps|
    ensures |rows| == |stamps|
  {
    seq(|stamps|, i requires 0 <= i < |stamps| =>
      Row(stamps[i], values[i], names[i], nodes[i], producers[i], keys[i], vals[i]))
  }

  lemma ZipAppend(stamps: seq<int>, values: seq<Long>, names: seq<string>, nodes: seq<string>, producers: seq<string>,
                  keys: seq<seq<string>>, vals: seq<seq<string>>, r: Row)
    requires |values| == |names| == |nodes| == |producers| == |keys| == |vals| == |stamps|
    ensures Zip(stamps + [r.stamp], values + [r.value], names + [r.name], nodes + [r.node], producers + [r.producer],
                keys + [r.tagKeys], vals + [r.tagValues])
            == Zip(stamps, values, names, nodes, producers, keys, vals) + [r]
  {
  }

  // ----------------------------------------------------------- the overflow policy

  /** The buffered rows, the rows inserted so far and the number of rows lost. */
  datatype Store = Store(buf: seq<Row>, inserted: seq<Row>, lost: nat)

  /** A buffer that has reached `size` is written; failing that, one that has reached
      `maxSize` is emptied at the expense of everything in it. */
  function WrittenOrDropped(s: Store, size: nat, maxSize: nat, canWrite: bool): Store {
    if |s.buf| < size || s.buf == [] then s
    else if canWrite then Store([], s.inserted + s.buf, s.lost)
    else if |s.buf| >= maxSize then Store([], s.inserted, s.lost + |s.buf|)
    else s
  }

  function Limit(size: nat, maxSize: nat): (m: nat)
    ensures m >= size && m >= maxSize && m >= 1 && (m == size || m == maxSize || m == 1)
  {
    if size >= maxSize && size >= 1 then size else if maxSize >= 1 then maxSize else 1
  }

  /** The buffer stays below its limit, and an overflow loses exactly that many rows. */
  lemma OverflowLosesTheLimit(s: Store, row: Row, size: nat, maxSize: nat, canWrite: bool)
    requires |s.buf| < Limit(size, maxSize)
    ensures var s' := WrittenOrDropped(s.(buf := s.buf + [row]), size, maxSize, canWrite);
            && |s'.buf| < Limit(size, maxSize)
            && (s'.lost == s.lost || s'.lost == s.lost + Limit(size, maxSize))
            && (s'.lost == s.lost ==> s'.inserted + s'.buf == s.inserted + s.buf + [row])
            && (s'.lost != s.lost ==> s'.inserted == s.inserted && s'.buf == [])
  {
    assert s.inserted + (s.buf + [row]) == s.inserted + s.buf + [row];
    assert s.inserted + (s.buf + [row]) + [] == s.inserted + (s.buf + [row]);
  }

  // ------------------------------------------------------------------ the backend

  class BackendClickHouse {
    const params: map<ObjectId, seq<(string, string)>>
    const globalTags: seq<(string, string)>
    const bufSize: nat
    const bufMaxSize: nat
    const dyntags: ClickHouseTagsConfig

    var colTimeStamp: seq<int>
    var colValue: seq<Long>
    var colName: seq<string>
    var colNodeName: seq<string>
    var colProducer: seq<string>
    var arrTagKeys: seq<seq<string>>
    var arrTagValues: seq<seq<string>>
    var timerIsOn: bool
    var connectOk: bool
    var reconnectAsked: bool

    ghost const loaded: WiredConfig
    ghost var msgs: seq<Message>
    ghost var rows: Log<Row>
    ghost var inserted: seq<Row>
    ghost var segments: seq<Segment<Row>>    // the blocks written or dropped so far

    predicate ColumnsEqual()
      reads this`colTimeStamp, this`colValue, this`colName, this`colNodeName, this`colProducer,
            this`arrTagKeys, this`arrTagValues
    {
      |colValue| == |colTimeStamp| && |colName| == |colTimeStamp| && |colNodeName| == |colTimeStamp|
      && |colProducer| == |colTimeStamp| && |arrTagKeys| == |colTimeStamp| && |arrTagValues| == |colTimeStamp|
    }

    function Buffered(): seq<Row>
      requires ColumnsEqual()
      reads this`colTimeStamp, this`colValue, this`colName, this`colNodeName, this`colProducer,
            this`arrTagKeys, this`arrTagValues
    {
      Zip(colTimeStamp, colValue, colName, colNodeName, colProducer, arrTagKeys, arrTagValues)
    }

    ghost function Stored(): Store
      requires ColumnsEqual()
      reads this`colTimeStamp, this`colValue, this`colName, this`colNodeName, this`colProducer,
            this`arrTagKeys, this`arrTagValues, this`rows, this`inserted
    {
      Store(Buffered(), inserted, |Items(rows, Lost)|)
    }

    /** The tag cache is where the accepted messages have brought it. */
    ghost predicate TagsOk()
      reads this`msgs, dyntags
    {
      dyntags.View() == Cache(loaded, msgs)
    }

    /** The columns are the buffer of the log of rows, and what is no longer buffered was
        written or dropped in whole blocks, the dropped ones at the limit. */
    ghost predicate RowsOk()
      reads this`colTimeStamp, this`colValue, this`colName, this`colNodeName, this`colProducer,
            this`arrTagKeys, this`arrTagValues, this`rows, this`inserted, this`segments
    {
      && ColumnsEqual() && InOrder(rows)
      && Buffered() == Items(rows, Pending) && inserted == Items(rows, Committed) && Items(rows, Rejected) == []
      && Segmented(rows, segments, Buffered(), Limit(bufSize, bufMaxSize))
    }

    ghost predicate Valid()
      reads this, dyntags
    {
      && Loaded(loaded)
      && TagsOk() && RowsOk() && |colTimeStamp| < Limit(bufSize, bufMaxSize)
      && RowsRight(loaded, params, globalTags, msgs, rows)
    }

    constructor (params: map<ObjectId, seq<(string, string)>>, globalTags: seq<(string, string)>,
                 bufSize: nat, bufMaxSize: nat, dyntags: ClickHouseTagsConfig)
      requires Loaded(dyntags.View())
      ensures Valid() && msgs == [] && rows == [] && inserted == [] && loaded == dyntags.View()
      ensures this.dyntags == dyntags && this.params == params && this.globalTags == globalTags
    {
      this.params, this.globalTags, this.bufSize, this.bufMaxSize := params, globalTags, bufSize, bufMaxSize;
      this.dyntags := dyntags;
      colTimeStamp, colValue, colName, colNodeName, colProducer := [], [], [], [], [];
      arrTagKeys, arrTagValues := [], [];
      timerIsOn, connectOk, reconnectAsked := false, false, false;
      loaded := dyntags.View();
      msgs, rows, inserted, segments := [], [], [], [];
    }

    /** The three loops that collect the tags of one row. */
    method CollectTags(own: seq<(string, string)>, dyn: seq<Tag>) returns (key: seq<string>, val: seq<string>)
      ensures key == Firsts(own + globalTags) + ShownKeys(dyn)
      ensures val == Seconds(own + globalTags) + ShownValues(dyn)
    {
      key, val := [], [];
      for i := 0 to |own|
        invariant key == Firsts(own[..i]) && val == Seconds(own[..i])
      {
        key := key + [own[i].0];
        val := val + [own[i].1];
      }
      assert own[..|own|] == own;
      for i := 0 to |globalTags|
        invariant key == Firsts(own) + Firsts(globalTags[..i]) && val == Seconds(own) + Seconds(globalTags[..i])
      {
        key := key + [globalTags[i].0];
        val := val + [globalTags[i].1];
      }
      assert globalTags[..|globalTags|] == globalTags;
      assert key == Firsts(own + globalTags) && val == Seconds(own + globalTags);
      for i := 0 to |dyn|
        invariant key == Firsts(own + globalTags) + ShownKeys(dyn[..i])
        invariant val == Seconds(own + globalTags) + ShownValues(dyn[..i])
      {
        key := key + [dyn[i].key];
        val := val + [dyn[i].value];
      }
      assert dyn[..|dyn|] == dyn;
    }

    /** The row the program builds for a message: its dynamic tags come out of the cache. */
    ghost function NextRow(m: Message): Row
      requires Known(params, m)
      reads this`msgs
    {
      RowBuilt(loaded, params, globalTags, msgs + [m])
    }

    lemma NextRowIs(m: Message)
      requires Known(params, m)
      ensures NextRow(m) == RowOf(m, params[m.id] + globalTags, CachedTags(loaded, msgs, m))
    {
      assert (msgs + [m])[..|msgs|] == msgs;
    }

    /** The dynamic tags of one message: update the cache, then ask it. */
    method DynamicTags(m: Message) returns (dyn: seq<Tag>)
      requires TagsOk()
      modifies this`msgs, dyntags
      ensures msgs == old(msgs) + [m] && TagsOk()
      ensures dyn == CachedTags(loaded, old(msgs), m)
    {
      hide Wired, Cache;
      var _ := dyntags.UpdateTags(m.id, m.value);
      dyn := dyntags.GetTags(m.id);
      CacheStep(loaded, msgs, m);
      msgs := msgs + [m];
    }

    /** The five plain columns. */
    method AppendFields(m: Message)
      requires m.name.Some?
      modifies this`colTimeStamp, this`colValue, this`colName, this`colNodeName, this`colProducer
      ensures colTimeStamp == old(colTimeStamp) + [m.stamp] && colValue == old(colValue) + [m.value]
      ensures colName == old(colName) + [m.name.value]
      ensures colNodeName == old(colNodeName) + [if m.node.Some? then m.node.value else ""]
      ensures colProducer == old(colProducer) +
        [if m.supplier.Some? then m.supplier.value else if m.fromAdmin then "uniset-admin" else ""]
      ensures forall fixed, dyn :: var r := RowOf(m, fixed, dyn);
        && colTimeStamp == old(colTimeStamp) + [r.stamp] && colValue == old(colValue) + [r.value]
        && colName == old(colName) + [r.name] && colNodeName == old(colNodeName) + [r.node]
        && colProducer == old(colProducer) + [r.producer]
    {
      colTimeStamp := colTimeStamp + [m.stamp];
      colValue := colValue + [m.value];
      colName := colName + [m.name.value];
      if m.node.Some? {
        colNodeName := colNodeName + [m.node.value];
      } else {
        colNodeName := colNodeName + [""];
      }
      if m.supplier.Some? {
        colProducer := colProducer + [m.supplier.value];
      } else if m.fromAdmin {
        colProducer := colProducer + ["uniset-admin"];
      } else {
        colProducer := colProducer + [""];
      }
    }

    /** The two tag columns, with the dynamic tags brought up to date on the way. */
    method AppendTags(m: Message) returns (ghost dyn: seq<Tag>)
      requires TagsOk() && Known(params, m)
      modifies this`arrTagKeys, this`arrTagValues, this`msgs, dyntags
      ensures TagsOk() && msgs == old(msgs) + [m]
      ensures dyn == CachedTags(loaded, old(msgs), m)
      ensures var r := RowOf(m, params[m.id] + globalTags, dyn);
              arrTagKeys == old(arrTagKeys) + [r.tagKeys] && arrTagValues == old(arrTagValues) + [r.tagValues]
    {
      var dtags := DynamicTags(m);
      var key, val := CollectTags(params[m.id], dtags);
      arrTagKeys := arrTagKeys + [key];
      arrTagValues := arrTagValues + [val];
      dyn := dtags;
    }

    /** The first half of sensorInfo: one value is appended to each of the seven columns. */
    method AppendRow(m: Message)
      requires TagsOk() && RowsOk() && RowsRight(loaded, params, globalTags, msgs, rows) && Known(params, m)
      modifies this`colTimeStamp, this`colValue, this`colName, this`colNodeName, this`colProducer,
               this`arrTagKeys, this`arrTagValues, this`msgs, this`rows, dyntags
      ensures TagsOk() && RowsOk() && RowsRight(loaded, params, globalTags, msgs, rows)
      ensures msgs == old(msgs) + [m] && Evolves(old(rows), rows)
      ensures var row := old(NextRow(m));
              && Offered(rows) == Offered(old(rows)) + [row]
              && Stored() == old(Stored()).(buf := old(Stored()).buf + [row])
    {
      hide Zip, Items, InOrder, Offered, Wired, TagsOk, RowsRight, Evolves, RowOf, RowBuilt, CachedTags, Segmented;
      NextRowIs(m);
      AppendFields(m);
      ghost var dyn := AppendTags(m);
      ghost var row := RowOf(m, params[m.id] + globalTags, dyn);
      ZipAppend(old(colTimeStamp), old(colValue), old(colName), old(colNodeName), old(colProducer),
                old(arrTagKeys), old(arrTagValues), row);
      AppendFacts(rows, row, Pending);
      AppendedItem(rows, row);
      SegmentedAppend(rows, segments, old(Buffered()), Limit(bufSize, bufMaxSize), row);
      RowsStayRight(loaded, params, globalTags, old(msgs), rows, m, Append(rows, row, Pending));
      rows := Append(rows, row, Pending);
    }

    static lemma AppendedItem(rows: Log<Row>, row: Row)
      ensures var rows' := Append(rows, row, Pending);
              && |rows'| == |rows| + 1 && rows'[|rows|].item == row
              && forall i :: 0 <= i < |rows| ==> rows'[i].item == rows[i].item
    {
    }

    method ClearData()
      modifies this`colTimeStamp, this`colValue, this`colName, this`colNodeName, this`colProducer,
               this`arrTagKeys, this`arrTagValues
      ensures ColumnsEqual() && Buffered() == []
    {
      colTimeStamp := [];
      colValue := [];
      colName := [];
      colNodeName := [];
      colProducer := [];
      arrTagKeys := [];
      arrTagValues := [];
    }

    /** flushBuffer: the whole block is inserted, or nothing happens at all. */
    method FlushBuffer(insertOk: bool) returns (ok: bool)
      requires RowsOk()
      modifies this`colTimeStamp, this`colValue, this`colName, this`colNodeName, this`colProducer,
               this`arrTagKeys, this`arrTagValues, this`rows, this`inserted, this`segments
      ensures RowsOk() && Evolves(old(rows), rows) && |rows| == |old(rows)| && Offered(rows) == Offered(old(rows))
      ensures ok == (old(Buffered()) != [] && connectOk && insertOk)
      ensures Buffered() == (if ok then [] else old(Buffered()))
      ensures inserted == (if ok then old(inserted) + old(Buffered()) else old(inserted))
      ensures Items(rows, Lost) == Items(old(rows), Lost)
    {
      hide Zip, InOrder, Items, Offered, Settle, Segmented;
      assert |Buffered()| == |colTimeStamp|;
      if |colTimeStamp| == 0 {
        return false;
      }
      if !connectOk {
        return false;
      }
      if !insertOk {
        return false;
      }
      CommitAll(rows, |Items(rows, Pending)|);
      SegmentedSettle(rows, segments, Buffered(), Limit(bufSize, bufMaxSize), Committed);
      segments := segments + [Segment(Buffered(), Committed)];
      inserted := inserted + Buffered();
      rows := Settle(rows, 0, |Items(rows, Pending)|, Committed);
      ClearData();
      ok := true;
    }

    /** Evolution keeps the rows right: items are never changed. */
    static lemma RowsRightEvolves(c: WiredConfig, params: map<ObjectId, seq<(string, string)>>,
                                  globals: seq<(string, string)>, msgs: seq<Message>, a: Log<Row>, b: Log<Row>)
      requires RowsRight(c, params, globals, msgs, a) && Evolves(a, b) && |a| == |b|
      ensures RowsRight(c, params, globals, msgs, b)
    {
    }

    /** The overflow branch: everything in the buffer is lost. */
    method DropAllRows()
      requires RowsOk() && |colTimeStamp| == Limit(bufSize, bufMaxSize)
      modifies this`colTimeStamp, this`colValue, this`colName, this`colNodeName, this`colProducer,
               this`arrTagKeys, this`arrTagValues, this`rows, this`segments
      ensures RowsOk() && Evolves(old(rows), rows) && |rows| == |old(rows)| && Offered(rows) == Offered(old(rows))
      ensures Buffered() == [] && |Items(rows, Lost)| == |Items(old(rows), Lost)| + |old(Buffered())|
    {
      hide Zip, InOrder, Items, Offered, Settle, Segmented;
      assert |Buffered()| == |colTimeStamp|;
      LoseStretch(rows, 0, |Items(rows, Pending)|);
      SegmentedSettle(rows, segments, Buffered(), Limit(bufSize, bufMaxSize), Lost);
      segments := segments + [Segment(Buffered(), Lost)];
      rows := Settle(rows, 0, |Items(rows, Pending)|, Lost);
      ClearData();
    }

    /** The second half of sensorInfo: a full buffer is written, and if that fails and it
        has reached its maximum, everything in it is lost. */
    method WriteOrDrop(insertOk: bool) returns (written: bool)
      requires RowsOk() && 0 < |colTimeStamp| <= Limit(bufSize, bufMaxSize)
      modifies this`colTimeStamp, this`colValue, this`colName, this`colNodeName, this`colProducer,
               this`arrTagKeys, this`arrTagValues, this`rows, this`inserted, this`segments
      ensures RowsOk() && Evolves(old(rows), rows) && |rows| == |old(rows)| && Offered(rows) == Offered(old(rows))
      ensures written == (|old(colTimeStamp)| >= bufSize && connectOk && insertOk)
      ensures Stored() == WrittenOrDropped(old(Stored()), bufSize, bufMaxSize, connectOk && insertOk)
    {
      hide InOrder, Items, Offered, Segmented;
      assert |Buffered()| == |colTimeStamp|;
      written := false;
      if |colTimeStamp| >= bufSize {
        written := FlushBuffer(insertOk);
        if written {
          return;
        }
        ghost var before := rows;
        assert |Buffered()| == |colTimeStamp|;
        if |colTimeStamp| >= bufMaxSize {
          DropAllRows();
          EvolvesTransitive(old(rows), before, rows);
        }
      }
    }

    /** What the two halves of sensorInfo do to everything but the flush timer. */
    method AppendAndWrite(m: Message, insertOk: bool) returns (written: bool)
      requires TagsOk() && RowsOk() && RowsRight(loaded, params, globalTags, msgs, rows) && Known(params, m)
      requires |colTimeStamp| < Limit(bufSize, bufMaxSize)
      modifies this`colTimeStamp, this`colValue, this`colName, this`colNodeName, this`colProducer,
               this`arrTagKeys, this`arrTagValues, this`msgs, this`rows, this`inserted, this`segments, dyntags
      ensures TagsOk() && RowsOk() && RowsRight(loaded, params, globalTags, msgs, rows)
      ensures msgs == old(msgs) + [m] && Evolves(old(rows), rows)
      ensures written == (|old(colTimeStamp)| + 1 >= bufSize && connectOk && insertOk)
      ensures var row, before := old(NextRow(m)), old(Stored());
              && Offered(rows) == Offered(old(rows)) + [row]
              && Stored() == WrittenOrDropped(before.(buf := before.buf + [row]), bufSize, bufMaxSize, connectOk && insertOk)
    {
      hide Zip, InOrder, Items, Offered, Evolves, Wired, RowsRight, TagsOk, WrittenOrDropped, NextRow, Segmented, Limit;
      ghost var row, before := NextRow(m), Stored();
      AppendRow(m);
      ghost var longer := rows;
      assert |Buffered()| == |colTimeStamp| && Buffered() == before.buf + [row];
      written := WriteOrDrop(insertOk);
      RowsRightEvolves(loaded, params, globalTags, msgs, longer, rows);
      EvolvesTransitive(old(rows), longer, rows);
    }

    /** sensorInfo for a sensor of ours: the row is buffered, then a full buffer is written
        or dropped. */
    method StoreRow(m: Message, insertOk: bool)
      requires Valid() && Known(params, m)
      modifies this, dyntags
      ensures Valid() && Evolves(old(rows), rows) && msgs == old(msgs) + [m]
      ensures connectOk == old(connectOk) && reconnectAsked == old(reconnectAsked)
      ensures var row, before, canWrite := old(NextRow(m)), old(Stored()), connectOk && insertOk;
              && Offered(rows) == Offered(old(rows)) + [row]
              && Stored() == WrittenOrDropped(before.(buf := before.buf + [row]), bufSize, bufMaxSize, canWrite)
              && timerIsOn == (old(timerIsOn) || !(|before.buf| + 1 >= bufSize && canWrite))
    {
      hide Zip, InOrder, Items, Offered, Evolves, RowsRight, TagsOk, WrittenOrDropped, NextRow, Wired, Limit, Segmented, Loaded;
      ghost var row, before := NextRow(m), Stored();
      var written := AppendAndWrite(m, insertOk);
      OverflowLosesTheLimit(before, row, bufSize, bufMaxSize, connectOk && insertOk);
      AskFlush(written);
    }

    /** The flush timer is asked for once, unless the buffer has just been written. */
    method AskFlush(written: bool)
      modifies this`timerIsOn
      ensures timerIsOn == (old(timerIsOn) || !written)
    {
      if !written && !timerIsOn {
        timerIsOn := true;
      }
    }

    /** sensorInfo: a message for another sensor, or for one without a name, changes nothing. */
    method SensorInfo(m: Message, insertOk: bool) returns (accepted: bool)
      requires Valid()
      modifies this, dyntags
      ensures Valid() && accepted == (m.id in params && m.name.Some?) && Evolves(old(rows), rows)
      ensures !accepted ==> msgs == old(msgs) && rows == old(rows) && Stored() == old(Stored()) && timerIsOn == old(timerIsOn)
      ensures accepted ==>
        var row, before, canWrite := old(NextRow(m)), old(Stored()), connectOk && insertOk;
        && msgs == old(msgs) + [m]
        && Offered(rows) == Offered(old(rows)) + [row]
        && Stored() == WrittenOrDropped(before.(buf := before.buf + [row]), bufSize, bufMaxSize, canWrite)
      ensures accepted ==>
        var row, before, canWrite := old(NextRow(m)), old(Buffered()), connectOk && insertOk;
        && (|before| + 1 < bufSize ==> Buffered() == before + [row] && inserted == old(inserted))
        && (|before| + 1 >= bufSize && canWrite ==> Buffered() == [] && inserted == old(inserted) + (before + [row]))
        && (|before| + 1 >= bufSize && !canWrite && |before| + 1 < bufMaxSize ==>
              Buffered() == before + [row] && inserted == old(inserted))
        && (|before| + 1 >= bufSize && !canWrite && |before| + 1 >= bufMaxSize ==>
              Buffered() == [] && inserted == old(inserted))
      ensures accepted ==>
        var row, own, globals, dyn := old(NextRow(m)), params[m.id], globalTags, CachedTags(loaded, old(msgs), m);
        && row.stamp == m.stamp && row.value == m.value && row.name == m.name.value
        && (m.node.Some? ==> row.node == m.node.value) && (m.node.None? ==> row.node == "")
        && (m.supplier.Some? ==> row.producer == m.supplier.value)
        && (m.supplier.None? ==> row.producer == if m.fromAdmin then "uniset-admin" else "")
        && |row.tagKeys| == |row.tagValues| == |own| + |globals| + |dyn|
        && (forall i :: 0 <= i < |own| ==> row.tagKeys[i] == own[i].0 && row.tagValues[i] == own[i].1)
        && (forall i :: 0 <= i < |globals| ==>
              row.tagKeys[|own| + i] == globals[i].0 && row.tagValues[|own| + i] == globals[i].1)
        && (forall i :: 0 <= i < |dyn| ==>
              row.tagKeys[|own| + |globals| + i] == dyn[i].key && row.tagValues[|own| + |globals| + i] == dyn[i].value)
    {
      hide Zip, InOrder, Items, Offered, Wired, RowsRight, TagsOk, NextRow, Segmented, Loaded, RowOf, CachedTags;
      if m.id in params && m.name.Some? {
        NextRowIs(m);
        RowFields(m, params[m.id], globalTags, CachedTags(loaded, msgs, m));
      }
      if m.id !in params || m.name.None? {
        return false;
      }
      StoreRow(m, insertOk);
      accepted := true;
    }

    method Reconnect(reconnected: bool) returns (ok: bool)
      modifies this`connectOk
      ensures ok == reconnected && connectOk == reconnected
    {
      connectOk := reconnected;
      ok := connectOk;
    }

    /** The flush timer.  The branch in which the write fails and the ping succeeds leaves
        the flag set. */
    method TimerFlush(insertOk: bool, pingOk: bool) returns (ok: bool)
      requires Valid()
      modifies this
      ensures Valid() && msgs == old(msgs) && Evolves(old(rows), rows) && Offered(rows) == Offered(old(rows))
      ensures ok == (old(Buffered()) != [] && connectOk && insertOk) && connectOk == old(connectOk)
      ensures Buffered() == (if ok then [] else old(Buffered()))
      ensures inserted == (if ok then old(inserted) + old(Buffered()) else old(inserted))
      ensures timerIsOn == (!ok && pingOk && old(timerIsOn))
      ensures reconnectAsked == (old(reconnectAsked) || (!ok && !pingOk))
      ensures Items(rows, Lost) == Items(old(rows), Lost)
    {
      hide Zip, InOrder, Items, Offered, Evolves, Wired, RowsRight, TagsOk, Segmented, Loaded;
      assert |Buffered()| == |colTimeStamp|;
      ok := FlushBuffer(insertOk);
      assert |Buffered()| == |colTimeStamp|;
      RowsRightEvolves(loaded, params, globalTags, msgs, old(rows), rows);
      if ok {
        timerIsOn := false;
      } else if !pingOk {
        timerIsOn := false;
        reconnectAsked := true;
      }
    }

    /** The reconnect timer. */
    method TimerReconnect(reconnected: bool, insertOk: bool)
      requires Valid()
      modifies this
      ensures Valid() && msgs == old(msgs) && Evolves(old(rows), rows) && Offered(rows) == Offered(old(rows))
      ensures connectOk == reconnected
      ensures reconnectAsked == (old(reconnectAsked) && !reconnected)
      ensures timerIsOn == (old(timerIsOn) || reconnected)
      ensures Buffered() == (if reconnected && insertOk then [] else old(Buffered()))
      ensures inserted == (if reconnected && insertOk then old(inserted) + old(Buffered()) else old(inserted))
      ensures Items(rows, Lost) == Items(old(rows), Lost)
    {
      hide Zip, InOrder, Items, Offered, Wired, RowsRight, TagsOk, Segmented, Loaded;
      var ok := Reconnect(reconnected);
      if ok {
        reconnectAsked := false;
        assert |Buffered()| == |colTimeStamp|;
        var _ := FlushBuffer(insertOk);
        assert |Buffered()| == |colTimeStamp|;
        RowsRightEvolves(loaded, params, globalTags, msgs, old(rows), rows);
        timerIsOn := true;
      }
    }

    /** In every state between calls the rows built so far split in order into blocks that
        were inserted or dropped as a whole, and then the buffer; every drop lost exactly the
        limit, and what the database holds is the inserted blocks one after another. */
    lemma RowsSplitIntoBlocks()
      requires Valid()
      ensures |Offered(rows)| == |msgs| && Offered(rows) == Joined(segments) + Buffered()
      ensures forall i :: 0 <= i < |segments| ==>
        segments[i].fate == Committed || (segments[i].fate == Lost && |segments[i].items| == Limit(bufSize, bufMaxSize))
      ensures inserted == Joined(WithFate(segments, Committed))
      ensures |Items(rows, Lost)| == |WithFate(segments, Lost)| * Limit(bufSize, bufMaxSize)
      ensures Accounted(Offered(rows), inserted, Buffered(), rows)
    {
      SegmentsTell(rows, segments, Buffered(), Limit(bufSize, bufMaxSize));
      EverythingIsAccounted(rows);
    }

    /** End to end: every row the database holds is the one its message and those accepted
        before it call for, if the tags that can be asked for are well formed; and later rows
        come from later messages. */
    lemma InsertedRowsArePure(k: nat) returns (i: nat)
      requires Valid() && WellFormed(Asked(loaded, params.Keys)) && k < |inserted|
      ensures k < |Positions(rows, Committed)| && i == Positions(rows, Committed)[k]
      ensures i < |msgs| && i < |rows| && rows[i].fate == Committed && Known(params, msgs[i])
      ensures inserted[k] == RowFor(loaded, params, globalTags, msgs[..i + 1])
      ensures var row, m := inserted[k], msgs[i];
        var own, globals, dyn := params[m.id], globalTags, Recomputed(Informed(loaded, msgs[..i + 1]), m.id);
        && row.stamp == m.stamp && row.value == m.value && row.name == m.name.value
        && (m.node.Some? ==> row.node == m.node.value) && (m.node.None? ==> row.node == "")
        && (m.supplier.Some? ==> row.producer == m.supplier.value)
        && (m.supplier.None? ==> row.producer == if m.fromAdmin then "uniset-admin" else "")
        && |row.tagKeys| == |row.tagValues| == |own| + |globals| + |dyn|
        && (forall i :: 0 <= i < |own| ==> row.tagKeys[i] == own[i].0 && row.tagValues[i] == own[i].1)
        && (forall i :: 0 <= i < |globals| ==>
              row.tagKeys[|own| + i] == globals[i].0 && row.tagValues[|own| + i] == globals[i].1)
        && (forall i :: 0 <= i < |dyn| ==>
              row.tagKeys[|own| + |globals| + i] == dyn[i].key && row.tagValues[|own| + |globals| + i] == dyn[i].value)
    {
      hide TagsOk, RowBuilt, WellFormed, Segmented, Zip, Loaded, RowOf, Recomputed;
      ItemsAreSubsequence(rows, Committed);
      i := Positions(rows, Committed)[k];
      Conservation(rows, Committed, i);
      assert Known(params, msgs[i]);
      WellFormedRowsArePure(loaded, params, globalTags, msgs[..i + 1]);
      RowFields(msgs[i], params[msgs[i].id], globalTags, Recomputed(Informed(loaded, msgs[..i + 1]), msgs[i].id));
    }
  }
}
