/** Connections and the aggregators that maintain their fields (conn.go, aggregator.go). */
module ConnTrackConn {
  import opened Common
  import opened ConnTrackConfig
  import opened ConnTrackHash
  import opened Float64

  datatype AggOp = Sum | Count | Min | Max | First | Last
  datatype Aggregator = Aggregator(op: AggOp, input: string, output: string, splitAB: bool, initVal: Value,
    reportMissing: bool) {
    predicate Numeric() { op in {Sum, Count, Min, Max} }

    /** What construction guarantees: only numbers are split, and numbers start as numbers, sums from zero. */
    predicate Built() {
      (splitAB ==> Numeric()) && (Numeric() ==> initVal.Float?) && (op == Sum ==> initVal == Float(0.0))
    }

    /** The connection fields this aggregator owns. */
    function Names(): seq<string> {
      if splitAB then [output + "_AB", output + "_BA"] else [output]
    }

    function FieldFor(d: Direction): string {
      if !splitAB then output else if d == AB then output + "_AB" else output + "_BA"
    }
  }

  function NewAggregator(of: OutputField): Option<Aggregator> {
    if of.name == "" then None
    else
      var input := if of.input != "" then of.input else of.name;
      match OperationOf(of.operation)
      case None => None
      case Some(op) => Some(Aggregator(op, input, of.name, of.splitAB, InitVal(op), of.reportMissing))
  }

  /** The value an output field starts from. */
  function InitVal(op: AggOp): Value {
    match op
    case Sum => Float(0.0)
    case Count => Float(0.0)
    case Min => Float(MAX_FLOAT64)
    case Max => Float(-MAX_FLOAT64)
    case First => Nil
    case Last => Nil
  }

  function OperationOf(name: string): Option<AggOp> {
    if name == "sum" then Some(Sum) else if name == "count" then Some(Count)
    else if name == "min" then Some(Min) else if name == "max" then Some(Max)
    else if name == "first" then Some(First) else if name == "last" then Some(Last)
    else None
  }

  // ----- meaning of one update

  /** Numeric reading of a field, zero when there is none: how a record's reader sees an omitted zero. */
  function Num(m: GenericMap, k: string): real {
    if k in m && m[k].Float? then m[k].r else 0.0
  }

  /** The number a flow log contributes; None stands for a reported error, which skips the update. */
  function InputValue(lib: Lib, agg: Aggregator, fl: GenericMap): Option<real> {
    if agg.input !in fl then (if agg.reportMissing then None else Some(0.0)) else lib.toFloat(fl[agg.input])
  }

  function Combine(op: AggOp, curr: real, v: real): real {
    match op
    case Sum => curr + v
    case Count => curr + 1.0
    case Min => if v < curr then v else curr
    case Max => if v > curr then v else curr
    case First => curr
    case Last => curr
  }

  /** The first finite number replaces the initial minimum or maximum, whatever it is. */
  lemma FirstNumberPrevails(op: AggOp, v: real)
    requires op in {Min, Max} && IsFloat64(v)
    ensures Combine(op, InitVal(op).r, v) == v
  {
    LargestFiniteDouble(v);
  }

  function AggUpdated(lib: Lib, agg: Aggregator, m: GenericMap, fl: GenericMap, d: Direction, isNew: bool): GenericMap {
    match agg.op
    case First => if isNew then m[agg.output := Lookup(fl, agg.input)] else m
    case Last => if Lookup(fl, agg.input) != Nil then m[agg.output := Lookup(fl, agg.input)] else m
    case _ =>
      var v := if agg.op == Count then Some(1.0) else InputValue(lib, agg, fl);
      var k := agg.FieldFor(d);
      if v.None? then m else m[k := Float(Combine(agg.op, Num(m, k), v.value))]
  }

  function AllUpdated(
    lib: Lib, aggs: seq<Aggregator>, m: GenericMap, fl: GenericMap, d: Direction, isNew: bool): GenericMap
  {
    if aggs == [] then m
    else
      var n := |aggs| - 1;
      AggUpdated(lib, aggs[n], AllUpdated(lib, aggs[..n], m, fl, d, isNew), fl, d, isNew)
  }

  function AllNames(aggs: seq<Aggregator>): seq<string> {
    if aggs == [] then [] else AllNames(aggs[..|aggs|-1]) + aggs[|aggs|-1].Names()
  }

  /** The fields of a new connection. */
  function InitFields(aggs: seq<Aggregator>): GenericMap {
    if aggs == [] then map[] else AddField(InitFields(aggs[..|aggs|-1]), aggs[|aggs|-1])
  }

  function AddField(m: GenericMap, agg: Aggregator): GenericMap {
    if agg.splitAB then m[agg.output + "_AB" := agg.initVal][agg.output + "_BA" := agg.initVal]
    else m[agg.output := agg.initVal]
  }

  // ----- no update can panic

  /** The aggregator finds its fields, and a numeric one finds numbers in them. */
  predicate Ready(agg: Aggregator, m: GenericMap) {
    && (agg.splitAB ==> agg.Numeric())
    && forall k :: k in agg.Names() ==> k in m && (agg.Numeric() ==> m[k].Float?)
  }

  predicate AllReady(aggs: seq<Aggregator>, m: GenericMap) {
    forall a :: a in aggs ==> Ready(a, m)
  }

  lemma FieldIsNamed(agg: Aggregator, d: Direction)
    ensures agg.FieldFor(d) in agg.Names()
    ensures !agg.splitAB ==> agg.output in agg.Names()
  {
    assert agg.Names()[if agg.splitAB && d != AB then 1 else 0] == agg.FieldFor(d);
    assert !agg.splitAB ==> agg.Names()[0] == agg.output;
  }

  /** One aggregator never touches the fields of another, nor turns its own into something else. */
  lemma UpdateKeepsReady(
    lib: Lib, agg: Aggregator, m: GenericMap, fl: GenericMap, d: Direction, isNew: bool, b: Aggregator)
    requires Ready(agg, m) && Ready(b, m)
    requires agg == b || forall k :: k in agg.Names() ==> k !in b.Names()
    ensures Ready(b, AggUpdated(lib, agg, m, fl, d, isNew))
  {
    FieldIsNamed(agg, d);
  }

  lemma {:induction false} NamesDisjoint(aggs: seq<Aggregator>, i: nat, j: nat)
    requires i < j < |aggs| && NoDup(AllNames(aggs))
    ensures forall k :: k in aggs[i].Names() ==> k !in aggs[j].Names()
  {
    var n := |aggs| - 1;
    if j < n {
      NoDupPrefix(AllNames(aggs[..n]), AllNames(aggs));
      NamesDisjoint(aggs[..n], i, j);
    } else {
      NamesIncluded(aggs[..n], i);
      var before := AllNames(aggs[..n]);
      forall k | k in aggs[i].Names() ensures k !in aggs[n].Names() {
        var x := IndexOf(before, k);
        forall y | 0 <= y < |aggs[n].Names()| ensures aggs[n].Names()[y] != k {
          assert AllNames(aggs)[x] != AllNames(aggs)[|before| + y];
        }
      }
    }
  }

  lemma NoDupPrefix(p: seq<string>, s: seq<string>)
    requires p <= s && NoDup(s)
    ensures NoDup(p)
  {
  }

  lemma {:induction false} NamesIncluded(aggs: seq<Aggregator>, i: nat)
    requires i < |aggs|
    ensures forall k :: k in aggs[i].Names() ==> k in AllNames(aggs)
  {
    if i < |aggs| - 1 {
      NamesIncluded(aggs[..|aggs|-1], i);
    }
  }

  lemma {:induction false} AllUpdatesKeepReady(
    lib: Lib, aggs: seq<Aggregator>, n: nat, m: GenericMap, fl: GenericMap, d: Direction, isNew: bool)
    requires n <= |aggs| && NoDup(AllNames(aggs)) && AllReady(aggs, m)
    ensures AllReady(aggs, AllUpdated(lib, aggs[..n], m, fl, d, isNew))
  {
    if n > 0 {
      AllUpdatesKeepReady(lib, aggs, n - 1, m, fl, d, isNew);
      assert aggs[..n][..n-1] == aggs[..n-1];
      var m' := AllUpdated(lib, aggs[..n-1], m, fl, d, isNew);
      forall b | b in aggs ensures Ready(b, AggUpdated(lib, aggs[n-1], m', fl, d, isNew)) {
        var j := IndexOf(aggs, b);
        if j != n - 1 {
          if j < n - 1 { NamesDisjoint(aggs, j, n - 1); } else { NamesDisjoint(aggs, n - 1, j); }
        }
        UpdateKeepsReady(lib, aggs[n-1], m', fl, d, isNew, b);
      }
    }
  }

  lemma {:induction false} InitFieldsReady(aggs: seq<Aggregator>)
    requires NoDup(AllNames(aggs)) && forall a :: a in aggs ==> a.Built()
    ensures AllReady(aggs, InitFields(aggs))
    ensures InitFields(aggs).Keys == Elems(AllNames(aggs))
  {
    if aggs != [] {
      var n := |aggs| - 1;
      NoDupPrefix(AllNames(aggs[..n]), AllNames(aggs));
      InitFieldsReady(aggs[..n]);
      var m := InitFields(aggs[..n]);
      forall b | b in aggs ensures Ready(b, AddField(m, aggs[n])) {
        var j := IndexOf(aggs, b);
        if j < n {
          assert aggs[..n][j] == b;
          assert Ready(b, m);
          NamesDisjoint(aggs, j, n);
        } else {
          AddedFieldReady(m, b);
        }
      }
    }
  }

  lemma AddedFieldReady(m: GenericMap, agg: Aggregator)
    requires agg.Built()
    ensures Ready(agg, AddField(m, agg))
  {
    forall k | k in agg.Names() ensures k in AddField(m, agg) && AddField(m, agg)[k] == agg.initVal {
    }
  }

  // ----- connections

  /** The value of a connection. */
  datatype Conn = Conn(
    hash: TotalHash, keys: GenericMap, agg: GenericMap, expiry: int, nextHeartbeat: int, reported: bool)

  predicate Exportable(v: Value) { v != Nil && v != Float(0.0) }

  /** The record of a connection: zero and nil aggregates are omitted, keys prevail over aggregates. */
  function Exported(c: Conn): GenericMap {
    (map k | k in c.agg && Exportable(c.agg[k]) :: c.agg[k]) + c.keys
  }

  predicate SelectorMatches(lib: Lib, keys: GenericMap, selector: map<string, Value>) {
    forall k :: k in selector ==> k in keys && lib.matches(keys[k], selector[k])
  }

  /** updateAggValue. The precondition is the panic of the original on a missing field. */
  function WithAggValue(m: GenericMap, fieldName: string, newValue: Value): GenericMap
    requires fieldName in m
  {
    m[fieldName := newValue]
  }

  /** updateAggFnValue. The preconditions are the panics on a missing and on a non-float field. */
  function WithAggFnValue(m: GenericMap, fieldName: string, newValueFn: real -> real): GenericMap
    requires fieldName in m && m[fieldName].Float?
  {
    m[fieldName := Float(newValueFn(m[fieldName].r))]
  }

  /** The update method of the six aggregators: no panic of getOutputField, updateAggValue or updateAggFnValue
      is reachable from fields that are ready. */
  method UpdateAggregate(lib: Lib, agg: Aggregator, m: GenericMap, fl: GenericMap, d: Direction, isNew: bool)
    returns (m': GenericMap)
    requires Ready(agg, m)
    requires agg.splitAB ==> d != NA
    ensures m' == AggUpdated(lib, agg, m, fl, d, isNew)
  {
    FieldIsNamed(agg, d);
    m' := m;
    match agg.op
    case First =>
      if isNew {
        m' := WithAggValue(m, agg.output, Lookup(fl, agg.input));
      }
    case Last =>
      if Lookup(fl, agg.input) != Nil {
        m' := WithAggValue(m, agg.output, Lookup(fl, agg.input));
      }
    case Count =>
      m' := WithAggFnValue(m, agg.FieldFor(d), curr => curr + 1.0);
    case Sum =>
      var v := InputValue(lib, agg, fl);
      if v.Some? {
        m' := WithAggFnValue(m, agg.FieldFor(d), curr => curr + v.value);
      }
    case Min =>
      var v := InputValue(lib, agg, fl);
      if v.Some? {
        m' := WithAggFnValue(m, agg.FieldFor(d), curr => if v.value < curr then v.value else curr);
      }
    case Max =>
      var v := InputValue(lib, agg, fl);
      if v.Some? {
        m' := WithAggFnValue(m, agg.FieldFor(d), curr => if v.value > curr then v.value else curr);
      }
  }

  /** toGenericMap. */
  method ToGenericMap(c: Conn) returns (gm: GenericMap)
    ensures gm == Exported(c)
  {
    gm := map[];
    var todo := c.agg.Keys;
    while todo != {}
      invariant todo <= c.agg.Keys
      invariant gm == map k | k in c.agg && k !in todo && Exportable(c.agg[k]) :: c.agg[k]
    {
      var k :| k in todo;
      if c.agg[k] != Nil && (!c.agg[k].Float? || c.agg[k].r != 0.0) {
        gm := gm[k := c.agg[k]];
      }
      todo := todo - {k};
    }
    gm := Overlay(gm, c.keys);
  }

  /** The second loop of toGenericMap: keys prevail. */
  method Overlay(base: GenericMap, keys: GenericMap) returns (gm: GenericMap)
    ensures gm == base + keys
  {
    gm := base;
    var todo := keys.Keys;
    while todo != {}
      invariant todo <= keys.Keys
      invariant gm == base + map k | k in keys && k !in todo :: keys[k]
    {
      var k :| k in todo;
      gm := gm[k := keys[k]];
      todo := todo - {k};
    }
    assert keys == map k | k in keys :: keys[k];
  }

  method IsMatchSelector(lib: Lib, keys: GenericMap, selector: map<string, Value>) returns (m: bool)
    ensures m <==> SelectorMatches(lib, keys, selector)
  {
    var todo := selector.Keys;
    while todo != {}
      invariant todo <= selector.Keys
      invariant forall k :: k in selector && k !in todo ==> k in keys && lib.matches(keys[k], selector[k])
    {
      var k :| k in todo;
      if k !in keys || !lib.matches(keys[k], selector[k]) {
        return false;
      }
      todo := todo - {k};
    }
    return true;
  }

  /** The first loops of keysFrom: every field of every group. */
  method CopyKeys(cfg: ConnTrack, fl: GenericMap) returns (keys: GenericMap)
    ensures keys == BaseKeys(cfg, fl)
  {
    keys := map[];
    for i := 0 to |cfg.fieldGroups|
      invariant keys.Keys == KeyFields(cfg.fieldGroups[..i])
      invariant forall f :: f in keys ==> keys[f] == Lookup(fl, f)
    {
      ghost var before := keys.Keys;
      var fields := cfg.fieldGroups[i].fields;
      for j := 0 to |fields|
        invariant keys.Keys == before + Elems(fields[..j])
        invariant forall f :: f in keys ==> keys[f] == Lookup(fl, f)
      {
        keys := keys[fields[j] := Lookup(fl, fields[j])];
        assert fields[..j+1] == fields[..j] + [fields[j]];
      }
      KeyFieldsExtend(cfg.fieldGroups, i);
      assert fields[..|fields|] == fields;
    }
    assert cfg.fieldGroups[..|cfg.fieldGroups|] == cfg.fieldGroups;
  }

  /** keysFrom. The indexing of the endpoint fields is the out-of-range access that validation rules out. */
  method KeysFrom(cfg: ConnTrack, fl: GenericMap, swap: bool) returns (keys: GenericMap)
    requires |FieldsA(cfg)| == |FieldsB(cfg)|
    ensures keys == KeysOf(cfg, fl, swap)
  {
    keys := CopyKeys(cfg, fl);
    if swap {
      var fieldsA, fieldsB := GetABFields(cfg);
      for i := 0 to |fieldsA|
        invariant keys == SwapEndpoints(BaseKeys(cfg, fl), fl, fieldsA[..i], fieldsB[..i])
      {
        assert fieldsA[..i+1][..i] == fieldsA[..i] && fieldsB[..i+1][..i] == fieldsB[..i];
        keys := keys[fieldsA[i] := Lookup(fl, fieldsB[i])];
        keys := keys[fieldsB[i] := Lookup(fl, fieldsA[i])];
      }
      assert fieldsA[..|fieldsA|] == fieldsA && fieldsB[..|fieldsA|] == fieldsB;
    }
  }

  /** The builder chain: keys and endpoint swap, aggregates, hash. */
  method BuildConnection(cfg: ConnTrack, aggs: seq<Aggregator>, fl: GenericMap, h: TotalHash, swap: bool)
    returns (conn: Conn)
    requires |FieldsA(cfg)| == |FieldsB(cfg)|
    ensures conn == Conn(ConnHash(h, swap), KeysOf(cfg, fl, swap), InitFields(aggs), 0, 0, false)
  {
    var keys := KeysFrom(cfg, fl, swap);
    var fields: GenericMap := map[];
    for i := 0 to |aggs|
      invariant fields == InitFields(aggs[..i])
    {
      assert aggs[..i+1][..i] == aggs[..i];
      var agg := aggs[i];
      if agg.splitAB {
        fields := fields[agg.FieldFor(AB) := agg.initVal];
        fields := fields[agg.FieldFor(BA) := agg.initVal];
      } else {
        fields := fields[agg.FieldFor(NA) := agg.initVal];
      }
    }
    assert aggs[..|aggs|] == aggs;
    return Conn(if swap then TotalHash(h.hashB, h.hashA, h.hashTotal) else h, keys, fields, 0, 0, false);
  }

  lemma KeyFieldsExtend(gs: seq<FieldGroup>, i: nat)
    requires i < |gs|
    ensures KeyFields(gs[..i+1]) == KeyFields(gs[..i]) + Elems(gs[i].fields)
  {
    assert gs[..i+1] == gs[..i] + [gs[i]];
  }
}
