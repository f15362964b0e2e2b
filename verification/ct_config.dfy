/** Configuration of connection tracking and its validation (pkg/api/conntrack.go). */
module ConnTrackConfig {
  import opened Common

  datatype FieldGroup = FieldGroup(name: string, fields: seq<string>)
  datatype HashDef = HashDef(groupRefs: seq<string>, aRef: string, bRef: string)
  datatype OutputField = OutputField(name: string, operation: string, splitAB: bool, input: string, reportMissing: bool)
  datatype SchedulingGroup = SchedulingGroup(
    selector: map<string, Value>, endConnectionTimeout: int, terminatingTimeout: int, heartbeatInterval: int)
  datatype TCPFlags = TCPFlags(fieldName: string, detectEndConnection: bool, swapAB: bool)
  datatype ConnTrack = ConnTrack(
    fieldGroups: seq<FieldGroup>, hash: HashDef, outputRecordTypes: seq<string>, outputFields: seq<OutputField>,
    scheduling: seq<SchedulingGroup>, maxConnectionsTracked: int, tcpFlags: TCPFlags,
    protoFieldName: string, duplicateFieldName: string)

  datatype ConfigError =
    | OnlyOneOfAB | SplitABWithNoBidi | UnknownOperation | DuplicateOutputFieldNames | DuplicateFieldGroup
    | UndefinedFieldGroupARef | UndefinedFieldGroupBRef | UndefinedFieldGroupRef | UnknownOutputRecord
    | UndefinedSelectorKey | DefaultGroupAndNotLast | ExactlyOneDefaultSelector | EmptyTCPFlagsField
    | SwapABWithNoBidi | MismatchABFieldsCount

  const RECORD_TYPES := {"newConnection", "endConnection", "heartbeat", "flowLog"}

  predicate IsOperationValid(op: string, splitAB: bool) {
    op in {"sum", "count", "min", "max"} || (op in {"first", "last"} && !splitAB)
  }

  /** The names of the aggregate fields that one output field creates in a connection. */
  function NamesOf(f: OutputField): seq<string> {
    if f.splitAB then [f.name + "_AB", f.name + "_BA"] else [f.name]
  }

  function OutputNames(fs: seq<OutputField>): seq<string> {
    if fs == [] then [] else OutputNames(fs[..|fs|-1]) + NamesOf(fs[|fs|-1])
  }

  function GroupNames(gs: seq<FieldGroup>): seq<string> {
    seq(|gs|, i requires 0 <= i < |gs| => gs[i].name)
  }

  /** Fields of the last group called name, as GetABFields finds them. */
  function FieldsOf(gs: seq<FieldGroup>, name: string): seq<string> {
    if gs == [] then [] else if gs[|gs|-1].name == name then gs[|gs|-1].fields else FieldsOf(gs[..|gs|-1], name)
  }

  function KeyFields(gs: seq<FieldGroup>): set<string> {
    set g, f | g in gs && f in g.fields :: f
  }

  const OPERATIONS := {"sum", "count", "min", "max", "first", "last"}

  /** An unknown operation, or a split one that does not yield a number or has no endpoints to split by. */
  predicate BadOutputField(cfg: ConnTrack, f: OutputField) {
    f.operation !in OPERATIONS || (f.splitAB && (cfg.hash.aRef == "" || f.operation in {"first", "last"}))
  }

  predicate BadRef(cfg: ConnTrack, ref: string) {
    ref != "" && ref !in GroupNames(cfg.fieldGroups)
  }

  predicate DefaultIsLastOnly(groups: seq<SchedulingGroup>) {
    forall i :: 0 <= i < |groups| ==> (groups[i].selector == map[] ==> i == |groups| - 1)
  }

  predicate LastIsDefault(groups: seq<SchedulingGroup>) {
    groups != [] && groups[|groups|-1].selector == map[]
  }

  predicate SelectorsDefined(cfg: ConnTrack) {
    forall g, k :: g in cfg.scheduling && k in g.selector ==> k in KeyFields(cfg.fieldGroups)
  }

  /** What an accepted configuration promises; every run-time check of the tracker is discharged from this. */
  predicate ValidConfig(cfg: ConnTrack) {
    && (cfg.hash.aRef == "" <==> cfg.hash.bRef == "")
    && (forall f :: f in cfg.outputFields ==> !BadOutputField(cfg, f))
    && NoDup(OutputNames(cfg.outputFields))
    && NoDup(GroupNames(cfg.fieldGroups))
    && !BadRef(cfg, cfg.hash.aRef) && !BadRef(cfg, cfg.hash.bRef)
    && (forall r :: r in cfg.hash.groupRefs ==> r in GroupNames(cfg.fieldGroups))
    && (forall t :: t in cfg.outputRecordTypes ==> t in RECORD_TYPES)
    && SelectorsDefined(cfg)
    && DefaultIsLastOnly(cfg.scheduling) && LastIsDefault(cfg.scheduling)
    && (cfg.tcpFlags.fieldName == "" ==> !cfg.tcpFlags.detectEndConnection && !cfg.tcpFlags.swapAB)
    && (cfg.tcpFlags.swapAB ==> cfg.hash.aRef != "")
    && |FieldsOf(cfg.fieldGroups, cfg.hash.aRef)| == |FieldsOf(cfg.fieldGroups, cfg.hash.bRef)|
  }

  /** The defect that each error reports. */
  predicate Explains(cfg: ConnTrack, e: ConfigError) {
    match e
    case OnlyOneOfAB => (cfg.hash.aRef == "") != (cfg.hash.bRef == "")
    case SplitABWithNoBidi => cfg.hash.aRef == "" && exists f :: f in cfg.outputFields && f.splitAB
    case UnknownOperation =>
      exists f :: f in cfg.outputFields
        && (f.operation !in OPERATIONS || (f.splitAB && f.operation in {"first", "last"}))
    case DuplicateOutputFieldNames => !NoDup(OutputNames(cfg.outputFields))
    case DuplicateFieldGroup => !NoDup(GroupNames(cfg.fieldGroups))
    case UndefinedFieldGroupARef => BadRef(cfg, cfg.hash.aRef)
    case UndefinedFieldGroupBRef => BadRef(cfg, cfg.hash.bRef)
    case UndefinedFieldGroupRef => exists r :: r in cfg.hash.groupRefs && r !in GroupNames(cfg.fieldGroups)
    case UnknownOutputRecord => exists t :: t in cfg.outputRecordTypes && t !in RECORD_TYPES
    case UndefinedSelectorKey => !SelectorsDefined(cfg)
    case DefaultGroupAndNotLast => !DefaultIsLastOnly(cfg.scheduling)
    case ExactlyOneDefaultSelector => DefaultIsLastOnly(cfg.scheduling) && !LastIsDefault(cfg.scheduling)
    case EmptyTCPFlagsField => cfg.tcpFlags.fieldName == "" && (cfg.tcpFlags.detectEndConnection || cfg.tcpFlags.swapAB)
    case SwapABWithNoBidi => cfg.tcpFlags.swapAB && cfg.hash.aRef == ""
    case MismatchABFieldsCount =>
      |FieldsOf(cfg.fieldGroups, cfg.hash.aRef)| != |FieldsOf(cfg.fieldGroups, cfg.hash.bRef)|
  }

  lemma {:induction false} NamesArePrefix(fs: seq<OutputField>, i: nat)
    requires i <= |fs|
    ensures OutputNames(fs[..i]) <= OutputNames(fs)
    decreases |fs| - i
  {
    if i < |fs| {
      NamesArePrefix(fs, i + 1);
      assert fs[..i+1][..i] == fs[..i];
    } else {
      assert fs[..i] == fs;
    }
  }

  method CheckOperations(cfg: ConnTrack) returns (e: Option<ConfigError>)
    ensures e.None? <==> forall f :: f in cfg.outputFields ==> !BadOutputField(cfg, f)
    ensures e.Some? ==> Explains(cfg, e.value)
    ensures e.Some? ==> e.value in {SplitABWithNoBidi, UnknownOperation}
  {
    for i := 0 to |cfg.outputFields|
      invariant forall j :: 0 <= j < i ==> !BadOutputField(cfg, cfg.outputFields[j])
    {
      var f := cfg.outputFields[i];
      assert f in cfg.outputFields;
      if f.splitAB && cfg.hash.aRef == "" {
        return Some(SplitABWithNoBidi);
      }
      if !IsOperationValid(f.operation, f.splitAB) {
        return Some(UnknownOperation);
      }
    }
    return None;
  }

  /** Adds the names of one field to the set of taken names; false when one of them was taken already. */
  method AddNames(names: set<string>, f: OutputField) returns (unique: bool, names': set<string>)
    ensures unique <==> forall n :: n in NamesOf(f) ==> n !in names
    ensures unique ==> names' == names + Elems(NamesOf(f))
  {
    SuffixesDiffer(f.name);
    if f.splitAB {
      if f.name + "_AB" in names {
        return false, names;
      }
      names' := names + {f.name + "_AB"};
      if f.name + "_BA" in names' {
        assert NamesOf(f)[1] in names;
        return false, names';
      }
      return true, names' + {f.name + "_BA"};
    } else {
      if f.name in names {
        assert NamesOf(f)[0] in names;
        return false, names;
      }
      return true, names + {f.name};
    }
  }

  method CheckOutputNames(fs: seq<OutputField>) returns (unique: bool)
    ensures unique <==> NoDup(OutputNames(fs))
  {
    var names: set<string> := {};
    for i := 0 to |fs|
      invariant NoDup(OutputNames(fs[..i]))
      invariant names == Elems(OutputNames(fs[..i]))
    {
      unique, names := AddNames(names, fs[i]);
      if !unique {
        var name :| name in NamesOf(fs[i]) && name in OutputNames(fs[..i]);
        NotFresh(fs, i, name);
        return false;
      }
      assert fs[..i+1][..i] == fs[..i];
      SuffixesDiffer(fs[i].name);
      NoDupConcat(OutputNames(fs[..i]), NamesOf(fs[i]));
    }
    assert fs[..|fs|] == fs;
    return true;
  }

  lemma NoDupConcat(s: seq<string>, t: seq<string>)
    requires NoDup(s) && NoDup(t) && forall x :: x in t ==> x !in s
    ensures NoDup(s + t)
  {
    forall i, j | 0 <= i < j < |s + t| ensures (s + t)[i] != (s + t)[j] {
      if i < |s| <= j {
        assert (s + t)[i] in s && (s + t)[j] in t;
      }
    }
  }

  lemma SuffixesDiffer(name: string)
    ensures name + "_AB" != name + "_BA"
  {
    assert (name + "_AB")[|name| + 1] == 'A';
  }

  lemma NotFresh(fs: seq<OutputField>, i: nat, name: string)
    requires i < |fs| && name in OutputNames(fs[..i]) && name in NamesOf(fs[i])
    ensures !NoDup(OutputNames(fs))
  {
    NamesArePrefix(fs, i + 1);
    assert fs[..i+1][..i] == fs[..i];
    OccursTwice(OutputNames(fs[..i]), NamesOf(fs[i]), OutputNames(fs), name);
  }

  lemma OccursTwice(seen: seq<string>, more: seq<string>, all: seq<string>, name: string)
    requires name in seen && name in more && seen + more <= all
    ensures !NoDup(all)
  {
    var a, b := IndexOf(seen, name), IndexOf(more, name);
    assert (seen + more)[a] == (seen + more)[|seen| + b] == name;
    assert all[a] == all[|seen| + b];
  }

  method CheckKeys(cfg: ConnTrack) returns (e: Option<ConfigError>)
    ensures e.None? <==>
      && NoDup(GroupNames(cfg.fieldGroups)) && !BadRef(cfg, cfg.hash.aRef) && !BadRef(cfg, cfg.hash.bRef)
      && (forall r :: r in cfg.hash.groupRefs ==> r in GroupNames(cfg.fieldGroups))
    ensures e.Some? ==> Explains(cfg, e.value)
    ensures e.Some? ==> e.value in {DuplicateFieldGroup, UndefinedFieldGroupARef, UndefinedFieldGroupBRef,
      UndefinedFieldGroupRef}
    ensures e.Some? && e.value != DuplicateFieldGroup ==> NoDup(GroupNames(cfg.fieldGroups))
  {
    var groups: set<string> := {};
    ghost var all := GroupNames(cfg.fieldGroups);
    for i := 0 to |cfg.fieldGroups|
      invariant NoDup(all[..i]) && groups == Elems(all[..i])
    {
      var name := cfg.fieldGroups[i].name;
      assert all[i] == name && all[..i+1] == all[..i] + [name];
      if name in groups {
        return Some(DuplicateFieldGroup);
      }
      groups := groups + {name};
    }
    assert all[..|cfg.fieldGroups|] == all;
    if cfg.hash.aRef != "" && cfg.hash.aRef !in groups {
      return Some(UndefinedFieldGroupARef);
    }
    if cfg.hash.bRef != "" && cfg.hash.bRef !in groups {
      return Some(UndefinedFieldGroupBRef);
    }
    for i := 0 to |cfg.hash.groupRefs|
      invariant forall j :: 0 <= j < i ==> cfg.hash.groupRefs[j] in all
    {
      if cfg.hash.groupRefs[i] !in groups {
        return Some(UndefinedFieldGroupRef);
      }
    }
    return None;
  }

  method CheckScheduling(cfg: ConnTrack) returns (e: Option<ConfigError>)
    ensures e.None? <==> SelectorsDefined(cfg) && DefaultIsLastOnly(cfg.scheduling) && LastIsDefault(cfg.scheduling)
    ensures e.Some? ==> Explains(cfg, e.value)
    ensures e.Some? ==> e.value in {UndefinedSelectorKey, DefaultGroupAndNotLast, ExactlyOneDefaultSelector}
    ensures e.Some? && e.value != UndefinedSelectorKey ==> SelectorsDefined(cfg)
  {
    var defined := KeyFields(cfg.fieldGroups);
    for i := 0 to |cfg.scheduling|
      invariant forall g, k :: g in cfg.scheduling[..i] && k in g.selector ==> k in defined
    {
      var todo := cfg.scheduling[i].selector.Keys;
      while todo != {}
        invariant todo <= cfg.scheduling[i].selector.Keys
        invariant forall k :: k in cfg.scheduling[i].selector && k !in todo ==> k in defined
      {
        var k :| k in todo;
        if k !in defined {
          assert cfg.scheduling[i] in cfg.scheduling;
          return Some(UndefinedSelectorKey);
        }
        todo := todo - {k};
      }
    }
    assert SelectorsDefined(cfg);
    var numOfDefault := 0;
    var n := |cfg.scheduling|;
    for i := 0 to n
      invariant forall j :: 0 <= j < i && cfg.scheduling[j].selector == map[] ==> j == n - 1
      invariant numOfDefault == if i == n && LastIsDefault(cfg.scheduling) then 1 else 0
    {
      var isDefault := |cfg.scheduling[i].selector| == 0;
      if isDefault {
        numOfDefault := numOfDefault + 1;
      }
      if isDefault && i != n - 1 {
        return Some(DefaultGroupAndNotLast);
      }
    }
    if numOfDefault != 1 {
      return Some(ExactlyOneDefaultSelector);
    }
    return None;
  }

  /** GetABFields. */
  method GetABFields(cfg: ConnTrack) returns (fieldsA: seq<string>, fieldsB: seq<string>)
    ensures fieldsA == FieldsOf(cfg.fieldGroups, cfg.hash.aRef)
    ensures fieldsB == FieldsOf(cfg.fieldGroups, cfg.hash.bRef)
  {
    fieldsA, fieldsB := [], [];
    for i := 0 to |cfg.fieldGroups|
      invariant fieldsA == FieldsOf(cfg.fieldGroups[..i], cfg.hash.aRef)
      invariant fieldsB == FieldsOf(cfg.fieldGroups[..i], cfg.hash.bRef)
    {
      assert cfg.fieldGroups[..i+1][..i] == cfg.fieldGroups[..i];
      var fg := cfg.fieldGroups[i];
      if fg.name == cfg.hash.aRef {
        fieldsA := fg.fields;
      }
      if fg.name == cfg.hash.bRef {
        fieldsB := fg.fields;
      }
    }
    assert cfg.fieldGroups[..|cfg.fieldGroups|] == cfg.fieldGroups;
  }

  /** Validate: accepts exactly the valid configurations, and every rejection names a defect that is there. */
  method Validate(cfg: ConnTrack) returns (e: Option<ConfigError>)
    ensures e.None? <==> ValidConfig(cfg)
    ensures e.Some? ==> Explains(cfg, e.value)
  {
    if (cfg.hash.aRef == "") != (cfg.hash.bRef == "") {
      return Some(OnlyOneOfAB);
    }
    var isBidi := cfg.hash.aRef != "";
    e := CheckOperations(cfg);
    if e.Some? {
      return;
    }
    var unique := CheckOutputNames(cfg.outputFields);
    if !unique {
      return Some(DuplicateOutputFieldNames);
    }
    e := CheckKeys(cfg);
    if e.Some? {
      return;
    }
    for i := 0 to |cfg.outputRecordTypes|
      invariant forall j :: 0 <= j < i ==> cfg.outputRecordTypes[j] in RECORD_TYPES
    {
      if cfg.outputRecordTypes[i] !in RECORD_TYPES {
        return Some(UnknownOutputRecord);
      }
    }
    e := CheckScheduling(cfg);
    if e.Some? {
      return;
    }
    if |cfg.tcpFlags.fieldName| == 0 && (cfg.tcpFlags.detectEndConnection || cfg.tcpFlags.swapAB) {
      return Some(EmptyTCPFlagsField);
    }
    if cfg.tcpFlags.swapAB && !isBidi {
      return Some(SwapABWithNoBidi);
    }
    var fieldsA, fieldsB := GetABFields(cfg);
    if |fieldsA| != |fieldsB| {
      return Some(MismatchABFieldsCount);
    }
    return None;
  }
}
