// What DeploymentSpec.toJson writes, parseObject reads back.
module SpecRoundTrip {
  import opened Wrappers
  import opened JsonText
  import opened JsonParser
  import opened JsonWriter
  import opened JsonRoundTrip

  /** A map written in its iteration order; null values come back as empty strings. */
  function StringsOf(entries: StringMap): map<Str, Json> {
    if entries == [] then map[]
    else
      var last := entries[|entries| - 1];
      StringsOf(entries[..|entries| - 1])[last.0 := JString(OrEmpty(last.1))]
  }

  function ResourcesMap(r: ResourceShape): map<Str, Json> {
    map[
      Name(TaskManagerCpu) := JDouble(r.taskManagerCpu),
      Name(TaskManagerMemoryMiB) := ReadNumber(r.taskManagerMemoryMiB),
      Name(TaskManagerCount) := ReadNumber(r.taskManagerCount),
      Name(SlotsPerManager) := ReadNumber(r.slotsPerManager)]
  }

  function CompatibilityMap(c: StateCompatibility): map<Str, Json> {
    map[
      Name(JobGraphCompatible) := JBool(c.jobGraphCompatible),
      Name(OperatorUidsStable) := JBool(c.operatorUidsStable),
      Name(AllowNonRestored) := JBool(c.allowNonRestored),
      Name(FreshStartApproved) := JBool(c.freshStartApproved)]
  }

  function MapOrNothing(p: Property, entries: Option<StringMap>): map<Str, Json> {
    if entries.None? || entries.value == [] then map[] else map[Name(p) := JObject(StringsOf(entries.value))]
  }

  function FirstFour(spec: DeploymentSpec): map<Str, Json> {
    map[
      Name(ImageDigest) := JString(OrEmpty(spec.imageDigest)),
      Name(FlinkVersion) := JString(OrEmpty(spec.flinkVersion)),
      Name(Parallelism) := ReadNumber(spec.parallelism),
      Name(MaxParallelism) := ReadNumber(spec.maxParallelism)]
  }

  function NextTwo(spec: DeploymentSpec): map<Str, Json> {
    map[
      Name(Resources) := JObject(ResourcesMap(spec.resources)),
      Name(StateCompat) := JObject(CompatibilityMap(spec.stateCompatibility))]
  }

  function SpecMap(spec: DeploymentSpec): map<Str, Json> {
    FirstFour(spec) + NextTwo(spec)
    + MapOrNothing(JobArgs, spec.jobArgs)
    + MapOrNothing(FlinkConfig, spec.flinkConfig)
    + map[Name(AutoscalerEnabled) := JBool(spec.autoscalerEnabled)]
  }

  lemma MapOrNothingFinds(written: Property, entries: Option<StringMap>, p: Property)
    ensures Finds(MapOrNothing(written, entries), Name(p), if p == written then SaidMap(entries) else None)
  {
    NamesDiffer();
    hide Name, StringsOf;
  }

  /** What a specification says about a property; None for a property that is not written. */
  function Said(spec: DeploymentSpec, p: Property): Option<Json> {
    match p
    case ImageDigest => Some(JString(OrEmpty(spec.imageDigest)))
    case FlinkVersion => Some(JString(OrEmpty(spec.flinkVersion)))
    case Parallelism => Some(ReadNumber(spec.parallelism))
    case MaxParallelism => Some(ReadNumber(spec.maxParallelism))
    case Resources => Some(JObject(ResourcesMap(spec.resources)))
    case StateCompat => Some(JObject(CompatibilityMap(spec.stateCompatibility)))
    case JobArgs => SaidMap(spec.jobArgs)
    case FlinkConfig => SaidMap(spec.flinkConfig)
    case AutoscalerEnabled => Some(JBool(spec.autoscalerEnabled))
    case _ => None
  }

  function SaidMap(entries: Option<StringMap>): Option<Json> {
    if entries.None? || entries.value == [] then None else Some(JObject(StringsOf(entries.value)))
  }

  ghost predicate Finds(m: map<Str, Json>, name: Str, said: Option<Json>) {
    (name in m <==> said.Some?) && (name in m ==> m[name] == said.value)
  }

  /** No name hides another: the lookup of each property finds what the specification says. */
  lemma SpecMapHolds(spec: DeploymentSpec, p: Property)
    ensures Finds(SpecMap(spec), Name(p), Said(spec, p))
  {
    hide *;
    var c, d := MapOrNothing(JobArgs, spec.jobArgs), MapOrNothing(FlinkConfig, spec.flinkConfig);
    var e := map[Name(AutoscalerEnabled) := JBool(spec.autoscalerEnabled)];
    SpecMapOnce(spec);
    LastFinds(spec, p);
    FirstFourHold(spec, p);
    NextTwoHold(spec, p);
    MapOrNothingFinds(JobArgs, spec.jobArgs, p);
    MapOrNothingFinds(FlinkConfig, spec.flinkConfig, p);
    var name := Name(p);
    var x3 := if p == JobArgs then SaidMap(spec.jobArgs) else None;
    var x4 := if p == FlinkConfig then SaidMap(spec.flinkConfig) else None;
    var x5 := if p == AutoscalerEnabled then Some(JBool(spec.autoscalerEnabled)) else None;
    var x1 := if AmongFirst(p) then Said(spec, p) else None;
    var x2 := if p == Resources || p == StateCompat then Said(spec, p) else None;
    var x12, x123, x1234 := OrElse(x2, x1), OrElse(x3, OrElse(x2, x1)), OrElse(x4, OrElse(x3, OrElse(x2, x1)));
    FindsSum(FirstFour(spec), NextTwo(spec), name, x1, x2);
    FindsSum(FirstFour(spec) + NextTwo(spec), c, name, x12, x3);
    FindsSum(FirstFour(spec) + NextTwo(spec) + c, d, name, x123, x4);
    FindsSum(FirstFour(spec) + NextTwo(spec) + c + d, e, name, x1234, x5);
    Chosen(spec, p, x1, x2, x3, x4, x5);
  }

  lemma SpecMapOnce(spec: DeploymentSpec)
    ensures SpecMap(spec) == FirstFour(spec) + NextTwo(spec)
      + MapOrNothing(JobArgs, spec.jobArgs) + MapOrNothing(FlinkConfig, spec.flinkConfig)
      + map[Name(AutoscalerEnabled) := JBool(spec.autoscalerEnabled)]
  {
    hide FirstFour, NextTwo, MapOrNothing, Name;
  }

  lemma LastFinds(spec: DeploymentSpec, p: Property)
    ensures Finds(map[Name(AutoscalerEnabled) := JBool(spec.autoscalerEnabled)], Name(p),
                  if p == AutoscalerEnabled then Some(JBool(spec.autoscalerEnabled)) else None)
  {
    NamesDiffer();
    hide Name;
  }

  function OrElse(last: Option<Json>, first: Option<Json>): Option<Json> {
    if last.Some? then last else first
  }

  lemma FindsSum(a: map<Str, Json>, b: map<Str, Json>, name: Str, x: Option<Json>, y: Option<Json>)
    requires Finds(a, name, x) && Finds(b, name, y)
    ensures Finds(a + b, name, OrElse(y, x))
  {
  }

  lemma Chosen(spec: DeploymentSpec, p: Property, x1: Option<Json>, x2: Option<Json>, x3: Option<Json>,
               x4: Option<Json>, x5: Option<Json>)
    requires x1 == if AmongFirst(p) then Said(spec, p) else None
    requires x2 == if p == Resources || p == StateCompat then Said(spec, p) else None
    requires x3 == if p == JobArgs then SaidMap(spec.jobArgs) else None
    requires x4 == if p == FlinkConfig then SaidMap(spec.flinkConfig) else None
    requires x5 == if p == AutoscalerEnabled then Some(JBool(spec.autoscalerEnabled)) else None
    ensures OrElse(x5, OrElse(x4, OrElse(x3, OrElse(x2, x1)))) == Said(spec, p)
  {
    NothingElseSaid(spec, p);
    hide Said, SaidMap;
  }

  predicate AmongFirst(p: Property) {
    p.ImageDigest? || p.FlinkVersion? || p.Parallelism? || p.MaxParallelism?
  }

  lemma NothingElseSaid(spec: DeploymentSpec, p: Property)
    ensures p == JobArgs ==> Said(spec, p) == SaidMap(spec.jobArgs)
    ensures p == FlinkConfig ==> Said(spec, p) == SaidMap(spec.flinkConfig)
    ensures p == AutoscalerEnabled ==> Said(spec, p) == Some(JBool(spec.autoscalerEnabled))
    ensures Said(spec, p).Some? ==>
      AmongFirst(p) || p == Resources || p == StateCompat || p == JobArgs || p == FlinkConfig || p == AutoscalerEnabled
  {
    hide ResourcesMap, CompatibilityMap, StringsOf, ReadNumber;
  }

  lemma FirstFourHold(spec: DeploymentSpec, p: Property)
    ensures Finds(FirstFour(spec), Name(p), if AmongFirst(p) then Said(spec, p) else None)
    ensures AmongFirst(p) ==> Said(spec, p).Some?
  {
    NamesDiffer();
    hide Name, ReadNumber, OrEmpty;
  }

  lemma NextTwoHold(spec: DeploymentSpec, p: Property)
    ensures Finds(NextTwo(spec), Name(p), if p == Resources || p == StateCompat then Said(spec, p) else None)
    ensures p == Resources || p == StateCompat ==> Said(spec, p).Some?
  {
    NamesDiffer();
    hide Name, ResourcesMap, CompatibilityMap;
  }

  predicate GoodSpec(spec: DeploymentSpec) {
    && IsLong(spec.parallelism) && IsLong(spec.maxParallelism)
    && IsDoubleToken(spec.resources.taskManagerCpu) && IsLong(spec.resources.taskManagerMemoryMiB)
    && IsLong(spec.resources.taskManagerCount) && IsLong(spec.resources.slotsPerManager)
  }

  /** The property with a name of this length and first letter. */
  function PropertyOf(length: nat, first: Unit): Property {
    match length
    case 7 => JobArgs
    case 9 => Resources
    case 11 => if first == 105 then ImageDigest else if first == 112 then Parallelism else FlinkConfig
    case 12 => FlinkVersion
    case 14 => if first == 109 then MaxParallelism else TaskManagerCpu
    case 15 => SlotsPerManager
    case 16 => if first == 116 then TaskManagerCount else AllowNonRestored
    case 17 => AutoscalerEnabled
    case 18 =>
      if first == 115 then StateCompat else if first == 106 then JobGraphCompatible
      else if first == 111 then OperatorUidsStable else FreshStartApproved
    case _ => TaskManagerMemoryMiB
  }

  lemma NameTells(p: Property)
    ensures |Name(p)| > 0 && PropertyOf(|Name(p)|, Name(p)[0]) == p
  {
  }

  lemma NamesDiffer()
    ensures forall p, q :: Name(p) == Name(q) ==> p == q
  {
    hide Name, PropertyOf;
    forall p, q | Name(p) == Name(q) ensures p == q {
      NameTells(p);
      NameTells(q);
    }
  }

  lemma {:induction false} MapFieldsRead(entries: StringMap, n: nat)
    requires n <= |entries|
    ensures Printable(DObject(MapFields(entries)))
    ensures FieldsOf(DObject(MapFields(entries)), n) == StringsOf(entries[..n])
  {
    if n > 0 {
      MapFieldsRead(entries, n - 1);
      assert entries[..n][..n - 1] == entries[..n - 1];
    }
  }

  lemma MapDocReads(entries: StringMap)
    ensures Printable(DObject(MapFields(entries)))
    ensures ValueOf(DObject(MapFields(entries))) == JObject(StringsOf(entries))
  {
    MapFieldsRead(entries, |entries|);
    assert entries[..|entries|] == entries;
    hide FieldsOf, StringsOf, Printable;
  }

  lemma MapMemberOnce(p: Property, entries: Option<StringMap>)
    ensures if entries.None? || entries.value == [] then MapMember(Name(p), entries) == []
        && MapOrNothing(p, entries) == map[]
            else && MapMember(Name(p), entries) == [PropertyField(p, DObject(MapFields(entries.value)))]
                 && MapOrNothing(p, entries) == map[Name(p) := JObject(StringsOf(entries.value))]
  {
    hide Name, MapFields, StringsOf;
  }

  lemma MapMemberReads(fields: seq<Field>, p: Property, entries: Option<StringMap>)
    requires Printable(DObject(fields))
    ensures var all := fields + MapMember(Name(p), entries);
      && Printable(DObject(all))
      && FieldsOf(DObject(all), |all|) == FieldsOf(DObject(fields), |fields|) + MapOrNothing(p, entries)
  {
    hide *;
    MapMemberOnce(p, entries);
    if entries.None? || entries.value == [] {
      assert fields + [] == fields;
    } else {
      MapDocReads(entries.value);
      OneFieldReads(fields, p, DObject(MapFields(entries.value)), JObject(StringsOf(entries.value)));
    }
  }

  lemma LiteralPlain(literal: string)
    requires forall i | 0 <= i < |literal| :: 'A' <= literal[i] <= 'z' && literal[i] != '\\'
    ensures Plain(Java(literal))
  {
    forall i | 0 <= i < |literal| ensures Java(literal)[i] != QUOTE && Java(literal)[i] != BACKSLASH {
      assert literal[i] as int != 92;
    }
  }

  lemma NamePlain(p: Property)
    ensures Plain(Name(p))
  {
    hide Plain, Java;
    match p {
      case ImageDigest => LiteralPlain("imageDigest");
      case FlinkVersion => LiteralPlain("flinkVersion");
      case Parallelism => LiteralPlain("parallelism");
      case MaxParallelism => LiteralPlain("maxParallelism");
      case Resources => LiteralPlain("resources");
      case StateCompat => LiteralPlain("stateCompatibility");
      case JobArgs => LiteralPlain("jobArgs");
      case FlinkConfig => LiteralPlain("flinkConfig");
      case AutoscalerEnabled => LiteralPlain("autoscalerEnabled");
      case _ => hide Name; NestedNamePlain(p);
    }
  }

  lemma NestedNamePlain(p: Property)
    requires p.TaskManagerCpu? || p.TaskManagerMemoryMiB? || p.TaskManagerCount? || p.SlotsPerManager?
      || p.JobGraphCompatible? || p.OperatorUidsStable? || p.AllowNonRestored? || p.FreshStartApproved?
    ensures Plain(Name(p))
  {
    hide Plain, Java;
    match p {
      case TaskManagerCpu => LiteralPlain("taskManagerCpu");
      case TaskManagerMemoryMiB => LiteralPlain("taskManagerMemoryMiB");
      case TaskManagerCount => LiteralPlain("taskManagerCount");
      case SlotsPerManager => LiteralPlain("slotsPerManager");
      case JobGraphCompatible => LiteralPlain("jobGraphCompatible");
      case OperatorUidsStable => LiteralPlain("operatorUidsStable");
      case AllowNonRestored => LiteralPlain("allowNonRestored");
      case FreshStartApproved => LiteralPlain("freshStartApproved");
    }
  }

  function PropertyField(p: Property, d: Doc): Field {
    Field(Raw(Name(p)), d)
  }

  lemma OneFieldReads(fields: seq<Field>, p: Property, d: Doc, value: Json)
    requires Printable(DObject(fields)) && Printable(d) && ValueOf(d) == value
    ensures var all := fields + [PropertyField(p, d)];
      && Printable(DObject(all))
      && FieldsOf(DObject(all), |all|) == FieldsOf(DObject(fields), |fields|) + map[Name(p) := value]
  {
    assert PropertyField(p, d) == Field(Raw(Name(p)), d);
    hide *;
    NamePlain(p);
    OneMoreField(fields, Field(Raw(Name(p)), d));
  }

  lemma NoFields()
    ensures Printable(DObject([])) && FieldsOf(DObject([]), 0) == map[]
  {
  }

  lemma ObjectValue(fields: seq<Field>)
    ensures ValueOf(DObject(fields)) == JObject(FieldsOf(DObject(fields), |fields|))
  {
  }

  lemma FourReads(a: Property, da: Doc, b: Property, db: Doc, c: Property, dc: Doc, d: Property, dd: Doc)
    requires Printable(da) && Printable(db) && Printable(dc) && Printable(dd)
    ensures var all := DObject([PropertyField(a, da), PropertyField(b, db), PropertyField(c, dc),
        PropertyField(d, dd)]);
      && Printable(all)
      && ValueOf(all) == JObject(map[Name(a) := ValueOf(da), Name(b) := ValueOf(db), Name(c) := ValueOf(dc),
          Name(d) := ValueOf(dd)])
  {
    hide *;
    var fa, fb, fc, fd := PropertyField(a, da), PropertyField(b, db), PropertyField(c, dc), PropertyField(d, dd);
    OneByOne(fa, fb, fc, fd);
    NoFields();
    OneFieldReads([], a, da, ValueOf(da));
    OneFieldReads([fa], b, db, ValueOf(db));
    OneFieldReads([fa, fb], c, dc, ValueOf(dc));
    OneFieldReads([fa, fb, fc], d, dd, ValueOf(dd));
    AddFour(Name(a), ValueOf(da), Name(b), ValueOf(db), Name(c), ValueOf(dc), Name(d), ValueOf(dd));
    ObjectValue([fa, fb, fc, fd]);
  }

  lemma OneByOne(fa: Field, fb: Field, fc: Field, fd: Field)
    ensures [] + [fa] == [fa] && [fa] + [fb] == [fa, fb]
    ensures [fa, fb] + [fc] == [fa, fb, fc] && [fa, fb, fc] + [fd] == [fa, fb, fc, fd]
  {
  }

  lemma AddFour(a: Str, va: Json, b: Str, vb: Json, c: Str, vc: Json, d: Str, vd: Json)
    ensures map[] + map[a := va] + map[b := vb] + map[c := vc] + map[d := vd] == map[a := va, b := vb, c := vc, d := vd]
  {
  }

  lemma ResourcesRead(r: ResourceShape)
    requires IsDoubleToken(r.taskManagerCpu) && IsLong(r.taskManagerMemoryMiB)
    requires IsLong(r.taskManagerCount) && IsLong(r.slotsPerManager)
    ensures Printable(ResourcesDoc(r)) && ValueOf(ResourcesDoc(r)) == JObject(ResourcesMap(r))
  {
    DoubleDocReads(r.taskManagerCpu);
    NumberDocReads(r.taskManagerMemoryMiB);
    NumberDocReads(r.taskManagerCount);
    NumberDocReads(r.slotsPerManager);
    hide Name, FieldsOf, ValueOf, Printable, IsDoubleToken, IsLong, ReadNumber;
    FourReads(TaskManagerCpu, DDouble(r.taskManagerCpu), TaskManagerMemoryMiB, DNumber(r.taskManagerMemoryMiB),
      TaskManagerCount, DNumber(r.taskManagerCount), SlotsPerManager, DNumber(r.slotsPerManager));
  }

  lemma CompatibilityReads(c: StateCompatibility)
    ensures Printable(CompatibilityDoc(c)) && ValueOf(CompatibilityDoc(c)) == JObject(CompatibilityMap(c))
  {
    BoolDocReads(c.jobGraphCompatible);
    BoolDocReads(c.operatorUidsStable);
    BoolDocReads(c.allowNonRestored);
    BoolDocReads(c.freshStartApproved);
    hide Name, FieldsOf, ValueOf, Printable;
    FourReads(JobGraphCompatible, DBool(c.jobGraphCompatible), OperatorUidsStable, DBool(c.operatorUidsStable),
      AllowNonRestored, DBool(c.allowNonRestored), FreshStartApproved, DBool(c.freshStartApproved));
  }

  lemma DoubleDocReads(token: Str)
    requires IsDoubleToken(token)
    ensures Printable(DDouble(token)) && ValueOf(DDouble(token)) == JDouble(token)
  {
  }

  function PartMap(spec: DeploymentSpec, n: nat): map<Str, Json>
    requires n < 9
  {
    match n
    case 0 => map[Name(ImageDigest) := JString(OrEmpty(spec.imageDigest))]
    case 1 => map[Name(FlinkVersion) := JString(OrEmpty(spec.flinkVersion))]
    case 2 => map[Name(Parallelism) := ReadNumber(spec.parallelism)]
    case 3 => map[Name(MaxParallelism) := ReadNumber(spec.maxParallelism)]
    case 4 => map[Name(Resources) := JObject(ResourcesMap(spec.resources))]
    case 5 => map[Name(StateCompat) := JObject(CompatibilityMap(spec.stateCompatibility))]
    case 6 => MapOrNothing(JobArgs, spec.jobArgs)
    case 7 => MapOrNothing(FlinkConfig, spec.flinkConfig)
    case 8 => map[Name(AutoscalerEnabled) := JBool(spec.autoscalerEnabled)]
  }

  lemma PartReads(spec: DeploymentSpec, n: nat, fields: seq<Field>)
    requires n < 9 && GoodSpec(spec) && Printable(DObject(fields))
    ensures var all := fields + SpecPart(spec, n);
      && Printable(DObject(all))
      && FieldsOf(DObject(all), |all|) == FieldsOf(DObject(fields), |fields|) + PartMap(spec, n)
  {
    ResourcesRead(spec.resources);
    CompatibilityReads(spec.stateCompatibility);
    hide Name, FieldsOf, Printable, ValueOf, ResourcesDoc, CompatibilityDoc, ResourcesMap, CompatibilityMap;
    hide MapMember, MapOrNothing, OrEmpty, IsDoubleToken;
    match n {
      case 0 => OneStringReads(fields, ImageDigest, OrEmpty(spec.imageDigest));
      case 1 => OneStringReads(fields, FlinkVersion, OrEmpty(spec.flinkVersion));
      case 2 => OneNumberReads(fields, Parallelism, spec.parallelism);
      case 3 => OneNumberReads(fields, MaxParallelism, spec.maxParallelism);
      case 4 => OneFieldReads(fields, Resources, ResourcesDoc(spec.resources), JObject(ResourcesMap(spec.resources)));
      case 5 => OneFieldReads(fields, StateCompat, CompatibilityDoc(spec.stateCompatibility),
          JObject(CompatibilityMap(spec.stateCompatibility)));
      case 6 => MapMemberReads(fields, JobArgs, spec.jobArgs);
      case 7 => MapMemberReads(fields, FlinkConfig, spec.flinkConfig);
      case 8 => OneBoolReads(fields, AutoscalerEnabled, spec.autoscalerEnabled);
    }
  }

  lemma OneStringReads(fields: seq<Field>, p: Property, s: Str)
    requires Printable(DObject(fields))
    ensures var all := fields + [PropertyField(p, DString(s))];
      && Printable(DObject(all))
      && FieldsOf(DObject(all), |all|) == FieldsOf(DObject(fields), |fields|) + map[Name(p) := JString(s)]
  {
    assert Printable(DString(s)) && ValueOf(DString(s)) == JString(s);
    hide *;
    OneFieldReads(fields, p, DString(s), JString(s));
  }

  lemma OneNumberReads(fields: seq<Field>, p: Property, n: int)
    requires Printable(DObject(fields)) && IsLong(n)
    ensures var all := fields + [PropertyField(p, DNumber(n))];
      && Printable(DObject(all))
      && FieldsOf(DObject(all), |all|) == FieldsOf(DObject(fields), |fields|) + map[Name(p) := ReadNumber(n)]
  {
    NumberDocReads(n);
    hide *;
    OneFieldReads(fields, p, DNumber(n), ReadNumber(n));
  }

  lemma OneBoolReads(fields: seq<Field>, p: Property, b: bool)
    requires Printable(DObject(fields))
    ensures var all := fields + [PropertyField(p, DBool(b))];
      && Printable(DObject(all))
      && FieldsOf(DObject(all), |all|) == FieldsOf(DObject(fields), |fields|) + map[Name(p) := JBool(b)]
  {
    BoolDocReads(b);
    hide *;
    OneFieldReads(fields, p, DBool(b), JBool(b));
  }

  lemma NumberDocReads(n: int)
    requires IsLong(n)
    ensures Printable(DNumber(n)) && ValueOf(DNumber(n)) == ReadNumber(n)
  {
  }

  lemma BoolDocReads(b: bool)
    ensures Printable(DBool(b)) && ValueOf(DBool(b)) == JBool(b)
  {
  }

  function PartsMap(spec: DeploymentSpec, n: nat): map<Str, Json>
    requires n <= 9
  {
    if n == 0 then map[] else PartsMap(spec, n - 1) + PartMap(spec, n - 1)
  }

  lemma {:induction false} PartsRead(spec: DeploymentSpec, n: nat)
    requires n <= 9 && GoodSpec(spec)
    ensures var fields := SpecParts(spec, n);
      Printable(DObject(fields)) && FieldsOf(DObject(fields), |fields|) == PartsMap(spec, n)
  {
    if n > 0 {
      PartsRead(spec, n - 1);
      hide Printable, FieldsOf, SpecPart, PartMap, GoodSpec;
      PartReads(spec, n - 1, SpecParts(spec, n - 1));
    }
  }

  lemma PartsMapText(spec: DeploymentSpec)
    ensures PartsMap(spec, 9) == SpecMap(spec)
  {
    hide PartsMap, Name, ReadNumber, ResourcesMap, CompatibilityMap, StringsOf, OrEmpty, MapOrNothing;
    NoPartsMap(spec);
    PartsMapOnce(spec, 0);
    PartsMapOnce(spec, 1);
    PartsMapOnce(spec, 2);
    PartsMapOnce(spec, 3);
    AddFour(
      Name(ImageDigest), JString(OrEmpty(spec.imageDigest)), Name(FlinkVersion), JString(OrEmpty(spec.flinkVersion)),
      Name(Parallelism), ReadNumber(spec.parallelism), Name(MaxParallelism), ReadNumber(spec.maxParallelism));
    PartsMapOnce(spec, 4);
    PartsMapOnce(spec, 5);
    AddTwo(PartsMap(spec, 4), Name(Resources), JObject(ResourcesMap(spec.resources)),
      Name(StateCompat), JObject(CompatibilityMap(spec.stateCompatibility)));
    PartsMapOnce(spec, 6);
    PartsMapOnce(spec, 7);
    PartsMapOnce(spec, 8);
  }

  lemma NoPartsMap(spec: DeploymentSpec)
    ensures PartsMap(spec, 0) == map[]
  {
  }

  lemma PartsMapOnce(spec: DeploymentSpec, n: nat)
    requires n < 9
    ensures PartsMap(spec, n + 1) == PartsMap(spec, n) + PartMap(spec, n)
  {
  }

  lemma AddTwo(m: map<Str, Json>, a: Str, va: Json, b: Str, vb: Json)
    ensures m + map[a := va] + map[b := vb] == m + map[a := va, b := vb]
  {
  }

  /** What DeploymentSpec.toJson writes, parseObject reads back: every property, the two nested
      records, and the two string maps, which are left out when null or empty. */
  lemma SpecReadsBack(spec: DeploymentSpec)
    requires GoodSpec(spec)
    ensures ObjectOf(Print(DObject(SpecFields(spec)))) == Ok(SpecMap(spec))
  {
    PartsRead(spec, 9);
    PartsMapText(spec);
    assert SpecFields(spec) == SpecParts(spec, 9);
    hide *;
    PrintedObjectReadsBack(DObject(SpecFields(spec)));
  }

  // ----- The names on the wire -----

  lemma WireNames()
    ensures Name(ImageDigest) == Java("imageDigest")
    ensures Name(FlinkVersion) == Java("flinkVersion")
    ensures Name(Parallelism) == Java("parallelism")
    ensures Name(MaxParallelism) == Java("maxParallelism")
    ensures Name(Resources) == Java("resources")
    ensures Name(StateCompat) == Java("stateCompatibility")
    ensures Name(JobArgs) == Java("jobArgs")
    ensures Name(FlinkConfig) == Java("flinkConfig")
    ensures Name(AutoscalerEnabled) == Java("autoscalerEnabled")
    ensures Name(TaskManagerCpu) == Java("taskManagerCpu")
    ensures Name(TaskManagerMemoryMiB) == Java("taskManagerMemoryMiB")
    ensures Name(TaskManagerCount) == Java("taskManagerCount")
    ensures Name(SlotsPerManager) == Java("slotsPerManager")
    ensures Name(JobGraphCompatible) == Java("jobGraphCompatible")
    ensures Name(OperatorUidsStable) == Java("operatorUidsStable")
    ensures Name(AllowNonRestored) == Java("allowNonRestored")
    ensures Name(FreshStartApproved) == Java("freshStartApproved")
  {
    hide Java;
  }

  /** The member of that name has that value. */
  ghost predicate Has(m: map<Str, Json>, name: string, value: Json) {
    Java(name) in m && m[Java(name)] == value
  }

  lemma LooksUp(spec: DeploymentSpec, p: Property, name: string)
    requires Name(p) == Java(name)
    ensures Java(name) in SpecMap(spec) <==> Said(spec, p).Some?
    ensures Said(spec, p).Some? ==> Has(SpecMap(spec), name, Said(spec, p).value)
  {
    SpecMapHolds(spec, p);
    hide Java, Name, SpecMap, Said;
  }

  lemma SaidOnce(spec: DeploymentSpec)
    ensures Said(spec, ImageDigest) == Some(JString(OrEmpty(spec.imageDigest)))
    ensures Said(spec, FlinkVersion) == Some(JString(OrEmpty(spec.flinkVersion)))
    ensures Said(spec, Parallelism) == Some(ReadNumber(spec.parallelism))
    ensures Said(spec, MaxParallelism) == Some(ReadNumber(spec.maxParallelism))
    ensures Said(spec, Resources) == Some(JObject(ResourcesMap(spec.resources)))
    ensures Said(spec, StateCompat) == Some(JObject(CompatibilityMap(spec.stateCompatibility)))
    ensures Said(spec, JobArgs) == SaidMap(spec.jobArgs)
    ensures Said(spec, FlinkConfig) == SaidMap(spec.flinkConfig)
    ensures Said(spec, AutoscalerEnabled) == Some(JBool(spec.autoscalerEnabled))
  {
    hide OrEmpty, ReadNumber, ResourcesMap, CompatibilityMap, SaidMap;
  }

  /** Every property of a specification is in the text under its name in the wire format, with the
      specification's value. */
  lemma SpecOnTheWire(spec: DeploymentSpec)
    requires GoodSpec(spec)
    ensures ObjectOf(Print(DObject(SpecFields(spec)))).Ok?
    ensures var m := ObjectOf(Print(DObject(SpecFields(spec)))).value;
      && Has(m, "imageDigest", JString(OrEmpty(spec.imageDigest)))
      && Has(m, "flinkVersion", JString(OrEmpty(spec.flinkVersion)))
      && Has(m, "parallelism", ReadNumber(spec.parallelism))
      && Has(m, "maxParallelism", ReadNumber(spec.maxParallelism))
      && Has(m, "resources", JObject(ResourcesMap(spec.resources)))
      && Has(m, "stateCompatibility", JObject(CompatibilityMap(spec.stateCompatibility)))
      && Has(m, "autoscalerEnabled", JBool(spec.autoscalerEnabled))
      && (Java("jobArgs") in m <==> spec.jobArgs.Some? && spec.jobArgs.value != [])
      && (Java("jobArgs") in m ==> Has(m, "jobArgs", JObject(StringsOf(spec.jobArgs.value))))
      && (Java("flinkConfig") in m <==> spec.flinkConfig.Some? && spec.flinkConfig.value != [])
      && (Java("flinkConfig") in m ==> Has(m, "flinkConfig", JObject(StringsOf(spec.flinkConfig.value))))
  {
    SpecReadsBack(spec);
    hide *;
    WireNames();
    SaidOnce(spec);
    LooksUp(spec, ImageDigest, "imageDigest");
    LooksUp(spec, FlinkVersion, "flinkVersion");
    LooksUp(spec, Parallelism, "parallelism");
    LooksUp(spec, MaxParallelism, "maxParallelism");
    LooksUp(spec, Resources, "resources");
    LooksUp(spec, StateCompat, "stateCompatibility");
    LooksUp(spec, JobArgs, "jobArgs");
    SaidMapOnce(spec.jobArgs);
    LooksUp(spec, FlinkConfig, "flinkConfig");
    SaidMapOnce(spec.flinkConfig);
    LooksUp(spec, AutoscalerEnabled, "autoscalerEnabled");
  }

  lemma SaidMapOnce(entries: Option<StringMap>)
    ensures SaidMap(entries).Some? <==> entries.Some? && entries.value != []
    ensures SaidMap(entries).Some? ==> SaidMap(entries).value == JObject(StringsOf(entries.value))
  {
    hide StringsOf;
  }

  /** So are the properties of the two records inside it. */
  lemma RecordsOnTheWire(r: ResourceShape, c: StateCompatibility)
    ensures Has(ResourcesMap(r), "taskManagerCpu", JDouble(r.taskManagerCpu))
    ensures Has(ResourcesMap(r), "taskManagerMemoryMiB", ReadNumber(r.taskManagerMemoryMiB))
    ensures Has(ResourcesMap(r), "taskManagerCount", ReadNumber(r.taskManagerCount))
    ensures Has(ResourcesMap(r), "slotsPerManager", ReadNumber(r.slotsPerManager))
    ensures Has(CompatibilityMap(c), "jobGraphCompatible", JBool(c.jobGraphCompatible))
    ensures Has(CompatibilityMap(c), "operatorUidsStable", JBool(c.operatorUidsStable))
    ensures Has(CompatibilityMap(c), "allowNonRestored", JBool(c.allowNonRestored))
    ensures Has(CompatibilityMap(c), "freshStartApproved", JBool(c.freshStartApproved))
  {
    FourHold(TaskManagerCpu, JDouble(r.taskManagerCpu), TaskManagerMemoryMiB, ReadNumber(r.taskManagerMemoryMiB),
      TaskManagerCount, ReadNumber(r.taskManagerCount), SlotsPerManager, ReadNumber(r.slotsPerManager));
    FourHold(JobGraphCompatible, JBool(c.jobGraphCompatible), OperatorUidsStable, JBool(c.operatorUidsStable),
      AllowNonRestored, JBool(c.allowNonRestored), FreshStartApproved, JBool(c.freshStartApproved));
    RecordsOnce(r, c);
    WireNames();
    HasMeans(ResourcesMap(r));
    HasMeans(CompatibilityMap(c));
    hide *;
  }

  lemma RecordsOnce(r: ResourceShape, c: StateCompatibility)
    ensures ResourcesMap(r) == FourOf(TaskManagerCpu, JDouble(r.taskManagerCpu),
      TaskManagerMemoryMiB, ReadNumber(r.taskManagerMemoryMiB),
      TaskManagerCount, ReadNumber(r.taskManagerCount), SlotsPerManager, ReadNumber(r.slotsPerManager))
    ensures CompatibilityMap(c) == FourOf(JobGraphCompatible, JBool(c.jobGraphCompatible),
      OperatorUidsStable, JBool(c.operatorUidsStable),
      AllowNonRestored, JBool(c.allowNonRestored), FreshStartApproved, JBool(c.freshStartApproved))
  {
    hide Name, ReadNumber;
  }

  lemma HasMeans(m: map<Str, Json>)
    ensures forall name, value :: Has(m, name, value) <==> Java(name) in m && m[Java(name)] == value
  {
    hide Java;
  }

  ghost function FourOf(a: Property, va: Json, b: Property, vb: Json, c: Property, vc: Json, d: Property,
                        vd: Json): map<Str, Json> {
    map[Name(a) := va, Name(b) := vb, Name(c) := vc, Name(d) := vd]
  }

  lemma FourHold(a: Property, va: Json, b: Property, vb: Json, c: Property, vc: Json, d: Property, vd: Json)
    requires a != b && a != c && a != d && b != c && b != d && c != d
    ensures var m := FourOf(a, va, b, vb, c, vc, d, vd);
      && Name(a) in m && m[Name(a)] == va
      && Name(b) in m && m[Name(b)] == vb
      && Name(c) in m && m[Name(c)] == vc
      && Name(d) in m && m[Name(d)] == vd
  {
    NamesDiffer();
    hide Name;
  }

  /** And the entries of its maps: each key has the value of its last entry, the empty text for null. */
  lemma {:induction false} StringsHold(entries: StringMap, key: Str)
    ensures key in StringsOf(entries) <==> exists i :: 0 <= i < |entries| && entries[i].0 == key
    ensures forall i | 0 <= i < |entries| && entries[i].0 == key
        && (forall j | i < j < |entries| :: entries[j].0 != key) ::
              key in StringsOf(entries) && StringsOf(entries)[key]
                  == JString(if entries[i].1.None? then [] else entries[i].1.value)
  {
    if entries != [] {
      var init, last := entries[..|entries| - 1], entries[|entries| - 1];
      StringsHold(init, key);
      assert entries == init + [last];
      assert StringsOf(entries) == StringsOf(init)[last.0 := JString(OrEmpty(last.1))];
      hide StringsOf;
      forall i | 0 <= i < |entries| && entries[i].0 == key && (forall j | i < j < |entries| :: entries[j].0 != key)
        ensures key in StringsOf(entries)
        ensures StringsOf(entries)[key] == JString(if entries[i].1.None? then [] else entries[i].1.value)
      {
        if i < |init| {
          assert init[i] == entries[i] && last.0 != key;
          assert forall j | i < j < |init| :: init[j] == entries[j];
        }
      }
      if i :| 0 <= i < |entries| && entries[i].0 == key {
        assert i < |init| ==> init[i] == entries[i];
      }
      if i :| 0 <= i < |init| && init[i].0 == key {
        assert entries[i] == init[i];
      }
    }
  }
}
