/**
  Model of the untyped `Calculate` (internal/pricing/calculator.go): the
  usage document is a decoded YAML tree, each service is priced only when
  its entry is a mapping, quantities are coerced with `toF64`, and the
  catalog holds one flat rate table per service.
 */
module PricingDynamic {
  import opened MapSum
  import opened Services
  import opened Stages

  /** A decoded YAML value. `Nil` is what a lookup of a missing field yields. */
  datatype Value =
    | Nil
    | Bool(b: bool)
    | Int(i: int)
    | Int64(i64: int)
    | Float(f: real)
    | Str(s: string)
    | List(items: seq<Value>)
    | Object(fields: map<string, Value>)

  /** A field of a mapping; a missing field is `Nil`. */
  function Field(m: map<string, Value>, k: string): (v: Value)
    ensures k !in m ==> v == Nil
  {
    if k in m then m[k] else Nil
  }

  /**
    `toF64`: integers and floats convert exactly; a string, a list, a
    mapping, a boolean or a missing field all read as 0.
   */
  function ToF64(v: Value): (x: real)
    ensures v.Int? ==> x == v.i as real
    ensures v.Int64? ==> x == v.i64 as real
    ensures v.Float? ==> x == v.f
    ensures !(v.Int? || v.Int64? || v.Float?) ==> x == 0.0
  {
    match v
    case Int(i) => i as real
    case Int64(i) => i as real
    case Float(f) => f
    case _ => 0.0
  }

  /** Per-service rate tables. */
  datatype Catalog = Catalog(
    ec2: map<string, real>,
    ebs: map<string, real>,
    s3: map<string, real>,
    rds: map<string, real>,
    lambda: map<string, real>,
    cloudFront: map<string, real>)

  /** A rate; a missing one is 0. */
  function Price(m: map<string, real>, k: string): real {
    if k in m then m[k] else 0.0
  }

  datatype Usage = Usage(region: string, services: map<string, Value>)

  /** The service's section when it is a mapping; any other value skips the service. */
  predicate HasSection(u: Usage, s: Service) {
    Field(u.services, Name(s)).Object?
  }

  function Section(u: Usage, s: Service): map<string, Value>
    requires HasSection(u, s)
  {
    Field(u.services, Name(s)).fields
  }

  /** The EC2 instance list, when the EC2 section has one. */
  predicate HasInstances(u: Usage) {
    HasSection(u, Ec2) && Field(Section(u, Ec2), "instances").List?
  }

  function Instances(u: Usage): seq<Value>
    requires HasInstances(u)
  {
    Field(Section(u, Ec2), "instances").items
  }

  /** An instance entry the calculator can read: a mapping with a string `family`. */
  predicate InstanceOk(v: Value) {
    v.Object? && Field(v.fields, "family").Str?
  }

  /**
    The documents the calculator accepts without a runtime panic: every
    listed instance is a mapping with a string `family`, and an RDS
    section names its `instance` as a string.
   */
  predicate WellTyped(u: Usage) {
    (HasInstances(u) ==> forall i :: 0 <= i < |Instances(u)| ==> InstanceOk(Instances(u)[i]))
    && (HasSection(u, Rds) ==> Field(Section(u, Rds), "instance").Str?)
  }

  /** A service gets an entry when its section is a mapping (for EC2, with at least one instance). */
  predicate Present(u: Usage, s: Service) {
    if s == Ec2 then HasInstances(u) && |Instances(u)| > 0 else HasSection(u, s)
  }

  // ---- reference costs ----

  function InstanceCharge(cat: Catalog, v: Value): real
    requires InstanceOk(v)
  {
    ToF64(Field(v.fields, "hours")) * Price(cat.ec2, Field(v.fields, "family").s)
  }

  /** Hours times the family's rate, summed over the instances. */
  function Ec2Cost(cat: Catalog, insts: seq<Value>): real
    requires forall i :: 0 <= i < |insts| ==> InstanceOk(insts[i])
  {
    if |insts| == 0 then 0.0
    else InstanceCharge(cat, insts[0]) + Ec2Cost(cat, insts[1..])
  }

  /** The EBS I/O quantity's key in the usage document, and the key its rate is read under. */
  const EbsIoUsageKey: string := "io_requests_millions"
  const EbsIoRateKey: string := "io_requests_million"

  /**
    Quantity times rate for each dimension priced, per service. Note the
    keys: the usage document says `io_requests_millions`,
    `get_requests_millions`, `put_requests_millions` and `requests_millions`,
    while the rate tables are read under the singular names.
   */
  function Lines(cat: Catalog, sec: map<string, Value>, s: Service): seq<real>
    requires s == Rds ==> Field(sec, "instance").Str?
  {
    match s
    case Ec2 => []
    case Ebs => [ToF64(Field(sec, "gp3_gb_month")) * Price(cat.ebs, "gp3_gb_month"),
                 ToF64(Field(sec, EbsIoUsageKey)) * Price(cat.ebs, EbsIoRateKey)]
    case S3 => [ToF64(Field(sec, "storage_gb_month")) * Price(cat.s3, "storage_gb_month"),
                ToF64(Field(sec, "get_requests_millions")) * Price(cat.s3, "get_requests_million"),
                ToF64(Field(sec, "put_requests_millions")) * Price(cat.s3, "put_requests_million"),
                ToF64(Field(sec, "data_out_gb")) * Price(cat.s3, "data_out_gb")]
    case Rds => [ToF64(Field(sec, "hours")) * Price(cat.rds, Field(sec, "instance").s),
                 ToF64(Field(sec, "storage_gb_month")) * Price(cat.rds, "storage_gb_month")]
    case Lambda => [ToF64(Field(sec, "requests_millions")) * Price(cat.lambda, "requests_million"),
                    ToF64(Field(sec, "gb_seconds")) * Price(cat.lambda, "gb_seconds")]
    case CloudFront => [ToF64(Field(sec, "data_out_gb")) * Price(cat.cloudFront, "data_out_gb")]
  }

  /** The reference cost of a present service. */
  function Cost(cat: Catalog, u: Usage, s: Service): real
    requires WellTyped(u) && Present(u, s)
  {
    if s == Ec2 then Ec2Cost(cat, Instances(u)) else SumSeq(Lines(cat, Section(u, s), s))
  }

  // ---- the calculator ----

  /** The instance loop: one `+=` into EC2 per instance, in list order. */
  function Ec2Loop(cat: Catalog, insts: seq<Value>, b: map<Service, real>): (b': map<Service, real>)
    requires forall i :: 0 <= i < |insts| ==> InstanceOk(insts[i])
    ensures b'.Keys == if |insts| == 0 then b.Keys else b.Keys + {Ec2}
    ensures forall k :: k in b && k != Ec2 ==> b'[k] == b[k]
  {
    if |insts| == 0 then b
    else Ec2Loop(cat, insts[1..], Add(b, Ec2, InstanceCharge(cat, insts[0])))
  }

  /** The EC2 entry: the instance loop runs only when the section lists instances. */
  function Ec2Base(cat: Catalog, u: Usage): map<Service, real>
    requires WellTyped(u)
  {
    if HasInstances(u) then Ec2Loop(cat, Instances(u), map[]) else map[]
  }

  /** What each service after EC2 adds; a service without a mapping section adds nothing. */
  function LinesOf(cat: Catalog, u: Usage): Service -> seq<real>
    requires WellTyped(u)
  {
    s => if HasSection(u, s) then Lines(cat, Section(u, s), s) else []
  }

  /**
    `Calculate`: the breakdown has an entry exactly for the present services,
    and the total is the sum of the entries in whatever order they are visited.
   */
  function Calculate(cat: Catalog, u: Usage): (q: (map<Service, real>, real))
    requires WellTyped(u)
    ensures forall s :: s in q.0 <==> Present(u, s)
    ensures q.1 == SumMap(q.0)
  {
    var b := Run(Ec2Base(cat, u), LinesOf(cat, u), |All|);
    forall s ensures s in b <==> Present(u, s) {
      BreakdownKeys(cat, u, s);
    }
    AllListsEachOnce();
    SumOverIsSumMap(b, All);
    (b, SumOver(b, All))
  }

  lemma LinesNonEmpty(cat: Catalog, sec: map<string, Value>, s: Service)
    requires s != Ec2
    requires s == Rds ==> Field(sec, "instance").Str?
    ensures |Lines(cat, sec, s)| > 0
  {
  }

  /** A service gets an entry exactly when it is present. */
  lemma BreakdownKeys(cat: Catalog, u: Usage, t: Service)
    requires WellTyped(u)
    ensures t in Run(Ec2Base(cat, u), LinesOf(cat, u), |All|) <==> Present(u, t)
  {
    RunKeys(Ec2Base(cat, u), LinesOf(cat, u), |All|, t);
    BaseKeys(cat, u);
    if t != Ec2 {
      LinesOfNonEmpty(cat, u, t);
    }
  }

  lemma BaseKeys(cat: Catalog, u: Usage)
    requires WellTyped(u)
    ensures Ec2Base(cat, u).Keys == if Present(u, Ec2) then {Ec2} else {}
  {
  }

  lemma LinesOfNonEmpty(cat: Catalog, u: Usage, t: Service)
    requires WellTyped(u) && t != Ec2
    ensures |LinesOf(cat, u)(t)| > 0 <==> HasSection(u, t)
  {
    if HasSection(u, t) {
      LinesNonEmpty(cat, Section(u, t), t);
    }
  }

  lemma {:induction false} Ec2LoopCost(cat: Catalog, insts: seq<Value>, b: map<Service, real>)
    requires forall i :: 0 <= i < |insts| ==> InstanceOk(insts[i])
    ensures Get(Ec2Loop(cat, insts, b), Ec2) == Get(b, Ec2) + Ec2Cost(cat, insts)
  {
    if |insts| > 0 {
      var x := InstanceCharge(cat, insts[0]);
      var b' := Add(b, Ec2, x);
      Ec2LoopCost(cat, insts[1..], b');
      assert Get(b', Ec2) == Get(b, Ec2) + x;
    }
  }

  /** Every present service's entry is its reference cost; an absent one reads as 0. */
  lemma CalculateEntries(cat: Catalog, u: Usage, s: Service)
    requires WellTyped(u)
    ensures Get(Calculate(cat, u).0, s) == if Present(u, s) then Cost(cat, u, s) else 0.0
  {
    var base := Ec2Base(cat, u);
    RunEntry(base, LinesOf(cat, u), s);
    if s == Ec2 {
      if HasInstances(u) {
        Ec2LoopCost(cat, Instances(u), map[]);
      }
    } else {
      assert Get(base, s) == 0.0;
      if HasSection(u, s) {
        assert LinesOf(cat, u)(s) == Lines(cat, Section(u, s), s);
      } else {
        assert LinesOf(cat, u)(s) == [];
      }
    }
  }

  /** What a service adds to the total: its cost when present, else nothing. */
  function Contribution(cat: Catalog, u: Usage, s: Service): real
    requires WellTyped(u)
  {
    if Present(u, s) then Cost(cat, u, s) else 0.0
  }

  /** The total is the sum of the present services' costs. */
  lemma CalculateTotal(cat: Catalog, u: Usage)
    requires WellTyped(u)
    ensures Calculate(cat, u).1 ==
              Contribution(cat, u, Ec2) + Contribution(cat, u, Ebs) + Contribution(cat, u, S3)
              + Contribution(cat, u, Rds) + Contribution(cat, u, Lambda) + Contribution(cat, u, CloudFront)
  {
    var b := Calculate(cat, u).0;
    assert Calculate(cat, u).1 == SumOver(b, All);
    SumOverAll(b);
    CalculateEntries(cat, u, Ec2);
    CalculateEntries(cat, u, Ebs);
    CalculateEntries(cat, u, S3);
    CalculateEntries(cat, u, Rds);
    CalculateEntries(cat, u, Lambda);
    CalculateEntries(cat, u, CloudFront);
  }

  /**
    The EBS I/O rate is read under `io_requests_million`: a catalog that
    prices only the usage document's plural key charges nothing for I/O.
   */
  lemma EbsIoReadsSingularKey(cat: Catalog, u: Usage)
    requires WellTyped(u) && HasSection(u, Ebs)
    requires EbsIoRateKey !in cat.ebs
    ensures Get(Calculate(cat, u).0, Ebs) == Storage(cat, Section(u, Ebs))
  {
    EbsEntry(cat, u);
    EbsWithoutIoRate(cat, Section(u, Ebs));
  }

  /** The EBS storage line alone: GB-months at the gp3 rate. */
  function Storage(cat: Catalog, sec: map<string, Value>): real {
    ToF64(Field(sec, "gp3_gb_month")) * Price(cat.ebs, "gp3_gb_month")
  }

  lemma EbsEntry(cat: Catalog, u: Usage)
    requires WellTyped(u) && HasSection(u, Ebs)
    ensures Get(Calculate(cat, u).0, Ebs) == SumSeq(Lines(cat, Section(u, Ebs), Ebs))
  {
    assert Present(u, Ebs);
    CalculateEntries(cat, u, Ebs);
  }

  lemma EbsWithoutIoRate(cat: Catalog, sec: map<string, Value>)
    requires EbsIoRateKey !in cat.ebs
    ensures SumSeq(Lines(cat, sec, Ebs)) == Storage(cat, sec)
  {
    EbsLinesIo(cat, sec);
    var xs := Lines(cat, sec, Ebs);
    var p := Price(cat.ebs, EbsIoRateKey);
    assert p == 0.0;
    assert xs[1] == 0.0;
    assert xs[1..][1..] == [];
    assert SumSeq(xs[1..]) == xs[1] + SumSeq(xs[1..][1..]);
    assert SumSeq(xs) == xs[0] + SumSeq(xs[1..]);
  }

  lemma EbsLinesIo(cat: Catalog, sec: map<string, Value>)
    ensures |Lines(cat, sec, Ebs)| == 2
    ensures Lines(cat, sec, Ebs)[0] == ToF64(Field(sec, "gp3_gb_month")) * Price(cat.ebs, "gp3_gb_month")
    ensures Lines(cat, sec, Ebs)[1] == ToF64(Field(sec, EbsIoUsageKey)) * Price(cat.ebs, EbsIoRateKey)
  {
  }

  /** With no service sections at all, the breakdown is empty and the total is 0. */
  lemma CalculateEmpty(cat: Catalog)
    ensures Calculate(cat, Usage("", map[])).0 == map[]
    ensures Calculate(cat, Usage("", map[])).1 == 0.0
  {
    var q := Calculate(cat, Usage("", map[]));
    assert forall s :: s !in q.0 by {
      forall s ensures s !in q.0 {
        assert !Present(Usage("", map[]), s);
      }
    }
    assert q.0 == map[];
  }
}
