/**
  Model of `Calculator.Calculate` (internal/pricing/calc.go): a typed usage
  record priced against a nested rate catalog, service by service, into a
  breakdown map whose values are then totalled. Breakdown keys are the
  services; `Services.Name` gives the string each one is stored under.
 */
module PricingTyped {
  import opened MapSum
  import opened Services
  import opened Stages

  /** Service name to dimension name to unit rate. */
  type Catalog = map<string, map<string, real>>

  /** A missing service or dimension reads as rate 0, as a Go map lookup does. */
  function Rate(c: Catalog, s: Service, dim: string): (r: real)
    ensures Name(s) !in c || dim !in c[Name(s)] ==> r == 0.0
    ensures Name(s) in c && dim in c[Name(s)] ==> r == c[Name(s)][dim]
  {
    if Name(s) in c && dim in c[Name(s)] then c[Name(s)][dim] else 0.0
  }

  datatype Instance = Instance(family: string, hours: real)
  datatype EbsUsage = EbsUsage(gp3GBMonth: real, ioRequestsMillion: real)
  datatype S3Usage = S3Usage(storageGBMonth: real, getRequestsMillion: real, putRequestsMillion: real, dataOutGB: real)
  datatype RdsUsage = RdsUsage(instance: string, hours: real, storageGBMonth: real)
  datatype LambdaUsage = LambdaUsage(requestsMillion: real, gbSeconds: real)
  datatype CloudFrontUsage = CloudFrontUsage(dataOutGB: real)

  datatype Usage = Usage(
    region: string,
    instances: seq<Instance>,
    ebs: EbsUsage,
    s3: S3Usage,
    rds: RdsUsage,
    lambda: LambdaUsage,
    cloudFront: CloudFrontUsage)

  type Breakdown = map<Service, real>

  datatype Quote = Quote(total: real, breakdown: Breakdown)

  // ---- reference costs, one per service ----

  /** Sum over the instances of rate(family) times hours. */
  function Ec2Cost(c: Catalog, insts: seq<Instance>): real {
    if |insts| == 0 then 0.0
    else Rate(c, Ec2, insts[0].family) * insts[0].hours + Ec2Cost(c, insts[1..])
  }

  /** Rate times quantity for each dimension the calculator prices, per service. */
  function Lines(c: Catalog, u: Usage, s: Service): seq<real> {
    match s
    case Ec2 => []
    case Ebs => [Rate(c, Ebs, "gp3_gb_month") * u.ebs.gp3GBMonth,
                 Rate(c, Ebs, "io_requests_millions") * u.ebs.ioRequestsMillion]
    case S3 => [Rate(c, S3, "storage_gb_month") * u.s3.storageGBMonth,
                Rate(c, S3, "get_requests_millions") * u.s3.getRequestsMillion,
                Rate(c, S3, "put_requests_millions") * u.s3.putRequestsMillion,
                Rate(c, S3, "data_out_gb") * u.s3.dataOutGB]
    case Rds => [Rate(c, Rds, u.rds.instance) * u.rds.hours,
                 Rate(c, Rds, "storage_gb_month") * u.rds.storageGBMonth]
    case Lambda => [Rate(c, Lambda, "requests_millions") * u.lambda.requestsMillion,
                    Rate(c, Lambda, "gb_seconds") * u.lambda.gbSeconds]
    case CloudFront => [Rate(c, CloudFront, "data_out_gb") * u.cloudFront.dataOutGB]
  }

  /** The reference cost of a service: EC2 over its instances, the others over their lines. */
  function Cost(c: Catalog, u: Usage, s: Service): real {
    if s == Ec2 then Ec2Cost(c, u.instances) else SumSeq(Lines(c, u, s))
  }

  // ---- the calculator, step by step ----

  /** The instance loop: one `+=` into EC2 per instance, in list order. */
  function Ec2Loop(c: Catalog, insts: seq<Instance>, b: Breakdown): (b': Breakdown)
    ensures b'.Keys == if |insts| == 0 then b.Keys else b.Keys + {Ec2}
    ensures forall k :: k in b && k != Ec2 ==> b'[k] == b[k]
  {
    if |insts| == 0 then b
    else Ec2Loop(c, insts[1..], Add(b, Ec2, Rate(c, Ec2, insts[0].family) * insts[0].hours))
  }

  /** What each service after EC2 adds, as the calculator visits them. */
  function LinesOf(c: Catalog, u: Usage): Service -> seq<real> {
    s => Lines(c, u, s)
  }

  /**
    The breakdown after every service has been priced: EC2 by its instance
    loop, then each later service of `All` by its run of `+=`.
   */
  function PriceAll(c: Catalog, u: Usage): Breakdown {
    Run(Ec2Loop(c, u.instances, map[]), LinesOf(c, u), |All|)
  }

  /**
    `Calculate`: the breakdown and its total. The EC2 entry exists only when
    at least one instance is listed; the other five always exist, and the
    total is the sum of the entries in whatever order they are visited.
   */
  function Calculate(c: Catalog, u: Usage): (q: Quote)
    ensures q.breakdown.Keys == if |u.instances| == 0 then Fixed else Fixed + {Ec2}
    ensures q.total == SumMap(q.breakdown)
  {
    var b := PriceAll(c, u);
    PriceAllKeys(c, u);
    AllListsEachOnce();
    SumOverIsSumMap(b, All);
    Quote(SumOver(b, All), b)
  }

  lemma PriceAllKeys(c: Catalog, u: Usage)
    ensures PriceAll(c, u).Keys == if |u.instances| == 0 then Fixed else Fixed + {Ec2}
  {
    forall t ensures t in PriceAll(c, u) <==> t in Fixed || (t == Ec2 && |u.instances| > 0) {
      RunKeys(Ec2Loop(c, u.instances, map[]), LinesOf(c, u), |All|, t);
      if t != Ec2 {
        LinesNonEmpty(c, u, t);
        assert LinesOf(c, u)(t) == Lines(c, u, t);
      }
    }
  }

  lemma LinesNonEmpty(c: Catalog, u: Usage, s: Service)
    requires s != Ec2
    ensures |Lines(c, u, s)| > 0
  {
  }

  /** The instance loop adds the reference EC2 cost to whatever the entry held. */
  lemma {:induction false} Ec2LoopCost(c: Catalog, insts: seq<Instance>, b: Breakdown)
    ensures Get(Ec2Loop(c, insts, b), Ec2) == Get(b, Ec2) + Ec2Cost(c, insts)
  {
    if |insts| > 0 {
      var x := Rate(c, Ec2, insts[0].family) * insts[0].hours;
      var b' := Add(b, Ec2, x);
      Ec2LoopCost(c, insts[1..], b');
      assert Get(b', Ec2) == Get(b, Ec2) + x;
      assert Ec2Cost(c, insts) == x + Ec2Cost(c, insts[1..]);
    }
  }

  /** Every entry of the breakdown is its service's reference cost. */
  lemma CalculateEntries(c: Catalog, u: Usage, s: Service)
    ensures Get(Calculate(c, u).breakdown, s) == Cost(c, u, s)
  {
    var base := Ec2Loop(c, u.instances, map[]);
    RunEntry(base, LinesOf(c, u), s);
    Ec2LoopCost(c, u.instances, map[]);
    if s != Ec2 {
      assert LinesOf(c, u)(s) == Lines(c, u, s);
      assert Get(base, s) == 0.0;
    }
  }

  /** The total is the sum of the six service costs. */
  lemma CalculateTotal(c: Catalog, u: Usage)
    ensures Calculate(c, u).total ==
              Cost(c, u, Ec2) + Cost(c, u, Ebs) + Cost(c, u, S3)
              + Cost(c, u, Rds) + Cost(c, u, Lambda) + Cost(c, u, CloudFront)
  {
    var b := Calculate(c, u).breakdown;
    assert Calculate(c, u).total == SumOver(b, All);
    SumOverAll(b);
    CalculateEntries(c, u, Ec2);
    CalculateEntries(c, u, Ebs);
    CalculateEntries(c, u, S3);
    CalculateEntries(c, u, Rds);
    CalculateEntries(c, u, Lambda);
    CalculateEntries(c, u, CloudFront);
  }

  predicate RatesNonneg(c: Catalog) {
    forall s, d :: s in c && d in c[s] ==> c[s][d] >= 0.0
  }

  predicate QuantitiesNonneg(u: Usage) {
    (forall i :: 0 <= i < |u.instances| ==> u.instances[i].hours >= 0.0)
    && u.ebs.gp3GBMonth >= 0.0 && u.ebs.ioRequestsMillion >= 0.0
    && u.s3.storageGBMonth >= 0.0 && u.s3.getRequestsMillion >= 0.0
    && u.s3.putRequestsMillion >= 0.0 && u.s3.dataOutGB >= 0.0
    && u.rds.hours >= 0.0 && u.rds.storageGBMonth >= 0.0
    && u.lambda.requestsMillion >= 0.0 && u.lambda.gbSeconds >= 0.0
    && u.cloudFront.dataOutGB >= 0.0
  }

  lemma {:induction false} Ec2CostNonneg(c: Catalog, insts: seq<Instance>)
    requires RatesNonneg(c)
    requires forall i :: 0 <= i < |insts| ==> insts[i].hours >= 0.0
    ensures Ec2Cost(c, insts) >= 0.0
  {
    if |insts| > 0 {
      Ec2CostNonneg(c, insts[1..]);
      ChargeNonneg(c, Ec2, insts[0].family, insts[0].hours);
    }
  }

  lemma ChargeNonneg(c: Catalog, s: Service, dim: string, q: real)
    requires RatesNonneg(c) && q >= 0.0
    ensures Rate(c, s, dim) * q >= 0.0
  {
    var r := Rate(c, s, dim);
    assert r >= 0.0;
  }

  lemma LinesNonneg(c: Catalog, u: Usage, s: Service)
    requires RatesNonneg(c) && QuantitiesNonneg(u)
    ensures forall i :: 0 <= i < |Lines(c, u, s)| ==> Lines(c, u, s)[i] >= 0.0
  {
    var xs := Lines(c, u, s);
    match s
    case Ec2 =>
    case Ebs =>
      ChargeNonneg(c, Ebs, "gp3_gb_month", u.ebs.gp3GBMonth);
      ChargeNonneg(c, Ebs, "io_requests_millions", u.ebs.ioRequestsMillion);
      assert xs[0] >= 0.0 && xs[1] >= 0.0;
    case S3 =>
      ChargeNonneg(c, S3, "storage_gb_month", u.s3.storageGBMonth);
      ChargeNonneg(c, S3, "get_requests_millions", u.s3.getRequestsMillion);
      ChargeNonneg(c, S3, "put_requests_millions", u.s3.putRequestsMillion);
      ChargeNonneg(c, S3, "data_out_gb", u.s3.dataOutGB);
      assert xs[0] >= 0.0 && xs[1] >= 0.0 && xs[2] >= 0.0 && xs[3] >= 0.0;
    case Rds =>
      ChargeNonneg(c, Rds, u.rds.instance, u.rds.hours);
      ChargeNonneg(c, Rds, "storage_gb_month", u.rds.storageGBMonth);
      assert xs[0] >= 0.0 && xs[1] >= 0.0;
    case Lambda =>
      ChargeNonneg(c, Lambda, "requests_millions", u.lambda.requestsMillion);
      ChargeNonneg(c, Lambda, "gb_seconds", u.lambda.gbSeconds);
      assert xs[0] >= 0.0 && xs[1] >= 0.0;
    case CloudFront =>
      ChargeNonneg(c, CloudFront, "data_out_gb", u.cloudFront.dataOutGB);
      assert xs[0] >= 0.0;
  }

  /** Non-negative rates and quantities give non-negative entries and total. */
  lemma CalculateNonneg(c: Catalog, u: Usage)
    requires RatesNonneg(c) && QuantitiesNonneg(u)
    ensures forall s :: s in Calculate(c, u).breakdown ==> Calculate(c, u).breakdown[s] >= 0.0
    ensures Calculate(c, u).total >= 0.0
  {
    var b := Calculate(c, u).breakdown;
    forall s | s in b ensures b[s] >= 0.0 {
      CalculateEntries(c, u, s);
      if s == Ec2 {
        Ec2CostNonneg(c, u.instances);
      } else {
        LinesNonneg(c, u, s);
        SumSeqNonneg(Lines(c, u, s));
      }
    }
    SumMapNonneg(b);
  }
}
