/**
  The six AWS services both cost calculators price, and the names they
  carry as keys of the breakdown and of the usage document.
 */
module Services {
  import opened MapSum

  datatype Service = Ec2 | Ebs | S3 | Rds | Lambda | CloudFront

  /** The key a service is known by. */
  function Name(s: Service): string {
    match s
    case Ec2 => "ec2"
    case Ebs => "ebs"
    case S3 => "s3"
    case Rds => "rds"
    case Lambda => "lambda"
    case CloudFront => "cloudfront"
  }

  /** Every service, in the order the calculators visit them. */
  const All: seq<Service> := [Ec2, Ebs, S3, Rds, Lambda, CloudFront]

  /** Position of a service in `All`. */
  function Index(s: Service): (i: nat)
    ensures i < |All| && All[i] == s
  {
    match s
    case Ec2 => 0
    case Ebs => 1
    case S3 => 2
    case Rds => 3
    case Lambda => 4
    case CloudFront => 5
  }

  /** `Index` inverts `All`. */
  lemma IndexOfAll(i: nat)
    requires i < |All|
    ensures Index(All[i]) == i
  {
  }

  lemma AllDistinct(i: nat, j: nat)
    requires i < |All| && j < |All| && i != j
    ensures All[i] != All[j]
  {
    IndexOfAll(i);
    IndexOfAll(j);
  }

  /** Every service but EC2, whose entry depends on the instance list. */
  const Fixed: set<Service> := {Ebs, S3, Rds, Lambda, CloudFront}

  lemma AllListsEachOnce()
    ensures forall i, j :: 0 <= i < j < |All| ==> All[i] != All[j]
    ensures forall s: Service :: s in All
  {
    forall s: Service ensures s in All {
      match s
      case Ec2 => assert All[0] == s;
      case Ebs => assert All[1] == s;
      case S3 => assert All[2] == s;
      case Rds => assert All[3] == s;
      case Lambda => assert All[4] == s;
      case CloudFront => assert All[5] == s;
    }
  }

  /** Different services have different names, so a breakdown keyed by name has one entry per service. */
  lemma NameInjective(s: Service, t: Service)
    requires Name(s) == Name(t)
    ensures s == t
  {
  }

  /** Summing a breakdown in service order adds the six entries. */
  lemma SumOverAll(b: map<Service, real>)
    ensures SumOver(b, All) == Get(b, Ec2) + Get(b, Ebs) + Get(b, S3) + Get(b, Rds) + Get(b, Lambda) + Get(b, CloudFront)
  {
    assert [CloudFront][1..] == [];
    assert SumOver(b, [CloudFront]) == Get(b, CloudFront);
    assert [Lambda, CloudFront][1..] == [CloudFront];
    assert SumOver(b, [Lambda, CloudFront]) == Get(b, Lambda) + Get(b, CloudFront);
    assert [Rds, Lambda, CloudFront][1..] == [Lambda, CloudFront];
    assert [S3, Rds, Lambda, CloudFront][1..] == [Rds, Lambda, CloudFront];
    assert SumOver(b, [S3, Rds, Lambda, CloudFront]) == Get(b, S3) + Get(b, Rds) + Get(b, Lambda) + Get(b, CloudFront);
    assert [Ebs, S3, Rds, Lambda, CloudFront][1..] == [S3, Rds, Lambda, CloudFront];
    assert All[1..] == [Ebs, S3, Rds, Lambda, CloudFront];
  }
}
