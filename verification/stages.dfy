/**
  The shape both calculators share: after the EC2 entry is built, the other
  services are priced in the order of `All`, each by a run of `+=` into its
  own entry. What a service adds (`lines`) is a parameter here, so the facts
  about keys and entries are proved once for both calculators.
 */
module Stages {
  import opened MapSum
  import opened Services

  /**
    The breakdown after the first `i` services of `All`: `base` is the
    breakdown after EC2, and service `All[k]` then adds its run `lines(All[k])`.
    An empty run adds no entry.
   */
  function Run(base: map<Service, real>, lines: Service -> seq<real>, i: nat): map<Service, real>
    requires 1 <= i <= |All|
    decreases i
  {
    if i == 1 then base
    else AddAll(Run(base, lines, i - 1), All[i - 1], lines(All[i - 1]))
  }

  /** A service has an entry when `base` has one or its stage has run with a non-empty run of amounts. */
  lemma {:induction false} RunKeys(base: map<Service, real>, lines: Service -> seq<real>, i: nat, t: Service)
    requires 1 <= i <= |All|
    ensures t in Run(base, lines, i) <==> t in base || (1 <= Index(t) < i && |lines(t)| > 0)
  {
    if i > 1 {
      RunKeys(base, lines, i - 1, t);
      IndexOfAll(i - 1);
    }
  }

  /** Later stages leave an earlier service's entry alone. */
  lemma {:induction false} RunKeeps(base: map<Service, real>, lines: Service -> seq<real>, i: nat, j: nat)
    requires 1 <= j <= i <= |All|
    ensures Get(Run(base, lines, i), All[j - 1]) == Get(Run(base, lines, j), All[j - 1])
  {
    if i > j {
      RunKeeps(base, lines, i - 1, j);
      AllDistinct(i - 1, j - 1);
      AddAllOther(Run(base, lines, i - 1), All[i - 1], lines(All[i - 1]), All[j - 1]);
    }
  }

  /** Before its own stage, a service's entry is what `base` gave it. */
  lemma {:induction false} RunFresh(base: map<Service, real>, lines: Service -> seq<real>, i: nat, j: nat)
    requires 1 <= i < j <= |All|
    ensures Get(Run(base, lines, i), All[j - 1]) == Get(base, All[j - 1])
  {
    if i > 1 {
      RunFresh(base, lines, i - 1, j);
      AllDistinct(i - 1, j - 1);
      AddAllOther(Run(base, lines, i - 1), All[i - 1], lines(All[i - 1]), All[j - 1]);
    }
  }

  /** After every stage, each service's entry is its `base` value plus the sum of its own run. */
  lemma RunEntry(base: map<Service, real>, lines: Service -> seq<real>, t: Service)
    ensures Get(Run(base, lines, |All|), t) == Get(base, t) + (if t == Ec2 then 0.0 else SumSeq(lines(t)))
  {
    var j := Index(t);
    RunKeeps(base, lines, |All|, j + 1);
    if j > 0 {
      RunFresh(base, lines, j, j + 1);
      AddAllSum(Run(base, lines, j), t, lines(t));
    }
  }
}
