/**
  Model of `selectInstance` (internal/calc/flow.go): for a target monthly
  amount, each entry of a fixed price table is sized to ceil(target / price)
  instances, and the entry whose achieved amount has the smallest relative
  error to the target wins; ties go to the earlier entry.

  Floating point is modelled with exact reals. The two float effects that
  change which entry wins are kept: a relative error that is NaN (target
  zero) never wins, and the running best starts at the largest finite
  float64, so an error at or above that value never wins either.
 */
module InstanceSelect {
  import opened Wrappers
  import opened Numeric

  datatype InstanceOption = InstanceOption(typ: string, price: real)

  /** The fixed price table, in the order it is scanned. */
  const Options: seq<InstanceOption> := [
    InstanceOption("t3.micro", 8.5),
    InstanceOption("t3.small", 17.0),
    InstanceOption("t3.medium", 34.0),
    InstanceOption("m7i.large", 102.0),
    InstanceOption("c7i.xlarge", 220.0)
  ]

  /** `math.MaxFloat64`, (2 - 2^-52) * 2^1023, written out exactly. */
  const MaxFloat64: real := 179769313486231570814527423731704356798070567525844996598917476803157260780028538760589558632766878171540458953514382464234321326889464182768467546703537516986049910576551282076245490090389328944075868508455133942304583236903222948165808559332123348274797826204144723168738177180919299881250404026184124858368.0

  /** What one table entry would give: count, achieved amount, relative error (None is NaN). */
  datatype Candidate = Candidate(count: int, achieved: real, rel: Option<real>)

  function Evaluate(target: real, opt: InstanceOption): (c: Candidate)
    requires opt.price > 0.0
    ensures c.rel.None? <==> target == 0.0
  {
    var count := Ceil(target / opt.price);
    var achieved := count as real * opt.price;
    Candidate(count, achieved, if target == 0.0 then None else Some(Abs(achieved - target) / target))
  }

  function Eval(target: real, k: nat): Candidate
    requires k < |Options|
  {
    Evaluate(target, Options[k])
  }

  /** An error strictly below the running best (None is an infinite best). */
  predicate Improves(c: Candidate, bound: Option<real>) {
    c.rel.Some? && (bound.None? || c.rel.value < bound.value)
  }

  /** The running best of the scan: chosen type, count, achieved amount, best error so far. */
  datatype Best = Best(typ: string, count: int, achieved: real, bound: Option<real>)

  /** Entry `k` is the first entry, among the first `n`, with the least defined error, and it beats `start`. */
  predicate IsBest(target: real, n: nat, start: Option<real>, k: nat, b: Best)
    requires n <= |Options|
  {
    && k < n
    && var c := Eval(target, k);
    && b == Best(Options[k].typ, c.count, c.achieved, c.rel)
    && Improves(c, start)
    && (forall j :: 0 <= j < n && Eval(target, j).rel.Some? ==> c.rel.value <= Eval(target, j).rel.value)
    && (forall j :: 0 <= j < k && Eval(target, j).rel.Some? ==> c.rel.value < Eval(target, j).rel.value)
  }

  /** The scan of the first `n` table entries, starting from the best error `start`. */
  function Scan(target: real, n: nat, start: Option<real>): (b: Best)
    requires n <= |Options|
    ensures b.typ == "" <==> forall j :: 0 <= j < n ==> !Improves(Eval(target, j), start)
    ensures b.typ == "" ==> b == Best("", 0, 0.0, start)
    ensures b.typ != "" ==> exists k :: IsBest(target, n, start, k, b)
  {
    if n == 0 then Best("", 0, 0.0, start)
    else
      var prev := Scan(target, n - 1, start);
      var c := Eval(target, n - 1);
      if Improves(c, prev.bound) then
        var b := Best(Options[n - 1].typ, c.count, c.achieved, c.rel);
        ScanStep(target, n - 1, n, start, prev, b);
        b
      else
        ScanKeep(target, n - 1, n, start, prev);
        prev
  }

  lemma ScanStep(target: real, m: nat, n: nat, start: Option<real>, prev: Best, b: Best)
    requires n == m + 1 && n <= |Options|
    requires prev.typ == "" <==> forall j :: 0 <= j < m ==> !Improves(Eval(target, j), start)
    requires prev.typ == "" ==> prev == Best("", 0, 0.0, start)
    requires prev.typ != "" ==> exists k :: IsBest(target, m, start, k, prev)
    requires Improves(Eval(target, m), prev.bound)
    requires b == Best(Options[m].typ, Eval(target, m).count, Eval(target, m).achieved, Eval(target, m).rel)
    ensures b.typ != "" && exists k :: IsBest(target, n, start, k, b)
  {
    var c := Eval(target, m);
    assert Options[m].typ != "";
    if prev.typ == "" {
      assert IsBest(target, n, start, m, b);
    } else {
      var k :| IsBest(target, m, start, k, prev);
      assert Improves(c, start);
      assert IsBest(target, n, start, m, b);
    }
  }

  lemma ScanKeep(target: real, m: nat, n: nat, start: Option<real>, prev: Best)
    requires n == m + 1 && n <= |Options|
    requires prev.typ == "" <==> forall j :: 0 <= j < m ==> !Improves(Eval(target, j), start)
    requires prev.typ == "" ==> prev == Best("", 0, 0.0, start)
    requires prev.typ != "" ==> exists k :: IsBest(target, m, start, k, prev)
    requires !Improves(Eval(target, m), prev.bound)
    ensures prev.typ == "" <==> forall j :: 0 <= j < n ==> !Improves(Eval(target, j), start)
    ensures prev.typ != "" ==> exists k :: IsBest(target, n, start, k, prev)
  {
    if prev.typ != "" {
      var k :| IsBest(target, m, start, k, prev);
      assert IsBest(target, n, start, k, prev);
    }
  }

  /** The four results of `selectInstance`. */
  datatype Selection = Selection(typ: string, count: int, achieved: real, relErr: real)

  function ToSelection(b: Best): Selection {
    Selection(b.typ, b.count, b.achieved, if b.bound.Some? then b.bound.value else MaxFloat64)
  }

  /**
    Entry `k` of the table is what `s` reports: its type, count and achieved
    amount, its error beats `start`, no entry has a smaller defined error,
    and every earlier entry has a strictly larger one (ties go to the
    earlier entry).
   */
  predicate Chooses(target: real, start: Option<real>, k: nat, s: Selection) {
    && k < |Options|
    && var c := Eval(target, k);
    && s.typ == Options[k].typ && s.count == c.count && s.achieved == c.achieved
    && c.rel == Some(s.relErr)
    && Improves(c, start)
    && (forall j :: 0 <= j < |Options| && Eval(target, j).rel.Some? ==> s.relErr <= Eval(target, j).rel.value)
    && (forall j :: 0 <= j < k && Eval(target, j).rel.Some? ==> s.relErr < Eval(target, j).rel.value)
  }

  lemma BestIsChoice(target: real, start: Option<real>, b: Best)
    requires b.typ != "" ==> exists k :: IsBest(target, |Options|, start, k, b)
    ensures b.typ != "" ==> exists k :: Chooses(target, start, k, ToSelection(b))
  {
    if b.typ != "" {
      var k :| IsBest(target, |Options|, start, k, b);
      assert Chooses(target, start, k, ToSelection(b));
    }
  }

  /** `selectInstance` as written: the running best starts at `math.MaxFloat64`. */
  function SelectInstance(target: real): (s: Selection)
    ensures s.typ == "" <==> forall j :: 0 <= j < |Options| ==> !Improves(Eval(target, j), Some(MaxFloat64))
    ensures s.typ == "" ==> s == Selection("", 0, 0.0, MaxFloat64)
    ensures s.typ != "" ==> exists k :: Chooses(target, Some(MaxFloat64), k, s)
  {
    var b := Scan(target, |Options|, Some(MaxFloat64));
    BestIsChoice(target, Some(MaxFloat64), b);
    ToSelection(b)
  }

  /**
    The intended selection: the running best starts out infinite, so the
    first entry with a defined error is always taken.
   */
  function SelectInstanceFixed(target: real): (s: Selection)
    ensures s.typ == "" <==> target == 0.0
    ensures s.typ == "" ==> s == Selection("", 0, 0.0, MaxFloat64)
    ensures s.typ != "" ==> exists k :: Chooses(target, None, k, s)
  {
    var b := Scan(target, |Options|, None);
    BestIsChoice(target, None, b);
    assert target != 0.0 ==> Improves(Eval(target, 0), None);
    ToSelection(b)
  }

  /** For a positive target an entry is sized to cover it by less than one instance. */
  lemma CandidateBounds(target: real, opt: InstanceOption)
    requires target > 0.0 && opt.price > 0.0
    ensures var c := Evaluate(target, opt);
            && c.count >= 1
            && target <= c.achieved < target + opt.price
            && c.rel == Some((c.achieved - target) / target)
  {
    var c := Evaluate(target, opt);
    CeilCovers(target, opt.price);
    assert Abs(c.achieved - target) == c.achieved - target;
  }

  /** Rounding the quotient up covers the target by less than one more unit of `p`. */
  lemma CeilCovers(target: real, p: real)
    requires target > 0.0 && p > 0.0
    ensures var n := Ceil(target / p);
            n >= 1 && target <= n as real * p < target + p
  {
    var q := target / p;
    var n := Ceil(q);
    var m := n as real;
    DivMul(target, p);
    assert q > 0.0 by {
      if q <= 0.0 {
        MulLe(q, 0.0, p);
      }
    }
    assert m - 1.0 < q <= m;
    MulLe(q, m, p);
    MulLt(m - 1.0, q, p);
    assert q * p == target;
    assert (m - 1.0) * p < target;
    assert m * p - p == (m - 1.0) * p;
  }

  /**
    Entry `k` covers a positive target in `s`: its type, at least one
    instance, an achieved amount at or above the target by less than one
    instance's price, and a non-negative relative error.
   */
  predicate Covers(target: real, k: nat, s: Selection)
    requires target > 0.0
  {
    && k < |Options| && s.typ == Options[k].typ
    && s.count >= 1 && target <= s.achieved < target + Options[k].price
    && s.relErr == (s.achieved - target) / target && s.relErr >= 0.0
  }

  /** Whatever entry a selection reports covers the target. */
  lemma ChoiceCovers(target: real, start: Option<real>, k: nat, s: Selection)
    requires target > 0.0 && Chooses(target, start, k, s)
    ensures Covers(target, k, s)
  {
    CandidateBounds(target, Options[k]);
    DivNonneg(s.achieved - target, target);
  }

  /** With the intended start, a positive target always gets a table entry that covers it. */
  lemma SelectInstanceFixedCovers(target: real)
    requires target > 0.0
    ensures exists k :: Covers(target, k, SelectInstanceFixed(target))
  {
    var s := SelectInstanceFixed(target);
    var k :| Chooses(target, None, k, s);
    ChoiceCovers(target, None, k, s);
  }

  /** At a target of one or more the first entry's error is far below the sentinel. */
  lemma FirstEntryBeatsSentinel(target: real)
    requires target >= 1.0
    ensures Improves(Eval(target, 0), Some(MaxFloat64))
  {
    var c := Eval(target, 0);
    CandidateBounds(target, Options[0]);
    DivAtMost(c.achieved - target, target);
  }

  lemma {:induction false} ScanStartIrrelevant(target: real, n: nat)
    requires target >= 1.0 && 1 <= n <= |Options|
    ensures Scan(target, n, Some(MaxFloat64)) == Scan(target, n, None)
  {
    if n == 1 {
      FirstEntryBeatsSentinel(target);
      assert Scan(target, 0, Some(MaxFloat64)).bound == Some(MaxFloat64);
      assert Scan(target, 0, None).bound == None;
    } else {
      ScanStartIrrelevant(target, n - 1);
    }
  }

  /** For targets of at least one unit the sentinel never matters. */
  lemma SelectInstanceAgreesFromOne(target: real)
    requires target >= 1.0
    ensures SelectInstance(target) == SelectInstanceFixed(target)
  {
    ScanStartIrrelevant(target, |Options|);
  }

  /** 10^-308, a positive target that float64 can represent. */
  const TinyTarget: real := 0.00000000000000000000000000000000000000000000000000000000000000000000000000000000000000000000000000000000000000000000000000000000000000000000000000000000000000000000000000000000000000000000000000000000000000000000000000000000000000000000000000000000000000000000000000000000000000000000000000000000000000000001

  lemma TinyCount(k: nat)
    requires k < |Options|
    ensures Eval(TinyTarget, k).count == 1
    ensures Eval(TinyTarget, k).achieved == Options[k].price
  {
    var p := Options[k].price;
    assert 8.5 <= p;
    assert 0.0 < TinyTarget / p <= 1.0;
  }

  lemma TinyErrorOverflows(k: nat)
    requires k < |Options|
    ensures !Improves(Eval(TinyTarget, k), Some(MaxFloat64))
  {
    var p := Options[k].price;
    var c := Eval(TinyTarget, k);
    TinyCount(k);
    CandidateBounds(TinyTarget, Options[k]);
    assert c.rel.value == (p - TinyTarget) / TinyTarget;
    assert p - TinyTarget > MaxFloat64 * TinyTarget;
    MulDiv(MaxFloat64, TinyTarget);
    DivLt(MaxFloat64 * TinyTarget, p - TinyTarget, TinyTarget);
  }

  /**
    The sentinel excludes a legitimate positive target: at 10^-308 every
    relative error is beyond the largest float64, so nothing is selected.
   */
  lemma TinyTargetSelectsNothing()
    ensures SelectInstance(TinyTarget) == Selection("", 0, 0.0, MaxFloat64)
  {
    forall k | 0 <= k < |Options|
      ensures !Improves(Eval(TinyTarget, k), Some(MaxFloat64))
    {
      TinyErrorOverflows(k);
    }
  }

  /** At the same target the intended selection takes the cheapest entry. */
  lemma TinyTargetFixedPicksFirst()
    ensures SelectInstanceFixed(TinyTarget).typ == "t3.micro"
    ensures SelectInstanceFixed(TinyTarget).count == 1
  {
    var s := SelectInstanceFixed(TinyTarget);
    var k: nat :| Chooses(TinyTarget, None, k, s);
    TinyCount(k);
    TinyErrorGrows(k);
    if k > 0 {
      assert false;
    }
  }

  /** At the tiny target a dearer entry has a larger relative error than the first. */
  lemma TinyErrorGrows(k: nat)
    requires k < |Options|
    ensures Eval(TinyTarget, 0).rel.Some? && Eval(TinyTarget, k).rel.Some?
    ensures Eval(TinyTarget, 0).rel.value <= Eval(TinyTarget, k).rel.value
  {
    TinyCount(0);
    TinyCount(k);
    CandidateBounds(TinyTarget, Options[0]);
    CandidateBounds(TinyTarget, Options[k]);
    DivLe(Options[0].price - TinyTarget, Options[k].price - TinyTarget, TinyTarget);
  }
}
