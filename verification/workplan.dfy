/**
  Model of the work-plan arithmetic of the `map` command
  (internal/command/map.go, the block after the calculator run): an
  assessment budget derived from the annual recurring revenue, a total
  number of project days, a 30/40/30 split of those days over three phases,
  and a head-count that spends the budget. Money and weights are exact
  reals; the phase weights are exactly 3/10, 4/10 and 3/10.
 */
module WorkPlan {
  import opened Numeric

  const HourlyRateBRL: real := 500.0
  const UsdToBrl: real := 5.5
  const AssessmentPct: real := 0.05
  const MaxBudgetUSD: real := 75000.0
  const HoursPerDay: int := 8

  datatype Bucket = Bucket(key: string, name: string, weight: real)

  /** The three phases and their share of the effort. */
  const Buckets: seq<Bucket> := [
    Bucket("business_case", "Caso de neg\U{F3}cios inicial", 0.3),
    Bucket("discovery", "Descoberta inicial", 0.4),
    Bucket("strategy", "An\U{E1}lise de estrat\U{E9}gia", 0.3)
  ]

  function Weights(): (ws: seq<real>)
    ensures |ws| == |Buckets|
    ensures forall i :: 0 <= i < |ws| ==> ws[i] == Buckets[i].weight
  {
    [Buckets[0].weight, Buckets[1].weight, Buckets[2].weight]
  }

  function Sum(xs: seq<int>): int {
    if |xs| == 0 then 0 else xs[0] + Sum(xs[1..])
  }

  function SumReal(xs: seq<real>): real {
    if |xs| == 0 then 0.0 else xs[0] + SumReal(xs[1..])
  }

  /** Budget in USD: 5% of the ARR, capped at 75,000. */
  function BudgetUSD(arr: real): (b: real)
    ensures b <= MaxBudgetUSD && b <= arr * AssessmentPct
    ensures b == MaxBudgetUSD || b == arr * AssessmentPct
    ensures arr * AssessmentPct <= MaxBudgetUSD ==> b == arr * AssessmentPct
  {
    var b := arr * AssessmentPct;
    if b > MaxBudgetUSD then MaxBudgetUSD else b
  }

  /**
    Project days for one person: the budget's hours rounded to whole days,
    at least one.
   */
  function TotalDays(budgetBRL: real): (t: int)
    ensures t >= 1
    ensures var x := budgetBRL / HourlyRateBRL / HoursPerDay as real;
            x >= 0.5 ==> x - 0.5 < t as real <= x + 0.5
    ensures var x := budgetBRL / HourlyRateBRL / HoursPerDay as real;
            x < 0.5 ==> t == 1
  {
    var t := Round(budgetBRL / HourlyRateBRL / HoursPerDay as real);
    if t < 1 then 1 else t
  }

  /** Days of a non-final phase before any adjustment: the least whole number of days, not below zero, covering total * weight. */
  function PhaseShare(total: int, w: real): (d: int)
    ensures d >= 0 && d as real >= total as real * w
    ensures d > 0 ==> (d - 1) as real < total as real * w
  {
    var d := Ceil(total as real * w);
    if d < 0 then 0 else d
  }

  /**
    The phase split as written: each phase but the last takes its rounded-up
    share and `remaining` drops by it (clamped at zero); the last phase takes
    whatever remains.
   */
  function SplitAsWritten(ws: seq<real>, total: int, remaining: int): (days: seq<int>)
    requires |ws| >= 1 && remaining >= 0
    ensures |days| == |ws|
    ensures forall i :: 0 <= i < |days| ==> days[i] >= 0
    ensures days[|days| - 1] <= remaining
  {
    if |ws| == 1 then [remaining]
    else
      var d := PhaseShare(total, ws[0]);
      var rest := remaining - d;
      [d] + SplitAsWritten(ws[1..], total, if rest < 0 then 0 else rest)
  }

  /**
    Phase days as the source computes them: the two rounded-up shares, then
    whatever the clamped `remaining` leaves. The days never add up to less
    than the total, but can add up to more.
   */
  function PhaseDaysAsWritten(total: int): (days: seq<int>)
    requires total >= 1
    ensures var a := Ceil(total as real * 0.3);
            var b := Ceil(total as real * 0.4);
            var r1 := if total - a < 0 then 0 else total - a;
            var r2 := if r1 - b < 0 then 0 else r1 - b;
            days == [a, b, r2]
    ensures forall i :: 0 <= i < |days| ==> days[i] >= 0
    ensures Sum(days) >= total
  {
    ThreeSplits(total);
    ShareFacts(total);
    var days := SplitAsWritten(Weights(), total, total);
    SumThree(days);
    days
  }

  lemma SumThree(xs: seq<int>)
    requires |xs| == 3
    ensures Sum(xs) == xs[0] + xs[1] + xs[2]
  {
    assert xs[2..][1..] == [];
    assert Sum(xs[2..]) == xs[2];
    assert xs[1..][1..] == xs[2..];
    assert Sum(xs[1..]) == xs[1] + xs[2];
  }

  /**
    The split the comment above the loop promises: a phase never takes more
    than what remains, so the days always add up to `remaining`.
   */
  function Split(ws: seq<real>, total: int, remaining: int): (days: seq<int>)
    requires |ws| >= 1 && remaining >= 0
    ensures |days| == |ws|
    ensures forall i :: 0 <= i < |days| ==> days[i] >= 0
    ensures Sum(days) == remaining
  {
    if |ws| == 1 then [remaining]
    else
      var d := PhaseShare(total, ws[0]);
      var take := if d < remaining then d else remaining;
      [take] + Split(ws[1..], total, remaining - take)
  }

  /** Phase days as the model uses them. */
  function PhaseDays(total: int): (days: seq<int>)
    requires total >= 1
    ensures |days| == |Buckets| && Sum(days) == total
    ensures forall i :: 0 <= i < |days| ==> days[i] >= 0
  {
    Split(Weights(), total, total)
  }

  lemma ShareFacts(total: int)
    requires total >= 1
    ensures PhaseShare(total, 0.3) == Ceil(total as real * 0.3)
    ensures PhaseShare(total, 0.4) == Ceil(total as real * 0.4)
    ensures total >= 2 ==> Ceil(total as real * 0.3) + Ceil(total as real * 0.4) <= total
  {
    var a := Ceil(total as real * 0.3);
    var b := Ceil(total as real * 0.4);
    if total == 2 {
      assert a == 1 && b == 1;
    } else if total == 3 {
      assert a == 1 && b == 2;
    }
  }

  lemma ThreeSplits(total: int)
    requires total >= 1
    ensures var a := Ceil(total as real * 0.3);
            var b := Ceil(total as real * 0.4);
            var r1 := if total - a < 0 then 0 else total - a;
            var r2 := if r1 - b < 0 then 0 else r1 - b;
            SplitAsWritten(Weights(), total, total) == [a, b, r2]
  {
    ShareFacts(total);
    var ws := Weights();
    var a := Ceil(total as real * 0.3);
    var b := Ceil(total as real * 0.4);
    var r1 := if total - a < 0 then 0 else total - a;
    var r2 := if r1 - b < 0 then 0 else r1 - b;
    assert ws == [0.3, 0.4, 0.3];
    assert ws[1..] == [0.4, 0.3];
    assert ws[1..][1..] == [0.3];
    assert SplitAsWritten([0.3], total, r2) == [r2];
    assert SplitAsWritten([0.4, 0.3], total, r1) == [b, r2];
    assert SplitAsWritten(ws, total, total) == [a, b, r2];
  }

  /**
    Whenever the two rounded-up shares fit in the total (every total of two
    or more), the clamp never fires and the source's split equals the
    intended one, so the phase days add up to the total.
   */
  lemma PhaseDaysAsWrittenFromTwo(total: int)
    requires total >= 2
    ensures PhaseDaysAsWritten(total) == PhaseDays(total)
    ensures Sum(PhaseDaysAsWritten(total)) == total
  {
    ThreeSplits(total);
    ShareFacts(total);
    var ws := Weights();
    var a := Ceil(total as real * 0.3);
    var b := Ceil(total as real * 0.4);
    assert a >= 0 && b >= 0;
    assert ws == [0.3, 0.4, 0.3];
    assert ws[1..] == [0.4, 0.3];
    assert ws[1..][1..] == [0.3];
    assert Split([0.3], total, total - a - b) == [total - a - b];
    assert Split([0.4, 0.3], total, total - a) == [b, total - a - b];
    assert PhaseDays(total) == [a, b, total - a - b];
  }

  /**
    At one project day both rounded-up shares are one day: the source gives
    1, 1 and 0 days, two in all, where the intended split gives 1, 0 and 0.
   */
  lemma PhaseDaysAsWrittenAtOne()
    ensures PhaseDaysAsWritten(1) == [1, 1, 0]
    ensures Sum(PhaseDaysAsWritten(1)) == 2
    ensures PhaseDays(1) == [1, 0, 0]
  {
    ThreeSplits(1);
    SharesAtOne();
    assert Sum([1, 1, 0]) == 2;
    var ws := Weights();
    assert ws == [0.3, 0.4, 0.3];
    assert ws[1..] == [0.4, 0.3];
    assert ws[1..][1..] == [0.3];
    assert Split([0.3], 1, 0) == [0];
    assert Split([0.4, 0.3], 1, 0) == [0, 0];
    assert Split(ws, 1, 1) == [1] + Split([0.4, 0.3], 1, 0);
  }

  /** At one day both rounded-up shares are a whole day. */
  lemma SharesAtOne()
    ensures Ceil(1 as real * 0.3) == 1 && Ceil(1 as real * 0.4) == 1
    ensures PhaseShare(1, 0.3) == 1 && PhaseShare(1, 0.4) == 1
  {
    var a := Ceil(1 as real * 0.3);
    assert a as real - 1.0 < 0.3 <= a as real;
    var b := Ceil(1 as real * 0.4);
    assert b as real - 1.0 < 0.4 <= b as real;
  }

  /** One row of the plan: a phase with its days, hours and fractional head-count. */
  datatype Activity = Activity(key: string, name: string, share: real, days: int, hours: int, peopleFraction: real)

  datatype Plan = Plan(
    targetMRR: real,
    budgetUSD: real,
    budgetBRL: real,
    totalHoursBudget: real,
    activities: seq<Activity>,
    daysTotal: int,
    hoursTotal: int,
    peopleTotal: int,
    assessmentTotalCostBRL: real)

  /** Cost in BRL of one person for `days` days. */
  function PersonCost(days: int): (c: real)
    ensures days >= 1 ==> c >= 4000.0
  {
    days as real * HoursPerDay as real * HourlyRateBRL
  }

  /** `n` people for `days` days cost at least `budget`, and one person fewer (if any) would not. */
  predicate SpendsBudget(n: int, days: int, budget: real) {
    && n >= 1
    && n as real * PersonCost(days) >= budget
    && (n == 1 || (n - 1) as real * PersonCost(days) < budget)
  }

  /** The smallest head-count (at least one) whose cost over `days` days covers `budget`. */
  function People(budget: real, days: int): (n: int)
    requires days >= 1
    ensures SpendsBudget(n, days, budget)
  {
    var c := PersonCost(days);
    var q := budget / c;
    var n := Ceil(q);
    DivMul(budget, c);
    MulLe(q, n as real, c);
    assert q * c == budget;
    assert n as real * c >= budget;
    var m := n as real - 1.0;
    assert m < q;
    MulLt(m, q, c);
    assert m * c < q * c;
    assert m * c < budget;
    if n < 1 then
      MulLe(n as real, 1.0, c);
      1
    else n
  }

  function Activities(days: seq<int>, people: int): (acts: seq<Activity>)
    requires |days| == |Buckets|
    ensures |acts| == |Buckets|
    ensures forall i :: 0 <= i < |acts| ==>
              && acts[i].key == Buckets[i].key && acts[i].share == Buckets[i].weight
              && acts[i].days == days[i] && acts[i].hours == days[i] * HoursPerDay
    ensures DaysOf(acts) == days
    ensures SharesPeople(acts, people)
  {
    seq(|Buckets|, i requires 0 <= i < |Buckets| =>
      Activity(Buckets[i].key, Buckets[i].name, Buckets[i].weight, days[i], days[i] * HoursPerDay,
               people as real * Buckets[i].weight))
  }

  /** Each phase's fractional head-count is the total head-count times the phase's weight. */
  predicate SharesPeople(acts: seq<Activity>, people: int)
    requires |acts| == |Buckets|
  {
    forall i :: 0 <= i < |acts| ==> acts[i].peopleFraction == people as real * Buckets[i].weight
  }

  function DaysOf(acts: seq<Activity>): seq<int> {
    seq(|acts|, i requires 0 <= i < |acts| => acts[i].days)
  }

  function Hours(acts: seq<Activity>): int {
    if |acts| == 0 then 0 else acts[0].hours + Hours(acts[1..])
  }

  lemma {:induction false} HoursAreDays(acts: seq<Activity>, days: seq<int>)
    requires |acts| == |days|
    requires forall i :: 0 <= i < |acts| ==> acts[i].hours == days[i] * HoursPerDay
    ensures Hours(acts) == Sum(days) * HoursPerDay
  {
    if |acts| > 0 {
      HoursAreDays(acts[1..], days[1..]);
    }
  }

  /** Days per phase, total days and head-count for a budget in BRL. */
  datatype Staffing = Staffing(days: seq<int>, daysTotal: int, people: int)

  /**
    The staffing for given phase days: the total is their sum (one when they
    sum to zero), and the head-count is sized to that total.
   */
  function Staff(budgetBRL: real, days: seq<int>): (st: Staffing)
    requires |days| == |Buckets| && forall i :: 0 <= i < |days| ==> days[i] >= 0
    ensures st.days == days
    ensures st.daysTotal == if Sum(days) == 0 then 1 else Sum(days)
    ensures SpendsBudget(st.people, st.daysTotal, budgetBRL)
  {
    SumThree(days);
    var sumDays := Sum(days);
    var sumDays := if sumDays == 0 then 1 else sumDays;
    Staffing(days, sumDays, People(budgetBRL, sumDays))
  }

  /** The work plan for an ARR and the phase days chosen for it. */
  function Assemble(arr: real, days: seq<int>): (p: Plan)
    requires |days| == |Buckets| && forall i :: 0 <= i < |days| ==> days[i] >= 0
    ensures p.targetMRR * 12.0 == arr
    ensures p.budgetUSD == BudgetUSD(arr) && p.budgetBRL == p.budgetUSD * UsdToBrl
    ensures p.assessmentTotalCostBRL == p.budgetBRL
    ensures p.totalHoursBudget * HourlyRateBRL == p.budgetBRL
    ensures |p.activities| == |Buckets| && DaysOf(p.activities) == days
    ensures p.hoursTotal == Sum(days) * HoursPerDay
    ensures p.daysTotal == if Sum(days) == 0 then 1 else Sum(days)
    ensures SpendsBudget(p.peopleTotal, p.daysTotal, p.budgetBRL)
    ensures SharesPeople(p.activities, p.peopleTotal)
  {
    var budgetUSD := BudgetUSD(arr);
    var budgetBRL := budgetUSD * UsdToBrl;
    var mrr := arr / 12.0;
    var hoursBudget := budgetBRL / HourlyRateBRL;
    DivMul(arr, 12.0);
    DivMul(budgetBRL, HourlyRateBRL);
    var st := Staff(budgetBRL, days);
    var acts := Activities(st.days, st.people);
    assert DaysOf(acts) == st.days;
    HoursAreDays(acts, st.days);
    Plan(mrr, budgetUSD, budgetBRL, hoursBudget, acts, st.daysTotal, Hours(acts), st.people, budgetBRL)
  }

  function BudgetBRL(arr: real): real {
    BudgetUSD(arr) * UsdToBrl
  }

  /**
    The work plan the `map` command reports for an ARR, with the phase days
    the source computes. The reported total is the sum of those days, which
    is the project's total days except at one day (`PhaseDaysAsWrittenAtOne`).
   */
  function BuildPlan(arr: real): (p: Plan)
    ensures p.targetMRR * 12.0 == arr
    ensures p.budgetUSD == BudgetUSD(arr) && p.budgetBRL == p.budgetUSD * UsdToBrl
    ensures p.assessmentTotalCostBRL == p.budgetBRL
    ensures p.totalHoursBudget * HourlyRateBRL == p.budgetBRL
    ensures |p.activities| == |Buckets|
    ensures DaysOf(p.activities) == PhaseDaysAsWritten(TotalDays(p.budgetBRL))
    ensures p.daysTotal == Sum(DaysOf(p.activities)) && p.daysTotal >= TotalDays(p.budgetBRL)
    ensures TotalDays(p.budgetBRL) >= 2 ==> p.daysTotal == TotalDays(p.budgetBRL)
    ensures p.hoursTotal == p.daysTotal * HoursPerDay
    ensures SpendsBudget(p.peopleTotal, p.daysTotal, p.budgetBRL)
    ensures SharesPeople(p.activities, p.peopleTotal)
  {
    var t := TotalDays(BudgetBRL(arr));
    AsWrittenSum(t);
    Assemble(arr, PhaseDaysAsWritten(t))
  }

  /** The work plan with the intended split: the reported total is always the project's total days. */
  function BuildPlanFixed(arr: real): (p: Plan)
    ensures p.budgetUSD == BudgetUSD(arr) && p.budgetBRL == p.budgetUSD * UsdToBrl
    ensures |p.activities| == |Buckets|
    ensures DaysOf(p.activities) == PhaseDays(TotalDays(p.budgetBRL))
    ensures p.daysTotal == TotalDays(p.budgetBRL) && p.daysTotal == Sum(DaysOf(p.activities))
    ensures p.hoursTotal == p.daysTotal * HoursPerDay
    ensures SpendsBudget(p.peopleTotal, p.daysTotal, p.budgetBRL)
    ensures SharesPeople(p.activities, p.peopleTotal)
  {
    Assemble(arr, PhaseDays(TotalDays(BudgetBRL(arr))))
  }

  lemma AsWrittenSum(total: int)
    requires total >= 1
    ensures total >= 2 ==> Sum(PhaseDaysAsWritten(total)) == total
  {
    if total >= 2 { PhaseDaysAsWrittenFromTwo(total); }
  }

  /** From two project days on, the plan as written and the intended plan coincide. */
  lemma BuildPlanAgreesFromTwo(arr: real)
    requires TotalDays(BudgetBRL(arr)) >= 2
    ensures BuildPlan(arr) == BuildPlanFixed(arr)
  {
    PhaseDaysAsWrittenFromTwo(TotalDays(BudgetBRL(arr)));
  }

  /**
    An ARR of 20000 gives a budget of 5500 BRL and one project day. The
    source splits it as 1, 1 and 0 days, reports two days and sizes one
    person to them; the intended plan reports one day and two people.
   */
  lemma BuildPlanAtOneDay()
    ensures DaysOf(BuildPlan(20000.0).activities) == [1, 1, 0]
    ensures BuildPlan(20000.0).daysTotal == 2 && BuildPlan(20000.0).hoursTotal == 16
    ensures BuildPlan(20000.0).peopleTotal == 1
    ensures BuildPlanFixed(20000.0).daysTotal == 1 && BuildPlanFixed(20000.0).peopleTotal == 2
  {
    var b := BudgetBRL(20000.0);
    assert b == 5500.0;
    OneDay(b);
    PhaseDaysAsWrittenAtOne();
    SumThree([1, 1, 0]);
    var p := BuildPlan(20000.0);
    var q := BuildPlanFixed(20000.0);
    assert p.budgetBRL == b && q.budgetBRL == b;
    OnlyHeadCount(p.peopleTotal, 2, b, 1);
    OnlyHeadCount(q.peopleTotal, 1, b, 2);
  }

  /** The package test's ARR of 1200 also falls on one project day, so its plan reports two. */
  lemma BuildPlanTestInput()
    ensures DaysOf(BuildPlan(1200.0).activities) == [1, 1, 0]
    ensures BuildPlan(1200.0).daysTotal == 2 && BuildPlan(1200.0).hoursTotal == 16
    ensures BuildPlan(1200.0).peopleTotal == 1
  {
    var b := BudgetBRL(1200.0);
    assert b == 330.0;
    OneDay(b);
    PhaseDaysAsWrittenAtOne();
    SumThree([1, 1, 0]);
    var p := BuildPlan(1200.0);
    assert p.budgetBRL == b;
    OnlyHeadCount(p.peopleTotal, 2, b, 1);
  }

  lemma OneDay(b: real)
    requires 0.0 <= b < 6000.0
    ensures TotalDays(b) == 1
  {
    var y := b / HourlyRateBRL;
    assert 0.0 <= y < 12.0;
    var x := y / HoursPerDay as real;
    assert 0.0 <= x < 1.5;
  }

  /** `SpendsBudget` pins the head-count down: `n` is the only one that fits. */
  lemma OnlyHeadCount(m: int, days: int, budget: real, n: int)
    requires days >= 1 && SpendsBudget(m, days, budget) && SpendsBudget(n, days, budget)
    ensures m == n
  {
    var c := PersonCost(days);
    assert c > 0.0;
    if m < n {
      assert n != 1 && (n - 1) as real * c < budget;
      MulLe(m as real, (n - 1) as real, c);
    } else if n < m {
      assert m != 1 && (m - 1) as real * c < budget;
      MulLe(n as real, (m - 1) as real, c);
    }
  }

  /** The three phase weights add up to the whole effort, so the fractional head-counts add up to the total. */
  lemma PeopleFractionsSum(arr: real)
    ensures var p := BuildPlan(arr);
            SumReal(seq(|p.activities|, i requires 0 <= i < |p.activities| => p.activities[i].peopleFraction))
              == p.peopleTotal as real
  {
    var p := BuildPlan(arr);
    var xs := seq(|p.activities|, i requires 0 <= i < |p.activities| => p.activities[i].peopleFraction);
    var n := p.peopleTotal as real;
    assert |xs| == 3 && xs[0] == n * 0.3 && xs[1] == n * 0.4 && xs[2] == n * 0.3;
    assert SumReal(xs[2..]) == n * 0.3;
    assert SumReal(xs[1..]) == n * 0.4 + n * 0.3 by {
      assert xs[1..][1..] == xs[2..];
    }
    assert SumReal(xs) == n * 0.3 + n * 0.4 + n * 0.3;
  }
}
