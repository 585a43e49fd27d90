/**
  Model of the MAP funding engine (internal/incentives/map/map.go) and the
  types it fills (pkg/types/types.go). The language-model client is a
  parameter: the engine only builds the prompt and passes the reply or the
  error through.
 */
module FundingEngine {
  import opened Wrappers

  /** `ARRTier` is an integer; the three named tiers. */
  const ARR205k: int := 205000
  const ARR300k: int := 300000
  const ARR600k: int := 600000

  datatype FundingPlan = FundingPlan(arr: int, cap: real, requested: real, narrative: string)

  /** The request sent to the language-model client. */
  datatype Prompt = Prompt(system: string, user: string, vars: map<string, string>, lang: string)

  const SystemText: string := "You are a concise AWS technical writer"
  const UserTemplate: string := "Justifique incentivo para ARR {{arr}}"
  const Lang: string := "pt-BR"

  /** The client's `Generate`: a narrative or an error message. */
  type Generator = Prompt -> Result<string, string>

  /** What `BuildPlan` returns: the plan and, when the client failed, its error. */
  datatype Outcome = Outcome(plan: FundingPlan, err: Option<string>)

  // ---- decimal formatting (`%d`) ----

  predicate IsDigit(c: char) { '0' <= c <= '9' }

  function DigitChar(d: int): (c: char)
    requires 0 <= d < 10
    ensures IsDigit(c) && (c as int) - ('0' as int) == d
  {
    (('0' as int) + d) as char
  }

  function DigitValue(c: char): (d: int)
    requires IsDigit(c)
    ensures 0 <= d < 10
  {
    (c as int) - ('0' as int)
  }

  /** Decimal digits of a natural number, most significant first, with no leading zero. */
  function Digits(n: nat): (s: string)
    ensures |s| >= 1
    ensures forall i :: 0 <= i < |s| ==> IsDigit(s[i])
    ensures |s| > 1 ==> s[0] != '0'
    ensures n == 0 <==> s == "0"
    decreases n
  {
    if n < 10 then [DigitChar(n)]
    else Digits(n / 10) + [DigitChar(n % 10)]
  }

  /** `fmt.Sprintf("%d", n)`: a minus sign for negative numbers, then the digits. */
  function FormatInt(n: int): (s: string)
    ensures |s| >= 1
    ensures n >= 0 ==> IsDigit(s[0])
    ensures n < 0 ==> s[0] == '-' && |s| >= 2
  {
    if n >= 0 then Digits(n) else "-" + Digits(-n)
  }

  /** Value of a string of digits. */
  function DigitsValue(s: string): nat
    requires forall i :: 0 <= i < |s| ==> IsDigit(s[i])
  {
    if |s| == 0 then 0
    else 10 * DigitsValue(s[..|s| - 1]) + DigitValue(s[|s| - 1])
  }

  /** Reading a decimal back: an optional minus sign and at least one digit. */
  function ParseInt(s: string): (r: Option<int>)
    ensures r.Some? && |s| > 0 && s[0] != '-' ==> r.value >= 0
  {
    if |s| > 0 && s[0] == '-' then
      var t := s[1..];
      if |t| > 0 && forall i :: 0 <= i < |t| ==> IsDigit(t[i]) then Some(-(DigitsValue(t) as int)) else None
    else if |s| > 0 && forall i :: 0 <= i < |s| ==> IsDigit(s[i]) then Some(DigitsValue(s))
    else None
  }

  lemma {:induction false} DigitsRoundTrip(n: nat)
    ensures DigitsValue(Digits(n)) == n
    decreases n
  {
    if n >= 10 {
      DigitsRoundTrip(n / 10);
      var s := Digits(n);
      assert s[..|s| - 1] == Digits(n / 10);
    }
  }

  /** The decimal text of the ARR reads back as the same integer. */
  lemma FormatIntRoundTrip(n: int)
    ensures ParseInt(FormatInt(n)) == Some(n)
  {
    if n >= 0 {
      DigitsRoundTrip(n);
    } else {
      DigitsRoundTrip(-n);
      assert FormatInt(n)[1..] == Digits(-n);
    }
  }

  /** Different ARR values give different prompt variables. */
  lemma FormatIntInjective(a: int, b: int)
    requires FormatInt(a) == FormatInt(b)
    ensures a == b
  {
    FormatIntRoundTrip(a);
    FormatIntRoundTrip(b);
  }

  // ---- the engine ----

  /** The prompt for a given ARR. */
  function PromptFor(arr: int): (p: Prompt)
    ensures p.system == SystemText && p.user == UserTemplate && p.lang == Lang
    ensures p.vars.Keys == {"arr"} && ParseInt(p.vars["arr"]) == Some(arr)
  {
    FormatIntRoundTrip(arr);
    Prompt(SystemText, UserTemplate, map["arr" := FormatInt(arr)], Lang)
  }

  /**
    `Engine.BuildPlan`: the cap is 10% of the ARR, the requested amount is
    clamped to the cap, and the narrative is the client's reply. On a client
    error the plan is still returned, with an empty narrative, together with
    the error.
   */
  function BuildPlan(generate: Generator, arr: int, requested: real): (o: Outcome)
    ensures o.plan.arr == arr
    ensures o.plan.cap == (arr as real) / 10.0
    ensures o.plan.requested <= o.plan.cap
    ensures requested <= o.plan.cap ==> o.plan.requested == requested
    ensures requested > o.plan.cap ==> o.plan.requested == o.plan.cap
    ensures o.err.None? <==> generate(PromptFor(arr)).Success?
    ensures o.err.None? ==> o.plan.narrative == generate(PromptFor(arr)).value
    ensures o.err.Some? ==> o.plan.narrative == "" && o.err.value == generate(PromptFor(arr)).error
  {
    var cap := (arr as real) * 0.10;
    var plan := FundingPlan(arr, cap, if requested > cap then cap else requested, "");
    match generate(PromptFor(arr))
    case Failure(e) => Outcome(plan, Some(e))
    case Success(narr) => Outcome(plan.(narrative := narr), None)
  }

  /** The plan's amounts never depend on the client: only the narrative and error do. */
  lemma AmountsIndependentOfClient(g1: Generator, g2: Generator, arr: int, requested: real)
    ensures BuildPlan(g1, arr, requested).plan.(narrative := "") == BuildPlan(g2, arr, requested).plan.(narrative := "")
  {
  }

  /** The package's test: at the 300k tier a request of 40,000 is clamped to the 30,000 cap. */
  lemma BuildPlanExample(generate: Generator)
    requires generate(PromptFor(ARR300k)).Success?
    ensures BuildPlan(generate, ARR300k, 40000.0).plan.cap == 30000.0
    ensures BuildPlan(generate, ARR300k, 40000.0).plan.requested == 30000.0
    ensures BuildPlan(generate, ARR300k, 40000.0).err.None?
  {
  }
}
