# aws-calculator-gen: a Dafny model of its deterministic core

`aws-calculator-gen` is a Go command-line tool for AWS pre-sales work. It
drives the AWS Pricing Calculator in a browser, prices a usage description
against a rate catalog, and builds a Migration Acceleration Program (MAP)
assessment: a funding tier, a funding cap with an optional narrative from a
language model, and a work plan with phase days and head-count.

This project models the pure, sequential logic behind those features and
proves properties of it:

- `Params`: the `key=value` parameter parser of the command layer.
- `Slug`: the `slugify` normalisation used for customer names.
- `InstanceSelect`: the instance-type heuristic that sizes a target monthly
  amount against a fixed price table.
- `WorkPlan`: the MAP work-plan arithmetic. It covers the budget, the total
  days, the 30/40/30 phase split, the head-count and the activity list.
- `Funding`: the MAP tier lookup and the 10% funding cap.
- `FundingEngine`: the funding engine. It clamps the requested amount to the
  cap and passes the language model's reply or error through. The client is
  a function parameter.
- `PricingTyped`: the calculator over a typed usage record. `PricingDynamic`:
  the calculator over a decoded YAML tree, including `toF64`.
- `Services`: the six services. `MapSum`: `+=` into a map and summing it.
  `Stages`: the service-by-service pricing order both calculators share.
- `CalcPricing`: the region-label lookup and the text extraction of `parseUSD`.
  `CalcSizing`: the second copy of the region-label switch, proved equal to
  the first.
- `CommandsFactory` and `CommandRegistry`: the two name-to-command
  registries.
- `Numeric` and `Wrappers`: helpers (ceiling, rounding, `Option`, `Result`).

Modelling choices:

- Money, rates and weights are exact `real`s. Go's `float64` rounding is not
  modelled. Two floating-point effects change which instance `selectInstance`
  picks, and both are kept: a NaN error and the `math.MaxFloat64` start value.
- Go maps are Dafny `map`s. A missing key reads as the zero value, as in Go.
- Go panics on a failed type assertion in `pricing/calculator.go`. The model
  states this as a precondition (`PricingDynamic.WellTyped`).
- `strconv.ParseFloat` and the language-model client are parameters.
- `strings.ToLower` lowers ASCII letters only.

## Model

| member | source | states |
|---|---|---|
| Params.ParseParams | internal/command/params.go:10-23 | on success every key is non-empty; on failure the message is "invalid parameter: " followed by an item of the list that is bad |
| Params.ParseParamsOutcome | internal/command/params.go:12-19 | the call succeeds exactly when no item is bad; otherwise the error names the first bad item in list order and no map is returned |
| Params.ParseParamsSucceedsIff | internal/command/params.go:13-19 | success holds if and only if every item is empty or has a `=` with a non-empty key before it |
| Params.ParseParamsSkipsEmpty | internal/command/params.go:13-15 | an empty item anywhere in the list can be removed without changing the result |
| Params.SplitAgrees | internal/command/params.go:16-17 | `SplitN(item, "=", 2)` yields two parts with a non-empty first part exactly when the item is well formed, and then the parts are the text before and after the first `=` |
| Params.ParseParamsKeys | internal/command/params.go:17-20 | after a successful parse, every non-empty item contributes its key, and every key in the map comes from some item and is non-empty |
| Params.ParseParamsLastWins | internal/command/params.go:20 | when a key is set by several items, the map holds the value of the last one |
| Params.ParseParamsExample | internal/command/params_test.go:5-13 | `["a=1","b=two"]` parses to exactly `{a: "1", b: "two"}` |
| Params.ParseParamsRejectsBare | internal/command/params_test.go:15-20 | `["bad"]` fails with "invalid parameter: bad" |
| Params.ParseParamsValueKeepsEq | internal/command/params.go:16-20 | `"k=a=b"` splits at the first `=` only, giving value `"a=b"` |
| Slug.Slugify | internal/commands/map.go:127-138 | the output uses only `a-z`, `0-9` and `-`, has no `--`, and neither starts nor ends with `-` |
| Slug.CollapseShape | internal/commands/map.go:134-135 | collapsing runs of `-` adds no character and leaves no `--` |
| Slug.TrimDashesShape | internal/commands/map.go:136 | trimming `-` adds no character and keeps a string free of `--` |
| Slug.SlugifyKeepsSlug | internal/commands/map.go:127-138 | a string already in slug shape comes out unchanged |
| Slug.SlugifyFixedPoint | internal/commands/map.go:127-138 | a string is left unchanged if and only if it is in slug shape |
| Slug.SlugifyIdempotent | internal/commands/map.go:127-138 | normalising twice gives the same result as normalising once |
| Slug.SlugifyWithoutTrimSpace | internal/commands/map.go:129-136 | dropping the white-space trim gives the same result, because the later stages remove the spaces anyway |
| Slug.SlugifySeparators | internal/commands/map.go:130-131 | a space, an underscore and a dash between two words all give the same slug, so separators are turned into `-` rather than dropped |
| Slug.SlugifyIgnoresCase | internal/commands/map.go:128 | upper-case ASCII letters give the same slug as their lower-case forms |
| InstanceSelect.Evaluate | internal/calc/flow.go:54-56 | the relative error of an entry is undefined (NaN) exactly when the target is 0 |
| InstanceSelect.Scan | internal/calc/flow.go:53-63 | the scan keeps an entry exactly when some entry beats the start value; it keeps the first entry whose defined error is least |
| InstanceSelect.SelectInstance | internal/calc/flow.go:48-65 | the result is empty, with error `MaxFloat64`, exactly when no entry's error is below `MaxFloat64`; otherwise it reports a table entry's type, count and achieved amount, with an error no larger than any entry's and strictly smaller than every earlier entry's |
| InstanceSelect.CandidateBounds | internal/calc/flow.go:54-55 | for a positive target, the count is at least 1 and the achieved amount covers the target by less than one unit price |
| InstanceSelect.ChoiceCovers | internal/calc/flow.go:37-43 | a chosen entry is one of the five table entries, with count ≥ 1 and target ≤ achieved < target + price |
| InstanceSelect.SelectInstanceFixed | internal/calc/flow.go:48-65 | with no start bound, nothing is chosen exactly when the target is 0; otherwise the choice is the best entry, with ties going to the earlier one |
| InstanceSelect.SelectInstanceFixedCovers | internal/calc/flow.go:53-64 | for every positive target the corrected selection picks a table entry whose achieved amount covers the target |
| InstanceSelect.SelectInstanceAgreesFromOne | internal/calc/flow.go:52-57 | for targets of at least 1 the `MaxFloat64` start value makes no difference |
| InstanceSelect.TinyTargetSelectsNothing | internal/calc/flow.go:52-57 | for the target 10^-308 every error exceeds `MaxFloat64`, so the function as written returns an empty type and count 0 |
| InstanceSelect.TinyTargetFixedPicksFirst | internal/calc/flow.go:53-63 | for the same target the corrected selection picks `t3.micro` with count 1 |
| WorkPlan.BudgetUSD | internal/command/map.go:154-157 | the budget is min(arr × 5%, 75000) |
| WorkPlan.TotalDays | internal/command/map.go:179-182 | total days are the budget's hours over 8, rounded to the nearest integer and at least 1 |
| WorkPlan.PhaseShare | internal/command/map.go:192-195 | a non-final phase gets the least whole number of days, not below zero, that covers total days × weight: ceil(total × weight), clamped at 0 |
| WorkPlan.SplitAsWritten | internal/command/map.go:185-201 | as written: every phase gets ≥ 0 days and the last phase gets at most what remains |
| WorkPlan.PhaseDaysAsWritten | internal/command/map.go:184-201 | as written: the first two phases get ceil(0.3 t) and ceil(0.4 t) days, and the last gets what remains after each is taken, with the remainder clamped at 0 at each step; every phase is ≥ 0 and the days add up to at least t |
| WorkPlan.Split | internal/command/map.go:184-201 | the corrected split: every phase gets ≥ 0 days and the days add up to the amount being split |
| WorkPlan.PhaseDays | internal/command/map.go:184-201 | three phases with non-negative days that add up to the total |
| WorkPlan.PhaseDaysAsWrittenFromTwo | internal/command/map.go:184-201 | for a total of at least 2 days the split as written equals the corrected split, so its days add up to the total |
| WorkPlan.PhaseDaysAsWrittenAtOne | internal/command/map.go:184-201 | for a total of 1 day the split as written gives 1, 1, 0, which add up to 2; the corrected split gives 1, 0, 0 |
| WorkPlan.People | internal/command/map.go:213-216 | the head-count is the smallest n ≥ 1 whose cost over the days covers the budget |
| WorkPlan.Activities | internal/command/map.go:219-240 | each activity carries its phase's key and weight, its days, 8 hours per day and the head-count times the weight |
| WorkPlan.HoursAreDays | internal/command/map.go:226-230 | the total hours are 8 times the sum of the phase days |
| WorkPlan.Staff | internal/command/map.go:203-216 | the reported total is exactly the sum of the phase days, or 1 when that sum is 0, and the head-count is the smallest n ≥ 1 whose cost over that total covers the budget |
| WorkPlan.Assemble | internal/command/map.go:145-259 | for given phase days: MRR × 12 = ARR, the BRL budget, the assessment cost and the hour budget follow from the capped USD budget, each activity carries its phase's days, the hours are 8 × the sum of the days, the reported days are that sum or 1 when it is 0, and the head-count spends the budget over the reported days |
| WorkPlan.BuildPlan | internal/command/map.go:145-259 | as written: target MRR = arr / 12, budget in BRL = budget in USD × 5.5, assessment cost = budget in BRL, hour budget = budget in BRL / 500; the phase days are the as-written split of the total days; the reported days are their sum, at least the total days and equal to it once the total is 2 or more; hours = 8 × reported days; the head-count spends the budget over the reported days |
| WorkPlan.BuildPlanFixed | internal/command/map.go:179-216 | with the corrected split, the phase days add up to exactly the total days, which is what the plan reports, and the head-count spends the budget over them |
| WorkPlan.BuildPlanAgreesFromTwo | internal/command/map.go:179-216 | once the total days are 2 or more, the plan as written and the corrected plan are the same plan |
| WorkPlan.BuildPlanAtOneDay | internal/command/map.go:179-216 | at ARR 20000 (one project day) the plan as written reports phase days 1, 1, 0, 2 days, 16 hours and 1 person; the corrected plan reports 1 day and 2 people |
| WorkPlan.BuildPlanTestInput | internal/command/map_test.go:34-41 | the package test's ARR of 1200 gives phase days 1, 1, 0, 2 reported days, 16 hours and 1 person |
| WorkPlan.OneDay | internal/command/map.go:179-182 | a BRL budget below 6000 gives one project day |
| WorkPlan.OnlyHeadCount | internal/command/map.go:213-216 | at most one head-count spends a budget over a given number of days |
| WorkPlan.PeopleFractionsSum | internal/command/map.go:169-173 | the per-phase head-count fractions add up to the total head-count |
| Funding.TierIndex | internal/incentives/map.go:6-13 | the position of the first tier whose limit is at least the ARR, or past the end when no limit is |
| Funding.ComputeMAPFunding | internal/incentives/map.go:16-28 | the cap is 10% of the ARR and the cap percentage is 0.10 on every path; the tier is the first matching tier, or ">300k" |
| Funding.Scan | internal/incentives/map.go:18-27 | the loop over any tier list returns the first entry whose limit is at least the ARR, or ">300k" |
| Funding.TierBands | internal/incentives/map.go:6-27 | each tier holds exactly its band of ARR values, with inclusive upper limits |
| Funding.TierMonotone | internal/incentives/map.go:6-23 | a larger ARR never maps to an earlier tier |
| Funding.ComputeMAPFundingExamples | internal/incentives/map_test.go:10-19 | 100000 gives "100k" with cap 10000; 350000 gives ">300k" |
| FundingEngine.FormatInt | internal/incentives/map/map.go:30 | `%d` formatting gives a non-empty string, with a leading `-` exactly for negative numbers |
| FundingEngine.FormatIntRoundTrip | internal/incentives/map/map.go:30 | parsing the formatted ARR gives back the ARR |
| FundingEngine.FormatIntInjective | internal/incentives/map/map.go:30 | different ARR values format differently |
| FundingEngine.PromptFor | internal/incentives/map/map.go:30 | the prompt has the fixed system text, template and language, and a single variable `arr` holding the ARR in decimal |
| FundingEngine.BuildPlan | internal/incentives/map/map.go:22-36 | cap = ARR × 0.10; requested = min(requested, cap); on a client error the error is returned with the amounts set and an empty narrative; otherwise the narrative is the client's text |
| FundingEngine.AmountsIndependentOfClient | internal/incentives/map/map.go:23-29 | the ARR, the cap and the requested amount do not depend on the client |
| FundingEngine.BuildPlanExample | internal/incentives/map/map_test.go:12-19 | ARR300k with a request of 40000 gives cap = requested = 30000 and no error when the client succeeds |
| MapSum.Add | internal/pricing/calc.go:56 | `b[k] += x` creates the key if missing, adds x to the old value (0 if absent), and leaves the other keys alone |
| MapSum.AddAllSum | internal/pricing/calc.go:59-60 | a run of `+=` into one key adds the sum of the run to that key |
| MapSum.SumOverIsSumMap | internal/pricing/calc.go:74-77 | summing a map along any duplicate-free list of its keys gives the sum of all its values, whatever the order |
| Services.AllListsEachOnce | internal/pricing/calc.go:53-73 | the six services are listed once each, in the order the calculators price them |
| Stages.RunKeys | internal/pricing/calc.go:58-73 | after the first i stages, a service has an entry exactly when it had one after EC2 or its stage has run and added at least one amount |
| Stages.RunEntry | internal/pricing/calc.go:58-73 | after every stage, each service's entry is its EC2-stage value plus the sum of its own amounts |
| PricingTyped.Rate | internal/pricing/calc.go:55-67 | a service or dimension missing from the catalog reads as rate 0; otherwise the catalog's rate |
| PricingTyped.Calculate | internal/pricing/calc.go:51-79 | the breakdown has exactly ebs, s3, rds, lambda and cloudfront, plus ec2 when there is at least one instance; the total is the sum of the breakdown |
| PricingTyped.Ec2LoopCost | internal/pricing/calc.go:54-57 | the instance loop adds the sum over the instances of rate(family) × hours |
| PricingTyped.CalculateEntries | internal/pricing/calc.go:54-73 | each entry equals the service's reference cost: for ec2 the instance sum, for the others the sum of rate × quantity over its dimensions |
| PricingTyped.CalculateTotal | internal/pricing/calc.go:74-77 | the total is the sum of the six reference costs |
| PricingTyped.CalculateNonneg | internal/pricing/calc.go:51-78 | with non-negative rates and quantities, every entry and the total are ≥ 0 |
| PricingDynamic.ToF64 | internal/pricing/calculator.go:53-64 | int, int64 and float64 convert exactly; any other value, including a missing field, reads as 0 |
| PricingDynamic.Calculate | internal/pricing/calculator.go:4-51 | a service has a breakdown entry exactly when the usage holds it as a mapping (for ec2, a mapping with a non-empty `instances` list); the total is the sum of the breakdown |
| PricingDynamic.Ec2LoopCost | internal/pricing/calculator.go:8-16 | the instance loop adds the sum over the instances of hours × rate(family) |
| PricingDynamic.CalculateEntries | internal/pricing/calculator.go:7-44 | each present service's entry is its reference cost; an absent service reads as 0 |
| PricingDynamic.CalculateTotal | internal/pricing/calculator.go:46-50 | the total is the sum of the present services' reference costs |
| PricingDynamic.EbsLinesIo | internal/pricing/calculator.go:20-21 | the EBS I/O line reads usage key `io_requests_millions` against catalog key `io_requests_million` |
| PricingDynamic.EbsIoReadsSingularKey | internal/pricing/calculator.go:19-22 | a catalog without the singular key prices EBS by storage alone, whatever I/O the usage lists |
| PricingDynamic.CalculateEmpty | internal/pricing/calculator.go:4-51 | a usage with no services gives an empty breakdown and a total of 0 |
| CalcPricing.Find | internal/calc/pricing.go:19-31 | the lookup finds an entry with the code when one exists, and none otherwise |
| CalcPricing.RegionLabelFromCode | internal/calc/pricing.go:18-33 | a known code gets a label ending in " [code]"; any other code is returned unchanged |
| CalcPricing.RegionLabelOfEntry | internal/calc/pricing.go:19-29 | each of the five known codes maps to its fixed label |
| CalcPricing.RegionLabelIdempotent | internal/calc/pricing.go:18-33 | a label is never itself a known code, so labelling twice gives the same result |
| CalcPricing.RegionLabelDistinct | internal/calc/pricing.go:19-29 | different known codes get different labels |
| CalcPricing.UsdText | internal/calc/pricing.go:12-14 | the input splits as prefix, run, rest with the run being the leftmost maximal run of `[0-9.,]` (empty only when the input has no such character), and the text handed to the float parser is that run with its commas removed; it holds only digits and dots |
| CalcPricing.ParseUSD | internal/calc/pricing.go:10-16 | the result is the float parser's answer for the leftmost maximal run of `[0-9.,]` with its commas removed, for the one decomposition of the input that picks that run |
| CalcPricing.FindRunIsLeftmost | internal/calc/pricing.go:12-13 | the run `FindString` returns splits the input as the leftmost maximal run describes |
| CalcPricing.FindRunUnique | internal/calc/pricing.go:12-13 | any decomposition into a class-free prefix, a maximal run and a rest has `FindString`'s match as its run |
| CalcPricing.StripCommasAppend | internal/calc/pricing.go:14 | removing commas from a concatenation is the concatenation of the two removals, so the kept characters stay in order |
| CalcPricing.StripCommasChar | internal/calc/pricing.go:14 | a single comma is removed and any other single character is kept |
| CalcPricing.FindRunSplits | internal/calc/pricing.go:12-13 | the extracted run is the leftmost maximal run of `[0-9.,]`: the text before it has no such character, the character after it is not one, and the run is empty exactly when the input has none |
| CalcPricing.StripCommasKeeps | internal/calc/pricing.go:14 | removing commas leaves a comma-free text unchanged and is idempotent |
| CalcPricing.UsdTextIdempotent | internal/calc/pricing.go:12-14 | extraction is idempotent: the extracted text, empty or not, extracts to itself |
| CalcPricing.UsdTextExample | internal/calc/pricing.go:10-15 | "$1,234.56" extracts to "1234.56" |
| CalcSizing.RegionLabelFromCode | internal/calc/sizing.go:3-18 | the second copy of the switch returns the same label as the first for every code |
| CalcSizing.RegionLabelFromCodeFacts | internal/calc/sizing.go:4-16 | in the second copy, known codes get a label ending in " [code]" and unknown codes pass through |
| CommandsFactory.NewFactory | internal/commands/factory.go:21-23 | a new factory holds no command |
| CommandsFactory.Register | internal/commands/factory.go:26-28 | registering stores the provider under its name, replacing any earlier one, and leaves the other names alone |
| CommandsFactory.Build | internal/commands/factory.go:31-36 | building succeeds exactly for a registered name and yields its command; otherwise it fails with "command NAME not found" |
| CommandsFactory.NewFactoryBuildsNothing | internal/commands/factory.go:21-35 | every build on a new factory fails |
| CommandsFactory.BuildAfterRegister | internal/commands/factory.go:26-34 | after registering a provider, building its name yields its command |
| CommandsFactory.BuildOtherAfterRegister | internal/commands/factory.go:27-35 | registering one name does not change how other names build |
| CommandsFactory.RegisterTwice | internal/commands/factory.go:27 | registering a name twice is the same as registering only the second provider |
| CommandRegistry.Register | internal/command/factory.go:18-20 | registering stores the command, with what it runs, under its name, replacing any earlier one, and leaves the other names alone |
| CommandRegistry.Resolve | internal/command/factory.go:23-28 | resolving succeeds exactly for a registered name and yields its command; otherwise it fails with "unknown command NAME" |
| CommandRegistry.ResolveAfterRegister | internal/command/factory.go:18-27 | after registering a command, resolving its name returns that very command, including what it runs |
| CommandRegistry.ResolveOtherAfterRegister | internal/command/factory.go:18-27 | registering one name does not change how other names resolve |
| CommandRegistry.RegisterTwice | internal/command/factory.go:19 | of two commands reporting the same name, the second registered is the one kept and resolved; the first is no longer returned when the two run different things |
| CommandRegistry.Init | internal/command/factory.go:30-32 | after package initialisation exactly "map" is registered, holding the map command |
| CommandRegistry.InitResolves | internal/command/map.go:39 | after initialisation "map" resolves to the map command, and any other name fails |
| CommandRegistry.DummyResolves | internal/command/factory_test.go:13-22 | after registering a "dummy" command on the initial registry, "dummy" resolves to that command and "map" still resolves to the map command |

## Left out

- Browser automation: `Orchestrator.Run`, chrome.go, domutil.go, selectors.go and pkg/calculator/calculator.go. These are DOM and chromedp I/O. `Orchestrator.Tolerance` and `MaxRetries` are never read, so no retry or convergence loop exists to model.
- The AWS SDK client and its stub in internal/awspc. `assignUsage` and `usageLine`, which its test calls, are not part of this model because their definitions are absent.
- The language-model client (internal/llm). It appears only as the `FundingEngine.Generator` parameter.
- Rendering (internal/render), and YAML, config and session I/O: `LoadCatalog`, `ParseUsage`, config.go, session.go. The calculators start from already decoded values.
- CLI plumbing: cmd/*/main.go, internal/cli, pricing_calc.go. Also left out are the interactive prompts, the spinner and channel loop of the `map` command, and the wizard flow of internal/commands/map.go around `slugify`.
- `float64` arithmetic: rounding, overflow to infinity, and summation order in the Go `range` over a map. All values are exact reals, so the total is order-independent. NaN appears only where it decides `selectInstance`.
- WorkPlan.TotalDays: `int(math.Round(...))` is modelled as exact rounding half away from zero on non-negative values. The conversion of a huge float to `int` is not modelled.
- WorkPlan.People: the Go `int(math.Ceil(...))` conversion is unbounded here.
- Slug.Slugify: `strings.ToLower` is modelled for ASCII letters only. Other Unicode case mappings are not modelled.
- CalcPricing.ParseUSD: `strconv.ParseFloat` is a parameter. Only the text extraction before it is modelled.
- PricingDynamic.Calculate: a malformed instance entry, an instance without a string `family`, or an `rds` mapping without a string `instance` makes the Go code panic. The model requires well-typed usage (`WellTyped`) instead of modelling the panic.
- PricingTyped.Calculate: the breakdown has six keys only when the instance list is non-empty. The `ec2` key is created inside the instance loop, so an empty list leaves it out. The package test's claim of six keys therefore depends on its usage file, which is not part of this model.
- FundingEngine.BuildPlan: the `context.Context` argument is dropped. Cancellation is one of the client's possible errors.
- Funding.ComputeMAPFunding: internal/incentives/map.go fills `Tier`, `CapAmount` and `CapPercent`, which the `FundingPlan` of pkg/types/types.go lacks. The model uses a separate `TierPlan` with the fields the code writes.
- CommandRegistry and CommandsFactory: what a command runs (`Run`, the cobra command) is a type parameter that the registries store and hand back without inspecting. The registry is a map value rather than package-level mutable state.
- PricingDynamic.ToF64: Go's `int` and `int64` are 64-bit, and yaml.v3 decodes an integer beyond that range as `uint64`, which `toF64` maps to 0. The model's `Int` and `Int64` are unbounded and no `uint64` case exists, so such a quantity converts exactly here. The conversion of a large integer to `float64` is not rounded either.
- InstanceSelect.Evaluate: `int(ceil(target / price))` is unbounded here. Go's conversion of a float beyond the 64-bit range is not modelled.

## Findings

| source | as written | input that shows it | evidently intended | confidence | as-written member | corrected member |
|---|---|---|---|---|---|---|
| internal/calc/flow.go:52-57 | the running best error starts at `math.MaxFloat64`, and an entry wins only with a strictly smaller error | a target of 10^-308: every entry has count 1 and a relative error of about 8.5 × 10^308 or more, above `MaxFloat64`, so nothing is chosen and the result is ("", 0, 0, MaxFloat64) | every positive target picks the table entry with the least error (here `t3.micro`, count 1) | not executed; float64 overflow makes the real error +Inf, which also fails `rel < bestError` | InstanceSelect.SelectInstance, InstanceSelect.TinyTargetSelectsNothing | InstanceSelect.SelectInstanceFixed, InstanceSelect.SelectInstanceFixedCovers, InstanceSelect.TinyTargetFixedPicksFirst |
| internal/command/map.go:184-201 | each non-final phase takes ceil(totalDays × weight) even when less remains; only `remaining` is clamped at 0 | totalDays = 1: ceil(0.3) = 1 and ceil(0.4) = 1, so the phases get 1, 1, 0, which add up to 2 | the comment at line 184 says the phase days add up to totalDays, e.g. 1, 0, 0 | not executed; with float64 weights, ceil(1 × 0.3) and ceil(1 × 0.4) are still 1 | WorkPlan.PhaseDaysAsWritten, WorkPlan.PhaseDaysAsWrittenAtOne, WorkPlan.BuildPlanAtOneDay | WorkPlan.PhaseDays, WorkPlan.PhaseDaysAsWrittenFromTwo, WorkPlan.BuildPlanFixed |
