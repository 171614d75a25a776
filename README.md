# Energy Made Easy plan scraper — a Dafny model of its plan logic

The scraper (`scraper_enhanced.py`) collects Australian electricity plans for a
postcode from the Energy Made Easy market API, flattens each plan into one row
of comparable prices, and writes a spreadsheet whose "Plan Calculator" sheet
computes a daily and monthly cost for each plan from five user inputs. This
project models the deterministic core of that program once the API responses
are in hand:

- **Distributor resolution** (`distributors.dfy`, module `Distributors`): the
  supply areas of the meta response are collected, de-duplicated by id
  (first occurrence wins) and sorted by name; the interactive selection
  probes each distributor, keeps those with plans and reads the user's
  answers; the `--dist` option selects all distributors with plans (or the
  "Auto" entry) or one distributor by id.
- **Tariff extraction** (`tariffs.dfy`, module `Tariffs`): supply charge,
  usage rates, time-of-use peak and off-peak, retailer solar feed-in rates
  and their description, controlled load, discounts, fees, payment options,
  meter types, benefit period and contract term of a plan's first contract.
- **Plan filter** (`plan_filter.dfy`, module `PlanFilter`): the demand-charge
  gate and the controlled-load gate, with their counts.
- **Plan rows** (`rows.dfy`, module `Rows`): `process_plan`, the plan link,
  the processing loop that counts plans it cannot read, and the rule that
  admits a row to the calculator.
- **Solar-tier parser** (`solar_tiers.dfy`, module `SolarTiers`): reading the
  feed-in description back into `(rate, volume)` tiers, ordered capped tiers
  first by descending cap; it is proved to invert the description formatter.
- **Calculator semantics** (`calculator.dfy`, module `Calculator`): the
  spreadsheet formulas as a pure function of daily usage, daily export,
  usage profile, controlled load Yes/No and controlled-load usage.
- **Main routine helpers** (`cli.dfy`, module `Cli`): the postcode check,
  tagging fetched plans with their distributor, the distributor label and
  the file-name suffix made from it.

Shared modules: `Text` (ASCII models of the `str` methods used), `Numbers`
(decimal literals as the API sends them, `round(x, 2)`, the GST factor,
`:.2f` formatting), `Lists` (sorting by key, de-duplication by key, Python
string order) and `Plans` (the API records).

Amounts are exact `real`s. `round(x, 2)` is round-half-even on the exact
value: a whole number of hundredths, at most half a hundredth away, the even
neighbour on a tie (`Numbers.IsRound2`). The GST factor is 11/10. JSON
numbers that the scraper prints with `str()` (solar step prices and volumes,
discount figures) are kept as decimals (`Numbers.Dec`: sign, whole part,
fraction digits), and `Numbers.Show` prints them as Python's `str()` does:
an int (a literal without a point) as its digits; a float positionally, with
its fraction digits less trailing zeros ("7.50" prints "7.5", "7.0" stays
"7.0"), when its magnitude lies in [1e-4, 1e16) or it is zero; any other
float in exponent notation ("5e-05", "1.5e+16").

A lookup `record[key]` that raises KeyError inside `process_plan` (the plan's
`planData`, its first contract, `fuelType`, a usage block's `unitPrice`, a
controlled-load rate's `unitPrice`) makes that plan one the processing loop
counts as an error: the model's `Rows.Processable` names exactly the plans
for which none of them raises.

Network responses, probe results and typed answers are parameters: a probe
result is a map from distributor id to plan count in which a missing id
means the request failed (`-1`), the meta response is a sequence of items
with their supply areas, fetched plans are a map from distributor id to the
plans returned (a missing id is a failed request), and the typed answers are
a sequence of strings.

## Model

| member | source | states |
|---|---|---|
| Distributors.CollectDistributors | scraper_enhanced.py:128-137 | the loop's result is the supply areas in response order, de-duplicated by id keeping the first, sorted by name |
| Distributors.AddSupplyAreas | scraper_enhanced.py:131-135 | the inner loop extends the de-duplicated list by one item's supply areas and keeps `seen` equal to the ids kept |
| Distributors.NameLeTotalPreorder | scraper_enhanced.py:137 | Python string order on names is total and transitive, so the sort by name is well defined |
| Distributors.DiscoveredIdsDistinct | scraper_enhanced.py:128-137 | no two discovered distributors share an id |
| Distributors.DiscoveredSortedByName | scraper_enhanced.py:137 | discovered distributors are in ascending name order |
| Distributors.DiscoveredFirstOccurrence | scraper_enhanced.py:128-135 | each discovered distributor is the first supply area carrying its id, and every id seen has its first supply area discovered |
| Distributors.ProbeDistributors | scraper_enhanced.py:1486-1496 | the probing loop keeps exactly the distributors with a positive count, in order, with `plan_count` set |
| Distributors.AvailableCounted | scraper_enhanced.py:1486-1496 | every kept distributor has a positive probe count recorded as its `plan_count` and is otherwise an input distributor |
| Distributors.AvailableComplete | scraper_enhanced.py:1486-1496 | every input distributor whose probe count is positive is kept with that count |
| Distributors.ReadChoice | scraper_enhanced.py:1517-1525 | the stripped, upper-cased answer "A" selects all; an answer `int()` reads as k with 1 ≤ k ≤ count selects index k−1; every other answer is invalid and asks again |
| Distributors.ReadMenuNumber | scraper_enhanced.py:1512-1525 | typing the menu number k+1 shown for the k-th distributor selects it |
| Distributors.ChooseFrom | scraper_enhanced.py:1517-1526 | the dialogue returns all available distributors or exactly one of them |
| Distributors.AskChoice | scraper_enhanced.py:1517-1526 | the answer loop returns what `ChooseFrom` describes, or nothing when the answers run out |
| Distributors.SelectDistributorInteractive | scraper_enhanced.py:1466-1526 | the interactive selection equals the selection rules applied to the discovered distributors |
| Distributors.SelectInteractiveRules | scraper_enhanced.py:1476-1526 | none found gives none, one is returned unprobed, and with several every returned distributor has plans and the result is all available ones or one |
| Distributors.AllOrAuto | scraper_enhanced.py:1630-1642 | `--dist all` never selects nothing: without distributors with plans it selects the Auto entry |
| Distributors.NameForIdFirst | scraper_enhanced.py:1647 | an explicit id takes the name of the first discovered distributor with that id |
| Distributors.NameForIdMissing | scraper_enhanced.py:1647 | an id no discovered distributor has is shown as "ID <id>" |
| Distributors.ResolveDistributors | scraper_enhanced.py:1630-1652 | step 2 of main selects as the `--dist` rules and the interactive rules describe |
| Distributors.DistAllSelection | scraper_enhanced.py:1630-1642 | `--dist all` (any letter case) selects a non-empty list: the Auto entry or distributors that all have plans |
| Distributors.DistIdSelection | scraper_enhanced.py:1643-1649 | any other `--dist` value selects exactly one entry with that id and count 0, named after the discovered distributor or "ID <id>" |
| Tariffs.SupplyCharge | scraper_enhanced.py:188-195 | present exactly when there is a first tariff period with a daily supply charge, and then that charge × 1.1 rounded half-even to whole hundredths |
| Tariffs.GstRatesAppend | scraper_enhanced.py:209-213 | converting rates to GST-inclusive prices works rate by rate |
| Tariffs.UsageRates | scraper_enhanced.py:198-203 | no tariff period gives no usage rates |
| Tariffs.CollectUsageRates | scraper_enhanced.py:198-213 | the rate loop gives, in order, each block rate of the first period (all time-of-use blocks for TOU) times 1.1 rounded |
| Tariffs.UsageRateRange | scraper_enhanced.py:216-225 | min and max are absent exactly when there are no rates (in particular without tariff periods); otherwise min ≤ max and both are among the rates |
| Tariffs.TouRatesAreExtremes | scraper_enhanced.py:228-241 | for TOU, peak is the maximum and off-peak the minimum; for other models both are absent; off-peak ≤ peak |
| Tariffs.FirstPeriodOnly | scraper_enhanced.py:188-241 | tariff periods after the first change neither the supply charge nor any usage rate |
| Tariffs.PositiveOnly | scraper_enhanced.py:271 | exactly the rates greater than zero are kept |
| Tariffs.CollectSolarFitRates | scraper_enhanced.py:244-271 | the feed-in loop collects the retailer rates (a fit's `rate`, else its step prices) that are positive |
| Tariffs.RetailerFits | scraper_enhanced.py:261-263 | government (`type == "G"`) entries are dropped |
| Tariffs.GovernmentFitsIgnored | scraper_enhanced.py:261-263 | removing the government entries changes no collected feed-in rate |
| Tariffs.SolarRateOrigin | scraper_enhanced.py:258-270 | every collected feed-in rate comes from a non-government entry |
| Tariffs.SolarFitRange | scraper_enhanced.py:274-283 | without qualifying rates min = max = 0.0; otherwise 0 ≤ min ≤ max |
| Tariffs.PricedStepsMembers | scraper_enhanced.py:302 | a step is described exactly when it is in the list and its price is positive |
| Tariffs.PricedStepsAppend | scraper_enhanced.py:299-302 | the priced steps of two lists are those of each, one after the other, so the steps keep their order |
| Tariffs.TierEntriesMembers | scraper_enhanced.py:295-302 | a step is described exactly when it is a positive-price step of an entry whose type is not "G" |
| Tariffs.TierEntriesAppend | scraper_enhanced.py:295-302 | the described steps of two entry lists are those of each, in entry order |
| Tariffs.SolarFitDetails | scraper_enhanced.py:286-311 | the description is "No solar feed-in tariff" exactly when no retailer step is priced |
| Tariffs.TierTextsConcat | scraper_enhanced.py:298-307 | the step texts of two step lists are those of each, one after the other |
| Tariffs.FormatTier | scraper_enhanced.py:303-307 | one step reads "<str(price)>c/kWh", with " (first <str(volume)>kWh/day)" when its volume is positive |
| Tariffs.DescribeSteps | scraper_enhanced.py:299-307 | the inner loop describes the priced steps of one entry in order |
| Tariffs.DescribeSolarFit | scraper_enhanced.py:286-311 | the description loop produces `SolarFitDetails` |
| Tariffs.ControlledLoadRate | scraper_enhanced.py:333-346 | 0.0 without a controlled load or without a rate in the first one; otherwise the first rate's unitPrice (0 when absent) × 1.1 rounded to hundredths |
| Tariffs.ControlledLoadSupply | scraper_enhanced.py:349-359 | 0.0 without a controlled load or with a zero charge; otherwise the first load's daily supply charge × 1.1 rounded to hundredths |
| Tariffs.ClPartsEach | scraper_enhanced.py:320-329 | one text per controlled load, in order: the i-th text is the i-th load's |
| Tariffs.DescribeOneLoad | scraper_enhanced.py:320-328 | one controlled load gives a text exactly when all its rates have a unitPrice, and the text is "<name>: <rates>" plus the supply when it is non-zero |
| Tariffs.DescribeControlledLoad | scraper_enhanced.py:314-330 | the controlled-load loop gives a text exactly when every rate of every load has a unitPrice (otherwise the lookup raises), and then the joined description, "N/A" without loads |
| Tariffs.ClSupplyTextAgrees | scraper_enhanced.py:326-359 | a positive supply charge of the first load prints as " + <x>c/day supply" and <x> reads back as the CL supply column |
| Tariffs.ClTextAgreesWithRate | scraper_enhanced.py:324-346 | the first rate printed in the controlled-load text is "<x>c/kWh" and <x> reads back as the CL rate column |
| Tariffs.FirstControlledLoadOnly | scraper_enhanced.py:333-359 | controlled loads after the first change neither CL rate nor CL supply |
| Tariffs.DescribeDiscounts | scraper_enhanced.py:362-378 | the discount loop gives "None" without discounts, else the "; "-joined texts naming each discount with `str()` of its percent, else of its amount, else alone |
| Tariffs.FeeLabel | scraper_enhanced.py:386 | a known fee code gets its label, an unknown code passes through, a missing code is "Unknown" |
| Tariffs.DescribeFees | scraper_enhanced.py:381-391 | the fee loop lists "<label>: $<amount to 2 places>" per fee |
| Tariffs.PaymentLabel | scraper_enhanced.py:399 | a known payment code gets its label, an unknown code passes through |
| Tariffs.PaymentOptionsSplit | scraper_enhanced.py:394-399 | the payment text splits back into one label per option |
| Tariffs.MeterLabel | scraper_enhanced.py:408-415 | a known meter code gets its label, an unknown code passes through |
| Tariffs.DescribeMeterTypes | scraper_enhanced.py:402-422 | the meter loops produce the joined labels without repeats, "N/A" without meters |
| Tariffs.UniqueLabels | scraper_enhanced.py:416-421 | the `seen`-set loop keeps the first occurrence of each label |
| Tariffs.MeterLabelsDistinct | scraper_enhanced.py:416-421 | no meter label is listed twice |
| Tariffs.MeterLabelsComplete | scraper_enhanced.py:413-421 | every meter type's label is listed and nothing else is |
| Tariffs.MeterLabelsFirstSeenOrder | scraper_enhanced.py:416-421 | labels are listed in the order first seen |
| Tariffs.BenefitPeriod | scraper_enhanced.py:425-430 | an empty benefit period shows "N/A", otherwise the period itself |
| Tariffs.ContractTerm | scraper_enhanced.py:433-442 | a known term code shows its label (E is "No lock-in", 1, 2 and 3 their year counts), an empty term shows "N/A", an unmapped term passes through |
| PlanFilter.PlanHasDemandCharge | scraper_enhanced.py:450-461 | the scan finds a demand charge exactly when some tariff period of the first contract has one |
| PlanFilter.Classify | scraper_enhanced.py:504-509 | a plan is demand-filtered exactly when demand is excluded and it has a demand charge, and controlled-load-filtered exactly when it passes the demand gate, controlled load is excluded and it has one |
| PlanFilter.FilterPlans | scraper_enhanced.py:475-513 | the loop keeps the plans neither gate drops, counts each dropped plan under its gate, and sets `kept` to the number kept |
| PlanFilter.FilterCountsAddUp | scraper_enhanced.py:495-513 | kept + demand_filtered + controlled_load_filtered == total |
| PlanFilter.KeptExactly | scraper_enhanced.py:502-510 | a plan is kept exactly when it is an input plan that neither gate drops |
| PlanFilter.KeptPlansAppend | scraper_enhanced.py:502-510 | filtering keeps the input order |
| PlanFilter.KeepAllWithoutGates | scraper_enhanced.py:1681-1683 | skipping the filter under `--no-filter` gives what the filter gives with both switches on: every plan, in order, with or without a contract, and none counted as filtered |
| PlanFilter.BothCountedAsDemand | scraper_enhanced.py:504-509 | a plan with both a demand charge and a controlled load, both switches off, counts only as demand-filtered |
| Rows.BuildPlanUrl | scraper_enhanced.py:521-527 | the link starts with the plan page address |
| Rows.PlanUrlNamesPlan | scraper_enhanced.py:521-527 | the `id` parameter of the link reads back as the plan id |
| Rows.PlanUrlInjective | scraper_enhanced.py:521-527 | different plan ids or postcodes give different links |
| Rows.ProcessPlan | scraper_enhanced.py:530-575 | a row exists exactly when none of the lookups of planData, contract[0], fuelType and the unitPrices of usage blocks and controlled-load rates raises; the row carries the plan id and the distributor, "N/A" when empty |
| Rows.RowRatesConsistent | scraper_enhanced.py:530-575 | in a row, usage min and max are present together with min ≤ max, peak/off-peak are max/min for TOU and absent otherwise, 0 ≤ FIT min ≤ FIT max, and the distributor is never empty |
| Rows.ProcessPlans | scraper_enhanced.py:1714-1725 | the processing loop collects the rows of the processable plans in order and counts one error for each other plan |
| Rows.RowsAndErrorsAddUp | scraper_enhanced.py:1714-1725 | rows + errors == plans |
| Rows.RowsKeepDistributor | scraper_enhanced.py:1717-1720 | each row shows the distributor its plan was tagged with, "N/A" when untagged or empty |
| Rows.EligibleRowHasRates | scraper_enhanced.py:757-760 | an admitted row's plan has a priced first tariff period; a TOU row has peak ≥ off-peak |
| SolarTiers.TierLeTotalPreorder | scraper_enhanced.py:922 | the sort key (uncapped last, larger cap first) is a total preorder |
| SolarTiers.SortedIsCappedFirst | scraper_enhanced.py:921-922 | sorted tiers have all capped tiers first, by descending cap |
| SolarTiers.MatchTier | scraper_enhanced.py:913-915 | a matched part has a non-empty number for its rate and, when present, for its cap |
| SolarTiers.ParseTiers | scraper_enhanced.py:907-923 | the empty text and "No solar feed-in tariff" give no tiers; any result has capped tiers first by descending cap |
| SolarTiers.ReadTiersStep | scraper_enhanced.py:912-919 | each part is skipped, read as one more tier, or makes the whole parse fail |
| SolarTiers.ParseSolarFitTiers | scraper_enhanced.py:899-923 | the parsing loop and sort produce `ParseTiers` |
| SolarTiers.ReadTierText | scraper_enhanced.py:303-307 | a formatted priced step reads back as its own `(price, volume)`, uncapped when the volume is not positive or prints with an exponent, skipped when the price prints with an exponent |
| SolarTiers.ReadSciRateText | scraper_enhanced.py:912-919 | a step whose price prints in exponent notation is skipped: `[\d.]+` stops at the 'e' and "c/kWh" does not follow |
| SolarTiers.ReadCappedText | scraper_enhanced.py:912-919 | a step whose price and cap both print positionally reads back as `(price, cap)` |
| SolarTiers.ReadSciCapText | scraper_enhanced.py:912-919 | a positionally printed step whose cap prints in exponent notation reads back as its price, uncapped |
| SolarTiers.ReadUncappedText | scraper_enhanced.py:912-919 | a positionally printed step without a positive volume reads back as its price, uncapped |
| SolarTiers.ReadTierTexts | scraper_enhanced.py:907-919 | the step texts of priced steps read back, in order, as the tiers `TierRead` gives, skipped steps left out |
| SolarTiers.TiersReadPositional | scraper_enhanced.py:303-307 | when no price or cap prints in exponent notation every step reads back as its own `(price, volume)` |
| SolarTiers.ParseFormatRoundTrip | scraper_enhanced.py:286-311 | parsing the feed-in description gives back the tiers its priced retailer steps read back as, in calculator order |
| SolarTiers.ParseFormatExact | scraper_enhanced.py:286-311 | when every number prints positionally, parsing the description gives back exactly its priced retailer steps as `(price, volume)`, in calculator order |
| Calculator.ShareOfFirstMatch | scraper_enhanced.py:1081-1094 | the profile formula gives the shares of the first profile whose name matches |
| Calculator.ShareFallback | scraper_enhanced.py:1085-1094 | an unknown profile name gives 0.5 and 0.5 |
| Calculator.SharesSumToOne | scraper_enhanced.py:882-893 | peak and off-peak shares add to 1, peak between 0 and 1 |
| Calculator.ProfilesSplitUsage | scraper_enhanced.py:882-893 | every profile of the table splits usage completely |
| Calculator.ProfileSelectsItself | scraper_enhanced.py:882-893 | selecting a profile by its own name gives its shares |
| Calculator.FitColumnsOf | scraper_enhanced.py:1180-1195 | no tier gives 0 everywhere, one tier a flat rate, and two or more give the first rate, the first cap and the second tier's rate |
| Calculator.ColumnsUseFirstTwoTiers | scraper_enhanced.py:1182-1186 | with two tiers or more, tiers after the second change no column: with three tiers the rate beyond the first cap is the second capped tier's rate, not the remainder's |
| Calculator.FirstTierHasLargestCap | scraper_enhanced.py:1182-1186 | with two tiers or more, the first has the largest cap, and a zero first cap means no tier is capped |
| Calculator.ProcessedRowParses | scraper_enhanced.py:1180 | the calculator's parse of a processable row's feed-in text always succeeds, with the tiers its priced steps read back as |
| Calculator.SolarCreditPiecewise | scraper_enhanced.py:1297-1305 | with a cap, export up to the cap earns the first rate and the rest the second |
| Calculator.SolarCreditMonotone | scraper_enhanced.py:1297-1305 | with non-negative rates, more export never earns less |
| Calculator.SolarCreditBounds | scraper_enhanced.py:1297-1302 | a capped credit lies between the export valued at the lower and at the higher rate |
| Calculator.FewTiersAreFlat | scraper_enhanced.py:1187-1195 | one tier credits all export at its rate even when it has a cap; no tier credits nothing |
| Calculator.UsageCostProperties | scraper_enhanced.py:1266-1290 | single-rate usage ignores the profile; TOU with equal rates costs usage × rate; TOU usage cost lies between usage × off-peak and usage × peak |
| Calculator.ControlledLoadGate | scraper_enhanced.py:1311 | the CL cost is 0 unless the switch says "Yes" (any case), whatever the CL usage, and usage × rate + supply when it does |
| Calculator.UsageCostMonotone | scraper_enhanced.py:1266-1290 | with non-negative rates, more usage never costs less |
| Calculator.NetCostMonotone | scraper_enhanced.py:1316-1321 | the month is the day × 30.44 / 100; more usage never lowers it and more export never raises it |
| Calculator.CalcPlans | scraper_enhanced.py:757-760 | a row is admitted exactly when it has a supply charge and an SR usage rate or a TOU peak rate |
| Calculator.AdmittedTouRow | scraper_enhanced.py:757-760 | an admitted TOU row's calculator peak and off-peak are the maximum and minimum usage rates of its plan, off-peak ≤ peak |
| Cli.PostcodeRoundTrip | scraper_enhanced.py:1583 | an accepted postcode is the zero-padded text of its value |
| Cli.PostcodeValue | scraper_enhanced.py:1583 | a zero-padded four-digit text reads back as its number |
| Cli.PostcodesAreFourDigitNumbers | scraper_enhanced.py:1583 | the accepted postcodes are exactly the texts 0000 to 9999 |
| Cli.GatherPlans | scraper_enhanced.py:1664-1679 | the fetch loop records every selected name and appends each successful response's plans tagged with the distributor's name |
| Cli.GatheredFromSelected | scraper_enhanced.py:1664-1679 | every gathered plan is a fetched plan of a selected distributor tagged with its name |
| Cli.GatheredComplete | scraper_enhanced.py:1664-1679 | every fetched plan of every selected distributor is gathered with its name |
| Cli.FewNamesListed | scraper_enhanced.py:1740 | a label of up to three names without '+' splits back on " + " into the names |
| Cli.ManyNamesCounted | scraper_enhanced.py:1740 | the label of more than three names begins with their count |
| Cli.SafeNameChars | scraper_enhanced.py:770-771 | the sanitised name has at most 30 letters, digits, '-' and '_' |
| Cli.SafeNameOfPlainLabel | scraper_enhanced.py:770-771 | a short label of letters, digits, spaces and '-' keeps its text with spaces as '_' |
| Cli.SafeNameIdempotent | scraper_enhanced.py:770-771 | sanitising a sanitised name changes nothing |
| Cli.FileSuffix | scraper_enhanced.py:767-772 | the suffix is empty exactly for no label, "All / Auto" and "Auto"; otherwise '_' and at most 30 safe characters |
| Numbers.WithGst | scraper_enhanced.py:84 | a GST-inclusive price is the amount × 1.1 rounded half-even to whole hundredths, so within half a hundredth of it |
| Numbers.Round2Monotone | scraper_enhanced.py:193 | rounding to 2 places keeps order, so min and max commute with it |
| Numbers.Round2 | scraper_enhanced.py:193 | `round(x, 2)` is a whole number of hundredths, at most half a hundredth from x, the even one on a tie |
| Numbers.Round2Unique | scraper_enhanced.py:193 | only one amount meets that description, so it pins `round(x, 2)` down |
| Numbers.ShowParses | scraper_enhanced.py:305-307 | a non-negative number printed without an exponent reads back through `[\d.]+` and `float()` as its value |
| Numbers.Fixed2Denotes | scraper_enhanced.py:324 | a `:.2f` text reads back as the amount rounded to 2 places |

## Left out

- HTTP: `validate_postcode`, the request part of `fetch_distributors`, `probe_distributor_plans` and `fetch_plans` are not modelled; their results are parameters (probe counts as a map with `-1` for a missing id, fetched plans as a map).
- Spreadsheet rendering, styling, formula strings and cell addresses (`export_to_excel`, `_write_plans_sheet`, most of `_write_calculator_sheet`): only the cost semantics of the formulas is modelled.
- The calculator rows' display order (sorted by supply charge, then minimum usage rate, with 999 for a missing or zero value) is presentation and is not modelled.
- VBA injection, `.xlsm` conversion and opening the file: Windows automation, not modelled.
- argparse, `print`, `input` and `sys.stdin.isatty()`: the `--dist` value and typed answers are parameters; the controlled-load prompt, which only chooses the filter's `include_controlled_load` argument, is not modelled.
- `--no-filter`: `main` then skips `filter_plans` altogether and passes every fetched plan on (scraper_enhanced.py:1681-1683). The model has no `main`; `PlanFilter.KeepAllWithoutGates` shows that this is the result of the filter with both switches on.
- `sys.exit(1)` in `main` (an invalid postcode, no distributor selected, no plan processed) is not modelled: `Cli.ValidPostcode` states which postcodes pass, and `Distributors.Resolve` returns an empty selection (or none, when typed answers run out) where `main` would exit.
- `fetch_distributors` reads `sa["id"]` and `sa["name"]` and raises KeyError on a supply area without either; `Distributors.SupplyArea` always has both fields, so that error is not modelled.
- The postcode prompt's `.strip()` of typed input is not modelled; the check itself is.
- The API's yearly cost estimates are relayed unchanged and are not part of the row model.
- Timestamps in the file name are not modelled; the distributor suffix is.
- Floating point: amounts are exact reals; `round(x, 2)` is exact round-half-even, so double-rounding artefacts of IEEE-754 are not captured.
- `str.isdigit`, `isalnum`, `strip`, `upper` and `lower` are modelled on ASCII; Unicode digits, letters and whitespace are not. `int()` is modelled as an optional sign and ASCII digits, without underscores or surrounding whitespace handling beyond `strip()`.
- The regular expression of the tier parser is not modelled as a general engine: `MatchTier` is the one pattern the parser uses, written out as greedy runs (`[\d.]+`, ASCII `\s*` and `\s+`) followed by literal text.
- A matched number that `float()` rejects (such as "1.2.3") raises in the source and aborts the export; the model's parse returns no result instead.
- Tariffs.UsageRates: states only the empty case in its own contract; the rate-by-rate content is stated by `Tariffs.CollectUsageRates`.
- PlanFilter.FilterPlans: when some switch is off it requires every plan to have a contract, because the source then reads `contract[0]` and raises an uncaught exception on a plan without one; with both switches on both gates short-circuit and no contract is needed.
- Typed answers running out: `input()` raises EOFError, which ends the program with an uncaught traceback; the model's answer loop returns no selection instead.
- Float precision of printed numbers: `Numbers.Show` prints the exact decimal the API sent. Python prints the shortest text that reads back as the nearest double, which is the same text only for literals of at most 15 significant digits within the normal range of a double; a longer literal may print rounded ("0.30000000000000001" prints "0.3"), and one outside the range prints "inf" or "0.0". Such literals are not modelled.
