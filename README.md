# Electrical capacity and compliance engine, modelled in Dafny

The backend of this construction-project assistant holds one deterministic core: the
calculations that tell an electrical contractor whether a building's service and panels
can take more load, which standard service size an upgrade calls for, how large the
voltage drop of a feeder run is, whether a panel or feeder meets the National Electrical
Code (NEC) limits, and which NEC articles belong to a topic or an equipment type. In the
source each calculation sits inside a tool function that first fetches rows from the
datastore. This model keeps the calculation and takes the rows as already fetched.

Modules, one per source file of the core, plus three helpers:

- `Optional`, `Sums`, `Text`: the option type, finite sums over sequences in the shape
  Python's `sum(... for x in s)` has, and ASCII lower-casing with Python's substring test
  `k in s` and a first-match search over an ordered table.
- `Records`: the rows read (`Project`, `Panel`, `Circuit`, `Feeder`, a proposed load).
  Every column the code reads with `.get(key, default)` is an `Option`. The default is
  applied where the code applies it, so the two phase keys of a panel (`phase` and
  `phases`) stay separate. Also the case-insensitive panel lookup by name.
- `Database` (`backend/tools/database.py`): panel load, service and panel utilization,
  the capacity check for a proposed load with its three flags and its verdict, the
  standard service-size ladder, and the large-load listing.
- `ChangeImpact` (`backend/agents/change_impact.py`): the K-factor voltage-drop
  calculator over the conductor table, and the total current of a proposed change.
- `Predictive` (`backend/agents/predictive.py`): the panel compliance check (42
  circuits, 80 % loading) and the feeder voltage-drop check (3 %, High above 5 %).
- `RfiDrafter` (`backend/agents/rfi_drafter.py`): the NEC article table searched by topic
  keyword, and the panel specification with its defaults.
- `PhotoAnalyzer` (`backend/agents/photo_analyzer.py`): the requirements table searched
  by equipment type, with its fallback.

Arithmetic is over `real`, and 1.732 is the exact rational 1732/1000, as the code writes
it. Every threshold is decided on the unrounded value, as in the code. The loops of the
source become methods proved equal to a specification function, and the other operations
use that function:
- the panel-load accumulation in `get_service_utilization`;
- the early-return ladder walk;
- the feeder loop that appends violations.

The other operations are functions. Their contracts tie each reported figure to the
input rows and the defaults the code applies, and state the thresholds as exact
conditions. Lemmas relate the functions to each other: monotonicity in added load,
ladder minimality, key shadowing, additivity and worked scenarios.

Facts of the code that are easy to misread, each stated by a lemma:
- The load amps of three-phase equipment are volt-amps over voltage, without the 1.732
  factor (`Database.ThreePhaseAmpsIgnoreFactor`).
- The panel tools read the phase count under two different keys
  (`Predictive.PhaseKeysDisagree`).
- Only the panel-utilization sum falls back to `load_watts` (`Database.WattsOnlyCircuit`).
- 200 A at 240 V with 172 A present and 48 A added gives a projected utilization of
  exactly 110 %: 220 A times 240 V is 52800 VA, over a capacity of 48000 VA
  (`Database.ServiceScenario`).

## Model

| member | source | states |
|---|---|---|
| Records.FindPanel | backend/agents/predictive.py:135-138 | the index returned names a panel whose name equals the input ignoring case, with no earlier such panel; none exactly when no panel matches |
| Records.FindPanelIgnoresCase | backend/agents/rfi_drafter.py:112 | the panel lookup gives the same answer for a name and its lower-cased form |
| Text.Lower | backend/agents/rfi_drafter.py:157 | the result has the same length and no capital letter; every other character is unchanged, and each capital becomes the letter 32 code points above it |
| Text.LowerIdempotent | backend/agents/photo_analyzer.py:155 | lower-casing twice is lower-casing once, which makes every keyword lookup case-insensitive |
| Text.ContainsAt | backend/agents/photo_analyzer.py:158 | the substring test holds exactly when the key occurs at some position of the string |
| Text.ContainsTransitive | backend/agents/rfi_drafter.py:161 | a substring of a substring of a string is a substring of that string |
| Text.FirstKey | backend/agents/rfi_drafter.py:160-164 | the entry found is the first in table order whose key occurs in the string; none exactly when no key occurs |
| Text.ShadowedKey | backend/agents/rfi_drafter.py:140-164 | a key containing an earlier key of the table is never the entry returned |
| Database.UtilizationThreshold | backend/tools/database.py:264 | with positive capacity, utilization below (or at most) p percent is the same as load below (or at most) p percent of capacity |
| Database.TotalPanelLoad | backend/tools/database.py:136-153 | the total is non-negative when every `load_va` is; when every circuit records `load_va` it equals the panel-utilization total with its watts fallback |
| Database.PanelLoadsAdditive | backend/tools/database.py:149 | the panel `load_va` total, the utilization total with its watts fallback and the pole count are each additive over any split of the circuits |
| Database.WattsOnlyCircuit | backend/tools/database.py:149 | a circuit with only `load_watts` adds nothing to the panel-load total but its watts to the panel-utilization total |
| Database.StatusFor | backend/tools/database.py:282 | OK exactly below 80 %, WARNING exactly from 80 % up to below 100 %, OVERLOADED exactly at 100 % or more |
| Database.StatusMonotone | backend/tools/database.py:282 | a higher utilization never gives a better status |
| Database.PanelUtilization | backend/tools/database.py:227-283 | bus rating, voltage, phase count (from `phase`) and spaces come from the panel row with defaults 200 A, 240 V, 1 and 42; the load is the sum of each circuit's `load_va`, else `load_watts`, else 0; spaces used are the sum of poles with default 1; capacity is rating times voltage, times 1.732 for three phases; utilization is load over capacity, 0 without capacity; load amps are load over voltage, 0 without voltage; the status is the band of the utilization; can-add-load exactly when the status is OK, which is exactly when capacity is not positive or load is under 80 % of capacity; OVERLOADED exactly when capacity is positive and load reaches it; zero capacity gives 0 % and OK; spaces available are spaces minus poles used; available amps are bus rating minus load amps; with positive voltage, load amps times voltage is the load; one count per circuit |
| Database.AddingCircuitNeverImprovesPanel | backend/tools/database.py:252-264 | adding a circuit with non-negative load never lowers the utilization or improves the status, and adds its poles to the spaces used |
| Database.ThreePhaseAmpsIgnoreFactor | backend/tools/database.py:256-263 | a three-phase panel at 60 % of its VA capacity is OK and may take load, yet reports negative available amps, since load amps omit the 1.732 factor |
| Database.PanelScenario | backend/tools/database.py:246-282 | 100 A, 240 V, one phase, a 10000 VA two-pole circuit and an 8000 W circuit: 75 A, 75 %, OK, 3 poles used, 39 spaces left, 25 A available |
| Database.ServiceUtilizationOf | backend/tools/database.py:156-201 | a missing project gives the "Project not found" error and only then; otherwise size, voltage and phases come from the project with defaults 200 A, 240 V and 1, the capacity is size times voltage (times 1.732 for three phases), the utilization is the load over the capacity (0 without capacity), and the load is the flat sum of every panel's `load_va` total |
| Database.ServiceUtilization | backend/tools/database.py:167-201 | the loop that accumulates the panel loads computes exactly the service utilization above |
| Database.ServiceOverloadedIff | backend/tools/database.py:186-192 | utilization exceeds 100 % exactly when capacity is positive and the load exceeds it |
| Database.CapacityVerdict | backend/tools/database.py:366-375 | REJECT exactly above 100 %, WARNING exactly in (80, 100], APPROVE WITH CAUTION exactly in (60, 80], APPROVE exactly at 60 % or below; a rejection carries the absolute value of the remaining amps; a warning and an approval with caution carry the utilization and the remaining amps; an approval carries the remaining amps |
| Database.RecommendedServiceSize | backend/tools/database.py:355-363 | the size is on the standard ladder; it is the smallest ladder size that covers the required amps over 0.8 when one does, and 1200 when none does |
| Database.LadderFromIsFirstFit | backend/tools/database.py:360-363 | the first ladder entry from a position on that fits is the least fitting entry from there, or 1200 when none fits |
| Database.ScanServiceLadder | backend/tools/database.py:357-363 | the early-return walk of the ladder returns exactly the recommended size |
| Database.RecommendationCoversLoad | backend/tools/database.py:358-363 | the recommended size carries the load itself exactly when the load is at most 1200 A |
| Database.CheckServiceCapacity | backend/tools/database.py:305-352 | an error of the utilization step gives that error with can-proceed false; otherwise the service size and current utilization are the service's, current load amps are its load over its voltage, available amps are size minus current amps, and the projected utilization is the current load plus added amps times voltage, over the capacity; exactly one of can-proceed (at most 80 %), warning (above 80, at most 100 %) and upgrade (above 100 %) holds; the verdict is the verdict of the projected utilization and remaining amps, and its prefix agrees with the flags; a recommendation is present exactly when an upgrade is required, and is then the recommended size for the new total amps; new total amps are current plus added; remaining amps are available minus added |
| Database.CheckServiceCapacityForProject | backend/tools/database.py:305-310 | checking a project is the capacity check of its service utilization; a missing project cannot proceed |
| Database.CapacityCheckMonotone | backend/tools/database.py:315-333 | for non-negative voltage, more added load never lowers the projected utilization or the new total, never raises the remaining amps, never turns a refusal into an admission and never clears a required upgrade |
| Database.NoChangeIsIdentity | backend/tools/database.py:315-328 | with consistent figures, adding nothing leaves the projected utilization, total and remaining amps at their current values |
| Database.ServiceScenario | backend/tools/database.py:315-363 | 200 A, 240 V, 172 A present plus 48 A: 220 A, 110 %, upgrade required, rejected 20 A over, a 320 A service recommended |
| Database.SelectLargeMembers | backend/tools/database.py:392-402 | a line is selected exactly when some circuit with breaker at least the minimum projects to it |
| Database.InsertByBreaker | backend/tools/database.py:403 | insertion adds exactly the one line |
| Database.InsertKeepsSorted | backend/tools/database.py:403 | insertion into a listing sorted largest breaker first keeps it sorted |
| Database.InsertIsStable | backend/tools/database.py:403 | the inserted line goes before every line of its own rating, which keep their order |
| Database.SortByBreakerDesc | backend/tools/database.py:403 | the sort is a permutation, puts larger breakers first, and keeps the original order among equal ratings |
| Database.GetLargeLoads | backend/tools/database.py:378-403 | for a given minimum (20 A in `GetLargeLoadsDefault`), the listing holds exactly the qualifying circuits, each once as often as it qualifies, largest breaker first, ties in their original order |
| ChangeImpact.CircularMils | backend/agents/change_impact.py:164-180 | the area is positive; a listed designator gets its table value, and an unlisted one gets 105600 cmil |
| ChangeImpact.ConductorSizesAreTableKeys | backend/agents/change_impact.py:164-178 | the ordered size list names exactly the table's keys |
| ChangeImpact.CmilStrictlyIncreasing | backend/agents/change_impact.py:164-178 | the areas strictly increase from #14 to #4/0 |
| ChangeImpact.VoltageDropPercent | backend/agents/change_impact.py:141-187 | for a non-zero voltage, zero length or zero current gives 0 %, and non-negative inputs at positive voltage give a non-negative drop; the closed form is `VoltageDropClosedForm` |
| ChangeImpact.NoRunNoDrop | backend/agents/change_impact.py:184-185 | zero length or zero current gives a 0 % drop |
| ChangeImpact.VoltageDropClosedForm | backend/agents/change_impact.py:184-185 | the drop is K times current times length times 100 over area times voltage |
| ChangeImpact.VoltageDropMonotone | backend/agents/change_impact.py:184-185 | for non-negative inputs and positive voltage, a longer run or a larger current never gives a smaller drop |
| ChangeImpact.VoltageDropInverseInVoltage | backend/agents/change_impact.py:185 | scaling the voltage by k scales the drop by 1/k |
| ChangeImpact.LargerConductorNoLargerDrop | backend/agents/change_impact.py:164-185 | for a fixed run, a larger listed conductor never gives a larger drop |
| ChangeImpact.UnknownConductorIsOneOught | backend/agents/change_impact.py:180 | an unlisted designator is computed as #1/0 |
| ChangeImpact.VoltageDropScenario | backend/agents/change_impact.py:169-187 | #6, 100 ft, 40 A, 240 V gives a drop between 0.8193 % and 0.8194 % |
| ChangeImpact.TotalAdditionalAmps | backend/agents/change_impact.py:209-212 | nothing proposed adds 0 A, and the total is non-negative when no entry is negative |
| ChangeImpact.TotalAdditionalAmpsAdditive | backend/agents/change_impact.py:209-212 | nothing proposed adds 0 A, and the total is additive over concatenation |
| ChangeImpact.TotalAdditionalAmpsScenario | backend/agents/change_impact.py:209-212 | three 50 A entries and one 20 A entry without quantity add 170 A |
| Predictive.NoWattsSum | backend/agents/predictive.py:145 | once the watts are dropped, the watts-fallback sum equals the `load_va`-only sum, for every circuit list |
| Predictive.ComplianceUtilization | backend/agents/predictive.py:145-157 | for every panel and circuit list, the panel-utilization figure for the same panel with `phases` read in place of `phase` and every circuit's `load_watts` dropped, so no watts fallback; hence 0 without capacity, and the panel-utilization tool's own figure when the two phase keys agree and every circuit records `load_va` |
| Predictive.CheckPanelCompliance | backend/agents/predictive.py:134-177 | no matching panel exactly when the error is returned; otherwise the first matching panel is checked and its bus rating reported (200 A by default); a circuit-count violation exactly above 42 circuits; a loading violation exactly above 80 % (from `load_va` only, phases from the `phases` key); one violation per failing rule, the circuit-count one first; compliant exactly when there is no violation |
| Predictive.PhaseKeysDisagree | backend/agents/predictive.py:150 | a panel recorded only under `phase` = 3 is three-phase to the utilization tool and single-phase to the compliance check, so the two disagree |
| Predictive.CheckVoltageDropCompliance | backend/agents/predictive.py:193-209 | the loop over feeders produces exactly the feeder-by-feeder violation list |
| Predictive.FeederViolationsConcat | backend/agents/predictive.py:195-207 | the list for concatenated feeders is the two lists concatenated, so feeder order is kept |
| Predictive.SingleFeeder | backend/agents/predictive.py:196-207 | a feeder is reported exactly when its drop exceeds 3 %, with limit 3.0, the fixed article text, and severity High exactly above 5 % |
| Predictive.FeederViolations | backend/agents/predictive.py:193-209 | no more entries than feeders; every entry is over 3 %, carries limit 3.0 and the fixed article, and is High exactly above 5 % |
| Predictive.ReportedFeeders | backend/agents/predictive.py:195-200 | the feeders kept are over 3 % and come from the list, and every feeder over 3 % is kept |
| Predictive.ViolationsFollowReportedFeeders | backend/agents/predictive.py:193-209 | there is one violation per feeder over 3 %, in feeder order: the k-th names the k-th such feeder and carries its recorded drop |
| Predictive.MissingDropNotReported | backend/agents/predictive.py:196 | a feeder without a recorded drop is not reported |
| Predictive.FeederScenario | backend/agents/predictive.py:200-207 | a 4.2 % feeder is reported at Medium severity against 3.0 |
| RfiDrafter.LookupNecArticle | backend/agents/rfi_drafter.py:129-164 | the empty list exactly when no keyword occurs in the lower-cased topic; otherwise the articles of the first keyword in table order that occurs |
| RfiDrafter.LookupIgnoresCase | backend/agents/rfi_drafter.py:157 | the articles do not depend on the case of the topic |
| RfiDrafter.ShadowedEntriesNeverReturned | backend/agents/rfi_drafter.py:141-150 | the "panel sizing" and "grounding electrode" entries are never returned, whatever the topic |
| RfiDrafter.PanelSizingLookup | backend/agents/rfi_drafter.py:141-144 | "panel sizing" gets the three "panel" articles |
| RfiDrafter.GroundingElectrodeLookup | backend/agents/rfi_drafter.py:141-150 | "grounding electrode" gets the four "grounding" articles |
| RfiDrafter.GetPanelInfo | backend/agents/rfi_drafter.py:111-125 | not found exactly when no panel name equals the input ignoring case, echoing the name asked for; otherwise the first matching panel's specification |
| RfiDrafter.PanelInfoDefaults | backend/agents/rfi_drafter.py:117-125 | a panel with only a name is found in another case and reported with rating 0, 240 V, one phase, main breaker 0 and location "Not specified" |
| PhotoAnalyzer.GetNecRequirements | backend/agents/photo_analyzer.py:109-164 | the key requirements are never empty; the fallback, with no articles, exactly when no keyword occurs in the lower-cased type; otherwise the first matching entry in table order |
| PhotoAnalyzer.RequirementsIgnoreCase | backend/agents/photo_analyzer.py:155 | the requirements do not depend on the case of the equipment type |
| PhotoAnalyzer.PanelComesFirst | backend/agents/photo_analyzer.py:110-159 | any type mentioning "panel" gets the panel entry |
| PhotoAnalyzer.PanelGroundingIsPanel | backend/agents/photo_analyzer.py:110-136 | "Panel grounding" gets the panel entry, not the grounding one |
| PhotoAnalyzer.ServiceEntranceWithSpace | backend/agents/photo_analyzer.py:119-164 | "service entrance" with a space matches no keyword and gets the fallback |
| PhotoAnalyzer.ServiceEntranceWithUnderscore | backend/agents/photo_analyzer.py:119-127 | "service_entrance" gets the service-entrance entry |

## Left out

- Datastore fetches (`get_project_data`, `get_all_panels`, `get_panel_circuits`,
  `get_all_circuits`, `get_all_feeders`) are not modelled. Each operation takes the
  already-fetched rows as parameters; the circuits of a panel are a parameter
  (`circuitsOf` in the compliance check).
- The `try/except` wrappers that turn an exception into an error record are left out, as
  are logging and `async`. The model's operations return the error records the code
  returns, and do not model an exception raised inside the wrappers.
- Columns that are present but null are not modelled. Python's `.get` would return `None`
  there and the arithmetic would raise; here a column is either present with a value or
  absent.
- In `get_panel_utilization` the `.single()` query raises when the panel does not exist.
  The model takes the panel row as given.
- The compliance check and `get_panel_info` both test `if not panel`, which also treats a
  matched but empty row as missing. Stored rows always carry an id, so the model treats
  any matched row as found.
- ChangeImpact.VoltageDropPercent: requires a non-zero voltage. The source divides by the
  voltage with no guard and no `try`, so a zero voltage raises `ZeroDivisionError`; the
  model does not represent that exception.
- `round(...)` and the number formatting in f-strings (`:.0f`, `:.1f`, the "A" and "V"
  suffixes) are presentation only and are left out. The reports carry the unrounded
  reals, and verdicts and violations are datatypes carrying the figures their messages
  embed. The panel status is a datatype whose three values stand for "OK", "WARNING"
  and "OVERLOADED".
- RfiDrafter.GetPanelInfo: reports rating, voltage and main breaker as numbers, where the
  source formats them as text with an "A" or "V" suffix.
- Database.CapacityVerdict: returns the verdict's category and figures, not its message
  text.
- Predictive.CheckPanelCompliance: violations are datatypes carrying the circuit count or
  utilization, not the message strings.
- ChangeImpact.VoltageDropPercent: the result is the unrounded percentage. The source
  rounds it to two decimals, so the worked value is stated as a bound.
- Lower-casing is ASCII only; Python's `str.lower` also maps non-ASCII letters.
- Floating-point rounding of Python's `float` is not modelled: arithmetic is exact over
  `real`.
- The aluminium K of 21.2 appears only in a comment of the voltage-drop calculator and is
  never used, so only copper is modelled.
- Database.CapacityCheckMonotone: requires non-negative voltage and nothing about the
  capacity. Without capacity the projected utilization is 0 whatever is added, so it is
  monotone there too.
- `get_grounding_system`, the HTTP routes and approval queue, authentication,
  application setup and settings are not part of this model. Nor are the LLM agent
  construction, prompts and context strings, image decoding and download, and the
  request/response schemas.
