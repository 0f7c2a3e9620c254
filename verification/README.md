# Trade-compliance rules, modelled in Dafny

This project models the deterministic core of a Brazilian trade-compliance application. The core
has a FastAPI back end and React front ends. The model covers:

- **Import taxes.** The cascading tax engine: II, then IPI, then PIS and COFINS, then ICMS by gross-up. It also covers the NCM duty-rate table and the landed-cost estimator.
- **Identifier checks.** The Brazilian identifier validators (CNPJ, CPF, NCM, currency, reference number and the numeric/date checks), plus the CNPJ input mask of the company-registration form.
- **OCR and cache keys.** The keyword classifier that types OCR'd documents, and the Redis cache-key builder.
- **Warehouses and drawback.** Warehouse stock rules (capacity on inventory intake, stock on entry/exit movements). The drawback act lifecycle (draft → submitted → approved), with act and credit numbering.
- **Process lists.** The process-list tooling: the search and filter functions, their composition in the filter hook, the service-level filter, pagination, distinct-value lists, the date parser and the process update.
- **Documents and notifications.** The document helpers (labels, colours, icons, size units, expiry, required documents). Notification construction and priority bands. The notification list store.
- **Approval workflows.** Approve/reject transitions over the five built-in workflow definitions. The custom workflow builder's step-list edits and save validation.
- **Modules.** The `MODULES` table and module/route access control.

**How it is modelled.** Every operation is a pure function:

- The database becomes maps from ids to records.
- React state becomes the function's argument and result.
- The clock, generated ids and "days left" become parameters.
- Python `Decimal` and JavaScript `number` amounts become `real`.
- The Python `float` taken by the numeric validators is a datatype with NaN and both infinities, so Python's comparisons are modelled exactly.
- Strings become `seq<char>`.

Shared helpers live in `wrappers.dfy` (`Option`, `Result`), `text.dfy` (digits, case, substrings, lexicographic order, decimal rendering, split/join), `seqs.dfy` (order-preserving filter, subsequence, first-occurrence de-duplication), `tables.dfy` (association lists standing for object literals) and `js_slice.dfy` (`Array.prototype.slice`).

**Behaviour of the code worth knowing, which the model keeps:**

- `calculate_import_taxes` neither rounds nor rejects negative values, and `estimate_total_cost` does not reject a non-positive exchange rate. The model does neither of these either. Its only precondition is an effective ICMS rate other than 1, where the gross-up would divide by zero.
- `validate_ncm`'s "only numbers" error cannot happen after stripping non-digits, and the model proves it unreachable.
- `get_ncm_rate` never returns `None` despite its documented `Optional` result.
- `validate_positive_number` and `validate_percentage` accept `float('nan')`, because their guards compare false with NaN; `validate_positive_number` also accepts `float('inf')`.
- Approving a request whose step has no successor, or whose step id is missing from its definition, completes the workflow.

## Model

| member | source | states |
|---|---|---|
| TaxCalculator.RateFor | apps/saas-platform/backend/app/services/tax_calculator.py:57-62 | a rate override applies key by key: the custom rate when its key is present, otherwise the calculator's own rate |
| TaxCalculator.Effective | apps/saas-platform/backend/app/services/tax_calculator.py:57-62 | each of the five effective rates is chosen independently from the overrides and the instance defaults |
| TaxCalculator.CalculateImportTaxes | apps/saas-platform/backend/app/services/tax_calculator.py:31-142 | the cascade: II on the CIF total; IPI on CIF + II; PIS and COFINS on the same base CIF + II + IPI; ICMS satisfies amount·(1 − rate) = base·rate, i.e. it is `rate` of base plus itself; totals are the sums; the percentage times the CIF total is 100× the taxes when the total is positive and 0 otherwise; descriptive fields are echoed |
| TaxCalculator.Percentage | apps/saas-platform/backend/app/services/tax_calculator.py:134 | the tax percentage never divides by zero: for a positive whole p·whole = 100·part, otherwise 0 |
| TaxCalculator.Cascade | apps/saas-platform/backend/app/services/tax_calculator.py:67-95 | each tax base is the CIF total plus exactly the taxes computed before it, in order II, IPI, PIS/COFINS, ICMS |
| TaxCalculator.GrossUp | apps/saas-platform/backend/app/services/tax_calculator.py:90-92 | `base/(1 − r) − base` satisfies the gross-up equation and equals r·(base + itself) |
| TaxCalculator.IcmsUnique | apps/saas-platform/backend/app/services/tax_calculator.py:90-92 | the gross-up equation has exactly one solution, so the ICMS amount is determined by base and rate |
| TaxCalculator.ClosedForm | apps/saas-platform/backend/app/services/tax_calculator.py:64-98 | in closed form, with CIF total T, the ICMS base is T·(1 + II)·(1 + IPI)·(1 + PIS + COFINS), and the total to pay times (1 − ICMS rate) equals that base |
| TaxCalculator.NonNegativeTaxes | apps/saas-platform/backend/app/services/tax_calculator.py:64-134 | with non-negative money and rates, and ICMS rate in [0, 1), every amount, total and the percentage are non-negative and the total to pay is at least the CIF total |
| TaxCalculator.TotalToPay | apps/saas-platform/backend/app/services/tax_calculator.py:64-98 | a closed form of the total to pay: it solves total·(1 − ICMS rate) = T·(1 + II)·(1 + IPI)·(1 + PIS + COFINS) |
| TaxCalculator.TotalSolvesGrossUp | apps/saas-platform/backend/app/services/tax_calculator.py:64-98 | the reported `total_amount` solves that same gross-up equation |
| TaxCalculator.TotalToPayIsTotal | apps/saas-platform/backend/app/services/tax_calculator.py:64-98 | the closed form equals the `total_amount` the calculation reports, for any inputs with an ICMS rate other than 1 |
| TaxCalculator.TotalMonotoneInCif | apps/saas-platform/backend/app/services/tax_calculator.py:64-98 | with non-negative rates and ICMS in [0, 1), a larger CIF total (value, freight or insurance) never gives a smaller total to pay |
| TaxCalculator.TotalMonotoneInRates | apps/saas-platform/backend/app/services/tax_calculator.py:57-98 | on a non-negative CIF total, raising any effective rate (the others fixed or raised too) never gives a smaller total to pay |
| TaxCalculator.TotalAmountMonotone | apps/saas-platform/backend/app/services/tax_calculator.py:57-98 | `total_amount` never decreases when the CIF value, the freight, the insurance or any rate increases, for non-negative money, non-negative rates and ICMS below 1 |
| TaxCalculator.MetadataIndependent | apps/saas-platform/backend/app/services/tax_calculator.py:135-137 | NCM code, origin country and destination state never influence an amount |
| TaxCalculator.FreightFolds | apps/saas-platform/backend/app/services/tax_calculator.py:65 | only the sum CIF + freight + insurance matters: the same total split differently gives the same taxes |
| TaxCalculator.DefaultScenario | apps/saas-platform/backend/app/services/tax_calculator.py:18-98 | worked example at the default rates (15%, 10%, 1.65%, 7.6%, 18%) on a CIF of 1000 |
| TaxCalculator.CalculateSimpleTax | apps/saas-platform/backend/app/services/tax_calculator.py:144-168 | a simple tax echoes name, base and rate, and its amount is base × rate |
| TaxCalculator.CascadeIsSimpleTaxes | apps/saas-platform/backend/app/services/tax_calculator.py:67-85 | each proportional line of the cascade is the simple tax of its own base and rate |
| TaxCalculator.NcmRate | apps/saas-platform/backend/app/services/tax_calculator.py:170-191 | only the first four characters decide: 8471 → 0.16, 8517 → 0.14, 8703 → 0.35, anything else (including empty or absent) → the 0.15 default; never absent |
| TaxCalculator.NcmRatePrefixOnly | apps/saas-platform/backend/app/services/tax_calculator.py:188-191 | codes sharing their first four characters get the same rate |
| TaxCalculator.EstimateIiRate | apps/saas-platform/backend/app/services/tax_calculator.py:219 | a non-empty NCM code takes the table rate; an empty or absent code keeps the calculator's II rate |
| TaxCalculator.EstimateTotalCost | apps/saas-platform/backend/app/services/tax_calculator.py:193-239 | the foreign CIF is converted at the exchange rate and the cascade runs on the BRL value: II on it, IPI on it plus II, PIS and COFINS on it plus II and IPI, ICMS grossed up over all of them; the II rate is the NCM rate for a non-empty code and the other rates are the calculator's; taxes are the five amounts and the total cost is the BRL CIF plus the taxes |
| TaxCalculator.EffectiveRatesDecide | apps/saas-platform/backend/app/services/tax_calculator.py:57-62 | two calculators/override sets with the same effective rates compute the same breakdown |
| TaxCalculator.EstimateMatchesDirect | apps/saas-platform/backend/app/services/tax_calculator.py:215-239 | for any product value, freight, insurance and exchange rate, every tax line, the CIF total, the percentage, the taxes and the total cost of an estimate equal those of a direct calculation on (value + freight + insurance) · rate with the estimate's II rate |
| TaxCalculator.ComputerEstimate | apps/saas-platform/backend/app/services/tax_calculator.py:182-219 | an 8471 (computer) estimate pays 16% duty instead of the 15% default |
| Validators.CheckDigit | apps/saas-platform/backend/app/schemas/validators.py:39-41 | the mod-11 check digit (11 − sum mod 11, or 0 when that is 10 or more) is a single decimal digit |
| Validators.CheckDigitIsRef | apps/saas-platform/backend/app/schemas/validators.py:39-87 | the source's check-digit rule agrees with the textbook form (10·sum mod 11) mod 10 |
| Validators.WeightedSumIsRefSum | apps/saas-platform/backend/app/schemas/validators.py:37-93 | a weighted digit sum with a countdown weight table equals the sum weighted by position from the right |
| Validators.CnpjTablesAreCyclic | apps/saas-platform/backend/app/schemas/validators.py:37-47 | the two CNPJ weight tables are the cyclic 2..9 weights read from the right |
| Validators.ValidateCnpj | apps/saas-platform/backend/app/schemas/validators.py:12-56 | accepted exactly when the digits of the input form a CNPJ (14 digits, not all equal, both check digits right); the result is those digits; length and all-equal errors occur exactly in their cases |
| Validators.ValidateCpf | apps/saas-platform/backend/app/schemas/validators.py:59-101 | the same for CPF with 11 digits and weights 10..2 and 11..2 |
| Validators.CnpjIdempotent | apps/saas-platform/backend/app/schemas/validators.py:26-56 | validating an accepted CNPJ's result again gives the same result |
| Validators.CpfIdempotent | apps/saas-platform/backend/app/schemas/validators.py:73-101 | validating an accepted CPF's result again gives the same result |
| Validators.CnpjIgnoresPunctuation | apps/saas-platform/backend/app/schemas/validators.py:26 | inserting any non-digit anywhere does not change the CNPJ verdict or result |
| Validators.CpfIgnoresPunctuation | apps/saas-platform/backend/app/schemas/validators.py:73 | inserting any non-digit anywhere does not change the CPF verdict or result |
| Validators.ValidateNcm | apps/saas-platform/backend/app/schemas/validators.py:104-126 | accepted exactly when eight digits remain after stripping; the result is those digits; the "only numbers" error never occurs |
| Validators.ValidateCurrencyCode | apps/saas-platform/backend/app/schemas/validators.py:150-173 | accepted exactly when the upper-cased code is one of the sixteen listed; the result is the upper-cased three-letter code |
| Validators.CurrencyCaseInsensitive | apps/saas-platform/backend/app/schemas/validators.py:161-173 | upper-casing the input first never changes the verdict |
| Validators.LowerCaseCurrencyAccepted | apps/saas-platform/backend/app/schemas/validators.py:161-173 | "brl" and "usd" are accepted as "BRL" and "USD" |
| Validators.ValidateDateNotPast | apps/saas-platform/backend/app/schemas/validators.py:176-192 | a date is accepted, unchanged, exactly when it is not before today |
| Validators.ValidateDateRange | apps/saas-platform/backend/app/schemas/validators.py:195-212 | a range is accepted, unchanged, exactly when the end is not before the start |
| Validators.ValidatePositiveNumber | apps/saas-platform/backend/app/schemas/validators.py:215-232 | accepted, unchanged, exactly when a finite value is strictly positive, or the float is NaN or +inf (every comparison with NaN is false); the error names the field |
| Validators.ValidatePercentage | apps/saas-platform/backend/app/schemas/validators.py:235-252 | accepted, unchanged, exactly when a finite value lies between 0 and 100 inclusive, or the float is NaN; both infinities are refused; the error names the field |
| Validators.PercentageAndPositive | apps/saas-platform/backend/app/schemas/validators.py:229-249 | a non-zero accepted percentage is an accepted positive number, a finite positive number up to 100 is an accepted percentage, and NaN passes both |
| Validators.NumericValidatorsIdempotent | apps/saas-platform/backend/app/schemas/validators.py:215-252 | re-validating an accepted value accepts it unchanged |
| Validators.ValidateReferenceNumberAsWritten | apps/saas-platform/backend/app/schemas/validators.py:255-281 | the validator as written: Python's `re.match` with `$` also accepts a single trailing newline |
| Validators.ReferenceNewlineAccepted | apps/saas-platform/backend/app/schemas/validators.py:278 | "ab\n" is accepted although it contains a character outside `[A-Za-z0-9_-]` |
| Validators.ValidateReferenceNumber | apps/saas-platform/backend/app/schemas/validators.py:255-281 | accepted, unchanged, exactly when 3 to 50 characters all in `[A-Za-z0-9_-]`; empty, too short and too long each give their own error |
| Validators.ReferenceVersionsAgree | apps/saas-platform/backend/app/schemas/validators.py:266-281 | without a trailing newline the written and the intended validator agree |
| CnpjMask.FormatIsMask | src/pages/admin/CompanyRegistration.tsx:50-56 | the four regex replacements equal inserting separators into the stripped digits at fixed positions, depending only on the digit count |
| CnpjMask.FormatKeepsDigits | src/pages/admin/CompanyRegistration.tsx:51-55 | the digits of the output are exactly the digits of the input |
| CnpjMask.FormatInsertsOnlySeparators | src/pages/admin/CompanyRegistration.tsx:51-55 | the output consists of digits and the separators `.`, `/`, `-` only |
| CnpjMask.FullMask | src/pages/admin/CompanyRegistration.tsx:52-55 | fourteen digits get the mask `NN.NNN.NNN/NNNN-NN` |
| CnpjMask.FormatIdempotent | src/pages/admin/CompanyRegistration.tsx:50-56 | formatting a formatted value changes nothing |
| CnpjMask.MaskRoundTrip | src/pages/admin/CompanyRegistration.tsx:50-56 | the back end gives the same verdict for the masked and the raw value, and returns the digits of a valid CNPJ |
| CnpjMask.NoDotFourDigitsIn | src/pages/admin/CompanyRegistration.tsx:54 | with 6 to 8 digits the slash replacement finds nothing to change |
| CnpjMask.DotFourDigitsAtSix | src/pages/admin/CompanyRegistration.tsx:54 | with 9 or more digits the slash lands after the second dot group |
| CnpjMask.FiveDigitsAtEleven | src/pages/admin/CompanyRegistration.tsx:55 | with 13 or more digits the dash lands after the four-digit branch group |
| DocumentClassifier.Score | apps/saas-platform/backend/app/services/ocr_service.py:242-245 | a type's score is its share of keywords found, in [0, 1], and positive exactly when some keyword occurs |
| DocumentClassifier.ScoresOf | apps/saas-platform/backend/app/services/ocr_service.py:241-245 | only positive scores are kept, and none are kept exactly when no keyword of any type occurs |
| DocumentClassifier.ScoresOfSound | apps/saas-platform/backend/app/services/ocr_service.py:241-245 | every kept entry is some pattern's type with its score |
| DocumentClassifier.ScoresOfComplete | apps/saas-platform/backend/app/services/ocr_service.py:241-245 | every pattern with a hit appears with its score |
| DocumentClassifier.ArgMax | apps/saas-platform/backend/app/services/ocr_service.py:248 | the chosen entry has the maximal score and no earlier entry ties it (`max` keeps the first maximum) |
| DocumentClassifier.FirstMaxUnique | apps/saas-platform/backend/app/services/ocr_service.py:248 | the first maximum is unique |
| DocumentClassifier.ClassifyWith | apps/saas-platform/backend/app/services/ocr_service.py:218-259 | classification works on the lower-cased text; no hit gives `other` with confidence 0 and no scores; otherwise the type and confidence are the first maximal score |
| DocumentClassifier.ClassifyCaseInsensitive | apps/saas-platform/backend/app/services/ocr_service.py:228 | classifying a text and its lower-cased form give the same result |
| DocumentClassifier.ClassifyOtherIff | apps/saas-platform/backend/app/services/ocr_service.py:247-259 | the result is `other` exactly when no keyword of any type occurs in the lower-cased text |
| DocumentClassifier.ClassifyBest | apps/saas-platform/backend/app/services/ocr_service.py:247-253 | no pattern scores higher than the reported confidence |
| DocumentClassifier.ClassifyKnownType | apps/saas-platform/backend/app/services/ocr_service.py:247-259 | the reported type is one of the pattern types or `other` |
| DocumentClassifier.BuiltInTypes | apps/saas-platform/backend/app/services/ocr_service.py:231-259 | with the built-in table the type is one of the seven listed types or `other` |
| CacheKey.SortByName | apps/saas-platform/backend/app/core/cache.py:67 | keyword arguments are put in name order without losing or adding any |
| CacheKey.SortedUnique | apps/saas-platform/backend/app/core/cache.py:67 | with distinct names there is only one name-sorted arrangement of the same arguments |
| CacheKey.Parts | apps/saas-platform/backend/app/core/cache.py:61-68 | the parts are the prefix, then the positional arguments in call order, then one `k:v` part per keyword argument in name order |
| CacheKey.Key | apps/saas-platform/backend/app/core/cache.py:50-70 | the key starts with the prefix, and is exactly the prefix without arguments |
| CacheKey.KwargOrderIrrelevant | apps/saas-platform/backend/app/core/cache.py:66-68 | the order in which keyword arguments are passed never changes the key |
| CacheKey.PositionalRoundTrip | apps/saas-platform/backend/app/core/cache.py:61-70 | splitting a positional-only key at `:` gives back the prefix and the arguments when none of them contains `:` |
| ProcessRefs.Check | apps/saas-platform/backend/app/api/v1/warehouses.py:251-270 | a referenced import or export process must exist and belong to the company; the import reference is checked first |
| Warehouses.CreateWarehouse | apps/saas-platform/backend/app/api/v1/warehouses.py:142-180 | a duplicate code is refused; otherwise exactly one warehouse is added, active with used capacity 0, and nothing else changes |
| Warehouses.CreateKeepsCodesUnique | apps/saas-platform/backend/app/api/v1/warehouses.py:151-157 | creation preserves the uniqueness of warehouse codes |
| Warehouses.AddInventoryItem | apps/saas-platform/backend/app/api/v1/warehouses.py:231-294 | an unknown or foreign warehouse and a bad process reference are refused; otherwise one available, unreserved item is added and used capacity grows by exactly its quantity (missing counts as 0) |
| Warehouses.AddTwiceAccumulates | apps/saas-platform/backend/app/api/v1/warehouses.py:282-289 | two intakes raise used capacity by the sum of their quantities and leave other warehouses alone |
| Warehouses.Apply | apps/saas-platform/backend/app/api/v1/warehouses.py:324-330 | entry adds, exit subtracts unless the stock is short (then refused), other movement types keep the quantity; an accepted exit keeps non-negative stock non-negative |
| Warehouses.CreateStockMovement | apps/saas-platform/backend/app/api/v1/warehouses.py:296-351 | a movement succeeds exactly when the warehouse belongs to the company, a named item exists, and it is not an exit larger than the stock; unknown warehouse or item and insufficient stock are refused with their own errors; on success one movement is logged and only the named item may change |
| Warehouses.MovementQuantity | apps/saas-platform/backend/app/api/v1/warehouses.py:324-330 | the moved item changes only in quantity, by + amount for entry, − amount for exit, 0 otherwise |
| Warehouses.ExitKeepsStockNonNegative | apps/saas-platform/backend/app/api/v1/warehouses.py:327-330 | an accepted exit never makes a non-negative stock negative |
| Warehouses.ExitUndoesEntry | apps/saas-platform/backend/app/api/v1/warehouses.py:325-330 | an exit of the amount just entered is accepted and restores every item |
| Drawback.Render | apps/saas-platform/backend/app/api/v1/drawback.py:133 | a document number reads `PREFIX-company-` followed by at least six digits that parse back to the sequence number |
| Drawback.RenderInjective | apps/saas-platform/backend/app/api/v1/drawback.py:133 | within one prefix and company, distinct sequence numbers render to distinct strings |
| Drawback.CreateAct | apps/saas-platform/backend/app/api/v1/drawback.py:99-155 | creation succeeds exactly when the referenced processes exist and belong to the company, and fails only with a process-not-found error |
| Drawback.CreateActAddsDraft | apps/saas-platform/backend/app/api/v1/drawback.py:130-150 | a created act is a draft numbered `DB-company-(count+1)` with the given value and no stamps; credits and other acts are unchanged |
| Drawback.UpdateAct | apps/saas-platform/backend/app/api/v1/drawback.py:178-220 | an update succeeds exactly when the act belongs to the company and never touches credits or the set of acts |
| Drawback.UpdateActFields | apps/saas-platform/backend/app/api/v1/drawback.py:196-215 | each supplied field replaces the old one, others are kept; setting submitted stamps the submission time, setting approved stamps approval time and approver, without checking the current status |
| Drawback.SubmitAct | apps/saas-platform/backend/app/api/v1/drawback.py:222-249 | only a draft of the company is submitted, gaining the submission time; anything else is refused unchanged |
| Drawback.CreditFor | apps/saas-platform/backend/app/api/v1/drawback.py:279-296 | the generated credit is worth the act's total, fully available, active, unused, numbered `DC-company-(count+1)` |
| Drawback.ApproveAct | apps/saas-platform/backend/app/api/v1/drawback.py:251-306 | only a submitted act of the company is approved; approval adds exactly one credit and stamps approver and time |
| Drawback.SubmitDraft | apps/saas-platform/backend/app/api/v1/drawback.py:241-245 | submitting a draft succeeds and yields a submitted act |
| Drawback.ApproveSubmitted | apps/saas-platform/backend/app/api/v1/drawback.py:270-296 | approving a submitted act succeeds, marks it approved and stores exactly the credit derived from it |
| Drawback.Lifecycle | apps/saas-platform/backend/app/api/v1/drawback.py:99-306 | create, submit and approve in sequence all succeed and end with an approved act and its credit |
| Drawback.ApproveOnce | apps/saas-platform/backend/app/api/v1/drawback.py:270-271 | a second approval is refused, so one act never yields two credits through the approve endpoint |
| Drawback.PatchBypassesLifecycle | apps/saas-platform/backend/app/api/v1/drawback.py:203-209 | the update endpoint can set a draft to approved, after which the approve endpoint refuses it and no credit is ever generated |
| ProcessSearch.ApplyTextSearch | apps/marketing-site/frontend/src/utils/process-search.ts:7-19 | an empty term keeps everything; otherwise the order-preserving filter by case-insensitive match on id, client, product, tracking or B/L number |
| ProcessSearch.TextSearchKeepsExactly | apps/marketing-site/frontend/src/utils/process-search.ts:10-18 | a listed process survives a non-empty search exactly when one of those fields contains the term, ignoring case |
| ProcessSearch.ApplyStatusFilter | apps/marketing-site/frontend/src/utils/process-search.ts:24-38 | no selection keeps everything; otherwise the filter by status equal to the label of some selected key |
| ProcessSearch.StatusFilterKeepsExactly | apps/marketing-site/frontend/src/utils/process-search.ts:27-36 | a process survives exactly when some selected key is known and maps to its status; unknown keys select nothing |
| ProcessSearch.ApplyOriginFilter | apps/marketing-site/frontend/src/utils/process-search.ts:43-57 | an empty key keeps everything; otherwise the filter by origin equal to the key's country name |
| ProcessSearch.UnknownOriginKeepsNothing | apps/marketing-site/frontend/src/utils/process-search.ts:46-56 | a key outside the origin map keeps no process |
| ProcessSearch.SortableOfSlashedDate | apps/marketing-site/frontend/src/utils/process-search.ts:72-74 | `DD/MM/YYYY` is rewritten as `YYYY-MM-DD` |
| ProcessSearch.Sortable | apps/marketing-site/frontend/src/utils/process-search.ts:72-74 | a date without any `/` becomes `undefined-undefined-` followed by the date, because the missing parts render as `undefined` |
| ProcessSearch.ApplyDateFilters | apps/marketing-site/frontend/src/utils/process-search.ts:62-90 | the result is a subsequence whose every process lies within the given bounds; no bounds keep everything |
| ProcessSearch.DateFiltersKeepExactly | apps/marketing-site/frontend/src/utils/process-search.ts:69-87 | a process survives both bounds exactly when its rewritten date is lexicographically within them, both ends inclusive |
| ProcessSearch.ApplyCategoryFilter | apps/marketing-site/frontend/src/utils/process-search.ts:95-98 | an empty or absent category keeps everything; otherwise the filter by equal category |
| ProcessSearch.ApplyOptionalFieldFilter | apps/marketing-site/frontend/src/utils/process-search.ts:103-130 | shipping status, priority, integration and tracking stage: an empty or absent value keeps everything, otherwise the filter by that field equal to it |
| ProcessSearch.FiltersIdempotent | apps/marketing-site/frontend/src/utils/process-search.ts:7-98 | applying the text, status, origin or category filter twice equals applying it once |
| ProcessSearch.OptionalFieldFilterIdempotent | apps/marketing-site/frontend/src/utils/process-search.ts:103-130 | the optional-field filters are idempotent |
| ProcessSearch.DateFiltersIdempotent | apps/marketing-site/frontend/src/utils/process-search.ts:62-90 | the date filters are idempotent |
| ProcessFilters.StepIsFilter | apps/marketing-site/frontend/src/hooks/use-process-filters.ts:36-81 | each filter entry acts as an order-preserving filter by one predicate; an unusable value or unknown id keeps everything |
| ProcessFilters.Step | apps/marketing-site/frontend/src/hooks/use-process-filters.ts:36-81 | one entry of the filter list keeps an order-preserving subsequence of the results, every member of which satisfies that entry's criterion |
| ProcessFilters.FoldIsFilter | apps/marketing-site/frontend/src/hooks/use-process-filters.ts:35-82 | running the filter list in order is one filter by the conjunction of the entries |
| ProcessFilters.Fold | apps/marketing-site/frontend/src/hooks/use-process-filters.ts:35-82 | running the list in order keeps an order-preserving subsequence every member of which satisfies every entry |
| ProcessFilters.ApplyFiltersIsFilter | apps/marketing-site/frontend/src/hooks/use-process-filters.ts:26-85 | the hook's result is the filter of the processes by "matches the search term and every filter entry" |
| ProcessFilters.ApplyFilters | apps/marketing-site/frontend/src/hooks/use-process-filters.ts:26-85 | the result is an order-preserving subsequence of the processes, every member of which matches the search term (when one is given) and every filter |
| ProcessFilters.FilterOrderIrrelevant | apps/marketing-site/frontend/src/hooks/use-process-filters.ts:36-81 | filter lists with the same entries give the same result whatever their order or repetition |
| ProcessFilters.IgnoredFilter | apps/marketing-site/frontend/src/hooks/use-process-filters.ts:38-80 | an entry with an unknown id changes nothing |
| ProcessFilters.Init | apps/marketing-site/frontend/src/hooks/use-process-filters.ts:16-21 | the hook starts with an empty term, no filters, not searching, and the shown list is what that filter state selects |
| ProcessFilters.InitShowsAll | apps/marketing-site/frontend/src/hooks/use-process-filters.ts:16-35 | before any search every process is shown, and an empty term with no filters returns the list unchanged |
| JsSlice.Slice | apps/marketing-site/frontend/src/services/importProcessesService.ts:208 | `slice` is never longer than the list; with both ends inside the list it is the ordinary run from start to end; an end at or before the start gives nothing; a negative start counts back from the end, and one reaching past the front takes the whole list |
| ImportProcesses.PageWindow | apps/marketing-site/frontend/src/services/importProcessesService.ts:202-209 | page p of size s is the items from (p − 1)·s, clipped to the list, and never longer than s |
| ImportProcesses.Page | apps/marketing-site/frontend/src/services/importProcessesService.ts:202-209 | a page is never longer than the list, and a full page p of size s is exactly the items from (p − 1)·s up to p·s |
| ImportProcesses.PagesCover | apps/marketing-site/frontend/src/services/importProcessesService.ts:202-209 | the first k pages concatenated are exactly the first k·s items: pages are in order, disjoint and gap-free |
| ImportProcesses.AllPagesShowAll | apps/marketing-site/frontend/src/services/importProcessesService.ts:202-209 | the pages up to ⌈n/s⌉ together are the whole list |
| ImportProcesses.NumberOf | apps/marketing-site/frontend/src/services/importProcessesService.ts:270 | `Number` of a date part is a non-negative number exactly when the part is all digits |
| ImportProcesses.MakeDate | apps/marketing-site/frontend/src/services/importProcessesService.ts:271 | for a year from 100 on and a month index 0–11, `new Date(year, monthIndex, day)` is the day count of the month's first day plus day − 1, in milliseconds, so a large day overflows into later months |
| ImportProcesses.DaysFromCivilAnchors | apps/marketing-site/frontend/src/services/importProcessesService.ts:271 | the day count agrees with the calendar at 1970-01-01, 2000-03-01 and 2025-05-15 |
| ImportProcesses.ParseDate | apps/marketing-site/frontend/src/services/importProcessesService.ts:269-272 | a date parses exactly when its first three `/`-separated parts are all digits |
| ImportProcesses.ParseDateOfSlashed | apps/marketing-site/frontend/src/services/importProcessesService.ts:269-272 | `DD/MM/YYYY` parses to `new Date(YYYY, MM − 1, DD)` |
| ImportProcesses.FilterProcesses | apps/marketing-site/frontend/src/services/importProcessesService.ts:211-266 | an order-preserving subsequence containing exactly the processes that meet every criterion |
| ImportProcesses.DefaultsKeepAll | apps/marketing-site/frontend/src/services/importProcessesService.ts:211-266 | with every criterion at its default the whole list is returned |
| ImportProcesses.RangeInclusive | apps/marketing-site/frontend/src/services/importProcessesService.ts:250-261 | a range with both bounds keeps a process exactly when its parsed date lies between them, both inclusive |
| ImportProcesses.SingleCriteria | apps/marketing-site/frontend/src/services/importProcessesService.ts:230-247 | status matches by equality; origin and client by case-insensitive substring |
| ImportProcesses.DistinctBy | apps/marketing-site/frontend/src/services/importProcessesService.ts:275-290 | the distinct values contain every input value exactly once and nothing else, listed in the order of their first occurrence |
| ImportProcesses.DistinctStatuses | apps/marketing-site/frontend/src/services/importProcessesService.ts:275-279 | a status is listed exactly when some process has it, and never twice |
| ImportProcesses.DistinctOrigins | apps/marketing-site/frontend/src/services/importProcessesService.ts:281-285 | an origin is listed exactly when some process has it, and never twice |
| ImportProcesses.DistinctClients | apps/marketing-site/frontend/src/services/importProcessesService.ts:287-290 | a client is listed exactly when some process has it, and never twice |
| ImportProcesses.Merge | apps/marketing-site/frontend/src/services/importProcessesService.ts:357 | the object spread: each supplied field replaces the old one, absent fields are kept |
| ImportProcesses.MergeIdempotent | apps/marketing-site/frontend/src/services/importProcessesService.ts:357 | applying the same update twice equals applying it once |
| ImportProcesses.MergeNothing | apps/marketing-site/frontend/src/services/importProcessesService.ts:357 | an update that supplies no field leaves the process unchanged |
| ImportProcesses.FindIndex | apps/marketing-site/frontend/src/services/importProcessesService.ts:352 | `findIndex` is absent exactly when no process has the id, and otherwise points at one that does |
| ImportProcesses.UpdateProcess | apps/marketing-site/frontend/src/services/importProcessesService.ts:350-361 | the update is undefined exactly when no process has the id; otherwise it is the first match merged with the update |
| Pagination.TotalPages | apps/marketing-site/frontend/src/components/import/ProcessesPagination.tsx:30 | the page count is ⌈count/size⌉: zero exactly for no items, and the last page is non-empty |
| Pagination.GetPageRange | apps/marketing-site/frontend/src/components/import/ProcessesPagination.tsx:33-49 | the shown page numbers are ascending, consecutive, within 1..total and at most five; empty without pages; for a valid current page they contain it and number min(5, total), centred when possible |
| Pagination.NextIffMoreItems | apps/marketing-site/frontend/src/components/import/ProcessesPagination.tsx:30-53 | there is a next page exactly when items remain beyond the current page |
| Pagination.PreviousIffEarlierItems | apps/marketing-site/frontend/src/components/import/ProcessesPagination.tsx:52-56 | there is a previous page exactly when the current page does not begin with the first item |
| Pagination.StartItem | apps/marketing-site/frontend/src/components/import/ProcessesPagination.tsx:56 | the caption starts at 0 when nothing is listed, at 1 on the first page, and at a position of at least 1 on any page otherwise |
| Pagination.EndItem | apps/marketing-site/frontend/src/components/import/ProcessesPagination.tsx:57 | the caption ends at the smaller of the page's last position and the number of listed items (it is at most both and equal to one of them), and is never negative for a non-negative page and size |
| Pagination.CaptionMatchesPage | apps/marketing-site/frontend/src/components/import/ProcessesPagination.tsx:56-57 | the caption's first and last item numbers are exactly the positions of the page the service returns |
| Pagination.CaptionsAbut | apps/marketing-site/frontend/src/components/import/ProcessesPagination.tsx:56-57 | after a full page, the next page's caption starts one past where this page's caption ends |
| DocumentUtils.DocumentTypeLabel | apps/marketing-site/frontend/src/components/import/utils/documentUtils.ts:9-24 | a known type gets its table label, any other type is returned unchanged |
| DocumentUtils.StatusColor | apps/marketing-site/frontend/src/components/import/utils/documentUtils.ts:29-40 | a known status gets its table classes, any other the gray classes |
| DocumentUtils.ExpiredLooksUnknown | apps/marketing-site/frontend/src/components/import/utils/documentUtils.ts:30-39 | "Expirado" is styled like an unknown status, gray |
| DocumentUtils.DocumentTypeIcon | apps/marketing-site/frontend/src/components/import/utils/documentUtils.ts:79-94 | a known type gets its table icon, any other the page icon |
| DocumentUtils.LabelsAndIconsAgree | apps/marketing-site/frontend/src/components/import/utils/documentUtils.ts:10-92 | the label table and the icon table know the same types |
| DocumentUtils.FormatSize | apps/marketing-site/frontend/src/components/import/utils/documentUtils.ts:45-55 | missing or zero gives N/A; below 1024 bytes, below 1024² kilobytes, otherwise megabytes, each with the exact scaled value |
| DocumentUtils.FormatSizeMonotone | apps/marketing-site/frontend/src/components/import/utils/documentUtils.ts:48-54 | a larger size never gets a smaller unit |
| DocumentUtils.ExpiryMonotone | apps/marketing-site/frontend/src/components/import/utils/documentUtils.ts:99-110 | no expiration date is never expired, and once expired a document stays expired |
| DocumentUtils.IsDocumentExpired | apps/marketing-site/frontend/src/components/import/utils/documentUtils.ts:99-111 | only a document with a readable expiration date can be expired: a missing, empty or unparsable date never is |
| DocumentUtils.RequiredDocuments | apps/marketing-site/frontend/src/components/import/utils/documentUtils.ts:116-141 | every list starts with invoice and packing list; maritime adds four (starting with the B/L), air three (starting with the AWB), anything else nothing |
| DocumentUtils.RequiredDocumentsDistinct | apps/marketing-site/frontend/src/components/import/utils/documentUtils.ts:116-141 | no list names a type twice, and the air list has no B/L |
| DocumentUtils.RequiredDocumentsLabelled | apps/marketing-site/frontend/src/components/import/utils/documentUtils.ts:9-141 | every required document's name is the label of its type |
| NotificationService.MapPriorityToType | apps/marketing-site/frontend/src/services/notificationService.ts:21-33 | critical → alert, high → warning, medium and low → info; success never appears |
| NotificationService.PushIffNotInfo | apps/marketing-site/frontend/src/services/notificationService.ts:16-33 | a push is sent exactly for the priorities that do not map to info, and those two map to different types |
| NotificationService.ShouldSendPush | apps/marketing-site/frontend/src/services/notificationService.ts:16-18 | a push is sent exactly for priorities ranked high or above |
| NotificationService.CreateProcessNotification | apps/marketing-site/frontend/src/services/notificationService.ts:36-50 | category process, title `Processo id`, medium (info) by default, type from the priority |
| NotificationService.CreateDocumentNotification | apps/marketing-site/frontend/src/services/notificationService.ts:52-66 | category document, title `Documento: name`, medium (info) by default |
| NotificationService.CreateLicenseNotification | apps/marketing-site/frontend/src/services/notificationService.ts:68-82 | category license, title `Licença id`, high (warning) by default |
| NotificationService.CreateSystemNotification | apps/marketing-site/frontend/src/services/notificationService.ts:84-98 | category system, the given title, low (info) by default |
| NotificationService.CategoriesShareTypeMapping | apps/marketing-site/frontend/src/services/notificationService.ts:36-98 | every constructor derives its type from an explicit priority the same way |
| NotificationService.DaysLeft | apps/marketing-site/frontend/src/services/notificationService.ts:105 | the days left are the ceiling of the remaining time in days |
| NotificationService.DeadlinePriority | apps/marketing-site/frontend/src/services/notificationService.ts:107-121 | overdue is critical, 1–3 days high, 4–7 medium, more low |
| NotificationService.DeadlineMonotone | apps/marketing-site/frontend/src/services/notificationService.ts:109-121 | a nearer deadline never has a lower priority |
| NotificationService.CreateDeadlineNotification | apps/marketing-site/frontend/src/services/notificationService.ts:100-131 | category process, title `Prazo: id`, type from the deadline band, message led by the given text or the band's default |
| NotificationService.DeadlinePushIff | apps/marketing-site/frontend/src/services/notificationService.ts:16-121 | a deadline notification is pushed, and is not info, exactly when at most three days are left |
| NotificationsStore.UnreadCount | apps/marketing-site/frontend/src/contexts/NotificationsContext.tsx:62 | the badge counts the notifications not yet read |
| NotificationsStore.NoneUnreadIff | apps/marketing-site/frontend/src/contexts/NotificationsContext.tsx:62 | the count is zero exactly when every notification is read |
| NotificationsStore.AddNotification | apps/marketing-site/frontend/src/contexts/NotificationsContext.tsx:82-90 | one unread notification is put in front and the old list follows unchanged |
| NotificationsStore.AddRaisesUnread | apps/marketing-site/frontend/src/contexts/NotificationsContext.tsx:82-90 | adding raises the unread count by exactly one |
| NotificationsStore.MarkAsRead | apps/marketing-site/frontend/src/contexts/NotificationsContext.tsx:100-106 | only entries with the id become read; length, order and everything else are kept |
| NotificationsStore.MarkAsReadNoopAndIdempotent | apps/marketing-site/frontend/src/contexts/NotificationsContext.tsx:100-106 | an unknown id changes nothing and repeating the call changes nothing |
| NotificationsStore.MarkAsReadCount | apps/marketing-site/frontend/src/contexts/NotificationsContext.tsx:62-106 | the unread count drops by the number of unread entries with that id |
| NotificationsStore.MarkAllAsRead | apps/marketing-site/frontend/src/contexts/NotificationsContext.tsx:109-113 | every entry becomes read and nothing else changes |
| NotificationsStore.MarkAllClearsUnread | apps/marketing-site/frontend/src/contexts/NotificationsContext.tsx:62-113 | afterwards the unread count is zero |
| NotificationsStore.ClearAll | apps/marketing-site/frontend/src/contexts/NotificationsContext.tsx:116-118 | the list becomes empty and nothing is unread |
| ApprovalActions.FindRequest | apps/marketing-site/frontend/src/services/workflow/approvalActions.ts:16 | the request index is absent exactly when no pending request has the id; otherwise it is the first index with the id |
| ApprovalActions.FindInstance | apps/marketing-site/frontend/src/services/workflow/approvalActions.ts:55 | the instance lookup is absent exactly when no instance is for the process; otherwise it is the first such instance |
| ApprovalActions.FindDefinition | apps/marketing-site/frontend/src/services/workflow/approvalActions.ts:57 | the definition lookup is absent exactly when no definition has the id; otherwise it is the first such definition |
| ApprovalActions.KeepComments | apps/marketing-site/frontend/src/services/workflow/approvalActions.ts:34 | a missing or empty new comment keeps the previous comments |
| ApprovalActions.RecordAnswer | apps/marketing-site/frontend/src/services/workflow/approvalActions.ts:41-52 | in the workflows of the request's process, history entries with the request id are replaced by the answer; everything else is kept |
| ApprovalActions.ApplyAdvance | apps/marketing-site/frontend/src/services/workflow/approvalActions.ts:55-88 | advancing touches only the workflows of the request's process |
| ApprovalActions.ApproveRequest | apps/marketing-site/frontend/src/services/workflow/approvalActions.ts:5-92 | an unknown id returns false and changes nothing; otherwise true, the request leaves the pending list and the number of workflows is kept |
| ApprovalActions.RejectRequest | apps/marketing-site/frontend/src/services/workflow/approvalActions.ts:94-146 | false and nothing changed for an unknown id; otherwise the id leaves the pending list, the result is true, and no workflow's current step or status ever changes |
| ApprovalActions.AnsweredLeavesPending | apps/marketing-site/frontend/src/services/workflow/approvalActions.ts:38-125 | removal drops exactly the requests with that id and keeps the others in order |
| ApprovalActions.ApproveAnswersHistory | apps/marketing-site/frontend/src/services/workflow/approvalActions.ts:29-52 | the process's history entry with the request id becomes approved by the responder at the given time, keeping the request's comments when none are given, and other entries stay |
| ApprovalActions.ApproveTouchesOnlyItsProcess | apps/marketing-site/frontend/src/services/workflow/approvalActions.ts:42-81 | workflows of other processes are unchanged by an approval |
| ApprovalActions.RejectAnswersHistory | apps/marketing-site/frontend/src/services/workflow/approvalActions.ts:103-130 | in every instance of the request's process, each history entry with the id becomes rejected by the responder at the given time, keeping its old comment unless a new one is given; other entries are unchanged |
| ApprovalActions.RejectTouchesOnlyItsProcess | apps/marketing-site/frontend/src/services/workflow/approvalActions.ts:117-130 | instances of other processes are untouched by a rejection |
| ApprovalActions.ApproveAdvances | apps/marketing-site/frontend/src/services/workflow/approvalActions.ts:55-88 | on any definitions: every instance of the process moves to the step's successor when the first instance's definition gives one, is completed when the definition is found but gives none (step missing or without a successor), and keeps its step and status when no definition is found; other processes keep theirs |
| ApprovalActions.ApproveFollowsChain | apps/marketing-site/frontend/src/services/workflow/approvalActions.ts:55-88 | on a well-linked definition approval at step j moves to step j + 1, and at the last step completes the workflow |
| WorkflowDefinitions.FindStep | apps/marketing-site/frontend/src/services/workflow/approvalActions.ts:59 | a step lookup is absent exactly when no step has the id, else it returns a step with that id |
| WorkflowDefinitions.Successor | apps/marketing-site/frontend/src/services/workflow/approvalActions.ts:59-60 | a successor is a non-empty `nextStepId` of the first step with the id; there is none when that step has no or an empty `nextStepId`, or when no step has the id |
| WorkflowDefinitions.SuccessorIsNextInList | apps/marketing-site/frontend/src/data/workflowDefinitions.ts:9-32 | in a well-linked definition the successor of a step is the next one in the list, and the last step has none |
| WorkflowDefinitions.FollowChain | apps/marketing-site/frontend/src/data/workflowDefinitions.ts:16-32 | following successor links from the head of a linked chain visits exactly the chain |
| WorkflowDefinitions.WalkFrom | apps/marketing-site/frontend/src/data/workflowDefinitions.ts:16-32 | following `nextStepId` from any step visits the rest of the list in order and stops |
| WorkflowDefinitions.WalkVisitsAll | apps/marketing-site/frontend/src/data/workflowDefinitions.ts:9-32 | from the initial step the walk visits each step exactly once and ends at a step with no successor |
| WorkflowDefinitions.Chain3WellLinked | apps/marketing-site/frontend/src/data/workflowDefinitions.ts:9-32 | three distinct non-empty step ids chained forward and back form a well-linked definition |
| WorkflowDefinitions.DefinitionsWellFormed | apps/marketing-site/frontend/src/data/workflowDefinitions.ts:4-155 | there are five definitions with distinct ids, each a well-linked chain of three steps starting at its initial step |
| WorkflowBuilder.StepIdInjective | apps/marketing-site/frontend/src/components/workflow/CustomWorkflowBuilder.tsx:68 | `step-n` names are distinct for distinct n |
| WorkflowBuilder.InitialStepsLinked | apps/marketing-site/frontend/src/components/workflow/CustomWorkflowBuilder.tsx:57-65 | the builder starts with the single unconditioned step `step-1` |
| WorkflowBuilder.AppendStep | apps/marketing-site/frontend/src/components/workflow/CustomWorkflowBuilder.tsx:78-85 | the new step goes last and the previous last step now points at it; earlier steps are kept |
| WorkflowBuilder.AddStep | apps/marketing-site/frontend/src/components/workflow/CustomWorkflowBuilder.tsx:67-86 | add appends `step-(n+1)` named `Etapa n+1` with role admin, keeps every earlier step unchanged except that the old last step now links to the new one, and keeps the list linked |
| WorkflowBuilder.RemoveStep | apps/marketing-site/frontend/src/components/workflow/CustomWorkflowBuilder.tsx:88-106 | removal is a no-op for a single step, the first step or an absent id; otherwise exactly one step goes |
| WorkflowBuilder.RemoveStepShape | apps/marketing-site/frontend/src/components/workflow/CustomWorkflowBuilder.tsx:95-105 | removal deletes exactly the target and gives its predecessor the target's `nextStepId` |
| WorkflowBuilder.RemoveStepRelinks | apps/marketing-site/frontend/src/components/workflow/CustomWorkflowBuilder.tsx:95-105 | removal keeps a linked list linked |
| WorkflowBuilder.UpdateStep | apps/marketing-site/frontend/src/components/workflow/CustomWorkflowBuilder.tsx:108-113 | only the named field of steps with the id changes; length and order are kept |
| WorkflowBuilder.UpdateKeepsLinked | apps/marketing-site/frontend/src/components/workflow/CustomWorkflowBuilder.tsx:108-113 | editing a field keeps the list linked and its ids distinct |
| WorkflowBuilder.SaveWorkflow | apps/marketing-site/frontend/src/components/workflow/CustomWorkflowBuilder.tsx:115-139 | saving succeeds exactly for a non-blank name and at least two steps; a blank name is reported first |
| WorkflowBuilder.BlankNameRefused | apps/marketing-site/frontend/src/components/workflow/CustomWorkflowBuilder.tsx:116-122 | a name of only spaces is refused |
| WorkflowBuilder.AddAfterRemoveDuplicatesId | apps/marketing-site/frontend/src/components/workflow/CustomWorkflowBuilder.tsx:68-106 | add, add, remove `step-2`, add yields two steps called `step-3` |
| WorkflowBuilder.InitialBuilderValid | apps/marketing-site/frontend/src/components/workflow/CustomWorkflowBuilder.tsx:57-65 | the corrected builder starts linked, with distinct ids, and its counter beyond every id |
| WorkflowBuilder.AddStepFresh | apps/marketing-site/frontend/src/components/workflow/CustomWorkflowBuilder.tsx:67-86 | the corrected add numbers the new step from a counter and keeps ids distinct and the list linked |
| WorkflowBuilder.RemoveStepFresh | apps/marketing-site/frontend/src/components/workflow/CustomWorkflowBuilder.tsx:88-106 | the corrected remove keeps the counter and the invariant |
| WorkflowBuilder.AddFreshKeepsValid | apps/marketing-site/frontend/src/components/workflow/CustomWorkflowBuilder.tsx:67-86 | the corrected add preserves linked, distinct and fresh |
| WorkflowBuilder.RemoveFreshKeepsValid | apps/marketing-site/frontend/src/components/workflow/CustomWorkflowBuilder.tsx:88-106 | remove preserves linked, distinct and fresh |
| WorkflowBuilder.FreshAfterRemove | apps/marketing-site/frontend/src/components/workflow/CustomWorkflowBuilder.tsx:67-106 | the same add, add, remove, add sequence gives distinct ids with the corrected add |
| Modules.ModulesTableWellFormed | apps/marketing-site/frontend/src/types/modules.ts:2-148 | every entry's id is its key, its routes include `/dashboard` and `/notifications`, it has a colour, and the keys are exactly the five module types |
| Modules.KeyOfInjective | apps/marketing-site/frontend/src/types/modules.ts:2-7 | distinct module types are spelled differently |
| ModuleAccess.ModuleAccessOpensRoutes | apps/marketing-site/frontend/src/contexts/ModuleContext.tsx:82-100 | access to a module opens every path under its routes |
| ModuleAccess.NoModulesOnlyGlobal | apps/marketing-site/frontend/src/contexts/ModuleContext.tsx:86-100 | an operator or viewer without modules reaches exactly the paths under the global routes |
| ModuleAccess.PaymentOperatorExample | apps/marketing-site/frontend/src/contexts/ModuleContext.tsx:72-100 | a payment-documents operator reaches payments and workflow pages but not import processes, which a manager reaches |
| ModuleAccess.ModuleColor | apps/marketing-site/frontend/src/contexts/ModuleContext.tsx:103 | the module colour is the table colour when set, and never empty |
| ModuleAccess.ColorFallbackUnused | apps/marketing-site/frontend/src/contexts/ModuleContext.tsx:103 | every module defines its colour, so the fallback only coincides with import_full's own colour |
| ModuleAccess.DetermineModule | apps/marketing-site/frontend/src/contexts/ModuleContext.tsx:129-149 | `/dashboard` keeps the current module; otherwise the first user module with a matching non-dashboard route; when none matches, the first user module, or import_full when there are none |
| ModuleAccess.DetermineModuleGrantsAccess | apps/marketing-site/frontend/src/contexts/ModuleContext.tsx:96-145 | the module chosen for a matching path gives route access to that path |

## Left out

- The database and HTTP layer: sessions, queries, commits, routing and status codes. The database is modelled as maps, and each error as a constructor of a result type.
- The read-only endpoints (warehouse and drawback listings and single-record reads). They filter by company and id and change nothing.
- The `cached` decorator, the Redis client and `invalidate_cache`. These are network I/O around the key builder.
- OCR text extraction (EasyOCR, Tesseract, Pillow, pdf2image). These are foreign libraries; only the keyword classifier is modelled.
- `validate_email`. Its regular expression would need a regex engine; it only lower-cases on success.
- Float conversion of result dictionaries, `toFixed`, `toLocaleString` and date formatting (`formatDate`, the date stamp of `addNotification`). These are display only; exact reals and the chosen unit are modelled.
- Clock reads, `Math.random`, id generation and `new Date()`. "Now", new ids, dates and days left are parameters.
- `getProcesses`, `getProcessById` and `createProcess`. They build random mock data and read the clock.
- Toasts, React rendering, `useEffect` redirects and the custom navigation event.
- Workflow and module names, descriptions and feature lists. They are display text with no rule attached.
- JavaScript prototype keys in object-literal lookups. Each table is modelled as its listed entries.
- ImportProcesses.NumberOf: `Number` is modelled for digit strings only. Signs, spaces, decimals and exponents are not accepted, so such parts make the date unparsable rather than a number.
- ImportProcesses.FilterProcesses: the single-date criterion compares against the locale rendering of the date. It takes that rendering as a string parameter, not as a `Date`.
- ImportProcesses.MakeDate: the contract covers only years from 100 on and month indexes 0–11. The body also maps years 0–99 to 1900–1999 and rolls months over, as `new Date` does, but no contract states that. Local time zones are not modelled: dates are counted in whole days.
- Drawback.Render: document numbers are kept structured (prefix, company, sequence). The padded text is given by `Render` and proved injective; the rest of the model stores the structure.
- Lower-casing covers ASCII and the Latin-1 upper-case letters, and upper-casing covers ASCII only. Python's `\d` is taken as the ASCII digits.
- The type definitions of workflows and documents (`types/workflow.ts` and the document type module) are not part of this model. Their field names are taken from how the code uses them.

## Findings

| source | as written | input that shows it | evidently intended | confidence | as-written member | corrected member |
|---|---|---|---|---|---|---|
| apps/saas-platform/backend/app/schemas/validators.py:278 | `re.match(r'^[a-zA-Z0-9_-]+$', ...)`: `$` also matches just before a final newline | `"ab\n"` is accepted and returned with the newline | only letters, digits, `_` and `-` (a `\Z` anchor or `fullmatch`) | high; not executed | Validators.ValidateReferenceNumberAsWritten, Validators.ReferenceNewlineAccepted | Validators.ValidateReferenceNumber, Validators.ReferenceVersionsAgree |
| apps/marketing-site/frontend/src/components/workflow/CustomWorkflowBuilder.tsx:68 | the new step id is `step-{steps.length + 1}` | initial, add, add, remove `step-2`, add: two steps are called `step-3` | ids stay unique (a counter that never decreases) | high; not executed | WorkflowBuilder.AddStep, WorkflowBuilder.AddAfterRemoveDuplicatesId | WorkflowBuilder.AddStepFresh, WorkflowBuilder.AddFreshKeepsValid, WorkflowBuilder.RemoveFreshKeepsValid, WorkflowBuilder.FreshAfterRemove |
