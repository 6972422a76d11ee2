# Defensive-programming course, modelled in Dafny

This project models the reference solutions of a Python course on defensive programming, and proves their behaviour. The course has six exercises plus a small calculator library:

- **Input validation**: `safe_divide`, and the calculator's `add`, `subtract`, `multiply` and `divide`.
- **Guard clauses**: a shipping-cost calculator written with guard clauses. It is proved equivalent to the nested reference version it replaces.
- **Custom exceptions**: user registration. There is a hierarchy of `UserRegistrationError` subclasses, an email pattern, password and age rules, and a fixed check order.
- **EAFP versus LBYL**:
  - dotted-path lookup into nested dicts;
  - range validation;
  - preference lookup with a default;
  - a comma-separated integer parser;
  - BMI with ordered guards.
- **Design by contract**: a bank account whose preconditions are the caller's obligations and whose invariant every operation keeps. There is also a binary search over a sorted list.
- **Error recovery**:
  - retry with capped exponential backoff;
  - a configuration manager that falls back to defaults;
  - a data processor with an error budget kept across calls;
  - user data with a fallback record.

Python's dynamic values are the datatype `PyValues.Value`, which covers None, bool, int, float, str, list and dict. `isinstance(x, int)` admits booleans, as it does in Python. Floats are exact `real`s.

A raised exception is an `Errors.Error`, which pairs the exception class with its message. The class hierarchy is `Errors.Parent`/`Errors.IsSubclass`. Functions that can raise return `Result<T>` (`Ok`/`Err`), and checks that return nothing return `Outcome` (`Pass`/`Fail`).

Stateful parts are classes that the methods update:

- `BankAccount`;
- `ConfigManager`;
- `DataProcessor`.

The loops are methods with invariants:

- `safe_get_nested_value`, `retry_with_backoff` and `process_data` are each proved equal to a recursive reference function;
- `binary_search` is proved against its promise outright: the index it returns holds the target, and -1 means the target is absent.

These are injected as inputs:

- **The called operation:** `op(i)` is the outcome of the i-th call.
- **The random draws:** `fails(k)` and `draws(i)`.
- **The clock:** `clock(k)`.
- **How the configuration file load ended:** `LoadOutcome`.

Sleeping is recorded as the list of delays.

Files:

| file | module |
|---|---|
| wrappers.dfy | `Wrappers` (Option) |
| values.dfy | `PyValues` |
| errors.dfy | `Errors` |
| pystrings.dfy | `PyStrings`: `strip`, `split`, `join`, `int()` and `str()` on integers |
| operations.dfy | `Operations` (src/operations) |
| validate_input.dfy | `ValidateInput` (exercise 1) |
| guard_clauses.dfy | `GuardClauses` (exercise 2) |
| custom_exceptions.dfy | `CustomExceptions` (exercise 3) |
| eafp_lbyl.dfy | `EafpLbyl` (exercise 4) |
| design_by_contract.dfy | `DesignByContract` (exercise 5) |
| error_recovery.dfy | `ErrorRecovery` (exercise 6) |

Two edge cases of the code are modelled as written:

- **Empty batch:** `process_data([])` raises ZeroDivisionError, although its docstring promises the list of successfully processed items (see Findings).
- **No attempts:** with `max_attempts` ≤ 0, `retry_with_backoff` never enters its loop and executes `raise None`, which raises TypeError. The model returns that TypeError.

## Model

| member | source | states |
|---|---|---|
| Errors.AllAreExceptions | course/A1_defensive_programming/solutions/ex3_custom_exceptions.py:4-26 | every exception class of the model derives from `Exception` |
| PyValues.Index | course/A1_defensive_programming/solutions/ex4_eafp_vs_lbyl.py:27 | `d[k]` succeeds exactly on a dict that holds `k`, with that entry; otherwise it raises |
| PyStrings.Strip | course/A1_defensive_programming/solutions/ex3_custom_exceptions.py:128 | `strip()` is no longer than its input and neither starts nor ends with whitespace |
| PyStrings.StripIsInfix | course/A1_defensive_programming/solutions/ex3_custom_exceptions.py:128 | `strip()` is the infix of its input left between an all-whitespace prefix and an all-whitespace suffix; with the ends stated by `Strip`, this determines the result |
| PyStrings.StripEmptyIffAllSpace | course/A1_defensive_programming/solutions/ex3_custom_exceptions.py:128 | `s.strip()` is empty exactly when `s` is empty or all whitespace |
| PyStrings.Split | course/A1_defensive_programming/solutions/ex4_eafp_vs_lbyl.py:24 | `split(sep)` yields at least one part, and no part contains the separator |
| PyStrings.JoinSplit | course/A1_defensive_programming/solutions/ex4_eafp_vs_lbyl.py:24 | joining the parts of a split with the same separator restores the string |
| PyStrings.SplitJoin | course/A1_defensive_programming/solutions/ex4_eafp_vs_lbyl.py:166 | splitting a join of separator-free parts restores the parts |
| PyStrings.ParseInt | course/A1_defensive_programming/solutions/ex4_eafp_vs_lbyl.py:166 | `int()` succeeds exactly on an optional sign followed by digits, with the digits' decimal value, negated after '-'; the empty string fails |
| PyStrings.LeadingZeroIgnored | course/A1_defensive_programming/solutions/ex4_eafp_vs_lbyl.py:166 | `int("0" + s)` and `int("+" + s)` equal `int(s)` for digits `s`, so "007" and "+5" parse to 7 and 5 |
| PyStrings.ParseIntToString | course/A1_defensive_programming/solutions/ex4_eafp_vs_lbyl.py:166 | `int(str(n)) == n` for every integer |
| Operations.Add | src/operations/__init__.py:11-13 | the sum has value a + b, and is an int exactly when both operands are |
| Operations.Subtract | src/operations/__init__.py:16-18 | the difference has value a - b, and is an int exactly when both operands are |
| Operations.Multiply | src/operations/__init__.py:21-23 | the product has value a * b, and is an int exactly when both operands are |
| Operations.Divide | src/operations/__init__.py:26-34 | raises ValueError "Cannot divide by zero." exactly when b == 0; otherwise the quotient times b is a |
| Operations.SubtractUndoesAdd | src/operations/__init__.py:11-18 | over exact reals, (a + b) - b has the value of a, and is a itself for two ints |
| Operations.MultiplyUndoesDivide | src/operations/__init__.py:21-34 | over exact reals, for b != 0, (a / b) * b has the value of a |
| ValidateInput.SafeDivide | course/A1_defensive_programming/solutions/ex1_validate_input.py:16-25 | TypeError for a non-numeric a, then for b, then ValueError for b == 0; succeeds exactly otherwise, with a quotient q such that q * b == a |
| ValidateInput.SafeDivideAgreesWithDivide | course/A1_defensive_programming/solutions/ex1_validate_input.py:16-25 | on numbers, `safe_divide` and `divide` succeed together with the same quotient; otherwise both raise ValueError |
| GuardClauses.Cost | course/A1_defensive_programming/solutions/ex2_guard_clauses.py:56-68 | the stepwise calculation (base, then multiplier, then express fee) equals the price formula (2.5w + 0.1d) × factor + 10 for express |
| GuardClauses.CalculateShippingCost | course/A1_defensive_programming/solutions/ex2_guard_clauses.py:27-68 | type guards for weight, distance, type and flag, in that order and before any value guard; then weight ≤ 0, weight > 50, distance ≤ 0 and unknown type as ValueError; success exactly on a valid order, at the formula price |
| GuardClauses.CalculateShippingCostNested | course/A1_defensive_programming/exercises/ex2_guard_clauses.py:63-87 | TypeError exactly for a type failure; ValueError for weight outside (0, 50], then distance ≤ 0, then unknown type; the formula price on success |
| GuardClauses.NestedEquivalent | course/A1_defensive_programming/exercises/ex2_guard_clauses.py:63-87 | on every input the guard-clause and nested versions both succeed with the same cost, or both raise the same exception class |
| GuardClauses.CostPositive | course/A1_defensive_programming/solutions/ex2_guard_clauses.py:56-68 | every accepted order costs more than 0 |
| GuardClauses.ExpressAddsTen | course/A1_defensive_programming/solutions/ex2_guard_clauses.py:65-66 | with express handling, an accepted order costs exactly 10 more |
| GuardClauses.CapitalizedTypeRejected | course/A1_defensive_programming/solutions/ex2_guard_clauses.py:51-53 | "Standard" is rejected with ValueError; the type match is case-sensitive |
| CustomExceptions.ValidateEmail | course/A1_defensive_programming/solutions/ex3_custom_exceptions.py:39-45 | a non-string raises "Email must be a string"; every failure is an InvalidEmailError |
| CustomExceptions.StartRun | course/A1_defensive_programming/solutions/ex3_custom_exceptions.py:43-44 | the left-to-right matcher accepts exactly the strings of the pattern's shape |
| CustomExceptions.ValidateEmailIffShape | course/A1_defensive_programming/solutions/ex3_custom_exceptions.py:39-45 | an email passes exactly when it is a string made of a non-empty local part free of whitespace and '@', an '@', and such a domain with a '.' that has a character on each side |
| CustomExceptions.ValidatePassword | course/A1_defensive_programming/solutions/ex3_custom_exceptions.py:64-77 | passes exactly a string of length ≥ 8 with an uppercase letter, a lowercase letter and a digit; the first failing rule, in that order, decides the WeakPasswordError message |
| CustomExceptions.ValidateAge | course/A1_defensive_programming/solutions/ex3_custom_exceptions.py:94-101 | passes exactly an int (bool included) with 13 ≤ age < 150; a non-int is reported before the range checks |
| CustomExceptions.Registered | course/A1_defensive_programming/solutions/ex3_custom_exceptions.py:140-146 | the returned record echoes username, email and age, with status "registered" |
| CustomExceptions.RegisterUser | course/A1_defensive_programming/solutions/ex3_custom_exceptions.py:125-146 | username type, blankness and availability are checked in that order, then email, password and age, and the first failure is raised; success exactly when all pass, with the registered record |
| CustomExceptions.RegistrationErrorsShareBase | course/A1_defensive_programming/solutions/ex3_custom_exceptions.py:4-26 | the four custom classes and the base are all subclasses of UserRegistrationError |
| CustomExceptions.RegisterUserRaisesRegistrationErrors | course/A1_defensive_programming/solutions/ex3_custom_exceptions.py:108-137 | whatever `register_user` raises is a UserRegistrationError |
| CustomExceptions.BlankUsernames | course/A1_defensive_programming/solutions/ex3_custom_exceptions.py:128-129 | a username is refused as empty exactly when it is empty or all whitespace |
| CustomExceptions.TakenIffExisting | course/A1_defensive_programming/solutions/ex3_custom_exceptions.py:131-132 | UsernameUnavailableError is raised exactly for a non-blank name in `EXISTING_USERS` |
| CustomExceptions.ReservedNamesTaken | course/A1_defensive_programming/solutions/ex3_custom_exceptions.py:105-132 | the four reserved names are always refused as taken, whatever else is supplied |
| CustomExceptions.PaddedNameNotTaken | course/A1_defensive_programming/solutions/ex3_custom_exceptions.py:131-132 | the membership test is exact: a reserved name with a leading space is not refused as taken |
| EafpLbyl.SafeGetNestedValue | course/A1_defensive_programming/solutions/ex4_eafp_vs_lbyl.py:23-30 | the loop returns the value reached by indexing along the dotted path, or None when a step fails |
| EafpLbyl.SingleSegmentIsIndex | course/A1_defensive_programming/solutions/ex4_eafp_vs_lbyl.py:24-28 | a path without a dot is one plain lookup |
| EafpLbyl.LookupAppend | course/A1_defensive_programming/solutions/ex4_eafp_vs_lbyl.py:26-27 | looking up a concatenated path is looking up the first part, then the rest from the value found |
| EafpLbyl.LookupFailsIff | course/A1_defensive_programming/solutions/ex4_eafp_vs_lbyl.py:26-30 | the lookup fails exactly when some step that was reached meets a missing key or a value that is not a dict |
| EafpLbyl.LookupThroughNonDict | course/A1_defensive_programming/solutions/ex4_eafp_vs_lbyl.py:27-30 | no segment can be looked up in a value that is not a dict |
| EafpLbyl.ValidateNumericRange | course/A1_defensive_programming/solutions/ex4_eafp_vs_lbyl.py:51-61 | TypeError for a non-number, before anything else; then ValueError below the minimum, then above the maximum; accepts exactly the numbers in [min, max], returned as floats |
| EafpLbyl.RangeBoundsInclusive | course/A1_defensive_programming/solutions/ex4_eafp_vs_lbyl.py:55-61 | both bounds themselves are accepted |
| EafpLbyl.RangeIdempotent | course/A1_defensive_programming/solutions/ex4_eafp_vs_lbyl.py:55-61 | validating an accepted result again gives the same result |
| EafpLbyl.GetUserPreference | course/A1_defensive_programming/solutions/ex4_eafp_vs_lbyl.py:142-145 | `user_data['preferences'][key]` when both steps succeed; `default` when either step meets a missing key or a value that is not a dict |
| EafpLbyl.PreferenceIsNestedLookup | course/A1_defensive_programming/solutions/ex4_eafp_vs_lbyl.py:142-145 | with a None default, the preference lookup is the dotted lookup of "preferences.key" |
| EafpLbyl.ParseField | course/A1_defensive_programming/solutions/ex4_eafp_vs_lbyl.py:166 | a field parses exactly when it is an integer literal after stripping, to that literal's value; a field that is blank after stripping never parses |
| EafpLbyl.ParseFields | course/A1_defensive_programming/solutions/ex4_eafp_vs_lbyl.py:165-168 | succeeds exactly when every stripped field is an integer literal, with one integer per field in order; otherwise ValueError and no partial result |
| EafpLbyl.ParseIntegerList | course/A1_defensive_programming/solutions/ex4_eafp_vs_lbyl.py:162-168 | a blank string gives []; any other string is split on ',' and every field parsed |
| EafpLbyl.EmptyFieldRejected | course/A1_defensive_programming/solutions/ex4_eafp_vs_lbyl.py:165-168 | a field that is blank after stripping, as in "1,,3", makes the parse raise ValueError |
| EafpLbyl.DecimalFieldRejected | course/A1_defensive_programming/solutions/ex4_eafp_vs_lbyl.py:165-168 | a field holding a '.', as in "2.5", makes the parse raise ValueError |
| EafpLbyl.ParseRenderedFields | course/A1_defensive_programming/solutions/ex4_eafp_vs_lbyl.py:166 | parsing the printed forms of integers gives the integers back |
| EafpLbyl.ParseRendered | course/A1_defensive_programming/solutions/ex4_eafp_vs_lbyl.py:162-166 | parsing `",".join(str(x) for x in xs)` gives back `xs`, the empty list included |
| EafpLbyl.CalculateBmi | course/A1_defensive_programming/solutions/ex4_eafp_vs_lbyl.py:108-123 | TypeError for weight, then height; then ValueError for weight ≤ 0, then height ≤ 0; success exactly otherwise, with a result > 0 whose product with height² is the weight |
| DesignByContract.BankAccount.constructor | course/A1_defensive_programming/solutions/ex5_design_by_contract.py:15-34 | requires a positive account number and a non-negative opening balance, 0.0 by default; the result holds that balance, an empty history and the invariant |
| DesignByContract.OpenWithDefaultBalance | course/A1_defensive_programming/solutions/ex5_design_by_contract.py:15 | an account opened without an initial balance has balance 0.0 and no transactions |
| DesignByContract.BankAccount.Deposit | course/A1_defensive_programming/solutions/ex5_design_by_contract.py:49-62 | requires amount > 0; the balance grows by exactly the amount, one Deposit entry is appended, and the invariant is kept |
| DesignByContract.BankAccount.Withdraw | course/A1_defensive_programming/solutions/ex5_design_by_contract.py:79-94 | requires 0 < amount ≤ balance; the balance shrinks by exactly the amount, one Withdrawal entry is appended, and the invariant is kept |
| DesignByContract.BankAccount.GetBalance | course/A1_defensive_programming/solutions/ex5_design_by_contract.py:96-99 | returns the balance, which is non-negative and equals the opening balance plus the net effect of the history; changes nothing |
| DesignByContract.DepositThenWithdraw | course/A1_defensive_programming/solutions/ex5_design_by_contract.py:56-91 | depositing and then withdrawing the same amount restores the balance and records both entries |
| DesignByContract.SortedIffPairwise | course/A1_defensive_programming/solutions/ex5_design_by_contract.py:193-195 | adjacent order is equivalent to order of every pair, so duplicates, [] and one-element lists are sorted |
| DesignByContract.BinarySearch | course/A1_defensive_programming/solutions/ex5_design_by_contract.py:148-190 | requires a non-empty sorted list; a result ≥ 0 indexes the target, and -1 is returned exactly when the target occurs nowhere |
| ErrorRecovery.BackoffDelay | course/A1_defensive_programming/solutions/ex6_error_recovery.py:75 | the pause is at most `max_delay` and at most `base_delay * 2**attempt`, and equals one of the two |
| ErrorRecovery.PauseNonNegativeIff | course/A1_defensive_programming/solutions/ex6_error_recovery.py:75-77 | a pause is a valid sleep length exactly when both `base_delay` and `max_delay` are non-negative, whatever the attempt |
| ErrorRecovery.RetriedFirstSuccess | course/A1_defensive_programming/solutions/ex6_error_recovery.py:64-77 | when the pauses can be slept, the first successful attempt's result is what the retry returns |
| ErrorRecovery.RetriedAllFail | course/A1_defensive_programming/solutions/ex6_error_recovery.py:64-80 | when every attempt fails and the pauses can be slept, the last attempt's exception is raised |
| ErrorRecovery.RetriedNegativePause | course/A1_defensive_programming/solutions/ex6_error_recovery.py:70-77 | with a negative base or cap, a failed first attempt that is not the last makes `time.sleep` raise ValueError out of the retry |
| ErrorRecovery.RetryWithBackoff | course/A1_defensive_programming/solutions/ex6_error_recovery.py:62-80 | a first success at call k makes exactly k calls and k - 1 pauses; when all fail, exactly `max_attempts` calls, `max_attempts` - 1 pauses and the last exception; pause i is `min(base * 2**i, max)` and non-negative; with a negative base or cap and a failed first call, one call, no pause and the ValueError of `time.sleep`; with `max_attempts` ≤ 0, no call and the TypeError of `raise None` |
| ErrorRecovery.DelaysNonDecreasing | course/A1_defensive_programming/solutions/ex6_error_recovery.py:74-77 | with a non-negative base, later pauses are never shorter |
| ErrorRecovery.BackoffTiming | course/A1_defensive_programming/solutions/ex6_error_recovery.py:74-80 | three always-failing attempts with base 1.0 pause 1.0 then 2.0, make 3 calls, and raise the operation's exception |
| ErrorRecovery.BackoffNegativeBase | course/A1_defensive_programming/solutions/ex6_error_recovery.py:74-77 | base -1.0 with a failing operation: one call, no pause, and ValueError "sleep length must be non-negative" instead of the operation's exception |
| ErrorRecovery.BackoffCapped | course/A1_defensive_programming/solutions/ex6_error_recovery.py:74-77 | four failing attempts with base 10.0 and cap 15.0 pause 10.0, 15.0, 15.0 |
| ErrorRecovery.LoadedConfig | course/A1_defensive_programming/solutions/ex6_error_recovery.py:99-121 | a parsed JSON object replaces the configuration as it is; any failure, or a parsed document that is not an object, leaves the defaults |
| ErrorRecovery.Issues | course/A1_defensive_programming/solutions/ex6_error_recovery.py:155-174 | at most one issue for each of cache_size (int ≥ 1), timeout (number > 0) and debug (bool), in that order; each issue is reported exactly when its key is present, not None, and fails its check |
| ErrorRecovery.IssuesIgnoreOtherKeys | course/A1_defensive_programming/solutions/ex6_error_recovery.py:155-174 | configurations that agree on the three checked keys have the same issues |
| ErrorRecovery.DefaultsAreValid | course/A1_defensive_programming/solutions/ex6_error_recovery.py:91-96 | the defaults raise no issue |
| ErrorRecovery.AllThreeIssues | course/A1_defensive_programming/solutions/ex6_error_recovery.py:155-174 | cache_size -10, timeout "30" and debug "yes" give exactly the three issues, in order |
| ErrorRecovery.BoolCacheSize | course/A1_defensive_programming/solutions/ex6_error_recovery.py:158-161 | `True` passes as a cache size and `False` does not |
| ErrorRecovery.ConfigManager.constructor | course/A1_defensive_programming/solutions/ex6_error_recovery.py:88-97 | the new manager keeps its file name and holds the configuration the load decision gives |
| ErrorRecovery.ConfigManager.LoadConfig | course/A1_defensive_programming/solutions/ex6_error_recovery.py:99-121 | the configuration becomes the loaded object, or a copy of the defaults on any failure |
| ErrorRecovery.ConfigManager.Get | course/A1_defensive_programming/solutions/ex6_error_recovery.py:134-146 | the loaded value, else a fallback that is not None, else the default, else None |
| ErrorRecovery.ConfigManager.ValidateConfig | course/A1_defensive_programming/solutions/ex6_error_recovery.py:148-174 | the issues of the current configuration, empty exactly when all three checks pass |
| ErrorRecovery.FailedLoadUsesDefaults | course/A1_defensive_programming/solutions/ex6_error_recovery.py:111-146 | after a failed load, every default key resolves to its default |
| ErrorRecovery.LoadedFileWins | course/A1_defensive_programming/solutions/ex6_error_recovery.py:101-146 | after a successful load, the file's keys win over fallback and defaults; absent keys still resolve to the defaults |
| ErrorRecovery.ProcessSingleItem | course/A1_defensive_programming/solutions/ex6_error_recovery.py:271-286 | ValueError for a non-dict, then for a missing 'id', then for a failed draw; on success the item's entries plus `processed_at` (the clock) and `status` "processed" |
| ErrorRecovery.SuccessesPlusFailures | course/A1_defensive_programming/solutions/ex6_error_recovery.py:237-245 | counts over a range of outcomes: each is a success or a failure, so the two counts add up to the range's length |
| ErrorRecovery.WithinBudget | course/A1_defensive_programming/solutions/ex6_error_recovery.py:237-250 | when the failures stay below the budget, every success is kept in input order, the count grows by exactly the number of failures, and so every item is kept or counted |
| ErrorRecovery.WalkPrefix | course/A1_defensive_programming/solutions/ex6_error_recovery.py:237-250 | the items before a position whose failures stay below the budget are processed as a prefix: their successes kept in order, their failures counted, and the loop continues from there |
| ErrorRecovery.BudgetRunsOut | course/A1_defensive_programming/solutions/ex6_error_recovery.py:243-250 | when the failure at position j reaches the budget, the loop breaks there: it keeps exactly the successes before j and counts the failures up to j, and the items after j are neither kept nor counted |
| ErrorRecovery.ProgressFacts | course/A1_defensive_programming/solutions/ex6_error_recovery.py:237-286 | the count grows by at most one per item, and every kept item is a dict with its id, a stamp and status "processed" |
| ErrorRecovery.AllFailing | course/A1_defensive_programming/solutions/ex6_error_recovery.py:243-250 | when every item fails, nothing is kept and processing stops when the count reaches the budget (at once if it is already there), or at the end of the data |
| ErrorRecovery.DataProcessor.constructor | course/A1_defensive_programming/solutions/ex6_error_recovery.py:217-221 | empty cache, count 0 and a budget of 5 |
| ErrorRecovery.DataProcessor.ProcessItems | course/A1_defensive_programming/solutions/ex6_error_recovery.py:233-250 | the loop keeps what the reference walk keeps and leaves the count where it leaves it, starting from the count of earlier calls |
| ErrorRecovery.DataProcessor.ProcessData | course/A1_defensive_programming/solutions/ex6_error_recovery.py:233-255 | a non-empty batch returns the kept items, each stamped with status "processed", and updates the count; an empty batch raises ZeroDivisionError |
| ErrorRecovery.DataProcessor.ProcessDataGuarded | course/A1_defensive_programming/solutions/ex6_error_recovery.py:233-255 | the same loop without the division: never raises, [] for an empty batch, and every item returned is stamped with status "processed" |
| ErrorRecovery.EmptyBatch | course/A1_defensive_programming/solutions/ex6_error_recovery.py:252 | on an empty batch the code as written raises and the guarded version returns [] |
| ErrorRecovery.GracefulDegradation | course/A1_defensive_programming/solutions/ex6_error_recovery.py:243-250 | ten failing items on a fresh processor keep nothing and stop at 5 errors |
| ErrorRecovery.DataProcessor.GetCachedData | course/A1_defensive_programming/solutions/ex6_error_recovery.py:298-307 | the cached value on a hit, None on a miss |
| ErrorRecovery.UnreliableNetworkCall | course/A1_defensive_programming/solutions/ex6_error_recovery.py:39-42 | NetworkError exactly when the draw exceeds the success rate; otherwise a response carrying the clock as its timestamp |
| ErrorRecovery.FallbackRecord | course/A1_defensive_programming/solutions/ex6_error_recovery.py:321-327 | the same id, "Guest User", status "fallback" and `last_seen` None |
| ErrorRecovery.ActiveRecord | course/A1_defensive_programming/solutions/ex6_error_recovery.py:338-344 | the same id, "User <id>", status "active" and the response's timestamp |
| ErrorRecovery.UserRecord | course/A1_defensive_programming/solutions/ex6_error_recovery.py:329-352 | the active record for a response with a timestamp; the fallback when the retry raised or the timestamp is missing |
| ErrorRecovery.FetchUserData | course/A1_defensive_programming/solutions/ex6_error_recovery.py:310-352 | retries the call up to 3 times, then builds the record; three failures give the fallback record |
| ErrorRecovery.FallbackIffAllDrawsFail | course/A1_defensive_programming/solutions/ex6_error_recovery.py:329-352 | against the simulated network, the fallback is used exactly when all three draws exceed 0.4 |
| ErrorRecovery.LastSeenIsFirstSuccess | course/A1_defensive_programming/solutions/ex6_error_recovery.py:332-344 | `last_seen` is the timestamp of the first successful call |

## Left out

- Logging (`logging.basicConfig`, `logger.*`): it has no effect on any result.
- `time.sleep` and `time.time`: pauses are returned as a list of delays, and clock readings are inputs. The one effect of `time.sleep` that is modelled is its ValueError for a negative length.
- `random.random`: draws are inputs, as `fails(k)` in `_process_single_item` and `draws(i)` in `unreliable_network_call`.
- File I/O and JSON parsing: `_load_config` takes the outcome of reading the file as a `LoadOutcome`. `safe_file_operation`, whose point is closing the file, and `load_config_file`, which only re-raises OS and JSON errors, are not modelled.
- `calculate_compound_interest` and `calculate_triangle_area`: they rest on float `**`, `math.sqrt` and `math.isfinite`, which have no counterpart over reals.
- IEEE floating point: floats are exact reals, with no rounding, NaN or infinity. With NaN the guard-clause and nested shipping versions can disagree, because NaN fails every comparison. Underflow of `height * height` to 0, which reaches the "Height cannot be zero" branch of `calculate_bmi`, cannot happen over reals and is not modelled.
- CustomExceptions.ValidateEmail: Python's `$` also matches before one trailing newline, so "a@b.c\n" passes in Python; the model requires the match to end at the end of the string.
- Unicode character classes: `isupper`, `islower` and `isdigit` are modelled on ASCII only, while whitespace follows `str.isspace`.
- PyStrings.ParseInt: the full `int()` grammar is not modelled (underscores such as "1_000", non-ASCII digits); it accepts an optional sign followed by ASCII digits.
- EafpLbyl.ValidateNumericRange: the ValueError messages keep only the fragments "below minimum" and "above maximum", because formatting a float as text is not modelled.
- ErrorRecovery.ProcessSingleItem: the random-failure message keeps only the fragment "Random processing failure", without the item's id.
- EafpLbyl.ParseFields: the message quotes the stripped field without Python's `repr` escaping.
- DesignByContract.BankAccount.Deposit: transactions are recorded as `Deposit(amount)`/`Withdrawal(amount)` values, not as the formatted text "Deposit: $x.xx".
- DesignByContract.BinarySearch: the list is an immutable sequence, so "the list is unchanged" holds by construction rather than being proved.
- The `AssertionError` paths of the account and of `binary_search`: each `assert` on the caller's arguments is a `requires`, so a call that would fail it is rejected by the verifier rather than modelled as raising. The assertions on the results are `ensures` that are proved.
- The `isinstance(account_number, int)` and `isinstance(amount, (int, float))` assertions in the account: the parameters are typed `int` and `real`, so those checks hold by typing.
- Dict keys are strings throughout, as in JSON objects and the course's data.
- `src/main.py`, the exercise stubs other than the nested shipping version, and the tests are not part of this model.

## Findings

| source | as written | input that shows it | evidently intended | confidence | as-written member | corrected member |
|---|---|---|---|---|---|---|
| course/A1_defensive_programming/solutions/ex6_error_recovery.py:252 | the success rate divides by `len(data)` after the loop | `process_data([])` raises ZeroDivisionError | an empty batch returns [] (the docstring at lines 229-230 promises the list of successfully processed items, and per-item failures never escape) | high; not executed | ErrorRecovery.DataProcessor.ProcessData (exhibited by ErrorRecovery.EmptyBatch) | ErrorRecovery.DataProcessor.ProcessDataGuarded |
