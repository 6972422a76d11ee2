/** Error recovery: retrying with capped exponential backoff, configuration with fallback to
    defaults, item processing with an error budget, and user data with a fallback record.
    Sleeping, the clock and the random draws are inputs; logging is not modelled. */
module ErrorRecovery {

  import opened Wrappers
  import opened PyValues
  import opened PyStrings
  import opened Errors

  // ---------------------------------------------------------------------------------------
  // retry_with_backoff

  /** `raise None`, which is what the retry loop does when it never ran. */
  const RaiseNoneError := Error(TypeError, "exceptions must derive from BaseException")

  function Pow2(i: nat): (p: nat)
    ensures p >= 1
  {
    if i == 0 then 1 else 2 * Pow2(i - 1)
  }

  /** `min(base_delay * 2 ** attempt, max_delay)`: the pause after failed attempt `attempt`. */
  function BackoffDelay(baseDelay: real, maxDelay: real, attempt: nat): (d: real)
    ensures d <= maxDelay && d <= baseDelay * Pow2(attempt) as real
    ensures d == maxDelay || d == baseDelay * Pow2(attempt) as real
  {
    var uncapped := baseDelay * Pow2(attempt) as real;
    if maxDelay < uncapped then maxDelay else uncapped
  }

  /** `time.sleep(delay)` with a negative delay. */
  const SleepLengthError := Error(ValueError, "sleep length must be non-negative")

  /** Every pause `min(base_delay * 2 ** attempt, max_delay)` is a valid sleep length. */
  predicate PausesValid(baseDelay: real, maxDelay: real) {
    baseDelay >= 0.0 && maxDelay >= 0.0
  }

  /** A pause is negative exactly when the base or the cap is, whatever the attempt. */
  lemma PauseNonNegativeIff(baseDelay: real, maxDelay: real, attempt: nat)
    ensures BackoffDelay(baseDelay, maxDelay, attempt) >= 0.0 <==> PausesValid(baseDelay, maxDelay)
  {
    var p := Pow2(attempt) as real;
    assert p >= 1.0;
    if baseDelay < 0.0 {
      assert baseDelay * p <= baseDelay by {
        assert baseDelay * p - baseDelay == baseDelay * (p - 1.0);
      }
    }
  }

  /** The first `k` calls all raised. */
  predicate FailsBefore<T>(op: nat -> Result<T>, k: nat) {
    forall j :: 0 <= j < k ==> op(j).Err?
  }

  /** What the retry loop returns or raises when calls from `attempt` on are still to be made:
      the first success, else the exception of the last allowed attempt; a failed attempt
      that is not the last sleeps, and a negative pause raises out of the loop. */
  function Retried<T>(op: nat -> Result<T>, maxAttempts: int, baseDelay: real, maxDelay: real, attempt: nat): Result<T>
    requires maxAttempts <= 0 || attempt < maxAttempts
    decreases if maxAttempts <= 0 then 0 else maxAttempts - attempt
  {
    if maxAttempts <= 0 then Err(RaiseNoneError)
    else if op(attempt).Ok? || attempt + 1 == maxAttempts then op(attempt)
    else if BackoffDelay(baseDelay, maxDelay, attempt) < 0.0 then Err(SleepLengthError)
    else Retried(op, maxAttempts, baseDelay, maxDelay, attempt + 1)
  }

  /** The first success among the allowed attempts is what the retry gives, provided the
      pauses before it can be slept. */
  lemma {:induction false} RetriedFirstSuccess<T>(op: nat -> Result<T>, maxAttempts: int, baseDelay: real, maxDelay: real,
                                                   attempt: nat, k: nat)
    requires attempt <= k < maxAttempts
    requires attempt == k || PausesValid(baseDelay, maxDelay)
    requires forall j :: attempt <= j < k ==> op(j).Err?
    requires op(k).Ok?
    ensures Retried(op, maxAttempts, baseDelay, maxDelay, attempt) == op(k)
    decreases k - attempt
  {
    if attempt < k {
      PauseNonNegativeIff(baseDelay, maxDelay, attempt);
      RetriedFirstSuccess(op, maxAttempts, baseDelay, maxDelay, attempt + 1, k);
    }
  }

  /** When every allowed attempt fails and the pauses can be slept, the exception of the last
      attempt is re-raised. */
  lemma {:induction false} RetriedAllFail<T>(op: nat -> Result<T>, maxAttempts: int, baseDelay: real, maxDelay: real,
                                              attempt: nat)
    requires attempt < maxAttempts
    requires attempt + 1 == maxAttempts || PausesValid(baseDelay, maxDelay)
    requires forall j :: attempt <= j < maxAttempts ==> op(j).Err?
    ensures Retried(op, maxAttempts, baseDelay, maxDelay, attempt) == op(maxAttempts - 1)
    decreases maxAttempts - attempt
  {
    if attempt + 1 < maxAttempts {
      PauseNonNegativeIff(baseDelay, maxDelay, attempt);
      RetriedAllFail(op, maxAttempts, baseDelay, maxDelay, attempt + 1);
    }
  }

  /** With a negative base or cap, the first failure that is not the last attempt makes the
      sleep raise ValueError, and no further call is made. */
  lemma RetriedNegativePause<T>(op: nat -> Result<T>, maxAttempts: int, baseDelay: real, maxDelay: real)
    requires maxAttempts > 1 && !PausesValid(baseDelay, maxDelay) && op(0).Err?
    ensures Retried(op, maxAttempts, baseDelay, maxDelay, 0) == Err(SleepLengthError)
  {
    PauseNonNegativeIff(baseDelay, maxDelay, 0);
  }

  /** `retry_with_backoff(func, max_attempts, base_delay, max_delay)`. The call `op(i)` is the
      outcome of the i-th call of `func`; `calls` counts the calls made and `delays` lists
      the pauses slept, in order. */
  method RetryWithBackoff<T>(op: nat -> Result<T>, maxAttempts: int, baseDelay: real, maxDelay: real)
    returns (r: Result<T>, calls: nat, delays: seq<real>)
    ensures r == Retried(op, maxAttempts, baseDelay, maxDelay, 0)
    ensures maxAttempts <= 0 ==> r == Err(RaiseNoneError) && calls == 0 && delays == []
    ensures r.Ok? ==> 1 <= calls <= maxAttempts && op(calls - 1) == r && FailsBefore(op, calls - 1)
                      && |delays| == calls - 1
    ensures maxAttempts > 0 && r.Err? && (maxAttempts == 1 || PausesValid(baseDelay, maxDelay)) ==>
              calls == maxAttempts && FailsBefore(op, calls) && r == op(calls - 1) && |delays| == calls - 1
    ensures maxAttempts > 1 && !PausesValid(baseDelay, maxDelay) && op(0).Err? ==>
              r == Err(SleepLengthError) && calls == 1 && delays == []
    ensures forall i :: 0 <= i < |delays| ==> delays[i] == BackoffDelay(baseDelay, maxDelay, i) && delays[i] >= 0.0
  {
    var lastException: Option<Error> := None;
    calls, delays := 0, [];
    var attempt: nat := 0;
    while attempt < maxAttempts
      invariant attempt <= maxAttempts || attempt == 0
      invariant calls == attempt && FailsBefore(op, attempt)
      invariant |delays| == if attempt > 0 && attempt == maxAttempts then attempt - 1 else attempt
      invariant forall i :: 0 <= i < |delays| ==> delays[i] == BackoffDelay(baseDelay, maxDelay, i) && delays[i] >= 0.0
      invariant |delays| > 0 ==> PausesValid(baseDelay, maxDelay)
      invariant lastException.Some? <==> attempt > 0
      invariant attempt > 0 ==> Some(op(attempt - 1).error) == lastException
      decreases maxAttempts - attempt
    {
      var outcome := op(attempt);
      calls := calls + 1;
      if outcome.Ok? {
        RetriedFirstSuccess(op, maxAttempts, baseDelay, maxDelay, 0, attempt);
        return outcome, calls, delays;
      }
      lastException := Some(outcome.error);
      if attempt < maxAttempts - 1 {
        var delay := BackoffDelay(baseDelay, maxDelay, attempt);
        PauseNonNegativeIff(baseDelay, maxDelay, attempt);
        if delay < 0.0 {
          RetriedNegativePause(op, maxAttempts, baseDelay, maxDelay);
          return Err(SleepLengthError), calls, delays;
        }
        delays := delays + [delay];
      }
      attempt := attempt + 1;
    }
    if lastException.None? {
      r := Err(RaiseNoneError);
    } else {
      RetriedAllFail(op, maxAttempts, baseDelay, maxDelay, 0);
      r := Err(lastException.value);
    }
  }

  lemma {:induction false} Pow2Monotone(i: nat, j: nat)
    requires i <= j
    ensures Pow2(i) <= Pow2(j)
    decreases j
  {
    if i < j {
      Pow2Monotone(i, j - 1);
    }
  }

  /** Pauses never shrink from one attempt to the next. */
  lemma DelaysNonDecreasing(baseDelay: real, maxDelay: real, i: nat, j: nat)
    requires baseDelay >= 0.0 && i <= j
    ensures BackoffDelay(baseDelay, maxDelay, i) <= BackoffDelay(baseDelay, maxDelay, j)
  {
    Pow2Monotone(i, j);
    var pi, pj := Pow2(i) as real, Pow2(j) as real;
    assert baseDelay * pi <= baseDelay * pj by {
      assert baseDelay * pj - baseDelay * pi == baseDelay * (pj - pi);
    }
  }

  /** Three failing attempts with a base of 1.0 pause for 1.0 and then 2.0 seconds, and the
      last exception is the one raised. */
  method BackoffTiming() returns (r: Result<string>, calls: nat, delays: seq<real>)
    ensures delays == [1.0, 2.0] && calls == 3
    ensures r == Err(Error(NetworkError, "Always fails"))
  {
    var alwaysFails := (i: nat) => Err(Error(NetworkError, "Always fails"));
    r, calls, delays := RetryWithBackoff(alwaysFails, 3, 1.0, 60.0);
    assert Pow2(1) == 2;
  }

  /** With a cap of 15.0 and a base of 10.0, four failing attempts pause 10.0, 15.0, 15.0. */
  method BackoffCapped() returns (delays: seq<real>)
    ensures delays == [10.0, 15.0, 15.0]
  {
    var alwaysFails := (i: nat) => Err(Error(NetworkError, "Always fails"));
    var r: Result<string>, calls;
    r, calls, delays := RetryWithBackoff(alwaysFails, 4, 10.0, 15.0);
    assert Pow2(1) == 2 && Pow2(2) == 4;
  }

  /** A negative base makes the first pause raise ValueError: one call, no pause slept, and
      the operation's own exception is lost. */
  method BackoffNegativeBase() returns (r: Result<string>, calls: nat, delays: seq<real>)
    ensures r == Err(SleepLengthError) && calls == 1 && delays == []
  {
    var alwaysFails := (i: nat) => Err(Error(NetworkError, "Always fails"));
    r, calls, delays := RetryWithBackoff(alwaysFails, 3, -1.0, 60.0);
  }

  // ---------------------------------------------------------------------------------------
  // ConfigManager

  /** `self.defaults` */
  const DefaultConfig: map<string, Value> :=
    map["database_url" := VStr("sqlite:///default.db"), "cache_size" := VInt(100),
        "timeout" := VInt(30), "debug" := VBool(false)]

  /** How opening and parsing the configuration file ended. */
  datatype LoadOutcome =
    | Parsed(document: Value)   // `json.load` returned this document
    | NotFound                  // FileNotFoundError
    | BadJson                   // json.JSONDecodeError
    | OtherFailure              // any other exception, e.g. PermissionError

  /** The configuration `_load_config` leaves behind. A parsed document that is not a JSON
      object makes `validate_config` raise inside the `try`, so it falls back like a failure;
      an object is kept as it is, issues or not. */
  function LoadedConfig(load: LoadOutcome): (config: map<string, Value>)
    ensures load.Parsed? && load.document.VDict? ==> config == load.document.entries
    ensures !(load.Parsed? && load.document.VDict?) ==> config == DefaultConfig
  {
    if load.Parsed? && load.document.VDict? then load.document.entries else DefaultConfig
  }

  /** `config.get(key)`: None for an absent key. */
  function Setting(config: map<string, Value>, key: string): (v: Value)
    ensures key in config ==> v == config[key]
    ensures key !in config ==> v == VNone
  {
    if key in config then config[key] else VNone
  }

  const CacheSizeIssue := "cache_size must be a positive integer"
  const TimeoutIssue := "timeout must be a positive number"
  const DebugIssue := "debug must be a boolean"

  predicate CacheSizeOk(v: Value) { v == VNone || (IsInt(v) && IntVal(v) >= 1) }
  predicate TimeoutOk(v: Value) { v == VNone || (IsNumber(v) && NumVal(v) > 0.0) }
  predicate DebugOk(v: Value) { v == VNone || v.VBool? }

  /** Position of an issue in the order the checks run. */
  function IssueRank(issue: string): nat {
    if issue == CacheSizeIssue then 0 else if issue == TimeoutIssue then 1 else 2
  }

  /** The issues `validate_config` reports for a configuration. */
  function Issues(config: map<string, Value>): (issues: seq<string>)
    ensures |issues| <= 3
    ensures forall i :: 0 <= i < |issues| ==> issues[i] in {CacheSizeIssue, TimeoutIssue, DebugIssue}
    ensures forall i, j :: 0 <= i < j < |issues| ==> IssueRank(issues[i]) < IssueRank(issues[j])
    ensures CacheSizeIssue in issues <==> !CacheSizeOk(Setting(config, "cache_size"))
    ensures TimeoutIssue in issues <==> !TimeoutOk(Setting(config, "timeout"))
    ensures DebugIssue in issues <==> !DebugOk(Setting(config, "debug"))
  {
    (if CacheSizeOk(Setting(config, "cache_size")) then [] else [CacheSizeIssue])
    + (if TimeoutOk(Setting(config, "timeout")) then [] else [TimeoutIssue])
    + (if DebugOk(Setting(config, "debug")) then [] else [DebugIssue])
  }

  /** Only the three checked keys matter to validation. */
  lemma IssuesIgnoreOtherKeys(c1: map<string, Value>, c2: map<string, Value>)
    requires Setting(c1, "cache_size") == Setting(c2, "cache_size")
    requires Setting(c1, "timeout") == Setting(c2, "timeout")
    requires Setting(c1, "debug") == Setting(c2, "debug")
    ensures Issues(c1) == Issues(c2)
  {
  }

  /** The defaults pass validation. */
  lemma DefaultsAreValid()
    ensures Issues(DefaultConfig) == []
  {
    assert Setting(DefaultConfig, "cache_size") == VInt(100);
    assert Setting(DefaultConfig, "timeout") == VInt(30);
    assert Setting(DefaultConfig, "debug") == VBool(false);
  }

  /** A negative cache size, a string timeout and a string flag give all three issues, in order. */
  lemma AllThreeIssues()
    ensures Issues(map["cache_size" := VInt(-10), "timeout" := VStr("30"), "debug" := VStr("yes")])
            == [CacheSizeIssue, TimeoutIssue, DebugIssue]
  {
    var c := map["cache_size" := VInt(-10), "timeout" := VStr("30"), "debug" := VStr("yes")];
    assert Setting(c, "cache_size") == VInt(-10);
    assert Setting(c, "timeout") == VStr("30");
    assert Setting(c, "debug") == VStr("yes");
  }

  /** `True` passes as a cache size (a bool is an int, and True is 1); `False` does not. */
  lemma BoolCacheSize()
    ensures Issues(map["cache_size" := VBool(true)]) == []
    ensures Issues(map["cache_size" := VBool(false)]) == [CacheSizeIssue]
  {
    assert Setting(map["cache_size" := VBool(true)], "cache_size") == VBool(true);
    assert Setting(map["cache_size" := VBool(false)], "cache_size") == VBool(false);
    assert Setting(map["cache_size" := VBool(true)], "timeout") == VNone;
    assert Setting(map["cache_size" := VBool(false)], "timeout") == VNone;
    assert Setting(map["cache_size" := VBool(true)], "debug") == VNone;
    assert Setting(map["cache_size" := VBool(false)], "debug") == VNone;
  }

  class ConfigManager {
    var configFile: string
    var config: map<string, Value>
    const defaults: map<string, Value> := DefaultConfig

    /** `ConfigManager(config_file)`: `load` is how reading `config_file` ended. */
    constructor (configFile: string, load: LoadOutcome)
      ensures this.configFile == configFile
      ensures config == LoadedConfig(load)
    {
      this.configFile := configFile;
      config := map[];
      new;
      LoadConfig(load);
    }

    /** `_load_config`: a parsed JSON object replaces the configuration (no merge with the
        defaults); any failure installs a copy of the defaults. */
    method LoadConfig(load: LoadOutcome)
      modifies this
      ensures config == LoadedConfig(load)
      ensures configFile == old(configFile)
    {
      match load
      case Parsed(document) =>
        if document.VDict? {
          config := document.entries;
          var issues := ValidateConfig();   // only logged
        } else {
          config := defaults;
        }
      case NotFound =>
        config := defaults;
      case BadJson =>
        config := defaults;
      case OtherFailure =>
        config := defaults;
    }

    /** `get(key, fallback)`: the loaded value, else a fallback that is not None, else the
        default, else None. */
    function Get(key: string, fallback: Value): (r: Value)
      reads this
      ensures key in config ==> r == config[key]
      ensures key !in config && fallback != VNone ==> r == fallback
      ensures key !in config && fallback == VNone && key in DefaultConfig ==> r == DefaultConfig[key]
      ensures key !in config && fallback == VNone && key !in DefaultConfig ==> r == VNone
    {
      if key in config then config[key]
      else if fallback != VNone then fallback
      else if key in defaults then defaults[key]
      else VNone
    }

    /** `validate_config()` */
    function ValidateConfig(): (issues: seq<string>)
      reads this
      ensures issues == Issues(config)
      ensures issues == [] <==> CacheSizeOk(Setting(config, "cache_size")) && TimeoutOk(Setting(config, "timeout"))
                                && DebugOk(Setting(config, "debug"))
    {
      Issues(config)
    }
  }

  /** After any failed load, asking without a fallback yields the defaults. */
  lemma FailedLoadUsesDefaults(cm: ConfigManager, load: LoadOutcome, key: string)
    requires cm.config == LoadedConfig(load)
    requires !load.Parsed?
    requires key in DefaultConfig
    ensures cm.Get(key, VNone) == DefaultConfig[key]
  {
  }

  /** A loaded file wins over both fallback and defaults for the keys it has; keys it lacks
      still resolve through the fallback, then the defaults. */
  lemma LoadedFileWins(cm: ConfigManager, file: map<string, Value>, key: string, fallback: Value)
    requires cm.config == LoadedConfig(Parsed(VDict(file)))
    ensures key in file ==> cm.Get(key, fallback) == file[key]
    ensures key !in file && key in DefaultConfig && fallback == VNone ==> cm.Get(key, fallback) == DefaultConfig[key]
  {
  }

  // ---------------------------------------------------------------------------------------
  // DataProcessor

  /** `_process_single_item(item)`: `fail` is the random draw falling below 0.2, `now` the
      clock reading the item is stamped with. */
  function ProcessSingleItem(item: Value, fail: bool, now: real): (r: Result<Value>)
    ensures r.Ok? <==> item.VDict? && "id" in item.entries && !fail
    ensures r.Err? ==> r.error.kind == ValueError
    ensures !item.VDict? ==> r == Err(Error(ValueError, "Expected dict, got <class '" + TypeName(item) + "'>"))
    ensures item.VDict? && "id" !in item.entries ==> r == Err(Error(ValueError, "Item missing required 'id' field"))
    ensures r.Ok? ==> && r.value.VDict?
                      && r.value.entries.Keys == item.entries.Keys + {"processed_at", "status"}
                      && r.value.entries["processed_at"] == VReal(now)
                      && r.value.entries["status"] == VStr("processed")
                      && forall k :: k in item.entries && k != "processed_at" && k != "status" ==>
                                       r.value.entries[k] == item.entries[k]
  {
    if !item.VDict? then Err(Error(ValueError, "Expected dict, got <class '" + TypeName(item) + "'>"))
    else if "id" !in item.entries then Err(Error(ValueError, "Item missing required 'id' field"))
    else if fail then Err(Error(ValueError, "Random processing failure"))
    else Ok(VDict(item.entries["processed_at" := VReal(now)]["status" := VStr("processed")]))
  }

  /** Items kept so far and the error count reached. */
  datatype Progress = Progress(items: seq<Value>, errors: int)

  /** The outcome of processing each item, in input order. */
  function Outcomes(data: seq<Value>, fails: nat -> bool, clock: nat -> real): (r: seq<Result<Value>>)
    ensures |r| == |data|
    ensures forall k :: 0 <= k < |data| ==> r[k] == ProcessSingleItem(data[k], fails(k), clock(k))
  {
    seq(|data|, k requires 0 <= k < |data| => ProcessSingleItem(data[k], fails(k), clock(k)))
  }

  /** What the processing loop does with the outcomes from position `i` on, with `errors`
      already counted: keep each success, count each failure, and stop right after a failure
      that reaches the budget. */
  function Walk(outcomes: seq<Result<Value>>, i: nat, errors: int, maxErrors: int): Progress
    requires i <= |outcomes|
    decreases |outcomes| - i
  {
    if i == |outcomes| then Progress([], errors)
    else match outcomes[i]
      case Ok(v) =>
        var rest := Walk(outcomes, i + 1, errors, maxErrors);
        Progress([v] + rest.items, rest.errors)
      case Err(_) =>
        if errors + 1 >= maxErrors then Progress([], errors + 1)
        else Walk(outcomes, i + 1, errors + 1, maxErrors)
  }

  /** `Walk` with the items kept before position `i` carried along, as the loop keeps them. */
  function WalkAcc(outcomes: seq<Result<Value>>, i: nat, errors: int, maxErrors: int, kept: seq<Value>): Progress
    requires i <= |outcomes|
    decreases |outcomes| - i
  {
    if i == |outcomes| then Progress(kept, errors)
    else match outcomes[i]
      case Ok(v) => WalkAcc(outcomes, i + 1, errors, maxErrors, kept + [v])
      case Err(_) =>
        if errors + 1 >= maxErrors then Progress(kept, errors + 1)
        else WalkAcc(outcomes, i + 1, errors + 1, maxErrors, kept)
  }

  lemma {:induction false} WalkAccIsWalk(outcomes: seq<Result<Value>>, i: nat, errors: int, maxErrors: int, kept: seq<Value>)
    requires i <= |outcomes|
    ensures WalkAcc(outcomes, i, errors, maxErrors, kept)
            == Progress(kept + Walk(outcomes, i, errors, maxErrors).items, Walk(outcomes, i, errors, maxErrors).errors)
    decreases |outcomes| - i
  {
    if i == |outcomes| {
      assert kept + [] == kept;
    } else {
      match outcomes[i]
      case Ok(v) =>
        WalkAccIsWalk(outcomes, i + 1, errors, maxErrors, kept + [v]);
        var rest := Walk(outcomes, i + 1, errors, maxErrors).items;
        assert (kept + [v]) + rest == kept + ([v] + rest);
      case Err(_) =>
        if errors + 1 >= maxErrors {
          assert kept + [] == kept;
        } else {
          WalkAccIsWalk(outcomes, i + 1, errors + 1, maxErrors, kept);
        }
    }
  }

  /** The successful outcomes at positions `i` up to `j`, in order. */
  function Successes(outcomes: seq<Result<Value>>, i: nat, j: nat): seq<Value>
    requires i <= j <= |outcomes|
    decreases j - i
  {
    if i == j then []
    else match outcomes[i]
      case Ok(v) => [v] + Successes(outcomes, i + 1, j)
      case Err(_) => Successes(outcomes, i + 1, j)
  }

  /** How many outcomes at positions `i` up to `j` are failures. */
  function FailureCount(outcomes: seq<Result<Value>>, i: nat, j: nat): nat
    requires i <= j <= |outcomes|
    decreases j - i
  {
    if i == j then 0
    else (if outcomes[i].Err? then 1 else 0) + FailureCount(outcomes, i + 1, j)
  }

  /** Each outcome in a range is a success or a failure. */
  lemma {:induction false} SuccessesPlusFailures(outcomes: seq<Result<Value>>, i: nat, j: nat)
    requires i <= j <= |outcomes|
    ensures |Successes(outcomes, i, j)| + FailureCount(outcomes, i, j) == j - i
    decreases j - i
  {
    if i < j {
      SuccessesPlusFailures(outcomes, i + 1, j);
    }
  }

  /** Within the error budget nothing stops early: every success is kept, in order, every
      failure is counted, and so every item is either kept or counted. */
  lemma {:induction false} WithinBudget(outcomes: seq<Result<Value>>, i: nat, errors: int, maxErrors: int)
    requires i <= |outcomes|
    requires errors + FailureCount(outcomes, i, |outcomes|) < maxErrors
    ensures Walk(outcomes, i, errors, maxErrors)
            == Progress(Successes(outcomes, i, |outcomes|), errors + FailureCount(outcomes, i, |outcomes|))
    ensures |Walk(outcomes, i, errors, maxErrors).items| + (Walk(outcomes, i, errors, maxErrors).errors - errors)
            == |outcomes| - i
    decreases |outcomes| - i
  {
    SuccessesPlusFailures(outcomes, i, |outcomes|);
    if i < |outcomes| {
      if outcomes[i].Ok? {
        WithinBudget(outcomes, i + 1, errors, maxErrors);
      } else {
        WithinBudget(outcomes, i + 1, errors + 1, maxErrors);
      }
    }
  }

  /** The outcomes before a position `j` that stay below the budget are a prefix of the walk:
      their successes are kept in order and their failures counted, then the walk goes on
      from `j`. */
  lemma {:induction false} WalkPrefix(outcomes: seq<Result<Value>>, i: nat, j: nat, errors: int, maxErrors: int)
    requires i <= j <= |outcomes|
    requires errors + FailureCount(outcomes, i, j) < maxErrors
    ensures Walk(outcomes, i, errors, maxErrors)
            == Progress(Successes(outcomes, i, j) + Walk(outcomes, j, errors + FailureCount(outcomes, i, j), maxErrors).items,
                        Walk(outcomes, j, errors + FailureCount(outcomes, i, j), maxErrors).errors)
    decreases j - i
  {
    if i < j {
      match outcomes[i]
      case Ok(v) =>
        WalkPrefix(outcomes, i + 1, j, errors, maxErrors);
        var rest := Walk(outcomes, j, errors + FailureCount(outcomes, i, j), maxErrors).items;
        assert [v] + (Successes(outcomes, i + 1, j) + rest) == ([v] + Successes(outcomes, i + 1, j)) + rest;
      case Err(_) =>
        WalkPrefix(outcomes, i + 1, j, errors + 1, maxErrors);
    } else {
      assert [] + Walk(outcomes, j, errors, maxErrors).items == Walk(outcomes, j, errors, maxErrors).items;
    }
  }

  /** When the failure at position `j` is the one that reaches the budget, the loop breaks
      there: it keeps the successes before `j`, in order, counts the failures up to and
      including `j`, and leaves every later item neither kept nor counted. */
  lemma BudgetRunsOut(outcomes: seq<Result<Value>>, i: nat, j: nat, errors: int, maxErrors: int)
    requires i <= j < |outcomes|
    requires errors + FailureCount(outcomes, i, j) < maxErrors
    requires outcomes[j].Err? && errors + FailureCount(outcomes, i, j) + 1 >= maxErrors
    ensures Walk(outcomes, i, errors, maxErrors)
            == Progress(Successes(outcomes, i, j), errors + FailureCount(outcomes, i, j) + 1)
    ensures |Walk(outcomes, i, errors, maxErrors).items| + (Walk(outcomes, i, errors, maxErrors).errors - errors)
            == j + 1 - i
  {
    WalkPrefix(outcomes, i, j, errors, maxErrors);
    SuccessesPlusFailures(outcomes, i, j);
    assert Successes(outcomes, i, j) + [] == Successes(outcomes, i, j);
  }

  /** A processed item: a dict with its `id`, stamped and marked processed. */
  predicate Stamped(v: Value) {
    v.VDict? && "id" in v.entries && "processed_at" in v.entries
    && "status" in v.entries && v.entries["status"] == VStr("processed")
  }

  /** Every success of `_process_single_item` is a processed item. */
  lemma OutcomesStamped(data: seq<Value>, fails: nat -> bool, clock: nat -> real)
    ensures forall k :: 0 <= k < |data| && Outcomes(data, fails, clock)[k].Ok? ==> Stamped(Outcomes(data, fails, clock)[k].value)
  {
  }

  /** The count only grows, by at most one per item, and only processed items are kept. */
  lemma {:induction false} ProgressFacts(outcomes: seq<Result<Value>>, i: nat, errors: int, maxErrors: int)
    requires i <= |outcomes|
    requires forall k :: i <= k < |outcomes| && outcomes[k].Ok? ==> Stamped(outcomes[k].value)
    ensures errors <= Walk(outcomes, i, errors, maxErrors).errors <= errors + (|outcomes| - i)
    ensures forall k :: 0 <= k < |Walk(outcomes, i, errors, maxErrors).items| ==> Stamped(Walk(outcomes, i, errors, maxErrors).items[k])
    decreases |outcomes| - i
  {
    if i < |outcomes| {
      match outcomes[i]
      case Ok(v) =>
        ProgressFacts(outcomes, i + 1, errors, maxErrors);
        var rest := Walk(outcomes, i + 1, errors, maxErrors);
        assert Walk(outcomes, i, errors, maxErrors).items == [v] + rest.items;
      case Err(_) =>
        if errors + 1 < maxErrors {
          ProgressFacts(outcomes, i + 1, errors + 1, maxErrors);
        }
    }
  }

  function Min(a: int, b: int): int { if a <= b then a else b }
  function Max(a: int, b: int): int { if a >= b then a else b }

  /** When every remaining item fails, nothing is kept and the loop stops as soon as the count
      reaches the budget (after one failure if it is already there), or at the end of the data. */
  lemma {:induction false} AllFailing(outcomes: seq<Result<Value>>, i: nat, errors: int, maxErrors: int)
    requires i < |outcomes|
    requires forall k :: i <= k < |outcomes| ==> outcomes[k].Err?
    ensures Walk(outcomes, i, errors, maxErrors) == Progress([], errors + Min(|outcomes| - i, Max(1, maxErrors - errors)))
    decreases |outcomes| - i
  {
    assert outcomes[i].Err?;
    if errors + 1 < maxErrors && i + 1 < |outcomes| {
      AllFailing(outcomes, i + 1, errors + 1, maxErrors);
    }
  }

  class DataProcessor {
    var config: ConfigManager
    var cache: map<string, Value>
    var errorCount: int
    var maxErrors: int

    /** `DataProcessor(config)` */
    constructor (config: ConfigManager)
      ensures this.config == config && cache == map[] && errorCount == 0 && maxErrors == 5
    {
      this.config := config;
      cache := map[];
      errorCount := 0;
      maxErrors := 5;
    }

    /** The loop of `process_data(data)`: the item at position `k` draws `fails(k)` and is
        stamped with `clock(k)`. The error count carries over between calls. */
    method ProcessItems(data: seq<Value>, fails: nat -> bool, clock: nat -> real) returns (processed: seq<Value>)
      modifies this
      ensures config == old(config) && cache == old(cache) && maxErrors == old(maxErrors)
      ensures processed == Walk(Outcomes(data, fails, clock), 0, old(errorCount), maxErrors).items
      ensures errorCount == Walk(Outcomes(data, fails, clock), 0, old(errorCount), maxErrors).errors
    {
      ghost var outcomes := Outcomes(data, fails, clock);
      ghost var total := WalkAcc(outcomes, 0, errorCount, maxErrors, []);
      WalkAccIsWalk(outcomes, 0, errorCount, maxErrors, []);
      processed := [];
      var i := 0;
      while i < |data|
        invariant 0 <= i <= |data|
        invariant config == old(config) && cache == old(cache) && maxErrors == old(maxErrors)
        invariant total == WalkAcc(outcomes, i, errorCount, maxErrors, processed)
      {
        var outcome := ProcessSingleItem(data[i], fails(i), clock(i));
        assert outcome == outcomes[i];
        if outcome.Ok? {
          processed := processed + [outcome.value];
        } else {
          errorCount := errorCount + 1;
          if errorCount >= maxErrors {
            break;
          }
        }
        i := i + 1;
      }
    }

    /** `process_data(data)` as written: after the loop it divides by `len(data)` to report the
        success rate, so an empty list raises ZeroDivisionError instead of returning []. */
    method ProcessData(data: seq<Value>, fails: nat -> bool, clock: nat -> real) returns (r: Result<seq<Value>>)
      modifies this
      ensures config == old(config) && cache == old(cache) && maxErrors == old(maxErrors)
      ensures |data| == 0 ==> r == Err(Error(ZeroDivisionError, "division by zero")) && errorCount == old(errorCount)
      ensures |data| > 0 ==> r == Ok(Walk(Outcomes(data, fails, clock), 0, old(errorCount), maxErrors).items)
                             && errorCount == Walk(Outcomes(data, fails, clock), 0, old(errorCount), maxErrors).errors
      ensures r.Ok? ==> forall k :: 0 <= k < |r.value| ==> Stamped(r.value[k])
    {
      ghost var before := errorCount;
      var processed := ProcessItems(data, fails, clock);
      OutcomesStamped(data, fails, clock);
      ProgressFacts(Outcomes(data, fails, clock), 0, before, maxErrors);
      if |data| == 0 {
        r := Err(Error(ZeroDivisionError, "division by zero"));
      } else {
        r := Ok(processed);
      }
    }

    /** `process_data(data)` with the success rate reported only for a non-empty list: it never
        raises, and an empty list gives [] with the count untouched. */
    method ProcessDataGuarded(data: seq<Value>, fails: nat -> bool, clock: nat -> real) returns (processed: seq<Value>)
      modifies this
      ensures config == old(config) && cache == old(cache) && maxErrors == old(maxErrors)
      ensures processed == Walk(Outcomes(data, fails, clock), 0, old(errorCount), maxErrors).items
      ensures errorCount == Walk(Outcomes(data, fails, clock), 0, old(errorCount), maxErrors).errors
      ensures |data| == 0 ==> processed == [] && errorCount == old(errorCount)
      ensures forall k :: 0 <= k < |processed| ==> Stamped(processed[k])
    {
      ghost var before := errorCount;
      processed := ProcessItems(data, fails, clock);
      OutcomesStamped(data, fails, clock);
      ProgressFacts(Outcomes(data, fails, clock), 0, before, maxErrors);
    }

    /** `get_cached_data(key)`: the cached value, or None on a miss. */
    function GetCachedData(key: string): (r: Value)
      reads this
      ensures key in cache ==> r == cache[key]
      ensures key !in cache ==> r == VNone
    {
      if key in cache then cache[key] else VNone
    }
  }

  /** A fresh processor given an empty batch: as written it raises, guarded it returns []. */
  method EmptyBatch(cm: ConfigManager) returns (asWritten: Result<seq<Value>>, guarded: seq<Value>)
    ensures asWritten == Err(Error(ZeroDivisionError, "division by zero"))
    ensures guarded == []
  {
    var never := (k: nat) => false;
    var now := (k: nat) => 0.0;
    var p := new DataProcessor(cm);
    asWritten := p.ProcessData([], never, now);
    var q := new DataProcessor(cm);
    guarded := q.ProcessDataGuarded([], never, now);
  }

  /** Ten items that all fail with a fresh processor: nothing is kept and processing stops at
      the fifth failure. */
  method GracefulDegradation(cm: ConfigManager, data: seq<Value>, clock: nat -> real) returns (kept: seq<Value>, errors: int)
    requires |data| == 10
    ensures kept == [] && errors == 5
  {
    var always := (k: nat) => true;
    var p := new DataProcessor(cm);
    kept := p.ProcessDataGuarded(data, always, clock);
    errors := p.errorCount;
    AllFailing(Outcomes(data, always, clock), 0, 0, 5);
  }

  // ---------------------------------------------------------------------------------------
  // fetch_user_data

  /** `unreliable_network_call(success_rate)`: `draw` is `random.random()`, `now` is `time.time()`. */
  function UnreliableNetworkCall(successRate: real, draw: real, now: real): (r: Result<Value>)
    ensures r.Err? <==> draw > successRate
    ensures r.Err? ==> r.error == Error(NetworkError, "Simulated network failure")
    ensures r.Ok? ==> Index(r.value, "timestamp") == Some(VReal(now))
  {
    if draw > successRate then Err(Error(NetworkError, "Simulated network failure"))
    else Ok(VDict(map["status" := VStr("success"), "data" := VStr("Important data"), "timestamp" := VReal(now)]))
  }

  /** The calls `fetch_user_data` makes: the attempt `i` draws `draws(i)` at time `clock(i)`. */
  function NetworkCalls(draws: nat -> real, clock: nat -> real): nat -> Result<Value> {
    (i: nat) => UnreliableNetworkCall(0.4, draws(i), clock(i))
  }

  /** The record returned when the user could not be fetched. */
  function FallbackRecord(userId: int): (m: map<string, Value>)
    ensures m.Keys == {"id", "name", "email", "status", "last_seen"}
    ensures m["id"] == VInt(userId) && m["status"] == VStr("fallback") && m["last_seen"] == VNone
    ensures m["name"] == VStr("Guest User")
  {
    map["id" := VInt(userId), "name" := VStr("Guest User"), "email" := VStr("guest@example.com"),
        "status" := VStr("fallback"), "last_seen" := VNone]
  }

  /** The record built from a network response. */
  function ActiveRecord(userId: int, lastSeen: Value): (m: map<string, Value>)
    ensures m.Keys == {"id", "name", "email", "status", "last_seen"}
    ensures m["id"] == VInt(userId) && m["status"] == VStr("active") && m["last_seen"] == lastSeen
    ensures m["name"] == VStr("User " + IntToString(userId))
  {
    map["id" := VInt(userId), "name" := VStr("User " + IntToString(userId)),
        "email" := VStr("user" + IntToString(userId) + "@example.com"),
        "status" := VStr("active"), "last_seen" := lastSeen]
  }

  /** The user record for a retry outcome: the active record when the retry returned a
      response with a timestamp; the fallback when it raised or the response has none. */
  function UserRecord(userId: int, response: Result<Value>): (m: map<string, Value>)
    ensures response.Ok? && Index(response.value, "timestamp").Some? ==>
              m == ActiveRecord(userId, response.value.entries["timestamp"])
    ensures !(response.Ok? && Index(response.value, "timestamp").Some?) ==> m == FallbackRecord(userId)
  {
    match response
    case Err(_) => FallbackRecord(userId)
    case Ok(v) =>
      match Index(v, "timestamp")
      case None => FallbackRecord(userId)
      case Some(ts) => ActiveRecord(userId, ts)
  }

  /** `fetch_user_data(user_id)`: `call(i)` is the outcome of the i-th network call. */
  method FetchUserData(userId: int, call: nat -> Result<Value>) returns (user: map<string, Value>)
    ensures user == UserRecord(userId, Retried(call, 3, 1.0, 60.0, 0))
    ensures FailsBefore(call, 3) ==> user == FallbackRecord(userId)
  {
    var response, calls, delays := RetryWithBackoff(call, 3, 1.0, 60.0);
    user := UserRecord(userId, response);
  }

  /** An active record is never the fallback record: their statuses differ. */
  lemma ActiveIsNotFallback(userId: int, lastSeen: Value)
    ensures ActiveRecord(userId, lastSeen) != FallbackRecord(userId)
  {
    assert ActiveRecord(userId, lastSeen)["status"] != FallbackRecord(userId)["status"];
  }

  /** The first successful draw among the three decides `last_seen`. */
  lemma LastSeenIsFirstSuccess(userId: int, draws: nat -> real, clock: nat -> real, k: nat)
    requires k < 3 && draws(k) <= 0.4
    requires forall j :: 0 <= j < k ==> draws(j) > 0.4
    ensures UserRecord(userId, Retried(NetworkCalls(draws, clock), 3, 1.0, 60.0, 0)) == ActiveRecord(userId, VReal(clock(k)))
  {
    var op := NetworkCalls(draws, clock);
    assert forall i: nat :: op(i) == UnreliableNetworkCall(0.4, draws(i), clock(i));
    RetriedFirstSuccess(op, 3, 1.0, 60.0, 0, k);
  }
  /** Against the simulated network the fallback is used exactly when all three draws fail. */
  lemma FallbackIffAllDrawsFail(userId: int, draws: nat -> real, clock: nat -> real)
    ensures UserRecord(userId, Retried(NetworkCalls(draws, clock), 3, 1.0, 60.0, 0)) == FallbackRecord(userId)
            <==> draws(0) > 0.4 && draws(1) > 0.4 && draws(2) > 0.4
  {
    if draws(0) <= 0.4 {
      LastSeenIsFirstSuccess(userId, draws, clock, 0);
      ActiveIsNotFallback(userId, VReal(clock(0)));
    } else if draws(1) <= 0.4 {
      LastSeenIsFirstSuccess(userId, draws, clock, 1);
      ActiveIsNotFallback(userId, VReal(clock(1)));
    } else if draws(2) <= 0.4 {
      LastSeenIsFirstSuccess(userId, draws, clock, 2);
      ActiveIsNotFallback(userId, VReal(clock(2)));
    } else {
      var op := NetworkCalls(draws, clock);
      assert op(2) == UnreliableNetworkCall(0.4, draws(2), clock(2));
      RetriedAllFail(op, 3, 1.0, 60.0, 0);
    }
  }

}
