/** Helpers written in the "easier to ask forgiveness" style (try the access, catch KeyError or
    TypeError) and in the "look before you leap" style (check types and ranges first). */
module EafpLbyl {

  import opened Wrappers
  import opened PyValues
  import opened PyStrings
  import opened Errors

  /** Indexing `v` by each key in turn; `None` as soon as a step hits a missing key or a
      value that is not a dict. */
  function Lookup(v: Value, keys: seq<string>): Option<Value>
    decreases |keys|
  {
    if keys == [] then Some(v)
    else match Index(v, keys[0])
      case None => None
      case Some(w) => Lookup(w, keys[1..])
  }

  /** `safe_get_nested_value`: split the dotted path and index step by step; any KeyError or
      TypeError on the way makes the result None. */
  method SafeGetNestedValue(data: Value, keyPath: string) returns (r: Value)
    ensures Lookup(data, Split(keyPath, '.')).Some? ==> r == Lookup(data, Split(keyPath, '.')).value
    ensures Lookup(data, Split(keyPath, '.')).None? ==> r == VNone
  {
    var keys := Split(keyPath, '.');
    var current := data;
    var i := 0;
    while i < |keys|
      invariant 0 <= i <= |keys|
      invariant Lookup(data, keys) == Lookup(current, keys[i..])
    {
      var next := Index(current, keys[i]);
      if next.None? {
        return VNone;
      }
      assert keys[i..][1..] == keys[i + 1..];
      current := next.value;
      i := i + 1;
    }
    assert keys[i..] == [];
    r := current;
  }

  /** A path without a dot is a single plain lookup. */
  lemma SingleSegmentIsIndex(data: Value, key: string)
    requires '.' !in key
    ensures Lookup(data, Split(key, '.')) == Index(data, key)
  {
    assert Split(key, '.') == [key];
    assert Lookup(data, [key]) == Index(data, key) by {
      assert [key][1..] == [];
    }
  }

  /** Splitting "a.b" peels off the first segment `a` when it holds no dot. */
  lemma SplitDotted(a: string, b: string)
    requires '.' !in a
    ensures Split(a + "." + b, '.') == [a] + Split(b, '.')
  {
    var s := a + "." + b;
    assert s[|a|] == '.';
    var i := IndexOf(s, '.');
    assert s[..|a|] == a;
    assert i == |a|;
    assert s[i + 1..] == b;
  }

  /** Looking up a concatenated path is looking up its first part, then the rest from there. */
  lemma {:induction false} LookupAppend(v: Value, p: seq<string>, q: seq<string>)
    ensures Lookup(v, p + q) == (match Lookup(v, p) case None => None case Some(w) => Lookup(w, q))
    decreases |p|
  {
    if p == [] {
      assert p + q == q;
    } else {
      assert (p + q)[0] == p[0];
      assert (p + q)[1..] == p[1..] + q;
      match Index(v, p[0])
      case None =>
      case Some(w) => LookupAppend(w, p[1..], q);
    }
  }

  /** The lookup fails exactly when some step, reached successfully, finds a value that is not
      a dict or lacks the next key. */
  lemma {:induction false} LookupFailsIff(v: Value, keys: seq<string>)
    ensures Lookup(v, keys).None? <==>
              exists i :: 0 <= i < |keys| && Lookup(v, keys[..i]).Some?
                                          && Index(Lookup(v, keys[..i]).value, keys[i]).None?
    decreases |keys|
  {
    if keys != [] {
      assert keys[..0] == [];
      match Index(v, keys[0])
      case None =>
        assert Lookup(v, keys[..0]) == Some(v);
      case Some(w) =>
        LookupFailsIff(w, keys[1..]);
        if Lookup(v, keys).None? {
          var j :| 0 <= j < |keys[1..]| && Lookup(w, keys[1..][..j]).Some?
                   && Index(Lookup(w, keys[1..][..j]).value, keys[1..][j]).None?;
          assert keys[..j + 1] == [keys[0]] + keys[1..][..j];
          assert Lookup(v, keys[..j + 1]) == Lookup(w, keys[1..][..j]);
          assert keys[j + 1] == keys[1..][j];
        } else {
          forall i | 0 <= i < |keys| && Lookup(v, keys[..i]).Some?
            ensures Index(Lookup(v, keys[..i]).value, keys[i]).Some?
          {
            if i > 0 {
              assert keys[..i] == [keys[0]] + keys[1..][..i - 1];
              assert Lookup(v, keys[..i]) == Lookup(w, keys[1..][..i - 1]);
              assert keys[i] == keys[1..][i - 1];
            }
          }
        }
    }
  }

  /** Once a step lands on something that is not a dict, no further segment can succeed. */
  lemma LookupThroughNonDict(v: Value, keys: seq<string>)
    requires !v.VDict? && keys != []
    ensures Lookup(v, keys) == None
  {
  }

  /** The numbers `validate_numeric_range` accepts. */
  predicate InRange(value: Value, minVal: real, maxVal: real) {
    IsNumber(value) && minVal <= NumVal(value) <= maxVal
  }

  /** `validate_numeric_range`: type check first, then the inclusive lower and upper bounds. */
  function ValidateNumericRange(value: Value, minVal: real, maxVal: real): (r: Result<real>)
    ensures !IsNumber(value) ==> r == Err(Error(TypeError, "Value must be numeric, got " + TypeName(value)))
    ensures IsNumber(value) && NumVal(value) < minVal ==> r == Err(Error(ValueError, "below minimum"))
    ensures IsNumber(value) && minVal <= NumVal(value) && NumVal(value) > maxVal ==>
              r == Err(Error(ValueError, "above maximum"))
    ensures r.Ok? <==> InRange(value, minVal, maxVal)
    ensures r.Ok? ==> r.value == NumVal(value)
  {
    if !IsNumber(value) then Err(Error(TypeError, "Value must be numeric, got " + TypeName(value)))
    else if NumVal(value) < minVal then Err(Error(ValueError, "below minimum"))
    else if NumVal(value) > maxVal then Err(Error(ValueError, "above maximum"))
    else Ok(NumVal(value))
  }

  /** The bounds are inclusive: both ends are accepted, and an accepted value passes again. */
  lemma RangeBoundsInclusive(minVal: real, maxVal: real)
    requires minVal <= maxVal
    ensures ValidateNumericRange(VReal(minVal), minVal, maxVal) == Ok(minVal)
    ensures ValidateNumericRange(VReal(maxVal), minVal, maxVal) == Ok(maxVal)
  {
  }

  /** Validating the float the check returned gives the same float back. */
  lemma RangeIdempotent(value: Value, minVal: real, maxVal: real)
    requires ValidateNumericRange(value, minVal, maxVal).Ok?
    ensures ValidateNumericRange(VReal(ValidateNumericRange(value, minVal, maxVal).value), minVal, maxVal)
            == ValidateNumericRange(value, minVal, maxVal)
  {
  }

  /** `get_user_preference`: `user_data['preferences'][key]`, or `default` when either index
      raises KeyError or TypeError. */
  function GetUserPreference(userData: Value, preferenceKey: string, default: Value): (r: Value)
    ensures (Index(userData, "preferences").Some? && Index(Index(userData, "preferences").value, preferenceKey).Some?)
            ==> r == userData.entries["preferences"].entries[preferenceKey]
    ensures !(Index(userData, "preferences").Some? && Index(Index(userData, "preferences").value, preferenceKey).Some?)
            ==> r == default
  {
    match Index(userData, "preferences")
    case None => default
    case Some(prefs) =>
      match Index(prefs, preferenceKey)
      case None => default
      case Some(p) => p
  }

  /** With no default the preference lookup is the dotted lookup of "preferences.<key>". */
  lemma PreferenceIsNestedLookup(userData: Value, preferenceKey: string)
    requires '.' !in preferenceKey
    ensures Lookup(userData, Split("preferences." + preferenceKey, '.')).Some? ==>
              GetUserPreference(userData, preferenceKey, VNone)
              == Lookup(userData, Split("preferences." + preferenceKey, '.')).value
    ensures Lookup(userData, Split("preferences." + preferenceKey, '.')).None? ==>
              GetUserPreference(userData, preferenceKey, VNone) == VNone
  {
    assert "preferences." + preferenceKey == "preferences" + "." + preferenceKey;
    SplitDotted("preferences", preferenceKey);
    SingleSegmentIsIndex(VNone, preferenceKey);
    var keys := ["preferences", preferenceKey];
    assert Split("preferences." + preferenceKey, '.') == keys;
    match Index(userData, "preferences")
    case None =>
    case Some(prefs) =>
      assert keys[1..] == [preferenceKey];
      assert Lookup(userData, keys) == Lookup(prefs, [preferenceKey]);
      assert [preferenceKey][1..] == [];
      match Index(prefs, preferenceKey)
      case None =>
      case Some(w) => assert Lookup(prefs, [preferenceKey]) == Lookup(w, []);
  }

  /** The message `int()` gives for a field that is not an integer literal. */
  function BadLiteral(field: string): string {
    "Invalid integer in input string: invalid literal for int() with base 10: '" + field + "'"
  }

  /** `int(item.strip())` for one field. */
  function ParseField(field: string): (r: Option<int>)
    ensures Strip(field) == [] ==> r == None
    ensures r.Some? <==> IsIntLiteral(Strip(field))
    ensures IsDigits(Strip(field)) ==> r == Some(DigitsValue(Strip(field)))
    ensures |Strip(field)| > 0 && IsDigits(Strip(field)[1..]) ==>
              (Strip(field)[0] == '-' ==> r == Some(-(DigitsValue(Strip(field)[1..]) as int)))
              && (Strip(field)[0] == '+' ==> r == Some(DigitsValue(Strip(field)[1..])))
  {
    ParseInt(Strip(field))
  }

  /** The comprehension over any field parser: every field parsed in order, or the ValueError
      of the first field the parser refuses. */
  function ParseEach(fields: seq<string>, parse: string -> Option<int>): Result<seq<int>> {
    if fields == [] then Ok([])
    else match parse(fields[0])
      case None => Err(Error(ValueError, BadLiteral(Strip(fields[0]))))
      case Some(n) =>
        match ParseEach(fields[1..], parse)
        case Err(e) => Err(e)
        case Ok(ns) => Ok([n] + ns)
  }

  lemma {:induction false} ParseEachOkIff(fields: seq<string>, parse: string -> Option<int>)
    ensures ParseEach(fields, parse).Ok? <==> forall k :: 0 <= k < |fields| ==> parse(fields[k]).Some?
    ensures ParseEach(fields, parse).Err? ==> ParseEach(fields, parse).error.kind == ValueError
  {
    if fields != [] && parse(fields[0]).Some? {
      var rest := fields[1..];
      ParseEachOkIff(rest, parse);
      forall k | 1 <= k < |fields| ensures fields[k] == rest[k - 1] {}
    }
  }

  lemma {:induction false} ParseEachValues(fields: seq<string>, parse: string -> Option<int>)
    requires ParseEach(fields, parse).Ok?
    ensures |ParseEach(fields, parse).value| == |fields|
    ensures forall k :: 0 <= k < |fields| ==> parse(fields[k]) == Some(ParseEach(fields, parse).value[k])
  {
    if fields != [] {
      var rest := fields[1..];
      ParseEachValues(rest, parse);
      var ns := ParseEach(rest, parse).value;
      var r := ParseEach(fields, parse).value;
      assert r == [parse(fields[0]).value] + ns;
      forall k | 1 <= k < |fields| ensures parse(fields[k]) == Some(r[k]) {
        assert fields[k] == rest[k - 1] && r[k] == ns[k - 1];
      }
    }
  }

  /** `[int(item.strip()) for item in fields]`: succeeds exactly when every stripped field is
      an integer literal, with one integer per field in order; otherwise ValueError and no
      partial result. */
  function ParseFields(fields: seq<string>): (r: Result<seq<int>>)
    ensures r.Ok? <==> forall k :: 0 <= k < |fields| ==> ParseField(fields[k]).Some?
    ensures r.Ok? ==> |r.value| == |fields|
                      && forall k :: 0 <= k < |fields| ==> ParseField(fields[k]) == Some(r.value[k])
    ensures r.Err? ==> r.error.kind == ValueError
  {
    ParseEachOkIff(fields, ParseField);
    if ParseEach(fields, ParseField).Ok? then
      ParseEachValues(fields, ParseField);
      ParseEach(fields, ParseField)
    else ParseEach(fields, ParseField)
  }

  /** `parse_integer_list`: a blank string gives []; otherwise one integer per comma-separated
      field, each stripped before parsing. */
  function ParseIntegerList(inputString: string): (r: Result<seq<int>>)
    ensures AllSpace(inputString) ==> r == Ok([])
    ensures !AllSpace(inputString) ==> r == ParseFields(Split(inputString, ','))
  {
    StripEmptyIffAllSpace(inputString);
    if Strip(inputString) == [] then Ok([]) else ParseFields(Split(inputString, ','))
  }

  /** A field that is empty after stripping (as in "1,,3") makes the whole parse fail. */
  lemma EmptyFieldRejected(inputString: string, k: nat)
    requires !AllSpace(inputString)
    requires k < |Split(inputString, ',')| && AllSpace(Split(inputString, ',')[k])
    ensures ParseIntegerList(inputString).Err?
    ensures ParseIntegerList(inputString).error.kind == ValueError
  {
    StripEmptyIffAllSpace(Split(inputString, ',')[k]);
  }

  /** Stripping keeps every character that is not whitespace. */
  lemma StripKeeps(f: string, c: char)
    requires c in f && !IsSpace(c)
    ensures c in Strip(f)
  {
    var i :| 0 <= i < |f| && f[i] == c;
    var l := LStrip(f);
    var cut := |f| - |l|;
    assert cut <= i;
    assert l[i - cut] == c;
    var r := RStrip(l);
    assert i - cut < |r|;
    assert r[i - cut] == c;
  }

  /** A field holding a '.' (a decimal such as "2.5") makes the whole parse fail. */
  lemma DecimalFieldRejected(inputString: string, k: nat)
    requires !AllSpace(inputString)
    requires k < |Split(inputString, ',')| && '.' in Split(inputString, ',')[k]
    ensures ParseIntegerList(inputString).Err?
    ensures ParseIntegerList(inputString).error.kind == ValueError
  {
    var f := Strip(Split(inputString, ',')[k]);
    StripKeeps(Split(inputString, ',')[k], '.');
    var i :| 0 <= i < |f| && f[i] == '.';
    assert !IsDigits(f) by { assert !IsDigit(f[i]); }
    if f[0] == '-' || f[0] == '+' {
      assert f[1..][i - 1] == '.';
      assert !IsDigits(f[1..]) by { assert !IsDigit(f[1..][i - 1]); }
    }
  }

  /** The printed form of a list of integers, "1,-2,3". */
  function Render(xs: seq<int>): (fields: seq<string>)
    ensures |fields| == |xs|
    ensures forall k :: 0 <= k < |xs| ==> fields[k] == IntToString(xs[k])
  {
    if xs == [] then [] else [IntToString(xs[0])] + Render(xs[1..])
  }

  /** `str(x)` is a single field that parses back to `x`. */
  lemma RenderedField(x: int)
    ensures ',' !in IntToString(x)
    ensures ParseInt(Strip(IntToString(x))) == Some(x)
  {
    IntToStringChars(x);
    var f := IntToString(x);
    assert !IsSpace(f[0]) && !IsSpace(f[|f| - 1]);
    StripUnchanged(f);
    ParseIntToString(x);
  }

  /** Parsing the printed fields gives back the integers. */
  lemma ParseRenderedFields(xs: seq<int>)
    ensures ParseFields(Render(xs)) == Ok(xs)
  {
    var fields := Render(xs);
    forall k | 0 <= k < |fields| ensures ParseField(fields[k]) == Some(xs[k]) {
      RenderedField(xs[k]);
    }
    assert ParseFields(fields).value == xs;
  }

  /** `parse_integer_list(",".join(str(x) for x in xs)) == xs`; the empty list joins to "",
      which parses to []. */
  lemma ParseRendered(xs: seq<int>)
    ensures ParseIntegerList(Join(Render(xs), ',')) == Ok(xs)
  {
    if xs != [] {
      var fields := Render(xs);
      forall k | 0 <= k < |fields| ensures ',' !in fields[k] {
        RenderedField(xs[k]);
      }
      SplitJoin(fields, ',');
      var s := Join(fields, ',');
      assert !AllSpace(s) by {
        JoinStartsWithFirst(fields, ',');
        IntToStringChars(xs[0]);
        assert s[0] == fields[0][0];
      }
      ParseRenderedFields(xs);
    }
  }

  /** A join begins with its first part. */
  lemma {:induction false} JoinStartsWithFirst(parts: seq<string>, sep: char)
    requires |parts| >= 1
    ensures |Join(parts, sep)| >= |parts[0]| && Join(parts, sep)[..|parts[0]|] == parts[0]
  {
    if |parts| > 1 {
      assert Join(parts, sep) == parts[0] + ([sep] + Join(parts[1..], sep));
    }
  }

  /** `calculate_bmi`: type checks for weight then height, then the positivity checks in the
      same order, then weight over height squared. */
  function CalculateBmi(weight: Value, height: Value): (r: Result<real>)
    ensures !IsNumber(weight) ==> r == Err(Error(TypeError, "Weight must be numeric, got " + TypeName(weight)))
    ensures IsNumber(weight) && !IsNumber(height) ==>
              r == Err(Error(TypeError, "Height must be numeric, got " + TypeName(height)))
    ensures IsNumber(weight) && IsNumber(height) && NumVal(weight) <= 0.0 ==>
              r == Err(Error(ValueError, "Weight must be positive"))
    ensures IsNumber(weight) && IsNumber(height) && NumVal(weight) > 0.0 && NumVal(height) <= 0.0 ==>
              r == Err(Error(ValueError, "Height must be positive"))
    ensures r.Ok? <==> IsNumber(weight) && IsNumber(height) && NumVal(weight) > 0.0 && NumVal(height) > 0.0
    ensures r.Ok? ==> r.value > 0.0 && r.value * (NumVal(height) * NumVal(height)) == NumVal(weight)
  {
    if !IsNumber(weight) then Err(Error(TypeError, "Weight must be numeric, got " + TypeName(weight)))
    else if !IsNumber(height) then Err(Error(TypeError, "Height must be numeric, got " + TypeName(height)))
    else if NumVal(weight) <= 0.0 then Err(Error(ValueError, "Weight must be positive"))
    else if NumVal(height) <= 0.0 then Err(Error(ValueError, "Height must be positive"))
    else
      var h2 := NumVal(height) * NumVal(height);
      assert h2 > 0.0;
      Ok(NumVal(weight) / h2)
  }
}
