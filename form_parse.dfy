/**
 * The conversion and validation parse_form (includes/Core/Form.php:710-858)
 * applies to each field: the type switch, select-option checking, the
 * empty/required/default fallback, and the fold over all fields that builds
 * the result tree and writes accepted values back onto the field store.
 */
module FormParse {
  import opened Wrappers
  import opened Strings
  import opened Php
  import opened FormNames
  import opened FormPaths

  const IsAssociativeTypeError := "TypeError: is_associative_array(): Argument #1 ($array) must be of type array"
  const IsColorTypeError := "TypeError: is_color(): Argument #1 ($string) must be of type string"
  const GetByPathTypeError := "TypeError: get_by_path(): Argument #1 ($arr) must be of type array"

  /** Why parse_form stops: a WP_Error it returns, or an uncaught PHP error. */
  datatype Failure = WpError(code: string, title: Value) | Fatal(reason: string)

  /** The form's field store `$this->fields`: fields keyed by original name. */
  type Store = seq<(Key, Entries)>

  // ---------------------------------------------------------------------
  // is_color
  // ---------------------------------------------------------------------

  predicate IsHexDigit(c: char)
  {
    '0' <= c <= '9' || 'a' <= c <= 'f' || 'A' <= c <= 'F'
  }

  /** A line matching `#([A-Fa-f0-9]{6}|[A-Fa-f0-9]{3})`. */
  predicate IsHexColorLine(line: string)
  {
    (|line| == 4 || |line| == 7) && line[0] == '#' && forall i :: 1 <= i < |line| ==> IsHexDigit(line[i])
  }

  /**
   * `preg_match("/^#([A-Fa-f0-9]{6}|[A-Fa-f0-9]{3})$/im", $s)`: 1 when some
   * line of `s` is a hex colour, else 0. None would be preg_match's `false`,
   * which only a failing regex engine returns.
   */
  function PregMatchColor(s: string): (r: Option<int>)
    ensures r == Some(0) || r == Some(1)
  {
    var lines := Split(s, '\n');
    if exists i :: 0 <= i < |lines| && IsHexColorLine(lines[i]) then Some(1) else Some(0)
  }

  /** is_color (includes/Core/Form.php:31-33): the match result compared with `!== false`. */
  function IsColor(s: string): bool
  {
    PregMatchColor(s) != None
  }

  /** is_color accepts every string, including ones that are no colour at all. */
  lemma IsColorAcceptsAll(s: string)
    ensures IsColor(s)
    ensures PregMatchColor(s) == Some(0) ==> IsColor(s)
  {
  }

  lemma IsColorAcceptsNonColor()
    ensures PregMatchColor("red") == Some(0) && IsColor("red")
  {
    assert Split("red", '\n') == ["red"];
  }

  // ---------------------------------------------------------------------
  // Type switch
  // ---------------------------------------------------------------------

  /** The branches of parse_form's `switch($field["type"])`; "text" and the default share one. */
  datatype Kind = TextKind | TextareaKind | NumberKind | SelectKind | EditorKind | ColorKind | EmailKind | CheckboxKind

  /** The switch's case labels in source order, each with the branch it enters. */
  const Cases: seq<(string, Kind)> := [
    ("text", TextKind), ("textarea", TextareaKind), ("number", NumberKind), ("select", SelectKind),
    ("editor", EditorKind), ("ckeditor", EditorKind), ("color", ColorKind), ("email", EmailKind),
    ("checkbox", CheckboxKind)]

  /**
   * The branch a `switch` enters: that of the first label loosely equal to
   * `t`, or the default (the text branch) when none is.
   */
  function SwitchCase(t: Value, cases: seq<(string, Kind)>): Kind
  {
    if cases == [] then TextKind
    else if LooseEq(t, Str(cases[0].0)) then cases[0].1
    else SwitchCase(t, cases[1..])
  }

  /** The branch entered is that of the first label loosely equal to the type. */
  lemma {:induction false} SwitchCaseFirstMatch(t: Value, cases: seq<(string, Kind)>, i: nat)
    requires i < |cases| && LooseEq(t, Str(cases[i].0))
    requires forall j :: 0 <= j < i ==> !LooseEq(t, Str(cases[j].0))
    ensures SwitchCase(t, cases) == cases[i].1
  {
    if i > 0 {
      assert !LooseEq(t, Str(cases[0].0));
      assert cases[1..][i - 1] == cases[i];
      forall j | 0 <= j < i - 1
        ensures !LooseEq(t, Str(cases[1..][j].0))
      {
        assert cases[1..][j] == cases[j + 1];
      }
      SwitchCaseFirstMatch(t, cases[1..], i - 1);
    }
  }

  /** With no label loosely equal to the type, the default (text) branch is entered. */
  lemma {:induction false} SwitchCaseDefault(t: Value, cases: seq<(string, Kind)>)
    requires forall i :: 0 <= i < |cases| ==> !LooseEq(t, Str(cases[i].0))
    ensures SwitchCase(t, cases) == TextKind
  {
    if cases != [] {
      assert !LooseEq(t, Str(cases[0].0));
      forall j | 0 <= j < |cases| - 1
        ensures !LooseEq(t, Str(cases[1..][j].0))
      {
        assert cases[1..][j] == cases[j + 1];
      }
      SwitchCaseDefault(t, cases[1..]);
    }
  }

  /** The type "checkbox" enters the checkbox branch: no earlier label equals it. */
  lemma CheckboxKindOf()
    ensures SwitchCase(Str("checkbox"), Cases) == CheckboxKind
  {
    var c := Cases;
    forall j | 0 <= j < 8
      ensures !LooseEq(Str("checkbox"), Str(c[j].0))
    {
      assert c[j].0 != "checkbox";
    }
    SwitchCaseFirstMatch(Str("checkbox"), c, 8);
  }

  /** The branch of a field's type. */
  function KindOf(field: Entries): Kind
  {
    SwitchCase(At(field, "type"), Cases)
  }

  /** `str_replace("\\'", "'", $v)`: a scalar becomes its un-slashed string; in an array each scalar entry does, nested arrays stay as they are. */
  function UnslashValue(v: Value, h: Host): Value
  {
    match v
    case Arr(es) => Arr(UnslashEntries(es, h))
    case _ => Str(Unslash(ConcatStr(v, h)))
  }

  function UnslashEntries(es: Entries, h: Host): (r: Entries)
    ensures Keys(r) == Keys(es)
  {
    if es == [] then []
    else
      var v := if es[0].1.Arr? then es[0].1 else Str(Unslash(ConcatStr(es[0].1, h)));
      [(es[0].0, v)] + UnslashEntries(es[1..], h)
  }

  // ---------------------------------------------------------------------
  // Select options
  // ---------------------------------------------------------------------

  /** `$field["options"]`, called with the field when it is callable; anything but an array is a TypeError in is_associative_array. */
  function SelectOptions(field: Entries, h: Host): Result<Entries, Failure>
  {
    var options := At(field, "options");
    var resolved := if IsCallable(options, h) then h.call(options, [Arr(field)]) else options;
    if resolved.Arr? then Ok(resolved.entries)
    else Err(Fatal(IsAssociativeTypeError))
  }

  /** `$option["value"]`: null for a non-array, fatal on a string, which cannot take a string offset. */
  function OptionValue(option: Value): Result<Value, Failure>
  {
    match option
    case Arr(es) => Ok(At(es, "value"))
    case Str(_) => Err(Fatal(StringOffsetAccess))
    case _ => Ok(Null)
  }

  /**
   * Whether one option selects the submitted value: for a multiple select
   * with an array value, its `value` is among the submitted values; otherwise
   * its key (associative options) or its `value` (a list) equals the value.
   */
  function OptionMatches(key: Key, option: Value, value: Value, isAssoc: bool, multiple: bool): Result<bool, Failure>
  {
    if multiple then
      match OptionValue(option)
      case Err(f) => Err(f)
      case Ok(ov) => Ok(value.Arr? && InArray(ov, value.entries))
    else if isAssoc then Ok(LooseEq(KeyValue(key), value))
    else
      match OptionValue(option)
      case Err(f) => Err(f)
      case Ok(ov) => Ok(LooseEq(ov, value))
  }

  /** The option loop of the select case: stops at the first matching option, or at an error. */
  function SelectScan(options: Entries, value: Value, isAssoc: bool, multiple: bool): Result<bool, Failure>
  {
    if options == [] then Ok(false)
    else
      match OptionMatches(options[0].0, options[0].1, value, isAssoc, multiple)
      case Err(f) => Err(f)
      case Ok(found) => if found then Ok(true) else SelectScan(options[1..], value, isAssoc, multiple)
  }

  /**
   * The option loop of the select case (includes/Core/Form.php:775-789),
   * run option by option.
   */
  method IsValidOption(options: Entries, value: Value, isAssoc: bool, multiple: bool) returns (r: Result<bool, Failure>)
    ensures r == SelectScan(options, value, isAssoc, multiple)
  {
    var i := 0;
    while i < |options|
      invariant 0 <= i <= |options|
      invariant SelectScan(options[i..], value, isAssoc, multiple) == SelectScan(options, value, isAssoc, multiple)
    {
      assert options[i..][1..] == options[i + 1..];
      var m := OptionMatches(options[i].0, options[i].1, value, isAssoc, multiple);
      if m.Err? {
        return Err(m.error);
      }
      if m.value {
        return Ok(true);
      }
      i := i + 1;
    }
    return Ok(false);
  }

  /** The option loop fails only with a PHP error. */
  lemma {:induction false} SelectScanFailsFatally(options: Entries, value: Value, isAssoc: bool, multiple: bool)
    ensures SelectScan(options, value, isAssoc, multiple).Err? ==> SelectScan(options, value, isAssoc, multiple).error.Fatal?
  {
    if options != [] {
      SelectScanFailsFatally(options[1..], value, isAssoc, multiple);
    }
  }

  predicate AllArrays(options: Entries)
  {
    forall i :: 0 <= i < |options| ==> options[i].1.Arr?
  }

  /** A multiple select with an array value accepts as soon as one option's value was submitted; the other submitted values are not checked. */
  lemma {:induction false} SelectScanMultiple(options: Entries, values: Entries, isAssoc: bool)
    requires AllArrays(options)
    ensures SelectScan(options, Arr(values), isAssoc, true) ==
      Ok(exists i :: 0 <= i < |options| && InArray(At(options[i].1.entries, "value"), values))
  {
    if options != [] {
      SelectScanMultiple(options[1..], values, isAssoc);
      assert forall i :: 0 <= i < |options| - 1 ==> options[1..][i] == options[i + 1];
    }
  }

  /** A single select over associative options accepts when some option key loosely equals the value. */
  lemma {:induction false} SelectScanAssoc(options: Entries, value: Value)
    ensures SelectScan(options, value, true, false) ==
      Ok(exists i :: 0 <= i < |options| && LooseEq(KeyValue(options[i].0), value))
  {
    if options != [] {
      SelectScanAssoc(options[1..], value);
      assert forall i :: 0 <= i < |options| - 1 ==> options[1..][i] == options[i + 1];
    }
  }

  /** A single select over a list of options accepts when some option's `value` loosely equals the value. */
  lemma {:induction false} SelectScanList(options: Entries, value: Value)
    requires AllArrays(options)
    ensures SelectScan(options, value, false, false) ==
      Ok(exists i :: 0 <= i < |options| && LooseEq(At(options[i].1.entries, "value"), value))
  {
    if options != [] {
      SelectScanList(options[1..], value);
      assert forall i :: 0 <= i < |options| - 1 ==> options[1..][i] == options[i + 1];
    }
  }

  /** An unsubmitted single select is not matched by an option "0": null equals only the empty string. */
  lemma ZeroOptionRejectsNull()
    ensures SelectScan([("0", Arr([("value", Str("0"))]))], Null, false, false) == Ok(false)
    ensures SelectScan([("0", Arr([("value", Str(""))]))], Null, false, false) == Ok(true)
  {
  }

  // ---------------------------------------------------------------------
  // One field
  // ---------------------------------------------------------------------

  /** The title parse_form puts into its messages. */
  function Title(field: Entries): Value
  {
    At(field, "title")
  }

  /** The select branch (includes/Core/Form.php:761-795): the value must be one of the options. */
  function ConvertSelect(field: Entries, value: Value, h: Host): Result<Value, Failure>
  {
    match SelectOptions(field, h)
    case Err(f) => Err(f)
    case Ok(options) =>
      var multiple := StrictTrueAt(field, "multiple") && value.Arr?;
      match SelectScan(options, value, IsAssociativeArray(options), multiple)
      case Err(f) => Err(f)
      case Ok(valid) => if valid then Ok(value) else Err(WpError("empty_field", Title(field)))
  }

  /** The color branch (includes/Core/Form.php:805-811): is_color takes a string, then sanitize_hex_color. */
  function ConvertColor(field: Entries, value: Value, h: Host): Result<Value, Failure>
  {
    match StringParam(value, false, h)
    case None => Err(Fatal(IsColorTypeError))
    case Some(s) =>
      if !IsColor(s) then Err(WpError("invalid_field", Title(field))) else Ok(h.sanitizeHexColor(value))
  }

  /** The email branch (includes/Core/Form.php:813-819). */
  function ConvertEmail(field: Entries, value: Value, h: Host): Result<Value, Failure>
  {
    if !h.isEmail(value) then Err(WpError("empty_field", Title(field))) else Ok(h.sanitizeEmail(value))
  }

  /** The type switch of parse_form (includes/Core/Form.php:739-825) on the value read for a field. */
  function ConvertValue(field: Entries, value: Value, unescape: bool, h: Host): Result<Value, Failure>
  {
    ConvertAs(KindOf(field), field, value, unescape, h)
  }

  /** The branch `kind` of the type switch. */
  function ConvertAs(kind: Kind, field: Entries, value: Value, unescape: bool, h: Host): Result<Value, Failure>
  {
    match kind
    case TextKind => Ok(if unescape then UnslashValue(value, h) else h.sanitizeTextField(value))
    case TextareaKind => Ok(if unescape then UnslashValue(value, h) else h.sanitizeTextareaField(value))
    case NumberKind => Ok(Float(h.floatval(value)))
    case SelectKind => ConvertSelect(field, value, h)
    case EditorKind => Ok(value)
    case ColorKind => ConvertColor(field, value, h)
    case EmailKind => ConvertEmail(field, value, h)
    case CheckboxKind => Ok(Bool(value != Null))
  }

  /** The select branch with its option loop run by IsValidOption. */
  method CheckSelect(field: Entries, value: Value, h: Host) returns (r: Result<Value, Failure>)
    ensures r == ConvertSelect(field, value, h)
  {
    var options := SelectOptions(field, h);
    if options.Err? {
      return Err(options.error);
    }
    var multiple := StrictTrueAt(field, "multiple") && value.Arr?;
    var valid := IsValidOption(options.value, value, IsAssociativeArray(options.value), multiple);
    if valid.Err? {
      return Err(valid.error);
    }
    if !valid.value {
      return Err(WpError("empty_field", Title(field)));
    }
    return Ok(value);
  }

  /** What parse_form has for a field before the type switch. */
  datatype Lookup =
    | Skipped                                        // disabled or readonly
    | Broken(failure: Failure)                       // a TypeError on the way
    | Found(name: Key, path: string, value: Value)   // store key, key path, submitted value

  /**
   * The start of parse_form's loop body (includes/Core/Form.php:722-736):
   * skip disabled and readonly fields, take original_name (or name), turn it
   * into a key path and read the submitted value there. The data must be an
   * array (get_by_path's parameter type).
   */
  function LookupField(field: Entries, data: Value, h: Host): Lookup
  {
    if FlagSet(field, "disabled") || FlagSet(field, "readonly") then Skipped
    else
      var name := if IsSetAt(field, "original_name") then At(field, "original_name") else At(field, "name");
      match StringParam(name, true, h)
      case None => Broken(Fatal(ParseStrTypeError))
      case Some(s) =>
        if !data.Arr? then Broken(Fatal(GetByPathTypeError))
        else Found(ToKey(name).value, FieldPath(s), GetByPath(data.entries, FieldPath(s)))
  }

  /** What parse_form does with a field. */
  datatype Step =
    | Skip
    | Fail(failure: Failure)
    | Accept(keys: seq<Key>, name: Key, slot: Key, value: Value)   // result path, store key, store slot, value

  /** The slot of `$this->fields[$name]` an accepted value goes to. */
  function Slot(field: Entries): Key
  {
    if At(field, "type") == Str("checkbox") then "checked" else "value"
  }

  /**
   * The empty-value fallback (includes/Core/Form.php:823-848): a required
   * field fails, a default replaces the value, and otherwise a non-checkbox
   * field is dropped unless the form allows empty values.
   */
  function Fallback(field: Entries, name: Key, path: string, v: Value, allowEmpty: bool): Step
  {
    var keys := Split(path, Sep);
    if !Empty(v) then Accept(keys, name, Slot(field), v)
    else if StrictTrueAt(field, "required") then Fail(WpError("empty_field", Title(field)))
    else if IsSetAt(field, "default") then Accept(keys, name, Slot(field), At(field, "default"))
    else if At(field, "type") != Str("checkbox") && !allowEmpty then Skip
    else Accept(keys, name, Slot(field), v)
  }

  /** parse_form's loop body for one field. */
  function FieldStep(field: Entries, data: Value, unescape: bool, allowEmpty: bool, h: Host): Step
  {
    Decide(field, LookupField(field, data, h), unescape, allowEmpty, h)
  }

  /** The rest of the loop body once the submitted value has been looked up. */
  function Decide(field: Entries, lookup: Lookup, unescape: bool, allowEmpty: bool, h: Host): Step
  {
    match lookup
    case Skipped => Skip
    case Broken(f) => Fail(f)
    case Found(name, path, value) =>
      match ConvertValue(field, value, unescape, h)
      case Err(f) => Fail(f)
      case Ok(v) => Fallback(field, name, path, v, allowEmpty)
  }

  /** `$this->fields[$name][$slot] = $value`: a missing field entry starts as an empty array. */
  function WriteBack(store: Store, name: Key, slot: Key, v: Value): (r: Store)
    ensures Get(r, name).Some? && Get(Get(r, name).value, slot) == Some(v)
    ensures forall k :: k != name ==> Get(r, k) == Get(store, k)
  {
    var current := match Get(store, name) case Some(f) => f case None => [];
    Put(store, name, Put(current, slot, v))
  }

  /**
   * parse_form's loop from step `steps[0]` on, with `result` the
   * `$final_data` built so far and `store` the field store: the result (or
   * the failure) and the field store as the loop leaves it. Writes made
   * before a failure stay.
   */
  function Fold(steps: seq<Step>, result: Value, store: Store): (Result<Value, Failure>, Store)
  {
    if steps == [] then (Ok(result), store)
    else
      match steps[0]
      case Skip => Fold(steps[1..], result, store)
      case Fail(f) => (Err(f), store)
      case Accept(keys, name, slot, v) =>
        match SetByKeys(result, keys, v)
        case Err(e) => (Err(Fatal(e)), store)
        case Ok(result') => Fold(steps[1..], result', WriteBack(store, name, slot, v))
  }

  /** One iteration of parse_form's loop. */
  lemma FoldStep(steps: seq<Step>, i: nat, result: Value, store: Store)
    requires i < |steps|
    ensures steps[i].Skip? ==> Fold(steps[i..], result, store) == Fold(steps[i + 1..], result, store)
    ensures steps[i].Fail? ==> Fold(steps[i..], result, store) == (Err(steps[i].failure), store)
    ensures steps[i].Accept? ==>
      var s := steps[i];
      var put := SetByKeys(result, s.keys, s.value);
      Fold(steps[i..], result, store) ==
        if put.Err? then (Err(Fatal(put.error)), store)
        else Fold(steps[i + 1..], put.value, WriteBack(store, s.name, s.slot, s.value))
  {
    assert steps[i..][1..] == steps[i + 1..];
    assert steps[i..][0] == steps[i];
  }

  /** What parse_form does with each of `fs`. */
  function Steps(fs: seq<Entries>, data: Value, unescape: bool, allowEmpty: bool, h: Host): (r: seq<Step>)
    ensures |r| == |fs|
  {
    Map(fs, field => FieldStep(field, data, unescape, allowEmpty, h))
  }

  /** `f` applied to each element, in order. */
  function Map<A, B>(xs: seq<A>, f: A -> B): (r: seq<B>)
    ensures |r| == |xs|
  {
    if xs == [] then [] else [f(xs[0])] + Map(xs[1..], f)
  }

  lemma {:induction false} MapAt<A, B>(xs: seq<A>, f: A -> B, i: nat)
    requires i < |xs|
    ensures Map(xs, f)[i] == f(xs[i])
  {
    if i > 0 {
      MapAt(xs[1..], f, i - 1);
    }
  }

  lemma MapAppend<A, B>(a: seq<A>, b: seq<A>, f: A -> B)
    ensures Map(a + b, f) == Map(a, f) + Map(b, f)
  {
    forall i | 0 <= i < |a| + |b|
      ensures Map(a + b, f)[i] == (Map(a, f) + Map(b, f))[i]
    {
      MapAt(a + b, f, i);
      if i < |a| {
        MapAt(a, f, i);
      } else {
        MapAt(b, f, i - |a|);
      }
    }
  }

  /** The step for the field at `i` is the field's own step. */
  lemma StepsAt(fs: seq<Entries>, i: nat, data: Value, unescape: bool, allowEmpty: bool, h: Host)
    requires i < |fs|
    ensures Steps(fs, data, unescape, allowEmpty, h)[i] == FieldStep(fs[i], data, unescape, allowEmpty, h)
  {
    MapAt(fs, field => FieldStep(field, data, unescape, allowEmpty, h), i);
  }

  /** parse_form over the fields `fs`, starting from an empty result. */
  function ParseForm(fs: seq<Entries>, data: Value, unescape: bool, allowEmpty: bool, h: Host, store: Store): (Result<Value, Failure>, Store)
  {
    Fold(Steps(fs, data, unescape, allowEmpty, h), Arr([]), store)
  }

  // ---------------------------------------------------------------------
  // Properties of parse_form
  // ---------------------------------------------------------------------

  /** The colour case never reports `invalid_field`: is_color accepts everything. */
  lemma NoInvalidField(field: Entries, lookup: Lookup, unescape: bool, allowEmpty: bool, h: Host)
    requires lookup.Broken? ==> lookup.failure.Fatal?
    ensures forall t :: Decide(field, lookup, unescape, allowEmpty, h) != Fail(WpError("invalid_field", t))
  {
    assert "empty_field"[0] != "invalid_field"[0];
    if lookup.Found? {
      ConvertReportsEmptyField(KindOf(field), field, lookup.value, unescape, h);
    }
  }

  /** The only WP_Error the type switch returns is `empty_field`. */
  lemma ConvertReportsEmptyField(kind: Kind, field: Entries, value: Value, unescape: bool, h: Host)
    ensures var c := ConvertAs(kind, field, value, unescape, h);
      c.Err? && c.error.WpError? ==> c.error.code == "empty_field"
  {
    match kind
    case SelectKind =>
      var options := SelectOptions(field, h);
      if options.Ok? {
        SelectScanFailsFatally(options.value, value, IsAssociativeArray(options.value), StrictTrueAt(field, "multiple") && value.Arr?);
      }
    case ColorKind =>
      var sv := StringParam(value, false, h);
      if sv.Some? {
        IsColorAcceptsAll(sv.value);
      }
    case EmailKind =>
    case _ =>
  }

  /** Looking a field up fails only with PHP errors, never with a WP_Error. */
  lemma LookupFailsFatally(field: Entries, data: Value, h: Host)
    ensures LookupField(field, data, h).Broken? ==> LookupField(field, data, h).failure.Fatal?
  {
  }

  /** No field of any form is reported as `invalid_field`. */
  lemma NoFieldInvalid(field: Entries, data: Value, unescape: bool, allowEmpty: bool, h: Host)
    ensures forall t :: FieldStep(field, data, unescape, allowEmpty, h) != Fail(WpError("invalid_field", t))
  {
    LookupFailsFatally(field, data, h);
    NoInvalidField(field, LookupField(field, data, h), unescape, allowEmpty, h);
  }

  /** A disabled or readonly field is skipped. */
  lemma DisabledSkipped(field: Entries, data: Value, unescape: bool, allowEmpty: bool, h: Host)
    requires FlagSet(field, "disabled") || FlagSet(field, "readonly")
    ensures FieldStep(field, data, unescape, allowEmpty, h) == Skip
  {
  }

  /** A required field whose converted value is empty fails with `empty_field`. */
  lemma RequiredEmptyFails(field: Entries, name: Key, path: string, value: Value, unescape: bool, allowEmpty: bool, h: Host)
    requires StrictTrueAt(field, "required")
    requires var c := ConvertValue(field, value, unescape, h); c.Ok? && Empty(c.value)
    ensures Decide(field, Found(name, path, value), unescape, allowEmpty, h) == Fail(WpError("empty_field", Title(field)))
  {
  }

  /**
   * An enabled checkbox that is neither required nor defaulted is always
   * accepted, into its "checked" slot: true when a value was submitted,
   * false (kept even when empty values are not allowed) when none was.
   */
  lemma CheckboxAccepted(field: Entries, name: Key, path: string, value: Value, unescape: bool, allowEmpty: bool, h: Host)
    requires At(field, "type") == Str("checkbox")
    requires !StrictTrueAt(field, "required") && !IsSetAt(field, "default")
    ensures Decide(field, Found(name, path, value), unescape, allowEmpty, h) ==
      Accept(Split(path, Sep), name, "checked", Bool(value != Null))
  {
    CheckboxKindOf();
    assert ConvertValue(field, value, unescape, h) == Ok(Bool(value != Null));
  }

  /** An empty value with no default is dropped from a field that is no checkbox, unless empty values are allowed. */
  lemma EmptyDropped(field: Entries, name: Key, path: string, v: Value, allowEmpty: bool)
    requires Empty(v) && !StrictTrueAt(field, "required") && !IsSetAt(field, "default")
    ensures Fallback(field, name, path, v, allowEmpty) ==
      if At(field, "type") != Str("checkbox") && !allowEmpty then Skip
      else Accept(Split(path, Sep), name, Slot(field), v)
  {
  }

  /** A select without options rejects every value with `empty_field`. */
  lemma SelectWithoutOptions(field: Entries, value: Value, unescape: bool, h: Host)
    requires KindOf(field) == SelectKind
    requires SelectOptions(field, h) == Ok([])
    ensures ConvertValue(field, value, unescape, h) == Err(WpError("empty_field", Title(field)))
  {
  }

  /**
   * Steps after the first failing one are never taken: with the prefix
   * `steps` done, a failure ends the parse with the store as the prefix left
   * it, whatever follows.
   */
  lemma {:induction false} FirstFailureWins(steps: seq<Step>, f: Failure, rest: seq<Step>, result: Value, store: Store)
    requires Fold(steps, result, store).0.Ok?
    ensures Fold(steps + [Fail(f)] + rest, result, store) == (Err(f), Fold(steps, result, store).1)
  {
    var all := steps + [Fail(f)] + rest;
    if steps == [] {
      assert all == [Fail(f)] + rest;
    } else {
      assert all[0] == steps[0] && all[1..] == steps[1..] + [Fail(f)] + rest;
      match steps[0]
      case Skip =>
        FirstFailureWins(steps[1..], f, rest, result, store);
      case Fail(_) =>
      case Accept(keys, name, slot, v) =>
        var r := SetByKeys(result, keys, v);
        if r.Ok? {
          FirstFailureWins(steps[1..], f, rest, r.value, WriteBack(store, name, slot, v));
        }
    }
  }

  /** Skipped steps change nothing. */
  lemma {:induction false} SkipsChangeNothing(steps: seq<Step>, result: Value, store: Store)
    requires forall i :: 0 <= i < |steps| ==> steps[i] == Skip
    ensures Fold(steps, result, store) == (Ok(result), store)
  {
    if steps != [] {
      SkipsChangeNothing(steps[1..], result, store);
    }
  }

  /** When every field is disabled, parse_form returns an empty array and leaves the store alone. */
  lemma AllDisabledParsesNothing(fs: seq<Entries>, data: Value, unescape: bool, allowEmpty: bool, h: Host, store: Store)
    requires forall i :: 0 <= i < |fs| ==> FlagSet(fs[i], "disabled")
    ensures ParseForm(fs, data, unescape, allowEmpty, h, store) == (Ok(Arr([])), store)
  {
    var steps := Steps(fs, data, unescape, allowEmpty, h);
    forall i | 0 <= i < |steps|
      ensures steps[i] == Skip
    {
      StepsAt(fs, i, data, unescape, allowEmpty, h);
      DisabledSkipped(fs[i], data, unescape, allowEmpty, h);
    }
    SkipsChangeNothing(steps, Arr([]), store);
  }

  /** The steps of two runs of fields are the steps of their concatenation. */
  lemma StepsAppend(a: seq<Entries>, b: seq<Entries>, data: Value, unescape: bool, allowEmpty: bool, h: Host)
    ensures Steps(a + b, data, unescape, allowEmpty, h) == Steps(a, data, unescape, allowEmpty, h) + Steps(b, data, unescape, allowEmpty, h)
  {
    MapAppend(a, b, field => FieldStep(field, data, unescape, allowEmpty, h));
  }

  /** A field whose step fails ends the parse at that field, whatever fields follow. */
  lemma FailingFieldEndsParse(fs: seq<Entries>, bad: Entries, rest: seq<Entries>, data: Value, unescape: bool, allowEmpty: bool, h: Host, store: Store)
    requires FieldStep(bad, data, unescape, allowEmpty, h).Fail?
    requires ParseForm(fs, data, unescape, allowEmpty, h, store).0.Ok?
    ensures ParseForm(fs + [bad] + rest, data, unescape, allowEmpty, h, store) ==
      (Err(FieldStep(bad, data, unescape, allowEmpty, h).failure), ParseForm(fs, data, unescape, allowEmpty, h, store).1)
  {
    var f := FieldStep(bad, data, unescape, allowEmpty, h).failure;
    StepsAppend(fs, [bad], data, unescape, allowEmpty, h);
    StepsAppend(fs + [bad], rest, data, unescape, allowEmpty, h);
    assert Steps([bad], data, unescape, allowEmpty, h) == [Fail(f)];
    FirstFailureWins(Steps(fs, data, unescape, allowEmpty, h), f, Steps(rest, data, unescape, allowEmpty, h), Arr([]), store);
  }

  /**
   * An accepted non-null value is readable in the result at its key path,
   * and lands in its field's slot of the store.
   */
  lemma AcceptedValueStored(keys: seq<Key>, name: Key, slot: Key, v: Value, result: Value, store: Store)
    requires |keys| >= 1 && v != Null && Settable(result, keys)
    ensures var (r, store') := Fold([Accept(keys, name, slot, v)], result, store);
      r.Ok? && r.value.Arr? && GetByKeys(r.value.entries, keys) == v &&
      Get(store', name).Some? && Get(Get(store', name).value, slot) == Some(v)
  {
    SetByKeysOk(result, keys, v);
    GetAfterSet(result, keys, v);
    var r := SetByKeys(result, keys, v).value;
    assert Fold([Accept(keys, name, slot, v)], result, store) == Fold([], r, WriteBack(store, name, slot, v));
  }
}
