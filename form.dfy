/**
 * The Form object of includes/Core/Form.php: its settings, the field store
 * `$this->fields` (fields keyed by original name, in insertion order) and the
 * methods that change it.
 */
module Forms {
  import opened Wrappers
  import opened Strings
  import opened Php
  import opened FormNames
  import opened FormPaths
  import opened FormParse

  const FormAddFieldTypeError := "TypeError: add_field(): Argument #1 ($field) must be of type array"
  const AllowEmptyOption := "allow_empty_field_values"
  const DisableSqlEscapeOption := "disable-sql-escape"

  /** The request method a form reads: `strtolower(esc_attr($data["method"]))`, or "post". */
  function MethodOf(settings: Entries, h: Host): string
  {
    if IsSetAt(settings, "method") then AsciiLower(h.escAttr(At(settings, "method"))) else "post"
  }

  /**
   * get_request_data (includes/Core/Form.php:587-589): the entry under the
   * form id when the id is set and that entry is, else all the data. An
   * array id cannot index the data.
   */
  function RequestDataOf(id: Value, data: Entries): (r: Result<Value, Failure>)
    ensures r.Err? <==> id.Arr?
    ensures id == Null ==> r == Ok(Arr(data))
    ensures id != Null && !id.Arr? && IsSetAt(data, ToKey(id).value) ==> r == Ok(At(data, ToKey(id).value))
    ensures id != Null && !id.Arr? && !IsSetAt(data, ToKey(id).value) ==> r == Ok(Arr(data))
  {
    if id == Null then Ok(Arr(data))
    else
      match ToKey(id)
      case None => Err(Fatal(IllegalOffsetInIsset))
      case Some(k) => Ok(if IsSetAt(data, k) then At(data, k) else Arr(data))
  }

  /**
   * Whatever non-null value is submitted under a form's id is what that form
   * reads, whatever else the request holds.
   */
  lemma RequestDataUnderId(id: Value, data: Entries, v: Value)
    requires id != Null && !id.Arr? && v != Null
    ensures RequestDataOf(id, Put(data, ToKey(id).value, v)) == Ok(v)
  {
    var k := ToKey(id).value;
    assert At(Put(data, k, v), k) == v;
  }

  /** The fields of a store in store order, as parse_form iterates them. */
  function FieldList(store: Store): (fs: seq<Entries>)
    ensures |fs| == |store|
    ensures forall i :: 0 <= i < |store| ==> fs[i] == store[i].1
  {
    seq(|store|, i requires 0 <= i < |store| => store[i].1)
  }

  // ---------------------------------------------------------------------
  // add_field
  // ---------------------------------------------------------------------

  /** add_field (includes/Core/Form.php:1075-1083) on a store: create the field and put it under its original name. */
  function WithField(store: Store, field: Entries, formId: Value, uniq: string, h: Host): Result<Store, string>
  {
    StoreCreated(store, CreateField(field, formId, uniq, h))
  }

  /** The second half of add_field: a created field goes under its original name, which must be a valid key. */
  function StoreCreated(store: Store, created: Result<Entries, string>): Result<Store, string>
  {
    match created
    case Err(e) => Err(e)
    case Ok(c) =>
      match ToKey(At(c, "original_name"))
      case None => Err(IllegalOffset)
      case Some(k) => Ok(Put(store, k, c))
  }

  /** A named field is stored under the name it normalises to; the other fields stay. */
  lemma AddedUnderNormalisedName(store: Store, field: Entries, formId: Value, uniq: string, h: Host, n: string)
    requires IsSetAt(field, "name") && !At(field, "name").Arr?
    requires StoredFieldName(field, h) == Some(n)
    ensures WithField(store, field, formId, uniq, h).Ok?
    ensures var s := WithField(store, field, formId, uniq, h).value;
      Get(s, n) == Some(CreateField(field, formId, uniq, h).value) &&
      forall k :: k != n ==> Get(s, k) == Get(store, k)
  {
    CreateFieldNamed(field, formId, uniq, h, n);
    StoredUnder(store, CreateField(field, formId, uniq, h), n);
  }

  lemma StoredUnder(store: Store, created: Result<Entries, string>, n: string)
    requires created.Ok? && At(created.value, "original_name") == Str(n)
    ensures StoreCreated(store, created).Ok?
    ensures var s := StoreCreated(store, created).value;
      Get(s, n) == Some(created.value) && forall k :: k != n ==> Get(s, k) == Get(store, k)
  {
  }

  /** Of two fields stored under the same key, the later one is what the store holds, at the earlier one's position. */
  lemma LaterFieldReplaces(store: Store, a: Entries, b: Entries, formId: Value, uniq: string, uniq': string, h: Host)
    requires WithField(store, a, formId, uniq, h).Ok?
    requires var s := WithField(store, a, formId, uniq, h).value; WithField(s, b, formId, uniq', h).Ok?
    requires At(CreateField(a, formId, uniq, h).value, "original_name") == At(CreateField(b, formId, uniq', h).value, "original_name")
    ensures var s := WithField(store, a, formId, uniq, h).value;
      var s' := WithField(s, b, formId, uniq', h).value;
      Keys(s') == Keys(s) &&
      forall k :: Get(s', k) == Get(WithField(store, b, formId, uniq', h).value, k)
  {
    var ca := CreateField(a, formId, uniq, h).value;
    var cb := CreateField(b, formId, uniq', h).value;
    var key := ToKey(At(ca, "original_name")).value;
    assert WithField(store, a, formId, uniq, h).value == Put(store, key, ca);
    assert WithField(Put(store, key, ca), b, formId, uniq', h).value == Put(Put(store, key, ca), key, cb);
    assert WithField(store, b, formId, uniq', h).value == Put(store, key, cb);
    PutTwice(store, key, ca, cb);
  }

  /** The fields given to the constructor, added one by one; `uniq(n)` is what the n-th uniqid call returns. */
  function AddAll(store: Store, fs: seq<Value>, formId: Value, uniq: nat -> string, n: nat, h: Host): Result<Store, string>
    decreases |fs|
  {
    if fs == [] then Ok(store)
    else if !fs[0].Arr? then Err(FormAddFieldTypeError)
    else
      match WithField(store, fs[0].entries, formId, uniq(n), h)
      case Err(e) => Err(e)
      case Ok(s) => AddAll(s, fs[1..], formId, uniq, n + 1, h)
  }

  /** The `fields` setting the constructor walks: its values when it is a non-empty array, else nothing. */
  function InitialFields(settings: Entries): seq<Value>
  {
    var given := At(settings, "fields");
    if !Empty(given) && given.Arr? then
      seq(|given.entries|, i requires 0 <= i < |given.entries| => given.entries[i].1)
    else []
  }

  // ---------------------------------------------------------------------
  // set_field_value, parse
  // ---------------------------------------------------------------------

  /** The `value` slot of the field stored under `k`, when there is one. */
  function FieldValue(store: Store, k: Key): Option<Value>
  {
    match Get(store, k)
    case None => None
    case Some(f) => Get(f, "value")
  }

  /** `$this->fields[$k]["value"] = $v` for a field that exists; nothing otherwise. */
  function Assign(store: Store, k: Key, v: Value): (r: Store)
    ensures Keys(r) == Keys(store)
  {
    match Get(store, k)
    case None => store
    case Some(f) => Put(store, k, Put(f, "value", v))
  }

  lemma AssignAt(store: Store, k: Key, v: Value, k': Key)
    ensures FieldValue(Assign(store, k, v), k') == if k' == k && HasKey(store, k) then Some(v) else FieldValue(store, k')
    ensures HasKey(Assign(store, k, v), k') <==> HasKey(store, k')
  {
  }

  /** parse's loop over an array of data: every entry naming a field becomes that field's value. */
  function AssignAll(store: Store, es: Entries): (r: Store)
    ensures Keys(r) == Keys(store)
    decreases |es|
  {
    if es == [] then store else AssignAll(Assign(store, es[0].0, es[0].1), es[1..])
  }

  /**
   * After the loop each field named by the data holds the data's value, and
   * every other field is as it was.
   */
  lemma {:induction false} AssignAllAt(store: Store, es: Entries, k: Key)
    requires DistinctKeys(es)
    ensures FieldValue(AssignAll(store, es), k) == if HasKey(store, k) && HasKey(es, k) then Get(es, k) else FieldValue(store, k)
    ensures HasKey(AssignAll(store, es), k) <==> HasKey(store, k)
    decreases |es|
  {
    if es != [] {
      var rest := es[1..];
      assert forall i :: 0 <= i < |rest| ==> rest[i] == es[i + 1];
      assert DistinctKeys(rest);
      assert HasKey(es, k) <==> es[0].0 == k || HasKey(rest, k);
      var s := Assign(store, es[0].0, es[0].1);
      AssignAt(store, es[0].0, es[0].1, k);
      AssignAllAt(s, rest, k);
      if es[0].0 == k {
        assert !HasKey(rest, k);
      }
    }
  }

  /** `foreach ($v as $k => $x)` assigning, over a value that may not be an array (then the loop does nothing). */
  function AssignFrom(store: Store, v: Value): (r: Store)
    ensures Keys(r) == Keys(store)
  {
    if v.Arr? then AssignAll(store, v.entries) else store
  }

  // ---------------------------------------------------------------------
  // disable, enable
  // ---------------------------------------------------------------------

  /** Every field marked `disabled => true`. */
  function DisableAll(store: Store): (r: Store)
    ensures Keys(r) == Keys(store)
    ensures |r| == |store|
    ensures forall i :: 0 <= i < |r| ==> r[i] == (store[i].0, Put(store[i].1, "disabled", Bool(true)))
  {
    if store == [] then []
    else [(store[0].0, Put(store[0].1, "disabled", Bool(true)))] + DisableAll(store[1..])
  }

  /** Every field with its `disabled` entry unset. */
  function EnableAll(store: Store): (r: Store)
    ensures Keys(r) == Keys(store)
    ensures |r| == |store|
    ensures forall i :: 0 <= i < |r| ==> r[i] == (store[i].0, Remove(store[i].1, "disabled"))
  {
    if store == [] then []
    else [(store[0].0, Remove(store[0].1, "disabled"))] + EnableAll(store[1..])
  }

  /** Processing a disabled form yields an empty array and writes nothing back. */
  lemma DisabledFormParsesNothing(store: Store, data: Value, unescape: bool, allowEmpty: bool, h: Host)
    ensures var d := DisableAll(store);
      ParseForm(FieldList(d), data, unescape, allowEmpty, h, d) == (Ok(Arr([])), d)
  {
    var d := DisableAll(store);
    var fs := FieldList(d);
    forall i | 0 <= i < |fs|
      ensures FlagSet(fs[i], "disabled")
    {
      assert Get(fs[i], "disabled") == Some(Bool(true));
    }
    AllDisabledParsesNothing(fs, data, unescape, allowEmpty, h, d);
  }

  /** Enabling after disabling removes the mark and leaves every other entry of every field as it was. */
  lemma EnableAfterDisable(store: Store)
    ensures var e := EnableAll(DisableAll(store));
      Keys(e) == Keys(store) &&
      forall i, k :: 0 <= i < |e| ==> Get(e[i].1, k) == if k == "disabled" then None else Get(store[i].1, k)
  {
  }

  // ---------------------------------------------------------------------
  // The object
  // ---------------------------------------------------------------------

  class Form {
    /** `$this->id`: null unless the settings give one. */
    var id: Value
    /** `$this->fields`. */
    var fields: Store
    /** `$this->data`: `$_POST` or `$_GET`, by request method. */
    var data: Entries
    var allowEmptyFieldValues: bool
    var wasSaved: bool

    /**
     * The settings part of the constructor (includes/Core/Form.php:497-516);
     * `post` and `get` are the request's superglobals.
     */
    constructor(settings: Entries, post: Entries, get: Entries, h: Host)
      ensures id == (if IsSetAt(settings, "id") then At(settings, "id") else Null)
      ensures data == (if MethodOf(settings, h) == "post" then post else get)
      ensures allowEmptyFieldValues == FlagSet(settings, AllowEmptyOption)
      ensures fields == [] && !wasSaved
    {
      id := if IsSetAt(settings, "id") then At(settings, "id") else Null;
      data := if MethodOf(settings, h) == "post" then post else get;
      allowEmptyFieldValues := FlagSet(settings, AllowEmptyOption);
      fields := [];
      wasSaved := false;
    }

    /**
     * `new Form($settings)` (includes/Core/Form.php:497-525): the settings,
     * then every field of a non-empty `fields` setting added in order. A
     * failing add_field aborts the construction.
     */
    static method Create(settings: Entries, post: Entries, get: Entries, uniq: nat -> string, h: Host) returns (r: Result<Form, string>)
      ensures var added := AddAll([], InitialFields(settings), if IsSetAt(settings, "id") then At(settings, "id") else Null, uniq, 0, h);
        (r.Ok? <==> added.Ok?) &&
        (r.Ok? ==> fresh(r.value) && r.value.fields == added.value && !r.value.wasSaved &&
                   r.value.allowEmptyFieldValues == FlagSet(settings, AllowEmptyOption) &&
                   r.value.id == (if IsSetAt(settings, "id") then At(settings, "id") else Null) &&
                   r.value.data == (if MethodOf(settings, h) == "post" then post else get))
      ensures r.Err? ==> r.error == AddAll([], InitialFields(settings), if IsSetAt(settings, "id") then At(settings, "id") else Null, uniq, 0, h).error
    {
      var form := new Form(settings, post, get, h);
      var fs := InitialFields(settings);
      var i := 0;
      while i < |fs|
        invariant 0 <= i <= |fs|
        invariant fresh(form) && !form.wasSaved && form.id == (if IsSetAt(settings, "id") then At(settings, "id") else Null)
        invariant form.allowEmptyFieldValues == FlagSet(settings, AllowEmptyOption)
        invariant form.data == (if MethodOf(settings, h) == "post" then post else get)
        invariant AddAll(form.fields, fs[i..], form.id, uniq, i, h) == AddAll([], fs, form.id, uniq, 0, h)
      {
        assert fs[i..][1..] == fs[i + 1..];
        if !fs[i].Arr? {
          return Err(FormAddFieldTypeError);
        }
        var added := form.AddField(fs[i].entries, uniq(i), h);
        if added.Err? {
          return Err(added.error);
        }
        i := i + 1;
      }
      return Ok(form);
    }

    /** get_request_data (includes/Core/Form.php:587-589). */
    function RequestData(): Result<Value, Failure>
      reads this
    {
      RequestDataOf(id, data)
    }

    /** add_field (includes/Core/Form.php:1075-1083); `uniq` is what uniqid would append. */
    method AddField(field: Entries, uniq: string, h: Host) returns (r: Result<bool, string>)
      modifies this`fields
      ensures match WithField(old(fields), field, id, uniq, h)
        case Ok(s) => r == Ok(true) && fields == s
        case Err(e) => r == Err(e) && fields == old(fields)
    {
      var created := CreateField(field, id, uniq, h);
      if created.Err? {
        return Err(created.error);
      }
      var key := ToKey(At(created.value, "original_name"));
      if key.None? {
        return Err(IllegalOffset);
      }
      fields := Put(fields, key.value, created.value);
      return Ok(true);
    }

    /** remove_field (includes/Core/Form.php:1091-1093). */
    method RemoveField(name: Key)
      modifies this`fields
      ensures fields == Remove(old(fields), name)
    {
      fields := Remove(fields, name);
    }

    /** set_field_value (includes/Core/Form.php:1102-1108): only a field that exists takes the unserialised value. */
    method SetFieldValue(name: Key, value: Value, h: Host)
      modifies this`fields
      ensures fields == Assign(old(fields), name, h.maybeUnserialize(value))
    {
      if !HasKey(fields, name) {
        return;
      }
      fields := Assign(fields, name, h.maybeUnserialize(value));
    }

    /**
     * parse (includes/Core/Form.php:606-627): values from `given` (unless it
     * loosely equals the form's own data), then from the request data, go to
     * the fields they name; the request data is applied last and so wins.
     */
    method Parse(given: Value) returns (r: Result<bool, Failure>)
      modifies this`fields
      ensures var first := if !LooseEq(given, Arr(data)) then AssignFrom(old(fields), given) else old(fields);
        match RequestData()
        case Err(f) => r == Err(f) && fields == first
        case Ok(request) => r == Ok(true) && fields == AssignFrom(first, request)
    {
      if !LooseEq(given, Arr(data)) && given.Arr? {
        AssignEach(given.entries);
      }
      var request := RequestData();
      if request.Err? {
        return Err(request.error);
      }
      if request.value.Arr? {
        AssignEach(request.value.entries);
      }
      return Ok(true);
    }

    /** One `foreach ($data as $key => $value)` of parse. */
    method AssignEach(es: Entries)
      modifies this`fields
      ensures fields == AssignAll(old(fields), es)
    {
      var i := 0;
      while i < |es|
        invariant 0 <= i <= |es|
        invariant AssignAll(fields, es[i..]) == AssignAll(old(fields), es)
      {
        assert es[i..][1..] == es[i + 1..];
        var (key, value) := es[i];
        if HasKey(fields, key) {
          var f := Get(fields, key).value;
          fields := Put(fields, key, Put(f, "value", value));
        }
        i := i + 1;
      }
    }

    /** disable (includes/Core/Form.php:634-638). */
    method Disable()
      modifies this`fields
      ensures fields == DisableAll(old(fields))
    {
      var i := 0;
      while i < |fields|
        invariant 0 <= i <= |fields| && |fields| == |old(fields)|
        invariant forall j :: 0 <= j < i ==> fields[j] == (old(fields)[j].0, Put(old(fields)[j].1, "disabled", Bool(true)))
        invariant forall j :: i <= j < |fields| ==> fields[j] == old(fields)[j]
      {
        fields := fields[i := (fields[i].0, Put(fields[i].1, "disabled", Bool(true)))];
        i := i + 1;
      }
    }

    /** enable (includes/Core/Form.php:645-649). */
    method Enable()
      modifies this`fields
      ensures fields == EnableAll(old(fields))
    {
      var i := 0;
      while i < |fields|
        invariant 0 <= i <= |fields| && |fields| == |old(fields)|
        invariant forall j :: 0 <= j < i ==> fields[j] == (old(fields)[j].0, Remove(old(fields)[j].1, "disabled"))
        invariant forall j :: i <= j < |fields| ==> fields[j] == old(fields)[j]
      {
        fields := fields[i := (fields[i].0, Remove(fields[i].1, "disabled"))];
        i := i + 1;
      }
    }

    /** parse_form's loop body for one field, with the select branch's option loop run as a loop. */
    method StepField(field: Entries, given: Value, unescape: bool, h: Host) returns (s: Step)
      ensures s == FieldStep(field, given, unescape, allowEmptyFieldValues, h)
    {
      var lookup := LookupField(field, given, h);
      if !lookup.Found? {
        return Decide(field, lookup, unescape, allowEmptyFieldValues, h);
      }
      var converted := ConvertField(field, lookup.value, unescape, h);
      FoundStep(field, lookup, converted, unescape, allowEmptyFieldValues, h);
      if converted.Err? {
        return Fail(converted.error);
      }
      return Fallback(field, lookup.name, lookup.path, converted.value, allowEmptyFieldValues);
    }

    /** The loop body once a submitted value is found: the conversion's failure, or the fallback rules on its result. */
    static lemma FoundStep(field: Entries, lookup: Lookup, converted: Result<Value, Failure>, unescape: bool, allowEmpty: bool, h: Host)
      requires lookup.Found? && converted == ConvertValue(field, lookup.value, unescape, h)
      ensures Decide(field, lookup, unescape, allowEmpty, h) ==
        if converted.Err? then Fail(converted.error) else Fallback(field, lookup.name, lookup.path, converted.value, allowEmpty)
    {
    }

    /** The type switch of parse_form's loop body (includes/Core/Form.php:739-826), the select branch run as a loop. */
    static method ConvertField(field: Entries, value: Value, unescape: bool, h: Host) returns (r: Result<Value, Failure>)
      ensures r == ConvertValue(field, value, unescape, h)
    {
      var kind := KindOf(field);
      if kind == SelectKind {
        r := CheckSelect(field, value, h);
      } else {
        r := ConvertAs(kind, field, value, unescape, h);
      }
    }

    /**
     * The end of parse_form's loop body (includes/Core/Form.php:850-854): an
     * accepted value is set into the result and written back to the store.
     */
    method ApplyStep(s: Step, result: Value) returns (r: Result<Value, Failure>)
      modifies this`fields
      ensures s.Skip? ==> r == Ok(result) && fields == old(fields)
      ensures s.Fail? ==> r == Err(s.failure) && fields == old(fields)
      ensures s.Accept? && SetByKeys(result, s.keys, s.value).Err? ==>
        r == Err(Fatal(SetByKeys(result, s.keys, s.value).error)) && fields == old(fields)
      ensures s.Accept? && SetByKeys(result, s.keys, s.value).Ok? ==>
        r == Ok(SetByKeys(result, s.keys, s.value).value) && fields == WriteBack(old(fields), s.name, s.slot, s.value)
    {
      match s {
        case Skip =>
          return Ok(result);
        case Fail(f) =>
          return Err(f);
        case Accept(keys, name, slot, v) =>
          var next := SetByKeys(result, keys, v);
          if next.Err? {
            return Err(Fatal(next.error));
          }
          fields := WriteBack(fields, name, slot, v);
          return Ok(next.value);
      }
    }

    /**
     * parse_form (includes/Core/Form.php:710-857): the fields `fs` in order,
     * building the result tree and writing accepted values back onto the
     * store; the first failure ends it.
     */
    method ParseFields(fs: seq<Entries>, given: Value, unescape: bool, h: Host) returns (r: Result<Value, Failure>)
      modifies this`fields
      ensures (r, fields) == ParseForm(fs, given, unescape, allowEmptyFieldValues, h, old(fields))
    {
      ghost var steps := Steps(fs, given, unescape, allowEmptyFieldValues, h);
      forall j | 0 <= j < |fs|
        ensures steps[j] == FieldStep(fs[j], given, unescape, allowEmptyFieldValues, h)
      {
        StepsAt(fs, j, given, unescape, allowEmptyFieldValues, h);
      }
      r := FieldLoop(fs, steps, given, unescape, h);
    }

    /** The loop of parse_form, run field by field; `steps` says what each field's step is. */
    method FieldLoop(fs: seq<Entries>, ghost steps: seq<Step>, given: Value, unescape: bool, h: Host) returns (r: Result<Value, Failure>)
      requires |steps| == |fs|
      requires forall j {:trigger steps[j], fs[j]} :: 0 <= j < |fs| ==> steps[j] == FieldStep(fs[j], given, unescape, allowEmptyFieldValues, h)
      modifies this`fields
      ensures (r, fields) == Fold(steps, Arr([]), old(fields))
    {
      ghost var target := Fold(steps, Arr([]), fields);
      var result := Arr([]);
      var i := 0;
      assert steps[0..] == steps;
      while i < |fs|
        invariant 0 <= i <= |fs|
        invariant Fold(steps[i..], result, fields) == target
      {
        var s := StepField(fs[i], given, unescape, h);
        FoldStep(steps, i, result, fields);
        var next := ApplyStep(s, result);
        if next.Err? {
          return Err(next.error);
        }
        result := next.value;
        i := i + 1;
      }
      assert steps[i..] == [];
      return Ok(result);
    }

    /**
     * process (includes/Core/Form.php:867-882): parse the fields against
     * `given`, or against the request data when it is null. The form counts
     * as saved afterwards, even when parsing reported an error; only a PHP
     * error thrown on the way keeps it from getting there.
     */
    method Process(given: Value, options: Entries, h: Host) returns (r: Result<Value, Failure>)
      modifies this`fields, this`wasSaved
      ensures var input := if given == Null then RequestData() else Ok(given);
        if input.Err? then r == input && fields == old(fields) && wasSaved == old(wasSaved)
        else
          (r, fields) == ParseForm(FieldList(old(fields)), input.value, StrictTrueAt(options, DisableSqlEscapeOption), allowEmptyFieldValues, h, old(fields)) &&
          wasSaved == (old(wasSaved) || !(r.Err? && r.error.Fatal?))
    {
      var input := given;
      if given == Null {
        var request := RequestData();
        if request.Err? {
          return Err(request.error);
        }
        input := request.value;
      }
      r := ParseFields(FieldList(fields), input, StrictTrueAt(options, DisableSqlEscapeOption), h);
      if !(r.Err? && r.error.Fatal?) {
        wasSaved := true;
      }
    }
  }
}
