/**
 * The attribute decisions render_field (includes/Core/Form.php:36-231)
 * makes before it builds the input element: which fields return early, the
 * tag and type, the name (with "[]" for a multiple select), the value (a
 * posted value when none is given, "1" for an empty checkbox), the class,
 * and the tabindex drawn from the counter that persists across calls.
 */
module FormRender {
  import opened Wrappers
  import opened Strings
  import opened Php
  import FormParse

  /** What render_field produces, reduced to the decisions modelled here. */
  datatype Rendered =
    | NoField                           // null data: `return false`
    | Passthrough(kind: Value)          // html, divider, editor, repeater: printed without an input element
    | Thrown(reason: string)            // a PHP error: see EarlyFailure and LateFailure
    | Input(tag: Value, typeAttr: Value, name: Value, value: Value, tabindex: Value, klass: Value)

  /** The defaults render_field merges the given data into; `count` is the counter's current value. */
  function Defaults(count: int): Entries
  {
    [("type", Str("text")), ("name", Null), ("placeholder", Null), ("value", Null),
     ("required", Bool(false)), ("maxlength", Null), ("class", Str("form-control")), ("form", Bool(false)),
     ("checked", Null), ("readonly", Bool(false)), ("disabled", Bool(false)), ("id", Null),
     ("default", Null), ("options", Arr([])), ("attributes", Arr([])), ("step", Int(1)),
     ("max", Null), ("min", Null), ("title", Null), ("selected", Bool(false)), ("return", Bool(false)),
     ("multiple", Bool(false)), ("tabindex", Int(count)), ("pattern", Null), ("mapToFront", Null),
     ("accept", Null), ("autocomplete", Null), ("text", Null)]
  }

  /** `(array) $data`: an array as it is, a scalar as a one-entry list. */
  function AsArray(data: Value): Entries
  {
    if data.Arr? then data.entries else [("0", data)]
  }

  /** `array_merge($defaults, (array) $data)`. */
  function Settings(data: Value, count: int): Entries
  {
    ArrayMerge(Defaults(count), AsArray(data))
  }

  /**
   * The types that print something else and return before any input is built.
   * A repeater prints its sub-fields through render_fields; those calls are
   * not part of this model.
   */
  predicate ReturnsEarly(t: Value)
  {
    t == Str("html") || t == Str("divider") || t == Str("editor") || t == Str("repeater")
  }

  /** The type the input is built with: a CKEditor is a textarea, a date picker a text input. */
  function FinalType(t: Value): Value
  {
    if t == Str("ckeditor") then Str("textarea") else if t == Str("date") then Str("text") else t
  }

  /** Readonly or disabled, by truthiness. */
  predicate Locked(f: Entries)
  {
    FlagSet(f, "readonly") || FlagSet(f, "disabled")
  }

  /** Whether the field draws a number from the counter. */
  predicate Counted(f: Entries)
  {
    !Locked(f) && FinalType(At(f, "type")) != Str("hidden")
  }

  /** The given value, or the posted one escaped when none is given and the name is posted. */
  function PostedValue(f: Entries, post: Entries, h: Host): Result<Value, string>
  {
    if At(f, "value") != Null then Ok(At(f, "value"))
    else
      match ToKey(At(f, "name"))
      case None => Err(IllegalOffsetInIsset)
      case Some(k) => Ok(if IsSetAt(post, k) then Str(h.escAttr(At(post, k))) else Null)
  }

  /** A checkbox with an empty value gets "1". */
  function CheckboxValue(t: Value, v: Value): Value
  {
    if t == Str("checkbox") && Empty(v) then Str("1") else v
  }

  /** A multiple select's name gets "[]" appended. */
  function InputName(f: Entries, h: Host): Value
  {
    if FinalType(At(f, "type")) == Str("select") && At(f, "multiple") == Bool(true)
    then Str(ConcatStr(At(f, "name"), h) + "[]")
    else At(f, "name")
  }

  /** A select's class gets " custom-select"; a hidden input loses the default class. */
  function InputClass(f: Entries, h: Host): Value
  {
    var t := FinalType(At(f, "type"));
    var c := At(f, "class");
    var c' := if t == Str("select") && c != Null then Str(ConcatStr(c, h) + " custom-select") else c;
    if t == Str("hidden") && c' == Str("form-control") then Null else c'
  }

  const ArrayMergeTypeError := "TypeError: array_merge(): Argument #2 must be of type array"
  const CountTypeError := "TypeError: count(): Argument #1 ($value) must be of type Countable|array"
  const CallbackTypeError := "TypeError: call_user_func_array(): Argument #1 ($callback) must be a valid callback"
  const ArrayUnshiftTypeError := "TypeError: array_unshift(): Argument #1 ($array) must be of type array"

  /**
   * The error of writing a key into `$data->attributes`: null and false
   * become an empty array and an array takes the key; a string cannot take
   * a string offset, and any other scalar cannot be used as an array.
   */
  function AttributeWriteError(attrs: Value): (r: Option<string>)
    ensures r.None? <==> attrs == Null || attrs == Bool(false) || attrs.Arr?
  {
    match attrs
    case Null => None
    case Bool(b) => if b then Some(ScalarAsArray) else None
    case Arr(_) => None
    case Str(_) => Some(StringOffsetAccess)
    case _ => Some(ScalarAsArray)
  }

  /**
   * The failures before the counter is reached (includes/Core/Form.php:99-187):
   * a CKEditor writes its attributes and merges its `ckeditor` settings into
   * an array, then the posted value is looked up, then a select or a date
   * picker writes its attributes.
   */
  function EarlyFailure(f: Entries, post: Entries, h: Host): (r: Option<string>)
    ensures r.None? ==> PostedValue(f, post, h).Ok?
  {
    var t := At(f, "type");
    var ck := At(f, "ckeditor");
    if t == Str("ckeditor") && AttributeWriteError(At(f, "attributes")).Some? then AttributeWriteError(At(f, "attributes"))
    else if t == Str("ckeditor") && ck != Null && !ck.Arr? then Some(ArrayMergeTypeError)
    else if PostedValue(f, post, h).Err? then Some(PostedValue(f, post, h).error)
    else if (t == Str("select") || t == Str("date")) && AttributeWriteError(At(f, "attributes")).Some? then AttributeWriteError(At(f, "attributes"))
    else None
  }

  /** `$data->options`, replaced by what it returns when it is callable (includes/Core/Form.php:137-141). */
  function Options(f: Entries, h: Host): Value
  {
    var o := At(f, "options");
    if IsCallable(o, h) then h.call(o, [Arr(f)]) else o
  }

  /**
   * The failures after the counter has moved (includes/Core/Form.php:270-305),
   * for the field's value `v` at that point: an empty value makes render_field
   * count the options, which must be an array; a value or some options take
   * it on to the mapper, which must be callable when given, and, for a
   * select, to array_unshift (an array placeholder) or is_associative_array,
   * which both need the options to be an array.
   */
  function LateFailure(f: Entries, v: Value, h: Host): Option<string>
  {
    var o := Options(f, h);
    var mapper := At(f, "mapToFront");
    if Empty(v) && !o.Arr? then Some(CountTypeError)
    else if !Empty(v) || |o.entries| > 0 then
      if mapper != Null && !IsCallable(mapper, h) then Some(CallbackTypeError)
      else if FinalType(At(f, "type")) == Str("select") && !o.Arr? then
        Some(if At(f, "placeholder").Arr? then ArrayUnshiftTypeError else FormParse.IsAssociativeTypeError)
      else None
    else None
  }

  /**
   * render_field's decisions for the merged settings `f` with the counter at
   * `count`: what it builds and the counter afterwards.
   */
  function Decide(f: Entries, count: int, post: Entries, h: Host): (Rendered, int)
  {
    var t := At(f, "type");
    if ReturnsEarly(t) then (Passthrough(t), count)
    else if EarlyFailure(f, post, h).Some? then (Thrown(EarlyFailure(f, post, h).value), count)
    else
      var t' := FinalType(t);
      var v := CheckboxValue(t', PostedValue(f, post, h).value);
      var needsTag := t' == Str("textarea") || t' == Str("select") || t' == Str("button");
      var count' := if Counted(f) then count + 1 else count;
      var tabindex := if Locked(f) then Null else if Counted(f) then Int(count') else Int(-1);
      match LateFailure(f, v, h)
      case Some(e) => (Thrown(e), count')
      case None =>
        (Input(if needsTag then t' else Str("input"), if needsTag then Null else t',
               InputName(f, h), v, tabindex, InputClass(f, h)),
         count')
  }

  /**
   * An input that is neither readonly, disabled nor hidden takes the next
   * number of the counter; a hidden one gets -1, a readonly or disabled one
   * no tabindex at all, and neither moves the counter. A failure before the
   * counter is reached leaves it alone, one after it (the options and the
   * mapper) leaves it moved as for an input. An html, divider or editor
   * field does not move it; a repeater leaves it unchanged here too, because
   * its sub-fields, which render_fields renders and counts one by one, are
   * not rendered by this model.
   */
  lemma TabindexRule(f: Entries, count: int, post: Entries, h: Host)
    ensures var (r, count') := Decide(f, count, post, h);
      (r.Input? && Counted(f) ==> r.tabindex == Int(count + 1) && count' == count + 1) &&
      (r.Input? && Locked(f) ==> r.tabindex == Null && count' == count) &&
      (r.Input? && !Locked(f) && !Counted(f) ==> r.tabindex == Int(-1) && count' == count) &&
      (r.Passthrough? ==> count' == count) &&
      (r.Thrown? && EarlyFailure(f, post, h).Some? ==> count' == count) &&
      (r.Thrown? && EarlyFailure(f, post, h).None? ==> count' == if Counted(f) then count + 1 else count)
  {
  }

  /**
   * render_field fails exactly at the failures before the counter and, when
   * there is none, at those after it, with the first error met.
   */
  lemma FailureCases(f: Entries, count: int, post: Entries, h: Host)
    requires !ReturnsEarly(At(f, "type"))
    ensures var r := Decide(f, count, post, h).0;
      match EarlyFailure(f, post, h)
      case Some(e) => r == Thrown(e)
      case None =>
        var v := CheckboxValue(FinalType(At(f, "type")), PostedValue(f, post, h).value);
        match LateFailure(f, v, h)
        case Some(e) => r == Thrown(e)
        case None => r.Input?
  {
  }

  /**
   * A counted select whose options are not an array and not callable fails
   * after taking its number: counting them fails for an empty value, and
   * is_associative_array or array_unshift does for any other.
   */
  lemma SelectWithoutOptionArray(f: Entries, count: int, post: Entries, h: Host)
    requires At(f, "type") == Str("select") && Counted(f) && EarlyFailure(f, post, h).None?
    requires !At(f, "options").Arr? && !IsCallable(At(f, "options"), h) && At(f, "mapToFront") == Null
    ensures Decide(f, count, post, h).0.Thrown? && Decide(f, count, post, h).1 == count + 1
    ensures Decide(f, count, post, h).0.reason in {CountTypeError, FormParse.IsAssociativeTypeError, ArrayUnshiftTypeError}
  {
  }

  /** A CKEditor, select or date picker whose attributes are a string or a true scalar fails before the counter moves. */
  lemma ScalarAttributesFail(f: Entries, count: int, post: Entries, h: Host)
    requires At(f, "type") in [Str("ckeditor"), Str("select"), Str("date")]
    requires var a := At(f, "attributes"); a.Str? || a.Int? || a.Float? || a == Bool(true)
    ensures Decide(f, count, post, h).0.Thrown? && Decide(f, count, post, h).1 == count
  {
    assert AttributeWriteError(At(f, "attributes")).Some?;
    assert EarlyFailure(f, post, h).Some?;
  }

  /** The name of a multiple select ends in "[]"; every other input keeps its name. */
  lemma MultipleSelectName(f: Entries, count: int, post: Entries, h: Host)
    requires Decide(f, count, post, h).0.Input?
    ensures var name := Decide(f, count, post, h).0.name;
      if FinalType(At(f, "type")) == Str("select") && At(f, "multiple") == Bool(true)
      then name.Str? && |name.s| >= 2 && name.s[|name.s| - 2..] == "[]" && name.s[..|name.s| - 2] == ConcatStr(At(f, "name"), h)
      else name == At(f, "name")
  {
  }

  /** A checkbox input never has an empty value: an empty one becomes "1". */
  lemma CheckboxNeverEmpty(f: Entries, count: int, post: Entries, h: Host)
    requires FinalType(At(f, "type")) == Str("checkbox")
    requires Decide(f, count, post, h).0.Input?
    ensures var r := Decide(f, count, post, h).0;
      !Empty(r.value) && (r.value == Str("1") || r.value == PostedValue(f, post, h).value)
  {
  }

  /** A date picker is built as a text input and a CKEditor as a textarea element. */
  lemma ConvertedTypes(f: Entries, count: int, post: Entries, h: Host)
    requires Decide(f, count, post, h).0.Input?
    ensures At(f, "type") == Str("date") ==> Decide(f, count, post, h).0.typeAttr == Str("text")
    ensures At(f, "type") == Str("ckeditor") ==> Decide(f, count, post, h).0.tag == Str("textarea")
  {
  }

  /** Successive calls, the counter carried from one to the next. */
  function RenderAll(fs: seq<Entries>, count: int, post: Entries, h: Host): (r: (seq<Rendered>, int))
    ensures |r.0| == |fs|
  {
    if fs == [] then ([], count)
    else
      var d := Decide(fs[0], count, post, h);
      var rest := RenderAll(fs[1..], d.1, post, h);
      ([d.0] + rest.0, rest.1)
  }

  /** Fields that are all counted inputs get consecutive tabindexes from count + 1 on. */
  lemma {:induction false} ConsecutiveTabindexes(fs: seq<Entries>, count: int, post: Entries, h: Host)
    requires forall i :: 0 <= i < |fs| ==> CountedInput(fs[i], post, h)
    ensures RenderAll(fs, count, post, h).1 == count + |fs|
    ensures forall i :: 0 <= i < |fs| ==>
      RenderAll(fs, count, post, h).0[i].Input? && RenderAll(fs, count, post, h).0[i].tabindex == Int(count + i + 1)
  {
    if fs != [] {
      CountedStep(fs[0], count, post, h);
      ConsecutiveTabindexes(fs[1..], count + 1, post, h);
      TabindexesFrom([Decide(fs[0], count, post, h).0] + RenderAll(fs[1..], count + 1, post, h).0, count);
    }
  }

  /** Inputs numbered from count + 1 on, as a list: its first entry and the rest numbered from count + 2. */
  lemma TabindexesFrom(rs: seq<Rendered>, count: int)
    requires |rs| > 0 && rs[0].Input? && rs[0].tabindex == Int(count + 1)
    requires forall i :: 0 <= i < |rs| - 1 ==> rs[1..][i].Input? && rs[1..][i].tabindex == Int(count + 1 + i + 1)
    ensures forall i :: 0 <= i < |rs| ==> rs[i].Input? && rs[i].tabindex == Int(count + i + 1)
  {
    forall i | 0 < i < |rs|
      ensures rs[i].Input? && rs[i].tabindex == Int(count + i + 1)
    {
      assert rs[i] == rs[1..][i - 1];
    }
  }

  /** A counted input that neither returns early nor fails. */
  predicate CountedInput(f: Entries, post: Entries, h: Host)
  {
    Counted(f) && !ReturnsEarly(At(f, "type")) && EarlyFailure(f, post, h).None? &&
    LateFailure(f, CheckboxValue(FinalType(At(f, "type")), PostedValue(f, post, h).value), h).None?
  }

  /** Such a field renders an input with the next tabindex and moves the counter by one. */
  lemma CountedStep(f: Entries, count: int, post: Entries, h: Host)
    requires CountedInput(f, post, h)
    ensures Decide(f, count, post, h).0.Input? && Decide(f, count, post, h).0.tabindex == Int(count + 1)
    ensures Decide(f, count, post, h).1 == count + 1
  {
    TabindexRule(f, count, post, h);
  }

  /** The static `$field_count` of render_field. */
  class FieldRenderer {
    var fieldCount: int

    constructor()
      ensures fieldCount == 0
    {
      fieldCount := 0;
    }

    /** render_field (includes/Core/Form.php:36-231) up to the element it builds; `post` is `$_POST`. */
    method RenderField(data: Value, post: Entries, h: Host) returns (r: Rendered)
      modifies this
      ensures data == Null ==> r == NoField && fieldCount == old(fieldCount)
      ensures data != Null ==> (r, fieldCount) == Decide(Settings(data, old(fieldCount)), old(fieldCount), post, h)
    {
      if data == Null {
        return NoField;
      }
      var f := Settings(data, fieldCount);
      var t := At(f, "type");
      if ReturnsEarly(t) {
        return Passthrough(t);
      }
      var early := EarlyFailure(f, post, h);
      if early.Some? {
        return Thrown(early.value);
      }
      var t' := FinalType(t);
      var value := CheckboxValue(t', PostedValue(f, post, h).value);
      var tabindex: Value;
      if Locked(f) || t' == Str("hidden") {
        tabindex := if Locked(f) then Null else Int(-1);
      } else {
        fieldCount := fieldCount + 1;
        tabindex := Int(fieldCount);
      }
      var late := LateFailure(f, value, h);
      if late.Some? {
        return Thrown(late.value);
      }
      var needsTag := t' == Str("textarea") || t' == Str("select") || t' == Str("button");
      r := Input(if needsTag then t' else Str("input"), if needsTag then Null else t',
                 InputName(f, h), value, tabindex, InputClass(f, h));
    }
  }
}
