/**
 * The plugin core (includes/Core.php): the field-class registry, the
 * component list, the singleton instance, the registration of the default
 * fields and the metabox placement of matching components.
 */
module Plugin {
  import opened Wrappers
  import opened Php
  import opened FormParse
  import opened FieldModel
  import opened Components

  /** A field class as register_field receives it: its name and what its get_settings()->type returns. */
  datatype FieldClassRef = FieldClassRef(name: string, settingsType: string)

  /** `$default_fields` (includes/Core.php:37). */
  const DefaultFields: seq<string> := ["Text"]

  /** The namespace default field classes are looked up in. */
  const FieldsNamespace := "\\Framering\\Core\\Fields\\"

  /** A default field class; only Text exists, and it reports the type it inherits from Field. */
  function DefaultFieldClass(short: string): (f: FieldClassRef)
    ensures f.name == FieldsNamespace + short
  {
    FieldClassRef(FieldsNamespace + short, if short == "Textarea" then SettingsType(TextareaField) else SettingsType(TextField))
  }

  /** An add_meta_box call: id, title and context; the render callback is not modelled. */
  datatype Metabox = Metabox(id: Value, title: Value, context: string)

  /**
   * The metabox context of a `style->position` (includes/Core.php:152-162):
   * the switch compares loosely with "normal" first, then "lateral".
   */
  function MetaboxContext(position: Value): (c: string)
    ensures c == "side" <==> !LooseEq(position, Str("normal")) && LooseEq(position, Str("lateral"))
    ensures c != "side" ==> c == "advanced"
  {
    if LooseEq(position, Str("normal")) then "advanced"
    else if LooseEq(position, Str("lateral")) then "side"
    else "advanced"
  }

  /** "lateral" gives "side"; "normal", a missing position and any other string give "advanced". */
  lemma MetaboxContexts(s: string)
    ensures MetaboxContext(Str("lateral")) == "side"
    ensures MetaboxContext(Str("normal")) == "advanced"
    ensures MetaboxContext(Null) == "advanced"
    ensures s != "lateral" ==> MetaboxContext(Str(s)) == "advanced"
  {
  }

  /**
   * A registered component: the Component object plus the members the core
   * and the hooks call that includes/Component.php does not define (`id`,
   * `style->position`, get_name, has_form/create_form, and the outcome of
   * get_form()->process on the submitted data).
   */
  class Handle {
    const component: Component
    const id: Value
    const position: Value
    const name: Key
    const process: Value -> Result<Entries, Failure>
    var hasForm: bool

    constructor(component: Component, id: Value, position: Value, name: Key, process: Value -> Result<Entries, Failure>)
      ensures this.component == component && this.id == id && this.position == position && this.name == name
      ensures this.process == process && !hasForm
    {
      this.component := component;
      this.id := id;
      this.position := position;
      this.name := name;
      this.process := process;
      hasForm := false;
    }

    /** create_form: afterwards the component has a form. */
    method CreateForm()
      modifies this
      ensures hasForm
    {
      hasForm := true;
    }
  }

  /** register_metaboxes of the core: a metabox for each component whose check passes, until one throws. */
  function CheckedMetaboxes(hs: seq<Handle>, ctx: Context): (r: Result<seq<Metabox>, string>)
    ensures r.Ok? ==> |r.value| <= |hs|
    decreases |hs|
  {
    if hs == [] then Ok([])
    else
      var c := hs[0].component;
      match CheckOutcome(c.rules, ctx)
      case Err(e) => Err(e)
      case Ok(pass) =>
        match CheckedMetaboxes(hs[1..], ctx)
        case Err(e) => Err(e)
        case Ok(rest) => Ok(BoxOf(hs[0], pass) + rest)
  }

  /** The metabox a component adds when its check passes. */
  function BoxOf(hd: Handle, pass: bool): seq<Metabox>
  {
    if pass then [Metabox(hd.id, hd.component.title, MetaboxContext(hd.position))] else []
  }

  /** One iteration of register_metaboxes' loop. */
  lemma MetaboxStep(hs: seq<Handle>, i: nat, ctx: Context)
    requires i < |hs|
    ensures CheckOutcome(hs[i].component.rules, ctx).Err? ==>
      CheckedMetaboxes(hs[i..], ctx) == Err(CheckOutcome(hs[i].component.rules, ctx).error)
    ensures CheckOutcome(hs[i].component.rules, ctx).Ok? ==>
      CheckedMetaboxes(hs[i..], ctx) ==
        Prefixed(BoxOf(hs[i], CheckOutcome(hs[i].component.rules, ctx).value), CheckedMetaboxes(hs[i + 1..], ctx))
  {
    assert hs[i..][1..] == hs[i + 1..];
    assert hs[i..][0] == hs[i];
  }

  /** Results gathered in two runs concatenate in order. */
  lemma PrefixedAppend<T>(a: seq<T>, b: seq<T>, r: Result<seq<T>, string>)
    ensures Prefixed(a, Prefixed(b, r)) == Prefixed(a + b, r)
  {
    match r {
      case Ok(more) => assert a + (b + more) == (a + b) + more;
      case Err(_) =>
    }
  }

  /**
   * Core (includes/Core.php). The static `$fields` and `$components` are
   * fields of the one instance Instance hands out.
   */
  class Core {
    /** Registered field classes by type, in registration order. */
    var fields: seq<(Key, FieldClassRef)>
    var components: seq<Handle>

    constructor()
      ensures fields == [] && components == []
    {
      fields := [];
      components := [];
    }

    /** register_field (includes/Core.php:103-105): stored under its settings type; a later class of the same type wins. */
    method RegisterField(f: FieldClassRef)
      modifies this`fields
      ensures fields == Put(old(fields), f.settingsType, f)
    {
      fields := Put(fields, f.settingsType, f);
    }

    /** get_field (includes/Core.php:93-95): an unregistered type reads as null. */
    function GetField(t: Key): (r: Option<FieldClassRef>)
      reads this`fields
      ensures r.Some? <==> HasKey(fields, t)
    {
      Get(fields, t)
    }

    /** register_component (includes/Core.php:113-115): appended, so registration order is kept. */
    method RegisterComponent(c: Handle)
      modifies this`components
      ensures components == old(components) + [c]
    {
      components := components + [c];
    }

    /** The registering part of init (includes/Core.php:53-57); hooking the actions is not modelled. */
    method Init()
      modifies this`fields
      ensures fields == Put(old(fields), "field", DefaultFieldClass("Text"))
    {
      var i := 0;
      while i < |DefaultFields|
        invariant 0 <= i <= |DefaultFields|
        invariant fields == if i == 0 then old(fields) else Put(old(fields), "field", DefaultFieldClass("Text"))
      {
        RegisterField(DefaultFieldClass(DefaultFields[i]));
        i := i + 1;
      }
    }

    /** register_metaboxes (includes/Core.php:147-169): the metaboxes added, or the exception a check throws. */
    method RegisterMetaboxes(ctx: Context) returns (r: Result<seq<Metabox>, string>)
      ensures r == CheckedMetaboxes(components, ctx)
    {
      var boxes: seq<Metabox> := [];
      var i := 0;
      assert components[i..] == components;
      match CheckedMetaboxes(components, ctx) {
        case Ok(more) => assert boxes + more == more;
        case Err(_) =>
      }
      while i < |components|
        invariant 0 <= i <= |components|
        invariant CheckedMetaboxes(components, ctx) == Prefixed(boxes, CheckedMetaboxes(components[i..], ctx))
      {
        var pass := components[i].component.Check(ctx);
        MetaboxStep(components, i, ctx);
        if pass.Err? {
          return Err(pass.error);
        }
        PrefixedAppend(boxes, BoxOf(components[i], pass.value), CheckedMetaboxes(components[i + 1..], ctx));
        ghost var before := boxes;
        if pass.value {
          var context := MetaboxContext(components[i].position);
          boxes := boxes + [Metabox(components[i].id, components[i].component.title, context)];
        }
        assert boxes == before + BoxOf(components[i], pass.value);
        i := i + 1;
      }
      assert components[i..] == [];
      assert boxes + [] == boxes;
      return Ok(boxes);
    }
  }

  /** `done` followed by what a later part of a loop adds, or its failure. */
  function Prefixed<T>(done: seq<T>, r: Result<seq<T>, string>): Result<seq<T>, string>
  {
    match r
    case Ok(more) => Ok(done + more)
    case Err(e) => Err(e)
  }

  /** A later registration for the same type replaces the earlier one; other types keep theirs. */
  lemma LastRegistrationWins(fields: seq<(Key, FieldClassRef)>, a: FieldClassRef, b: FieldClassRef, t: Key)
    requires a.settingsType == b.settingsType
    ensures Get(Put(Put(fields, a.settingsType, a), b.settingsType, b), a.settingsType) == Some(b)
    ensures t != a.settingsType ==> Get(Put(Put(fields, a.settingsType, a), b.settingsType, b), t) == Get(fields, t)
  {
  }

  /** The default Text class registers under "field", not under "text". */
  lemma TextRegistersAsField()
    ensures DefaultFieldClass("Text").settingsType == "field"
  {
  }

  /** The process-wide state holding the instance. */
  class Runtime {
    var instance: Option<Core>

    constructor()
      ensures instance == None
    {
      instance := None;
    }

    /** Instance (includes/Core.php:39-47): created on the first call, the same object afterwards. */
    method Instance() returns (c: Core)
      modifies this
      ensures old(instance).Some? ==> c == old(instance).value
      ensures old(instance).None? ==> fresh(c) && c.fields == [] && c.components == []
      ensures instance == Some(c)
    {
      if instance.None? {
        var created := new Core();
        instance := Some(created);
      }
      c := instance.value;
    }
  }
}
