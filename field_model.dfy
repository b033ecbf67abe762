/**
 * The field model (includes/Model/Field.php) and the two field types built
 * on it (includes/Core/Fields/Text.php, includes/Core/Fields/Textarea.php):
 * wire names and meta keys built over a parent chain and a component, and
 * a value cache over the post-meta store.
 */
module FieldModel {
  import opened Wrappers
  import opened Strings
  import opened Php

  /** FRAMERING_PREFIX (framering.php:12). */
  const FrameringPrefix := "fr_"

  /** The prefix of every field meta key. */
  const KeyPrefix := FrameringPrefix + "field_"

  /** The class a field object is an instance of. */
  datatype FieldClass = BaseField | TextField | TextareaField

  /**
   * `get_settings()->type`: Field says "field"; Text only declares an unread
   * static `$settings` and so inherits "field"; Textarea says "textarea".
   */
  function SettingsType(c: FieldClass): (t: string)
    ensures t == "textarea" <==> c == TextareaField
    ensures c != TextareaField ==> t == "field"
  {
    match c
    case BaseField => "field"
    case TextField => "field"
    case TextareaField => "textarea"
  }

  /** The attributes a field has when constructed with an empty array. */
  const DefaultAttributes: Entries := [("title", Null), ("description", Null)]

  /** A WP_Post, known by its ID. */
  datatype PostRef = PostRef(id: int)

  /**
   * The post argument of a meta call: get_value passes `$post->ID` (null
   * when there is no post), set_value passes the `$this->post` object itself;
   * the two stay apart here.
   */
  datatype Target = ById(id: Value) | ByObject(post: Option<PostRef>)

  /** `$post->ID`, null on a missing post. */
  function IdOf(post: Option<PostRef>): Value
  {
    if post.Some? then Int(post.value.id) else Null
  }

  /** The post-meta store, keyed by target and meta key. */
  type Meta = map<(Target, string), Value>

  /** An ID get_metadata refuses: null, or one whose absint is 0. */
  predicate NoObjectId(t: Target)
  {
    t == ById(Null) || t == ById(Int(0))
  }

  /**
   * `get_post_meta($id, $key, true)`: false for a missing ID (no post), else
   * the stored value, or "" when there is none.
   */
  function ReadMeta(meta: Meta, t: Target, key: string): (v: Value)
    ensures NoObjectId(t) ==> v == Bool(false)
    ensures !NoObjectId(t) && (t, key) !in meta ==> v == Str("")
    ensures !NoObjectId(t) && (t, key) in meta ==> v == meta[(t, key)]
  {
    if NoObjectId(t) then Bool(false)
    else if (t, key) in meta then meta[(t, key)] else Str("")
  }

  /** What get_post can see: the current post, the `post` query argument (null when unset), and the lookup by ID. */
  datatype Site = Site(current: Option<PostRef>, postArg: Value, byId: Value -> Option<PostRef>)

  /** The post get_post settles on (includes/Model/Field.php:146-156). */
  function PostOf(cached: Option<PostRef>, site: Site): (p: Option<PostRef>)
    ensures cached.Some? ==> p == cached
    ensures cached.None? && site.current.Some? ==> p == site.current
    ensures cached.None? && site.current.None? && site.postArg == Null ==> p.None?
  {
    if cached.Some? then cached
    else if site.current.Some? then site.current
    else if site.postArg != Null then site.byId(site.postArg)
    else None
  }

  /** `array_merge($attributes, [type => "text", name => …, value => …])` (includes/Model/Field.php:212-218). */
  function BaseEditorEntries(attributes: Entries, name: string, value: Value): Entries
  {
    ArrayMerge(attributes, [("type", Str("text")), ("name", Str(name)), ("value", value)])
  }

  /** get_editor_field of each class: Text and Textarea merge `type => "text"` once more. */
  function EditorEntries(c: FieldClass, attributes: Entries, name: string, value: Value): Entries
  {
    var base := BaseEditorEntries(attributes, name, value);
    if c == BaseField then base else ArrayMerge(base, [("type", Str("text"))])
  }

  /** Keys starting with a letter are string keys. */
  lemma LetterKey(k: Key)
    requires |k| > 0 && !IsDigit(k[0]) && k[0] != '-'
    ensures !IsIntKey(k)
  {
  }

  /** The base editor field: the three overridden keys, and every other string key as in the attributes. */
  lemma BaseEditorAt(attributes: Entries, name: string, value: Value, k: Key)
    requires DistinctKeys(attributes) && !IsIntKey(k)
    ensures Get(BaseEditorEntries(attributes, name, value), k) ==
      if k == "type" then Some(Str("text")) else if k == "name" then Some(Str(name))
      else if k == "value" then Some(value) else Get(attributes, k)
  {
    var extra := [("type", Str("text")), ("name", Str(name)), ("value", value)];
    assert DistinctKeys(extra);
    ArrayMergeAt(attributes, extra, k);
    assert extra[1..] == [("name", Str(name)), ("value", value)];
    assert extra[1..][1..] == [("value", value)];
    if k == "type" {
      assert Get(extra, k) == Some(Str("text"));
    } else if k == "name" {
      assert Get(extra, k) == Some(Str(name));
    } else if k == "value" {
      assert "type"[0] != "value"[0] && "name"[0] != "value"[0];
      assert Get(extra, k) == Get(extra[1..], k) == Get(extra[1..][1..], k);
    } else {
      assert !HasKey(extra, k);
    }
  }

  /** The three overridden keys, for every class; string keys not overridden keep their attribute value. */
  lemma EditorEntriesAt(c: FieldClass, attributes: Entries, name: string, value: Value, k: Key)
    requires DistinctKeys(attributes) && !IsIntKey(k)
    ensures Get(EditorEntries(c, attributes, name, value), k) ==
      if k == "type" then Some(Str("text")) else if k == "name" then Some(Str(name))
      else if k == "value" then Some(value) else Get(attributes, k)
  {
    BaseEditorAt(attributes, name, value, k);
    if c != BaseField {
      var base := BaseEditorEntries(attributes, name, value);
      MergeDistinct(attributes, [("type", Str("text")), ("name", Str(name)), ("value", value)]);
      ArrayMergeAt(base, [("type", Str("text"))], k);
    }
  }

  /** array_merge of two arrays with distinct keys has distinct keys. */
  lemma MergeDistinct(a: Entries, b: Entries)
    ensures DistinctKeys(ArrayMerge(a, b))
  {
    MergeIntoDistinct([], a, 0);
    var left := MergeInto([], a, 0);
    MergeIntoDistinct(left.0, b, left.1);
  }

  /** Folding entries in by Put keeps keys distinct. */
  lemma {:induction false} MergeIntoDistinct(acc: Entries, es: Entries, next: nat)
    requires DistinctKeys(acc)
    ensures DistinctKeys(MergeInto(acc, es, next).0)
    decreases |es|
  {
    if es != [] {
      if IsIntKey(es[0].0) {
        PutDistinct(acc, DecInt(next), es[0].1);
        MergeIntoDistinct(Put(acc, DecInt(next), es[0].1), es[1..], next + 1);
      } else {
        PutDistinct(acc, es[0].0, es[0].1);
        MergeIntoDistinct(Put(acc, es[0].0, es[0].1), es[1..], next);
      }
    }
  }

  /** `"[" + n + "]"` for each name, in order. */
  function Brackets(names: seq<string>): (s: string)
    ensures names != [] ==> s == Brackets(names[..|names| - 1]) + "[" + names[|names| - 1] + "]"
  {
    if names == [] then "" else Brackets(names[..|names| - 1]) + "[" + names[|names| - 1] + "]"
  }

  /**
   * A field. Its attributes, parent and component are fixed at construction;
   * the value cache and the post it resolved are updated by get_value and
   * set_value. The component is known by what its get_name() returns.
   */
  class Field {
    const kind: FieldClass
    const attributes: Entries
    const parent: Option<Field>
    const component: Option<string>
    /** The length of the parent chain, which bounds the recursion of get_name and get_key. */
    ghost const depth: nat
    var value: Value
    var post: Option<PostRef>

    /** Every parent sits lower in the chain than its child. */
    ghost predicate Chain()
      decreases depth
    {
      if parent.Some? then depth == parent.value.depth + 1 && parent.value.Chain() else depth == 0
    }

    /**
     * The constructor (includes/Model/Field.php:79-91). `parent` stands for
     * the object under the "parent" attribute when that is non-empty, and
     * `component` for a non-empty component argument.
     */
    constructor(kind: FieldClass, attributes: Entries, parent: Option<Field>, component: Option<string>)
      requires parent.Some? ==> parent.value.Chain() && HasKey(attributes, "parent")
      ensures Chain()
      ensures this.kind == kind && this.parent == parent && this.component == component
      ensures this.attributes == if attributes == [] then DefaultAttributes else attributes
      ensures value == Null && post == None
    {
      this.kind := kind;
      this.attributes := if attributes == [] then DefaultAttributes else attributes;
      this.parent := parent;
      this.component := component;
      this.depth := if parent.Some? then parent.value.depth + 1 else 0;
      value := Null;
      post := None;
    }

    /** `$this->attributes["name"]` in string context. */
    function OwnName(h: Host): string
    {
      ConcatStr(At(attributes, "name"), h)
    }

    /** get_name (includes/Model/Field.php:98-116). */
    function Name(h: Host): string
      requires Chain()
      decreases depth
    {
      var opening := if component.Some? then component.value + "[" else "";
      var name := if parent.Some? then parent.value.Name(h) + "[" + OwnName(h) + "]" else opening + OwnName(h);
      if component.Some? then name + "]" else name
    }

    /** get_key (includes/Model/Field.php:123-138). */
    function Key(h: Host): string
      requires Chain()
      decreases depth
    {
      var key := if component.Some? then KeyPrefix + component.value + "_" else KeyPrefix;
      if parent.Some? then key + parent.value.Key(h) + "_" + OwnName(h) else key + OwnName(h)
    }

    /** has_parent (includes/Model/Field.php:203-205). */
    function HasParent(): (r: bool)
      ensures r <==> parent.Some?
    {
      parent.Some?
    }

    /** The names along the parent chain, from the root to this field. */
    ghost function Lineage(h: Host): (ns: seq<string>)
      requires Chain()
      ensures |ns| == depth + 1 && ns[|ns| - 1] == OwnName(h)
      decreases depth
    {
      if parent.Some? then parent.value.Lineage(h) + [OwnName(h)] else [OwnName(h)]
    }

    /** No field along the parent chain has a component. */
    ghost predicate Unowned()
      requires Chain()
      decreases depth
    {
      component.None? && (parent.Some? ==> parent.value.Unowned())
    }

    /** get_post (includes/Model/Field.php:146-156): resolved once, then cached. */
    method GetPost(site: Site) returns (p: Option<PostRef>)
      modifies this`post
      ensures p == PostOf(old(post), site) && post == p
    {
      if post.None? {
        post := site.current;
        if post.None? && site.postArg != Null {
          post := site.byId(site.postArg);
        }
      }
      p := post;
    }

    /**
     * get_value (includes/Model/Field.php:163-172): the store is read (and
     * unserialized) only while the cache holds null.
     */
    method GetValue(site: Site, meta: Meta, h: Host) returns (v: Value)
      requires Chain()
      modifies this`value, this`post
      ensures old(value) != Null ==> v == old(value) && post == old(post)
      ensures old(value) == Null ==>
        post == PostOf(old(post), site) && v == h.maybeUnserialize(ReadMeta(meta, ById(IdOf(post)), Key(h)))
      ensures value == v
    {
      if value == Null {
        var p := GetPost(site);
        value := ReadMeta(meta, ById(IdOf(p)), Key(h));
        value := h.maybeUnserialize(value);
      }
      v := value;
    }

    /**
     * set_value (includes/Model/Field.php:181-187): the cache always takes
     * the new value; the store is written, serialized, only when `save` holds.
     */
    method SetValue(newValue: Value, save: bool, store: MetaStore, h: Host)
      requires Chain()
      modifies this`value, store
      ensures value == newValue
      ensures store.meta == if save then old(store.meta)[(ByObject(post), Key(h)) := h.maybeSerialize(newValue)] else old(store.meta)
    {
      value := newValue;
      if save {
        store.Update(ByObject(post), Key(h), h.maybeSerialize(value));
      }
    }

    /** get_editor_field of the field's class (includes/Model/Field.php:212-218 and its overrides). */
    method EditorField(site: Site, meta: Meta, h: Host) returns (r: Entries)
      requires Chain()
      modifies this`value, this`post
      ensures r == EditorEntries(kind, attributes, Name(h), value)
      ensures old(value) != Null ==> value == old(value) && post == old(post)
      ensures old(value) == Null ==>
        post == PostOf(old(post), site) && value == h.maybeUnserialize(ReadMeta(meta, ById(IdOf(post)), Key(h)))
    {
      var v := GetValue(site, meta, h);
      r := ArrayMerge(attributes, [("type", Str("text")), ("name", Str(Name(h))), ("value", v)]);
      if kind != BaseField {
        r := ArrayMerge(r, [("type", Str("text"))]);
      }
    }
  }

  /** The post-meta store as update_post_meta changes it. */
  class MetaStore {
    var meta: Meta

    constructor(meta: Meta)
      ensures this.meta == meta
    {
      this.meta := meta;
    }

    /** delete_post_meta: the key is removed for the target. */
    method Delete(t: Target, key: string)
      modifies this
      ensures meta == old(meta) - {(t, key)}
    {
      meta := meta - {(t, key)};
    }

    /** update_post_meta: the value is recorded under the target and key. */
    method Update(t: Target, key: string, v: Value)
      modifies this
      ensures meta == old(meta)[(t, key) := v]
    {
      meta := meta[(t, key) := v];
    }
  }

  // ---------------------------------------------------------------------
  // Names and keys over the parent chain
  // ---------------------------------------------------------------------

  /** With neither component nor parent the name is the name attribute. */
  lemma NameAlone(f: Field, h: Host)
    requires f.Chain() && f.parent.None? && f.component.None?
    ensures f.Name(h) == f.OwnName(h)
  {
  }

  /** With a component and no parent the name is `component[name]`. */
  lemma NameInComponent(f: Field, h: Host)
    requires f.Chain() && f.parent.None? && f.component.Some?
    ensures f.Name(h) == f.component.value + "[" + f.OwnName(h) + "]"
  {
  }

  /** With a parent the component prefix is lost, but its closing bracket is still added. */
  lemma NameUnderParent(f: Field, h: Host)
    requires f.Chain() && f.parent.Some?
    ensures f.component.None? ==> f.Name(h) == f.parent.value.Name(h) + "[" + f.OwnName(h) + "]"
    ensures f.component.Some? ==> f.Name(h) == f.parent.value.Name(h) + "[" + f.OwnName(h) + "]" + "]"
  {
  }

  /** Along a chain without components the name is the root name followed by each descendant in brackets. */
  lemma {:induction false} NameOfChain(f: Field, h: Host)
    requires f.Chain() && f.Unowned()
    ensures f.Name(h) == f.Lineage(h)[0] + Brackets(f.Lineage(h)[1..])
    decreases f.depth
  {
    if f.parent.Some? {
      var p := f.parent.value;
      NameOfChain(p, h);
      BracketsSnoc(p.Lineage(h), f.OwnName(h));
    } else {
      assert f.Lineage(h)[1..] == [];
    }
  }

  /** Adding a last name to a lineage adds it in brackets to the name built from the lineage. */
  lemma BracketsSnoc(ns: seq<string>, n: string)
    requires |ns| >= 1
    ensures (ns + [n])[0] + Brackets((ns + [n])[1..]) == (ns[0] + Brackets(ns[1..])) + "[" + n + "]"
  {
    var tail := (ns + [n])[1..];
    assert tail == ns[1..] + [n];
    assert tail[..|tail| - 1] == ns[1..];
    BracketAfter(ns[0], Brackets(ns[1..]), n);
  }

  /** Appending a bracketed name regroups over a concatenation. */
  lemma BracketAfter(a: string, b: string, n: string)
    ensures (a + b) + "[" + n + "]" == a + (b + "[" + n + "]")
  {
  }

  /** Every meta key starts with "fr_field_", and a child's key embeds its parent's whole key. */
  lemma KeyShape(f: Field, h: Host)
    requires f.Chain()
    ensures |f.Key(h)| >= |KeyPrefix| && f.Key(h)[..|KeyPrefix|] == KeyPrefix
    ensures f.parent.Some? && f.component.None? ==> f.Key(h) == KeyPrefix + f.parent.value.Key(h) + "_" + f.OwnName(h)
    ensures f.parent.None? && f.component.None? ==> f.Key(h) == KeyPrefix + f.OwnName(h)
    ensures f.parent.None? && f.component.Some? ==> f.Key(h) == KeyPrefix + f.component.value + "_" + f.OwnName(h)
    ensures f.parent.Some? && f.component.Some? ==> f.Key(h) == KeyPrefix + f.component.value + "_" + f.parent.value.Key(h) + "_" + f.OwnName(h)
  {
    var key := if f.component.Some? then KeyPrefix + f.component.value + "_" else KeyPrefix;
    if f.component.Some? {
      PrefixGrows(KeyPrefix, KeyPrefix, f.component.value);
      PrefixGrows(KeyPrefix, KeyPrefix + f.component.value, "_");
    }
    if f.parent.Some? {
      PrefixGrows(KeyPrefix, key, f.parent.value.Key(h));
      PrefixGrows(KeyPrefix, key + f.parent.value.Key(h), "_");
      PrefixGrows(KeyPrefix, key + f.parent.value.Key(h) + "_", f.OwnName(h));
    } else {
      PrefixGrows(KeyPrefix, key, f.OwnName(h));
    }
  }

  /** Appending keeps a prefix. */
  lemma PrefixGrows(p: string, x: string, y: string)
    requires |x| >= |p| && x[..|p|] == p
    ensures |x + y| >= |p| && (x + y)[..|p|] == p
  {
    assert (x + y)[..|p|] == x[..|p|];
  }

  /** Along a chain without components the key carries one "fr_field_" per level. */
  lemma {:induction false} KeyLength(f: Field, h: Host)
    requires f.Chain() && f.Unowned()
    ensures |f.Key(h)| >= (f.depth + 1) * |KeyPrefix|
    decreases f.depth
  {
    if f.parent.Some? {
      KeyLength(f.parent.value, h);
    }
  }

  /** Text registers under "field" and Textarea under "textarea", yet both edit as a "text" input. */
  lemma EditorTypeIsText(c: FieldClass, attributes: Entries, name: string, value: Value)
    requires DistinctKeys(attributes)
    ensures Get(EditorEntries(c, attributes, name, value), "type") == Some(Str("text"))
    ensures SettingsType(TextField) == "field" && SettingsType(TextareaField) == "textarea"
  {
    LetterKey("type");
    EditorEntriesAt(c, attributes, name, value, "type");
  }
}
