/**
 * Field names in Form (includes/Core/Form.php): how PHP's `parse_str`
 * splits a bracketed name, how `parse_field_name` / `parse_field_subnames`
 * turn that into a key path, and how `create_field` normalises a name and
 * namespaces it into the wire name under `framering[...]`.
 */
module FormNames {
  import opened Wrappers
  import opened Strings
  import opened Php

  // ---------------------------------------------------------------------
  // parse_str, restricted to one bracketed variable name
  // ---------------------------------------------------------------------

  /** What `parse_str($name, $args)` makes of a single name. */
  datatype ParsedName =
    | NoVar                                 // empty variable name: $args == []
    | Plain(root: Key)                      // $args == [root => ""]
    | Nested(root: Key, segs: seq<Key>)     // $args == [root => [segs[0] => [... [last => ""]]]]

  function StripLeadingSpaces(s: string): (r: string)
    ensures |r| <= |s| && (r != [] ==> r[0] != ' ')
    ensures r == s[|s| - |r|..]
  {
    if s != [] && s[0] == ' ' then StripLeadingSpaces(s[1..]) else s
  }

  /** The characters a variable name may not contain before its first bracket become '_'. */
  function Underscore(s: string): (r: string)
    ensures |r| == |s|
    ensures forall i :: 0 <= i < |r| ==> r[i] != ' ' && r[i] != '.'
    ensures forall i :: 0 <= i < |s| ==> (s[i] != ' ' && s[i] != '.' ==> r[i] == s[i])
    ensures forall i :: 0 <= i < |s| ==> (r[i] == s[i] || r[i] == '_')
  {
    if s == [] then []
    else [if s[0] == ' ' || s[0] == '.' then '_' else s[0]] + Underscore(s[1..])
  }

  /** The tail of an unterminated first bracket: ' ', '.' and '[' become '_'. */
  function Scrub(s: string): (r: string)
    ensures |r| == |s| && '[' !in r && ' ' !in r && '.' !in r
  {
    if s == [] then []
    else [if s[0] == ' ' || s[0] == '.' || s[0] == '[' then '_' else s[0]] + Scrub(s[1..])
  }

  /** A root as parse_str leaves it: non-empty, without ' ', '.' or '['. */
  predicate PlainRoot(r: string)
  {
    r != [] && ' ' !in r && '.' !in r && '[' !in r
  }

  /** A bracket key as parse_str leaves it: non-empty, without ']', and not a lone space. */
  predicate SegKey(k: string)
  {
    k != [] && ']' !in k && (k[0] == ' ' ==> |k| >= 2)
  }

  /** The key PHP gives an `[]` group in a fresh array. */
  const AppendKey: Key := "0"

  /**
   * The keys of the bracket groups at the start of `t` (which opens with
   * '['). A group `[]` or `[ ]` appends; other groups end at the next ']'.
   * Parsing stops at a character after ']' that is not '['. None when this
   * group has no closing bracket.
   */
  function Groups(t: string): (r: Option<seq<Key>>)
    requires |t| > 0 && t[0] == '['
    ensures r.Some? ==> |r.value| >= 1 && forall i :: 0 <= i < |r.value| ==> SegKey(r.value[i])
    decreases |t|, 0
  {
    var u := t[1..];
    var skip := if |u| > 0 && u[0] == ' ' then 1 else 0;
    if skip < |u| && u[skip] == ']' then
      Some([AppendKey] + MoreGroups(u[skip + 1..]))
    else if ']' !in u[skip..] then None
    else
      var close := skip + IndexOf(u[skip..], ']');
      Some([u[..close]] + MoreGroups(u[close + 1..]))
  }

  /** Groups after a closed one; an unterminated group past the first is ignored. */
  function MoreGroups(t: string): (ks: seq<Key>)
    ensures forall i :: 0 <= i < |ks| ==> SegKey(ks[i])
    decreases |t|, 1
  {
    if |t| > 0 && t[0] == '[' then
      match Groups(t)
      case None => []
      case Some(ks) => ks
    else []
  }

  /** `parse_str` on one name without '&', '=', '%' or '+'. */
  function ParseStr(name: string): (p: ParsedName)
    ensures p.Plain? ==> PlainRoot(p.root)
    ensures p.Nested? ==> PlainRoot(p.root) && |p.segs| >= 1
    ensures p.Nested? ==> forall i :: 0 <= i < |p.segs| ==> SegKey(p.segs[i])
  {
    var n := StripLeadingSpaces(name);
    if '[' !in n then
      if n == "" then NoVar else UnderscoreRoot(n); Plain(Underscore(n))
    else
      var p := IndexOf(n, '[');
      if p == 0 then NoVar
      else
        UnderscoreRoot(n[..p]);
        ParseBracketed(Underscore(n[..p]), n[p..])
  }

  /**
   * The rest of parse_str after the root, from the first '[': bracket groups
   * make a nested name; a malformed group turns the whole rest into a plain
   * suffix, its first '[' becoming '_' and later ones scrubbed.
   */
  function ParseBracketed(root: string, t: string): (p: ParsedName)
    requires PlainRoot(root) && |t| > 0 && t[0] == '['
    ensures p.Plain? ==> PlainRoot(p.root)
    ensures p.Nested? ==> PlainRoot(p.root) && |p.segs| >= 1
    ensures p.Nested? ==> forall i :: 0 <= i < |p.segs| ==> SegKey(p.segs[i])
  {
    match Groups(t)
    case None => RootJoin(root, Scrub(t[1..])); Plain(root + "_" + Scrub(t[1..]))
    case Some(segs) => Nested(root, segs)
  }

  lemma UnderscoreRoot(s: string)
    requires s != [] && '[' !in s
    ensures PlainRoot(Underscore(s))
  {
  }

  lemma RootJoin(a: string, b: string)
    requires PlainRoot(a) && ' ' !in b && '.' !in b && '[' !in b
    ensures PlainRoot(a + "_" + b)
  {
  }

  /** The nested array parse_str builds for a chain of keys ending in "". */
  function Chain(segs: seq<Key>): Value
    requires |segs| >= 1
  {
    if |segs| == 1 then Arr([(segs[0], Str(""))])
    else Arr([(segs[0], Chain(segs[1..]))])
  }

  /** `$args` after `parse_str($name, $args)`, as the array value it is. */
  function Args(p: ParsedName): Value
    requires p.Nested? ==> |p.segs| >= 1
  {
    match p
    case NoVar => Arr([])
    case Plain(r) => Arr([(r, Str(""))])
    case Nested(r, segs) => Arr([(r, Chain(segs))])
  }

  /** Arrays as parse_str builds them: only strings and arrays inside. */
  predicate StringTree(v: Value)
  {
    match v
    case Str(_) => true
    case Arr(es) => forall i :: 0 <= i < |es| ==> StringTree(es[i].1)
    case _ => false
  }

  // ---------------------------------------------------------------------
  // parse_field_subnames and parse_field_name
  // ---------------------------------------------------------------------

  /**
   * `$a += $b` on two lists (keys 0..n-1): the union keeps `$a` and adds the
   * entries of `$b` at indexes `$a` does not have.
   */
  function ListUnion(a: seq<Key>, b: seq<Key>): seq<Key>
  {
    if |b| > |a| then a + b[|a|..] else a
  }

  /**
   * parse_field_subnames($field, true) (includes/Core/Form.php:966-995) from
   * entry `from` on, with `acc` the `$final_name` list built so far: an array
   * entry adds its own subnames by `+=`, an empty string appends its key and
   * stops, any other string appends itself.
   */
  function SubnamesList(field: Value, from: nat, acc: seq<Key>): seq<Key>
    requires field.Arr? && StringTree(field) && from <= |field.entries|
    decreases field, |field.entries| - from
  {
    var es := field.entries;
    if from == |es| then acc
    else
      assert StringTree(es[from].1);
      if es[from].1.Arr? then SubnamesList(field, from + 1, ListUnion(acc, SubnamesList(es[from].1, 0, [])))
      else if es[from].1.s == "" then acc + [es[from].0]
      else SubnamesList(field, from + 1, acc + [es[from].1.s])
  }

  /** parse_field_subnames($field, false): the same walk, producing "[key]" text. */
  function SubnamesText(field: Value, from: nat): string
    requires field.Arr? && StringTree(field) && from <= |field.entries|
    decreases field, |field.entries| - from
  {
    var es := field.entries;
    if from == |es| then ""
    else
      assert StringTree(es[from].1);
      if es[from].1.Arr? then SubnamesText(es[from].1, 0) + SubnamesText(field, from + 1)
      else if es[from].1.s == "" then "[" + es[from].0 + "]"
      else "[" + es[from].1.s + "]" + SubnamesText(field, from + 1)
  }

  lemma {:induction false} ChainIsStringTree(segs: seq<Key>)
    requires |segs| >= 1
    ensures StringTree(Chain(segs))
  {
    if |segs| > 1 {
      ChainIsStringTree(segs[1..]);
    }
  }

  lemma ArgsIsStringTree(p: ParsedName)
    requires p.Nested? ==> |p.segs| >= 1
    ensures StringTree(Args(p))
  {
    if p.Nested? {
      ChainIsStringTree(p.segs);
    }
  }

  /** Of a chain, the subname walk keeps only the innermost key, in both output forms. */
  lemma {:induction false} SubnamesOfChain(segs: seq<Key>)
    requires |segs| >= 1
    ensures StringTree(Chain(segs))
    ensures SubnamesList(Chain(segs), 0, []) == [segs[|segs| - 1]]
    ensures SubnamesText(Chain(segs), 0) == "[" + segs[|segs| - 1] + "]"
  {
    ChainIsStringTree(segs);
    if |segs| > 1 {
      SubnamesOfChain(segs[1..]);
    }
  }

  /**
   * parse_field_name($name, true) (includes/Core/Form.php:938-957) on the
   * parse_str result: the root key, followed by the subnames when the root
   * holds a non-empty array. When parse_str yields nothing the root is null,
   * written "" here, which is how implode later spells it.
   */
  function KeyPath(p: ParsedName): seq<Key>
    requires p.Nested? ==> |p.segs| >= 1
  {
    var args := Args(p);
    ArgsIsStringTree(p);
    if args.entries == [] then [""]
    else
      match args.entries[0].1
      case Arr(inner) => if |inner| > 0 then [args.entries[0].0] + SubnamesList(args, 0, []) else [args.entries[0].0]
      case _ => [args.entries[0].0]
  }

  /** A name keeps only its root key and its innermost bracket key. */
  lemma KeyPathShape(p: ParsedName)
    requires p.Nested? ==> |p.segs| >= 1
    ensures p.NoVar? ==> KeyPath(p) == [""]
    ensures p.Plain? ==> KeyPath(p) == [p.root]
    ensures p.Nested? ==> KeyPath(p) == [p.root, p.segs[|p.segs| - 1]]
  {
    if p.Nested? {
      SubnamesOfChain(p.segs);
      var last := p.segs[|p.segs| - 1];
      var args := Args(p);
      assert SubnamesList(args, 1, [last]) == [last];
      assert SubnamesList(args, 0, []) == SubnamesList(args, 1, ListUnion([], [last]));
    }
  }

  /** parse_field_name($name, true) on the name itself. */
  function ParseFieldName(name: string): seq<Key>
  {
    KeyPath(ParseStr(name))
  }

  /** The path string `implode(".", parse_field_name($name, true))` that parse_form reads and writes at. */
  function FieldPath(name: string): string
  {
    Join(ParseFieldName(name), '.')
  }

  // ---------------------------------------------------------------------
  // create_field: normalised name and wire name
  // ---------------------------------------------------------------------

  /**
   * The name create_field stores (includes/Core/Form.php:1005-1018), from
   * the parse_str result: the root, plus the subname text when the root holds
   * an array. None when parse_str yields nothing, in which case
   * `$field["name"]` becomes null.
   */
  function StoredName(p: ParsedName): Option<string>
    requires p.Nested? ==> |p.segs| >= 1
  {
    var args := Args(p);
    ArgsIsStringTree(p);
    if args.entries == [] then None
    else if args.entries[0].1.Arr? then Some(args.entries[0].0 + SubnamesText(args, 0))
    else Some(args.entries[0].0)
  }

  /** `a[b][c]` is stored as `a[c]`, `a[b]` as `a[b]`, and a plain name as its root. */
  lemma StoredNameShape(p: ParsedName)
    requires p.Nested? ==> |p.segs| >= 1
    ensures p.NoVar? ==> StoredName(p) == None
    ensures p.Plain? ==> StoredName(p) == Some(p.root)
    ensures p.Nested? ==> StoredName(p) == Some(p.root + "[" + p.segs[|p.segs| - 1] + "]")
  {
    if p.Nested? {
      SubnamesOfChain(p.segs);
      var args := Args(p);
      assert SubnamesText(args, 1) == "";
      assert SubnamesText(args, 0) == SubnamesText(Chain(p.segs), 0) + SubnamesText(args, 1);
      var last := p.segs[|p.segs| - 1];
      assert args.entries[0] == (p.root, Chain(p.segs));
      assert Chain(p.segs).Arr?;
      assert args.entries != [];
      assert SubnamesText(Chain(p.segs), 0) + "" == SubnamesText(Chain(p.segs), 0);
      assert StoredName(p) == Some(p.root + ("[" + last + "]"));
      assert p.root + ("[" + last + "]") == p.root + "[" + last + "]";
    }
  }

  /** The normalised name of a raw field name. */
  function NormalisedName(name: string): Option<string>
  {
    StoredName(ParseStr(name))
  }

  /** A root parse_str has already cleaned parses back to itself. */
  lemma ReparsePlain(r: string)
    requires PlainRoot(r)
    ensures ParseStr(r) == Plain(r)
  {
    assert StripLeadingSpaces(r) == r;
    assert Underscore(r) == r;
  }

  /** A single closed group `[key]` yields exactly that key. */
  lemma GroupsSingle(k: string)
    requires SegKey(k)
    ensures Groups("[" + k + "]") == Some([k])
  {
    var t := "[" + k + "]";
    var u := t[1..];
    assert u == k + "]";
    var skip := if u[0] == ' ' then 1 else 0;
    assert u[skip] != ']';
    assert u[skip..] == k[skip..] + [']'] + [];
    IndexOfAfter(k[skip..], ']', []);
    var close := skip + IndexOf(u[skip..], ']');
    assert close == |k|;
    assert u[..close] == k;
    assert u[close + 1..] == [];
    assert ']' in u[skip..];
    assert Groups(t) == Some([u[..close]] + MoreGroups(u[close + 1..]));
    assert [k] + MoreGroups([]) == [k];
  }

  /** `root[key]` with a cleaned root and key parses back to that root and key. */
  lemma ReparseNested(r: string, k: string)
    requires PlainRoot(r) && SegKey(k)
    ensures ParseStr(r + "[" + k + "]") == Nested(r, [k])
  {
    var n := r + "[" + k + "]";
    assert StripLeadingSpaces(n) == n;
    assert n == r + ['['] + (k + "]");
    IndexOfAfter(r, '[', k + "]");
    assert n[..|r|] == r && n[|r|..] == "[" + k + "]";
    assert Underscore(r) == r;
    GroupsSingle(k);
  }

  /**
   * Normalising is stable: the stored name normalises to itself and yields
   * the same key path as the name it came from.
   */
  lemma NormalisedNameStable(name: string)
    requires NormalisedName(name).Some?
    ensures NormalisedName(NormalisedName(name).value) == NormalisedName(name)
    ensures ParseFieldName(NormalisedName(name).value) == ParseFieldName(name)
  {
    var p := ParseStr(name);
    StoredNameShape(p);
    KeyPathShape(p);
    if p.Plain? {
      ReparsePlain(p.root);
      StoredNameShape(Plain(p.root));
      KeyPathShape(Plain(p.root));
    } else {
      var last := p.segs[|p.segs| - 1];
      ReparseNested(p.root, last);
      StoredNameShape(Nested(p.root, [last]));
      KeyPathShape(Nested(p.root, [last]));
    }
  }

  /** What every wire name starts with. */
  const WirePrefix := "framering["

  /** Position of the last '[' (strrpos). */
  function LastIndexOf(s: string, c: char): (i: nat)
    requires c in s
    ensures i < |s| && s[i] == c && c !in s[i + 1..]
  {
    if s[|s| - 1] == c then |s| - 1
    else
      assert s[..|s| - 1][..] == s[..|s| - 1];
      assert c in s[..|s| - 1] by {
        var j :| 0 <= j < |s| && s[j] == c;
        assert s[..|s| - 1][j] == c;
      }
      var i := LastIndexOf(s[..|s| - 1], c);
      assert s[i + 1..] == s[..|s| - 1][i + 1..] + [s[|s| - 1]];
      i
  }

  /**
   * The wire name of a normalised name in a form that has an id
   * (includes/Core/Form.php:1026-1043): "framering[" + name, the last '['
   * replaced by "][" when the name has a bracket, and a closing ']' added
   * unless the result already ends with one.
   */
  function WireName(name: string): (w: string)
    ensures |w| > 0
  {
    CloseBracket(OpenLastBracket(name))
  }

  /** The prefixed name with its last '[' (if the name has one) turned into "][". */
  function OpenLastBracket(name: string): (split: string)
    ensures |split| > 0
  {
    var prefixed := WirePrefix + name;
    if '[' in name then
      var i := LastIndexOf(prefixed, '[');
      prefixed[..i] + "][" + prefixed[i + 1..]
    else prefixed
  }

  /** Appends ']' unless the name already ends with one. */
  function CloseBracket(split: string): string
    requires |split| > 0
  {
    if split[|split| - 1] != ']' then split + "]" else split
  }

  /** A plain name `N` travels as `framering[N]` (only a name already ending in ']' gets no extra ']'). */
  lemma WireNamePlain(name: string)
    requires '[' !in name
    ensures (name == [] || name[|name| - 1] != ']') ==> WireName(name) == WirePrefix + name + "]"
    ensures (name != [] && name[|name| - 1] == ']') ==> WireName(name) == WirePrefix + name
  {
  }

  /** `root[leaf]` travels as `framering[root][leaf]` when the leaf has no '['. */
  lemma WireNameNested(root: string, leaf: string)
    requires '[' !in leaf
    ensures WireName(root + "[" + leaf + "]") == WirePrefix + root + "][" + leaf + "]"
  {
    var name := root + "[" + leaf + "]";
    var tail := leaf + "]";
    assert name == root + ['['] + tail;
    OpenLastBracketAt(root, tail);
    var split := WirePrefix + root + "][" + leaf + "]";
    assert split[|split| - 1] == ']';
  }

  /** Only the last '[' opens: the one before a tail free of '['. */
  lemma OpenLastBracketAt(root: string, tail: string)
    requires '[' !in tail
    ensures OpenLastBracket(root + ['['] + tail) == WirePrefix + root + "][" + tail
  {
    var name := root + ['['] + tail;
    assert name[|root|] == '[';
    var head := WirePrefix + root;
    var prefixed := WirePrefix + name;
    assert prefixed == head + ['['] + tail;
    LastIndexOfAfter(head, tail, '[');
    assert prefixed[..|head|] == head && prefixed[|head| + 1..] == tail;
  }

  /** The last occurrence of `c` is the one before a tail free of `c`. */
  lemma LastIndexOfAfter(a: string, b: string, c: char)
    requires c !in b
    ensures c in a + [c] + b && LastIndexOf(a + [c] + b, c) == |a|
  {
    var s := a + [c] + b;
    assert s[|a|] == c;
    var i := LastIndexOf(s, c);
    assert s[|a| + 1..] == b;
  }

  // ---------------------------------------------------------------------
  // create_field
  // ---------------------------------------------------------------------

  /** The prefix of generated internal names; `uniqid` supplies the rest. */
  const GeneratedPrefix: string := "fr-field-"

  /** The stored name parse_str gives a set, non-array name; None for an unset one. */
  function StoredFieldName(field: Entries, h: Host): Option<string>
  {
    if IsSetAt(field, "name") then NormalisedName(ConcatStr(At(field, "name"), h)) else None
  }

  /** First step: the name is replaced by its normalised form, or by null. */
  function ParseNameStep(field: Entries, stored: Option<string>): (r: Entries)
    ensures At(r, "name") == if stored.Some? then Str(stored.value) else Null
    ensures forall k :: k != "name" ==> Get(r, k) == Get(field, k)
    requires stored.Some? ==> IsSetAt(field, "name")
  {
    if !IsSetAt(field, "name") then field
    else
      match stored
      case Some(n) => Put(field, "name", Str(n))
      case None => Put(field, "name", Null)
  }

  /** Second step: a named field remembers its pre-namespace name. */
  function OriginalNameStep(field: Entries): (r: Entries)
    ensures IsSetAt(field, "name") ==> At(r, "original_name") == At(field, "name")
    ensures forall k :: k != "original_name" ==> Get(r, k) == Get(field, k)
    ensures !IsSetAt(field, "name") ==> r == field
  {
    if IsSetAt(field, "name") then Put(field, "original_name", At(field, "name")) else field
  }

  /** Third step: in a form with an id, a named field moves under framering[...]. */
  function NamespaceStep(field: Entries, hasId: bool, h: Host): (r: Entries)
    ensures hasId && IsSetAt(field, "name") ==>
      At(r, "name") == Str(WireName(ConcatStr(At(field, "name"), h)))
    ensures forall k :: k != "name" ==> Get(r, k) == Get(field, k)
    ensures !(hasId && IsSetAt(field, "name")) ==> r == field
  {
    if hasId && IsSetAt(field, "name")
    then Put(field, "name", Str(WireName(ConcatStr(At(field, "name"), h))))
    else field
  }

  /** Fourth step: a nameless field takes `_name`, generated when missing, as name and original_name. */
  function InternalNameStep(field: Entries, uniq: string): (r: Entries)
    ensures !IsSetAt(field, "name") ==>
      var internal := if IsSetAt(field, "_name") then At(field, "_name") else Str(GeneratedPrefix + uniq);
      At(r, "name") == internal && At(r, "original_name") == internal && At(r, "_name") == internal
    ensures forall k :: k !in {"name", "original_name", "_name"} ==> Get(r, k) == Get(field, k)
    ensures IsSetAt(field, "name") ==> r == field
  {
    if IsSetAt(field, "name") then field
    else
      var internal :=
        if !IsSetAt(field, "_name") then Put(field, "_name", Str(GeneratedPrefix + uniq)) else field;
      Put(Put(internal, "name", At(internal, "_name")), "original_name", At(internal, "_name"))
  }

  /** Last step: a set title is escaped for HTML. */
  function EscapeTitleStep(field: Entries, h: Host): (r: Entries)
    ensures IsSetAt(field, "title") ==> At(r, "title") == h.escHtml(At(field, "title"))
    ensures forall k :: k != "title" ==> Get(r, k) == Get(field, k)
    ensures !IsSetAt(field, "title") ==> r == field
  {
    if IsSetAt(field, "title") then Put(field, "title", h.escHtml(At(field, "title"))) else field
  }

  /** The four naming steps, which touch no key but the three names. */
  function NameSteps(field: Entries, stored: Option<string>, hasId: bool, uniq: string, h: Host): (r: Entries)
    requires stored.Some? ==> IsSetAt(field, "name")
    ensures forall k :: k != "name" && k != "original_name" && k != "_name" ==> Get(r, k) == Get(field, k)
  {
    var parsed := ParseNameStep(field, stored);
    var original := OriginalNameStep(parsed);
    var spaced := NamespaceStep(original, hasId, h);
    InternalNameStep(spaced, uniq)
  }

  /**
   * The five steps above in the order create_field runs them, for a field
   * whose name parse_str turned into `stored`.
   */
  function Assemble(field: Entries, stored: Option<string>, hasId: bool, uniq: string, h: Host): Entries
    requires stored.Some? ==> IsSetAt(field, "name")
  {
    EscapeTitleStep(NameSteps(field, stored, hasId, uniq, h), h)
  }

  /**
   * create_field (includes/Core/Form.php:1003-1067) for a form whose id is
   * `formId`, with `uniq` the suffix `uniqid` would produce. An array name is
   * a TypeError in parse_str.
   */
  function CreateField(field: Entries, formId: Value, uniq: string, h: Host): Result<Entries, string>
  {
    if At(field, "name").Arr? then Err(ParseStrTypeError)
    else Ok(Assemble(field, StoredFieldName(field, h), formId != Null, uniq, h))
  }

  /** An array name is fatal; anything else yields a field. */
  lemma CreateFieldFails(field: Entries, formId: Value, uniq: string, h: Host)
    ensures CreateField(field, formId, uniq, h).Err? <==> At(field, "name").Arr?
  {
  }

  lemma AssembleNamed(field: Entries, n: string, hasId: bool, uniq: string, h: Host)
    requires IsSetAt(field, "name")
    ensures var r := Assemble(field, Some(n), hasId, uniq, h);
      At(r, "original_name") == Str(n) && At(r, "name") == Str(if hasId then WireName(n) else n)
  {
    var parsed := ParseNameStep(field, Some(n));
    assert At(parsed, "name") == Str(n);
    var original := OriginalNameStep(parsed);
    assert At(original, "original_name") == Str(n) && At(original, "name") == Str(n);
    var spaced := NamespaceStep(original, hasId, h);
    assert At(spaced, "name") == Str(if hasId then WireName(n) else n);
    assert At(spaced, "original_name") == Str(n);
    var named := InternalNameStep(spaced, uniq);
    assert named == spaced;
    TitleStepKeepsNames(named, h);
  }

  /**
   * A name that normalises to `n` keeps `n` as original_name and travels as
   * `n`, or as its wire name when the form has an id.
   */
  lemma CreateFieldNamed(field: Entries, formId: Value, uniq: string, h: Host, n: string)
    requires IsSetAt(field, "name") && !At(field, "name").Arr?
    requires StoredFieldName(field, h) == Some(n)
    ensures CreateField(field, formId, uniq, h).Ok?
    ensures var r := CreateField(field, formId, uniq, h).value;
      At(r, "original_name") == Str(n) &&
      At(r, "name") == Str(if formId != Null then WireName(n) else n)
  {
    AssembleNamed(field, n, formId != Null, uniq, h);
  }

  lemma AssembleNameless(field: Entries, hasId: bool, uniq: string, h: Host)
    ensures var r := Assemble(field, None, hasId, uniq, h);
      var internal := if IsSetAt(field, "_name") then At(field, "_name") else Str(GeneratedPrefix + uniq);
      At(r, "name") == internal && At(r, "original_name") == internal && At(r, "_name") == internal
  {
    var parsed := ParseNameStep(field, None);
    NamelessParse(field);
    assert NameSteps(field, None, hasId, uniq, h) == InternalNameStep(parsed, uniq);
    var named := InternalNameStep(parsed, uniq);
    TitleStepKeepsNames(named, h);
    var r := EscapeTitleStep(named, h);
    assert At(r, "name") == At(named, "name");
    assert At(r, "original_name") == At(named, "original_name");
    assert At(r, "_name") == At(named, "_name");
  }

  /** Without a stored name, the first step leaves no name and keeps `_name`. */
  lemma NamelessParse(field: Entries)
    ensures var parsed := ParseNameStep(field, None);
      !IsSetAt(parsed, "name") && At(parsed, "_name") == At(field, "_name")
  {
    assert "_name"[0] != "name"[0];
  }

  /**
   * A field without a usable name takes its `_name`, or a generated
   * "fr-field-" name, as both name and original_name, and is never
   * namespaced, whatever the form id.
   */
  lemma CreateFieldNameless(field: Entries, formId: Value, uniq: string, h: Host)
    requires !At(field, "name").Arr?
    requires StoredFieldName(field, h).None?
    ensures CreateField(field, formId, uniq, h).Ok?
    ensures var r := CreateField(field, formId, uniq, h).value;
      var internal := if IsSetAt(field, "_name") then At(field, "_name") else Str(GeneratedPrefix + uniq);
      At(r, "name") == internal && At(r, "original_name") == internal && At(r, "_name") == internal
  {
    AssembleNameless(field, formId != Null, uniq, h);
  }

  lemma AssembleTitle(field: Entries, stored: Option<string>, hasId: bool, uniq: string, h: Host)
    requires stored.Some? ==> IsSetAt(field, "name")
    ensures IsSetAt(field, "title") ==> At(Assemble(field, stored, hasId, uniq, h), "title") == h.escHtml(At(field, "title"))
    ensures !IsSetAt(field, "title") ==> Get(Assemble(field, stored, hasId, uniq, h), "title") == Get(field, "title")
  {
    TitleIsNoName();
    NameStepsKeep(field, stored, hasId, uniq, h, "title");
    EscapeTitleAfter(NameSteps(field, stored, hasId, uniq, h), field, h);
  }

  lemma TitleIsNoName()
    ensures "title" != "name" && "title" != "original_name" && "title" != "_name"
  {
    assert "title"[0] != "name"[0] && "title"[0] != "original_name"[0] && "title"[0] != "_name"[0];
  }

  /** Escaping the title leaves the three names alone. */
  lemma TitleStepKeepsNames(named: Entries, h: Host)
    ensures var r := EscapeTitleStep(named, h);
      Get(r, "name") == Get(named, "name") && Get(r, "original_name") == Get(named, "original_name") &&
      Get(r, "_name") == Get(named, "_name")
  {
    TitleIsNoName();
  }

  lemma NameStepsKeep(field: Entries, stored: Option<string>, hasId: bool, uniq: string, h: Host, k: Key)
    requires stored.Some? ==> IsSetAt(field, "name")
    requires k != "name" && k != "original_name" && k != "_name"
    ensures Get(NameSteps(field, stored, hasId, uniq, h), k) == Get(field, k)
  {
  }

  lemma EscapeTitleAfter(named: Entries, field: Entries, h: Host)
    requires Get(named, "title") == Get(field, "title")
    ensures IsSetAt(field, "title") ==> At(EscapeTitleStep(named, h), "title") == h.escHtml(At(field, "title"))
    ensures !IsSetAt(field, "title") ==> Get(EscapeTitleStep(named, h), "title") == Get(field, "title")
  {
    assert At(named, "title") == At(field, "title");
  }

  /** A set title is escaped for HTML. */
  lemma CreateFieldTitle(field: Entries, formId: Value, uniq: string, h: Host)
    requires !At(field, "name").Arr?
    ensures CreateField(field, formId, uniq, h).Ok?
    ensures var r := CreateField(field, formId, uniq, h).value;
      (IsSetAt(field, "title") ==> At(r, "title") == h.escHtml(At(field, "title"))) &&
      (!IsSetAt(field, "title") ==> Get(r, "title") == Get(field, "title"))
  {
    AssembleTitle(field, StoredFieldName(field, h), formId != Null, uniq, h);
  }

  /** Keys create_field does not handle are left alone. */
  lemma CreateFieldOtherKeys(field: Entries, formId: Value, uniq: string, h: Host, k: Key)
    requires !At(field, "name").Arr?
    requires k != "name" && k != "original_name" && k != "_name" && k != "title"
    ensures CreateField(field, formId, uniq, h).Ok?
    ensures Get(CreateField(field, formId, uniq, h).value, k) == Get(field, k)
  {
    NameStepsKeep(field, StoredFieldName(field, h), formId != Null, uniq, h, k);
  }

  /** With a form id, a plain name `N` reaches the wire as `framering[N]` (unless N already ends in ']'). */
  lemma CreateFieldWirePlain(field: Entries, id: Value, uniq: string, h: Host, root: string)
    requires id != Null && IsSetAt(field, "name") && !At(field, "name").Arr?
    requires ParseStr(ConcatStr(At(field, "name"), h)) == Plain(root)
    requires root[|root| - 1] != ']'
    ensures CreateField(field, id, uniq, h).Ok?
    ensures At(CreateField(field, id, uniq, h).value, "name") == Str(WirePrefix + root + "]")
  {
    StoredNameShape(Plain(root));
    CreateFieldNamed(field, id, uniq, h, root);
    WireNamePlain(root);
  }

  /**
   * With a form id, a name `root[a]...[leaf]` reaches the wire as
   * `framering[root][leaf]`, when the leaf has no '['.
   */
  lemma CreateFieldWireNested(field: Entries, id: Value, uniq: string, h: Host, root: string, segs: seq<Key>)
    requires id != Null && IsSetAt(field, "name") && !At(field, "name").Arr?
    requires ParseStr(ConcatStr(At(field, "name"), h)) == Nested(root, segs)
    requires '[' !in segs[|segs| - 1]
    ensures CreateField(field, id, uniq, h).Ok?
    ensures At(CreateField(field, id, uniq, h).value, "name") ==
      Str(WirePrefix + root + "][" + segs[|segs| - 1] + "]")
  {
    var last := segs[|segs| - 1];
    StoredNameShape(Nested(root, segs));
    WireNameNested(root, last);
    CreateFieldWire(field, id, uniq, h, root + "[" + last + "]", WirePrefix + root + "][" + last + "]");
  }

  lemma CreateFieldWire(field: Entries, id: Value, uniq: string, h: Host, n: string, w: string)
    requires id != Null && IsSetAt(field, "name") && !At(field, "name").Arr?
    requires StoredFieldName(field, h) == Some(n) && WireName(n) == w
    ensures CreateField(field, id, uniq, h).Ok?
    ensures At(CreateField(field, id, uniq, h).value, "name") == Str(w)
  {
    CreateFieldNamed(field, id, uniq, h, n);
  }
}
