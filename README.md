# Framering, modelled in Dafny

Framering is a WordPress framework. Its components declare forms. Each form
is a list of field definitions. The framework does three things with them:

- It decides on which admin screens a component shows up.
- It renders the fields.
- It parses what the browser submits back into a validated, nested result.
  That result is then staged and written to the post's meta.

This project models that core and proves properties of the model. It covers:

- **Values** (`php.dfy`, `strings.dfy`): the slice of PHP the core relies on.
  - Values and ordered arrays whose keys are normalised (`"5"` and `5` are one key).
  - `empty`, `isset` and loose `==`.
  - `explode`/`implode`, `array_merge`, `str_replace("\\'", "'", …)`, `strtolower`.
  - WordPress's host functions (sanitisers, escapers, `is_email`, `floatval`,
    `maybe_serialize`) are passed in as a record of functions, `Php.Host`.
- **The Form** (`form.dfy`, `form_names.dfy`, `form_paths.dfy`, `form_parse.dfy`,
  `form_render.dfy`, after `includes/Core/Form.php`):
  - The field store, as a class whose methods change `fields` in place.
  - The name codec: `parse_str` on a field name, `parse_field_name`,
    `parse_field_subnames`, and the normalising and namespacing in `create_field`.
  - Path access: `get_by_path` and `set_by_path`.
  - The parser/validator `parse_form`/`process`, run as a loop over the fields
    and proved equal to a fold over per-field steps.
  - The attribute decisions of `render_field`, including its static tabindex counter.
- **HtmlElement** (`html_element.dfy`): a class with a tag, attributes, three
  content slots and a cached result. Rendering is proved equal to a function
  on the element's state.
- **The field model** (`field_model.dfy`, after `includes/Model/Field.php`,
  `Text.php`, `Textarea.php`): names and meta keys built over a parent chain, and
  a value cache over an abstract meta store.
- **Visibility rules** (`component.dfy`, `rules.dfy`): `Component` and
  `RuleCondition`, with `check` modelled as written.
- **Registries and hooks** (`core.dfy`, `hooks.dfy`): the field-type registry,
  the component list, the metabox contexts, `admin_init` gating, meta-key
  staging in `insert_post_data`, and the flush in `save_post`.
- **The autoloader** (`autoload.dfy`): class name to file path.

Failures are values, not exceptions:

- `Result<_, string>` for PHP errors that end the request, such as a TypeError,
  an illegal offset, or indexing a `WP_Error`.
- `Failure` (`WpError(kind, message)` or `Fatal(reason)`) where a `WP_Error`
  is a normal outcome.

`Core.php` and `Hooks.php` call component members that `Component.php` does not
define: `id`, `style->position`, `get_name`, `has_form`, `create_form`, and the
result of `get_form()->process`. They also read `$component->title`, which
`includes/Component.php:20` declares `protected`, so on a plain `Component` that read
would throw. The model takes all of these, `title` included, as members of the
registered object and gathers them in `Plugin.Handle`, which wraps a
`Component`.

Notes on what the code does, which the model follows as written:

- **Rule conditions.** `check` does not combine its conditions with AND/OR.
  The leaf value overwrites `$condition` at `includes/Component.php:86`, and
  `check_single` never returns true. So `check` is false exactly when some leaf's
  value is the string `"AND"`, and it throws on a malformed rule met before that.
- **Colours.** `is_color` compares `preg_match` with `!== false`, so it accepts
  every string, and a colour field is never reported as `invalid_field`.
- **Invalid selects** are reported with the kind `empty_field`, not a kind of
  their own.
- **Field names.** A name keeps only its root key and its innermost bracket key:
  `a[b][c]` is stored as `a[c]`, so the original name cannot be recovered from
  the stored one. What holds is proved instead: normalising is idempotent and
  keeps the key path.
- **Tabindex.** A disabled or readonly field is built with no tabindex at all;
  only a hidden field gets -1.
- **Unknown registry types.** `get_field` of a type that was never registered
  reads an undefined key: null, with a PHP warning.

## Model

| member | source | states |
|---|---|---|
| Autoload.ClassFile | autoload.php:13-24 | a file is loaded exactly when the first nine characters are "Framering"; its path starts with dir/includes/ and ends in .php |
| Autoload.NamespaceToPath | autoload.php:18-21 | Framering\A\B loads dir/includes/A/B.php: the first segment is dropped, the rest are joined by the separator in order |
| Autoload.DistinctClassesDistinctFiles | autoload.php:18-21 | two different Framering classes, with segments free of the separator, never load the same file |
| Autoload.BareNamespace | autoload.php:18-21 | the bare "Framering" (and "Framering\") maps to includes/.php |
| Autoload.PrefixOnlyCompared | autoload.php:14-16 | FrameringX\Foo passes the prefix test and loads includes/Foo.php |
| Strings.Split | includes/Core/Form.php:661 | explode yields at least one part and no part contains the separator |
| Strings.JoinSplit | includes/Core/Form.php:661-671 | implode undoes explode for every string |
| Strings.SplitJoin | includes/Core/Form.php:661-671 | explode undoes implode of a non-empty list of separator-free parts |
| Strings.UnslashSlashQuotes | includes/Core/Form.php:744 | the str_replace un-slashing recovers any string from its quote-escaped form |
| Strings.AsciiLower | includes/Core/Form.php:500 | strtolower keeps the length, lowers ASCII capitals and keeps every other character |
| Php.Get | includes/Core.php:94 | a lookup finds a value exactly when the key is present |
| Php.Put | includes/Core/Form.php:1080 | after `$a[$k] = $v` the key reads v, other keys read as before, an existing key keeps its position and a new key goes last |
| Php.PutTwice | includes/Core.php:104 | a second write to a key replaces the first in place |
| Php.PutDistinct | includes/Core/Form.php:1080 | writing a key keeps the keys of an array distinct |
| Php.Remove | includes/Core/Form.php:1092 | after unset the key is absent and every other key reads as before |
| Php.IsAssociativeArray | includes/Core/Form.php:15-23 | true exactly when some key is a string key |
| Php.ArrayMergeAt | includes/Model/Field.php:213-217 | a string key of array_merge(a, b) holds b's value when b has the key, else a's |
| Php.MergeIntoAt | includes/Model/Field.php:213 | under array_merge's fold a string key takes the value the later array gives it, or keeps the earlier one |
| Php.KeyValue | includes/Core/Form.php:609 | foreach hands out integer-like keys as ints, which convert back to the same key |
| Php.StringParam | includes/Core/HtmlElement.php:99 | a string parameter rejects arrays, and rejects null for the program's own functions |
| Php.ToKey | includes/Core/Form.php:1080 | only an array is an illegal array offset |
| Php.LooseEq | includes/Core/Form.php:785 | PHP 8 `==` on the values the core compares: booleans compare truth values, null against a string is the empty string, null against anything else compares truth values, integers and floats compare by value; ZeroOptionRejectsNull, MetaboxContexts and SwitchCaseFirstMatch rest on it |
| Components.CheckSingle | includes/Component.php:105-143 | the result is false or null, never true |
| Components.CheckSingleNeverHolds | includes/Component.php:105-143 | the result of check_single is falsy for every key and value |
| Components.PostMeansPage | includes/Component.php:116-128 | is_post and is_page both compare the post type with "page", whatever value they are given |
| Components.ArchiveRule | includes/Component.php:131-141 | a boolean is compared with is_archive(); with any other value (which is_archive() ignores, taking no argument) the page must be an archive |
| Components.UnknownKeyIsNull | includes/Component.php:106-142 | an unknown key is never a mismatch |
| Components.RefusesIffAndLeaf | includes/Component.php:86-99 | the inner loop returns false exactly when some leaf's value is the string "AND" |
| Components.CheckAsWritten | includes/Component.php:68-102 | check is true iff every rule is an array or RuleCondition without an "AND" leaf; it throws at the first malformed rule unless an earlier rule has an "AND" leaf |
| Components.CheckRules | includes/Component.php:67-103 | the outcome of check over a rule list; CheckAsWritten characterises it and Component.Check is proved equal to it |
| Components.FieldEntriesFails | includes/Component.php:51-55 | adding the fields fails exactly when some field value is not an array |
| Components.FieldEntriesAccepted | includes/Component.php:51-55 | when all are arrays, the fields are their entries, in order |
| Components.Component.Plain | includes/Component.php:47-48 | the title and rules are kept and there are no fields |
| Components.Component.Create | includes/Component.php:38-56 | an empty title, then empty rules, throw; otherwise the fields are appended in order, or the TypeError is returned |
| Components.Component.AddFields | includes/Component.php:51-55 | the fields loop appends every field in order, or stops with the TypeError |
| Components.Component.AddField | includes/Component.php:58-60 | the field goes last and the earlier fields stay |
| Components.Component.Check | includes/Component.php:67-103 | the loop returns what CheckAsWritten characterises, and throws a non-array, non-RuleCondition rule as an error |
| Components.Component.CheckConditions | includes/Component.php:86-99 | the loop over one rule's conditions refuses exactly as the shadowed-variable reading says |
| Rules.RuleCondition.constructor | includes/RuleCondition.php:27-30 | both arguments are stored unchanged; the conditions default to [] |
| Rules.RuleCondition.Or | includes/RuleCondition.php:5-7 | condition "OR" with the given conditions |
| Rules.RuleCondition.And | includes/RuleCondition.php:9-11 | condition "AND" with the given conditions |
| Plugin.DefaultFieldClass | includes/Core.php:55-56 | a default class is named \Framering\Core\Fields\ plus its short name |
| Plugin.MetaboxContext | includes/Core.php:152-162 | "side" exactly when the position is not loosely "normal" but loosely "lateral"; "advanced" otherwise |
| Plugin.MetaboxContexts | includes/Core.php:152-162 | "lateral" gives side; "normal", null and every other string give advanced |
| Plugin.Handle.constructor | includes/Core/Hooks.php:63-77 | a registered component starts without a form and keeps its id, position and name |
| Plugin.Handle.CreateForm | includes/Core/Hooks.php:34 | afterwards the component has a form |
| Plugin.CheckedMetaboxes | includes/Core.php:147-169 | at most one metabox per component |
| Plugin.MetaboxStep | includes/Core.php:149-167 | a throwing check ends the loop; a passing check adds its metabox and the loop goes on |
| Plugin.Core.constructor | includes/Core.php:23-30 | no fields and no components are registered |
| Plugin.Core.RegisterField | includes/Core.php:103-105 | the class is stored under its settings type, replacing any earlier class of that type |
| Plugin.Core.GetField | includes/Core.php:93-95 | a class is found exactly when its type is registered |
| Plugin.Core.RegisterComponent | includes/Core.php:113-115 | the component is appended, keeping registration order |
| Plugin.Core.Init | includes/Core.php:53-57 | the Text class is registered (under "field") |
| Plugin.Core.RegisterMetaboxes | includes/Core.php:147-169 | the metaboxes of the components whose check passes, in order, or the exception a check throws |
| Plugin.LastRegistrationWins | includes/Core.php:103-105 | a later registration for a type replaces the earlier one; other types keep theirs |
| Plugin.TextRegistersAsField | includes/Core/Fields/Text.php:6-9 | Text registers under "field": its static $settings is never read |
| Plugin.Runtime.constructor | includes/Core.php:40 | no instance exists yet |
| Plugin.Runtime.Instance | includes/Core.php:39-47 | the first call creates an empty core; later calls return that same object |
| FieldModel.SettingsType | includes/Model/Field.php:20-28 | Textarea reports "textarea"; Field and Text report "field" |
| FieldModel.ReadMeta | includes/Model/Field.php:165 | without a post (a null or zero ID) the read gives false; otherwise the stored value, or "" when there is none |
| FieldModel.PostOf | includes/Model/Field.php:146-156 | a cached post is kept; otherwise the current post; no post when neither it nor ?post= exists |
| FieldModel.BaseEditorAt | includes/Model/Field.php:212-218 | the editor field has type "text", the field's name and value, and every other string key as in the attributes |
| FieldModel.EditorEntriesAt | includes/Core/Fields/Text.php:11-15 | the same holds for Text and Textarea, whose extra merge changes nothing else |
| FieldModel.EditorTypeIsText | includes/Core/Fields/Textarea.php:13-17 | both field types edit as a "text" input, though they register under "field" and "textarea" |
| FieldModel.Field.constructor | includes/Model/Field.php:79-91 | non-empty attributes replace the defaults wholesale; parent and component are kept; nothing is cached |
| FieldModel.Field.HasParent | includes/Model/Field.php:203-205 | true exactly when there is a parent |
| FieldModel.Field.Name | includes/Model/Field.php:98-116 | get_name; NameAlone, NameInComponent, NameUnderParent and NameOfChain state its shape |
| FieldModel.Field.Key | includes/Model/Field.php:123-138 | get_key; KeyShape and KeyLength state its prefix, its embedding of the parent's key and its length |
| FieldModel.Field.GetPost | includes/Model/Field.php:146-156 | the post is resolved once and then cached |
| FieldModel.Field.GetValue | includes/Model/Field.php:163-172 | the store is read (and unserialized) only while the cache is null; the cache then holds the result |
| FieldModel.Field.SetValue | includes/Model/Field.php:181-187 | the cache always takes the new value; the store is written, serialized, only when save holds |
| FieldModel.Field.EditorField | includes/Model/Field.php:212-218 | the editor entries of the field's class over its name and value; a cached value is used as is, otherwise the post is resolved and the value read from the store and unserialized, as get_value does |
| FieldModel.MetaStore.Update | includes/Model/Field.php:185 | the value is recorded under the target and key |
| FieldModel.MetaStore.Delete | includes/Core/Hooks.php:142 | the key is removed for the target |
| FieldModel.NameAlone | includes/Model/Field.php:98-116 | with neither component nor parent the name is the name attribute |
| FieldModel.NameInComponent | includes/Model/Field.php:101-113 | with a component and no parent the name is component[name] |
| FieldModel.NameUnderParent | includes/Model/Field.php:105-113 | with a parent the name is parent[name]; a component's prefix is lost but its closing ']' is still added |
| FieldModel.NameOfChain | includes/Model/Field.php:98-116 | along a chain without components the name is the root's name followed by every descendant in brackets |
| FieldModel.KeyShape | includes/Model/Field.php:123-138 | every key starts with "fr_field_"; a child's key embeds its parent's whole key; a component adds its name and "_", before the parent's key when both are present |
| FieldModel.KeyLength | includes/Model/Field.php:123-138 | a key carries one "fr_field_" per level of the parent chain |
| Forms.RequestDataOf | includes/Core/Form.php:587-589 | a null id reads all the data; otherwise the entry under the id when that entry is set, else all the data; an array id is an error |
| Forms.RequestDataUnderId | includes/Core/Form.php:587-589 | whatever non-null value is submitted under a form's id is what that form reads, whatever else the request holds |
| Forms.FieldList | includes/Core/Form.php:877 | the fields in store order |
| Forms.AddedUnderNormalisedName | includes/Core/Form.php:1075-1083 | a named field is stored under its normalised name, and no other field changes |
| Forms.LaterFieldReplaces | includes/Core/Form.php:1080 | of two fields with the same original name, the later one is stored, at the earlier one's position |
| Forms.AssignAt | includes/Core/Form.php:1102-1108 | only an existing field's value changes; the keys stay the same |
| Forms.AssignAllAt | includes/Core/Form.php:609-615 | each field named by the data holds the data's value; every other field is as it was |
| Forms.DisableAll | includes/Core/Form.php:634-638 | every field, and only the fields, gain disabled => true |
| Forms.EnableAll | includes/Core/Form.php:645-649 | every field loses its disabled entry |
| Forms.DisabledFormParsesNothing | includes/Core/Form.php:722-726 | processing a disabled form yields an empty array and writes nothing back |
| Forms.EnableAfterDisable | includes/Core/Form.php:645-649 | enabling after disabling removes the mark and leaves every other entry as it was |
| Forms.Form.constructor | includes/Core/Form.php:497-516 | id, request data (by method) and allow_empty_field_values as the settings give them; no fields; not saved |
| Forms.Form.Create | includes/Core/Form.php:497-525 | every field of a non-empty fields setting is added in order; a failing add aborts the construction; the id, the request data by method and the allow-empty flag are those of the settings |
| Forms.Form.AddField | includes/Core/Form.php:1075-1083 | the created field is put under its original name, or the error leaves the store unchanged |
| Forms.Form.RemoveField | includes/Core/Form.php:1091-1093 | the named field is removed |
| Forms.Form.SetFieldValue | includes/Core/Form.php:1102-1108 | an existing field takes the unserialized value; nothing happens otherwise |
| Forms.Form.Parse | includes/Core/Form.php:606-627 | values from the given data (unless it loosely equals the form's data), then from the request data, go to the fields they name |
| Forms.Form.AssignEach | includes/Core/Form.php:620-626 | one assigning loop of parse |
| Forms.Form.Disable | includes/Core/Form.php:634-638 | the store becomes its disabled form |
| Forms.Form.Enable | includes/Core/Form.php:645-649 | the store becomes its enabled form |
| Forms.Form.StepField | includes/Core/Form.php:722-854 | the loop body for one field, with the select options scanned by a loop, decides what the field's step says |
| Forms.Form.ConvertField | includes/Core/Form.php:739-826 | the type switch, with the select branch run as a loop, gives the converted value or the error |
| Forms.Form.ApplyStep | includes/Core/Form.php:850-854 | an accepted value is set at its path and written back under its field's slot; a skip changes nothing; a failure ends the parse |
| Forms.Form.ParseFields | includes/Core/Form.php:710-857 | parse_form's loop returns the folded result and leaves the store as the fold over the field steps does |
| Forms.Form.FieldLoop | includes/Core/Form.php:722-855 | the loop equals the fold over the steps |
| Forms.Form.Process | includes/Core/Form.php:867-882 | the fields are parsed against the given data or the request data; the form counts as saved even when parsing returns a WP_Error |
| FormNames.Underscore | includes/Core/Form.php:1007 | parse_str turns ' ' and '.' of the root into '_' and keeps every other character |
| FormNames.StripLeadingSpaces | includes/Core/Form.php:1007 | parse_str drops leading spaces: the result is a suffix of the name that does not start with a space |
| FormNames.Scrub | includes/Core/Form.php:1007 | the tail of an unterminated first bracket keeps its length and holds no '[', ' ' or '.' |
| FormNames.Groups | includes/Core/Form.php:1007 | the keys of the bracket groups are non-empty, free of ']' and not a lone space |
| FormNames.MoreGroups | includes/Core/Form.php:1007 | the groups after a closed one are cleaned keys; an unterminated later group is ignored |
| FormNames.GroupsSingle | includes/Core/Form.php:1007 | a single closed group [key] yields exactly that key |
| FormNames.ParseStr | includes/Core/Form.php:940 | parse_str of a name yields a cleaned root and, when nested, at least one cleaned key |
| FormNames.ParseBracketed | includes/Core/Form.php:940 | the rest after the root parses to a nested name, or to a plain one when the first group is unterminated |
| FormNames.SubnamesOfChain | includes/Core/Form.php:966-995 | of a parse_str chain the subname walk keeps only the innermost key, as a list and as "[key]" text |
| FormNames.KeyPathShape | includes/Core/Form.php:938-957 | a name's key path is its root and, when nested, its innermost key only |
| FormNames.ParseFieldName | includes/Core/Form.php:938-957 | parse_field_name; KeyPathShape states that the key path is the root and, when nested, the innermost key |
| FormNames.StoredNameShape | includes/Core/Form.php:1005-1018 | a[b][c] is stored as a[c], a[b] as a[b], a plain name as its root, and a name parse_str drops as null |
| FormNames.ReparsePlain | includes/Core/Form.php:1007 | a cleaned root parses back to itself |
| FormNames.ReparseNested | includes/Core/Form.php:1007 | root[key] with a cleaned root and key parses back to that root and key |
| FormNames.NormalisedNameStable | includes/Core/Form.php:1005-1018 | normalising is idempotent and keeps the key path of the original name |
| FormNames.LastIndexOf | includes/Core/Form.php:1033 | strrpos: the position holds the character and none follows |
| FormNames.WireNamePlain | includes/Core/Form.php:1026-1043 | a name without '[' travels as framering[N] (no extra ']' when N already ends in one) |
| FormNames.WireNameNested | includes/Core/Form.php:1026-1043 | root[leaf] travels as framering[root][leaf] when the leaf has no '[' |
| FormNames.ParseNameStep | includes/Core/Form.php:1005-1018 | the name becomes its normalised form or null; nothing else changes |
| FormNames.OriginalNameStep | includes/Core/Form.php:1020-1023 | a named field records original_name; nothing else changes |
| FormNames.NamespaceStep | includes/Core/Form.php:1026-1043 | with a form id a named field takes its wire name; nothing else changes |
| FormNames.InternalNameStep | includes/Core/Form.php:1045-1058 | a nameless field takes _name, generated as fr-field- plus uniqid when missing, as name and original_name |
| FormNames.EscapeTitleStep | includes/Core/Form.php:1060-1064 | a set title is HTML-escaped; nothing else changes |
| FormNames.NameSteps | includes/Core/Form.php:1003-1058 | naming touches no key but name, original_name and _name |
| FormNames.CreateFieldFails | includes/Core/Form.php:1007 | create_field fails exactly when the name is an array |
| FormNames.CreateFieldNamed | includes/Core/Form.php:1005-1043 | a name normalising to n keeps n as original_name and travels as n, or as its wire name when the form has an id |
| FormNames.CreateFieldNameless | includes/Core/Form.php:1045-1058 | a field without a usable name takes _name or a generated name as name and original_name, never namespaced |
| FormNames.CreateFieldTitle | includes/Core/Form.php:1060-1064 | a set title is escaped and an unset one left alone |
| FormNames.CreateFieldOtherKeys | includes/Core/Form.php:1003-1067 | keys other than the names and the title are left alone |
| FormNames.CreateFieldWirePlain | includes/Core/Form.php:1026-1043 | with a form id a plain name N reaches the field as framering[N] |
| FormNames.CreateFieldWireNested | includes/Core/Form.php:1026-1043 | with a form id root[a]...[leaf] reaches the field as framering[root][leaf] |
| FormNames.CreateFieldWire | includes/Core/Form.php:1026-1043 | with a form id a named field succeeds and its name becomes the wire name of its normalised name |
| FormNames.CreateField | includes/Core/Form.php:1003-1067 | create_field; the CreateField lemmas above state its failure, names, title and untouched keys |
| FormParse.PregMatchColor | includes/Core/Form.php:32 | preg_match returns 1 or 0, never false |
| FormParse.IsColorAcceptsAll | includes/Core/Form.php:31-33 | is_color accepts every string |
| FormParse.IsColorAcceptsNonColor | includes/Core/Form.php:31-33 | a string that is no colour at all is accepted |
| FormParse.IsColor | includes/Core/Form.php:31-33 | is_color; IsColorAcceptsAll proves it accepts every string |
| FormParse.SwitchCaseFirstMatch | includes/Core/Form.php:739-826 | the branch taken is that of the first label loosely equal to the type |
| FormParse.SwitchCaseDefault | includes/Core/Form.php:741-745 | with no matching label the text branch is taken |
| FormParse.CheckboxKindOf | includes/Core/Form.php:823-825 | the type "checkbox" reaches the checkbox branch |
| FormParse.UnslashEntries | includes/Core/Form.php:744 | un-slashing an array keeps its keys |
| FormParse.IsValidOption | includes/Core/Form.php:775-789 | the option loop finds a match exactly as the scan over the options says |
| FormParse.SelectScanFailsFatally | includes/Core/Form.php:775-789 | the option loop fails only with a PHP error |
| FormParse.SelectScanMultiple | includes/Core/Form.php:777-782 | a multiple select with an array value is valid as soon as one option's value was submitted |
| FormParse.SelectScanAssoc | includes/Core/Form.php:785-788 | a single select over associative options is valid when some key loosely equals the value |
| FormParse.SelectScanList | includes/Core/Form.php:785-788 | a single select over a list is valid when some option's value loosely equals the value |
| FormParse.ZeroOptionRejectsNull | includes/Core/Form.php:785-793 | an unsubmitted single select is not matched by an option "0", but is matched by an option "" |
| FormParse.CheckSelect | includes/Core/Form.php:761-795 | the select branch run with its loop equals the select conversion |
| FormParse.ConvertSelect | includes/Core/Form.php:761-795 | the select branch; SelectWithoutOptions states that a select without options rejects every value, CheckSelect that the loop computes it |
| FormParse.ConvertAs | includes/Core/Form.php:739-826 | the type switch; ConvertReportsEmptyField and NoInvalidField state its errors, Form.ConvertField is proved equal to it |
| FormParse.LookupField | includes/Core/Form.php:729-736 | the name, path and submitted value of a field; LookupFailsFatally states that it fails only with PHP errors |
| FormParse.Fallback | includes/Core/Form.php:828-848 | the empty-value fallback; RequiredEmptyFails and EmptyDropped state its required and dropping cases |
| FormParse.Decide | includes/Core/Form.php:739-848 | the outcome of one enabled field; CheckboxAccepted, RequiredEmptyFails and SelectWithoutOptions state its cases |
| FormParse.ParseForm | includes/Core/Form.php:710-857 | parse_form as a fold; FirstFailureWins, AllDisabledParsesNothing, FailingFieldEndsParse and AcceptedValueStored state what it returns, Form.ParseFields is proved equal to it |
| FormParse.WriteBack | includes/Core/Form.php:854 | the field's slot holds the value afterwards; other fields are untouched |
| FormParse.FoldStep | includes/Core/Form.php:722-855 | one iteration: skip goes on, failure stops with the store as is, acceptance sets the path and writes back |
| FormParse.NoInvalidField | includes/Core/Form.php:805-811 | the colour branch never reports invalid_field |
| FormParse.ConvertReportsEmptyField | includes/Core/Form.php:739-826 | the only WP_Error the type switch returns is empty_field |
| FormParse.LookupFailsFatally | includes/Core/Form.php:722-736 | looking a field up fails only with PHP errors |
| FormParse.NoFieldInvalid | includes/Core/Form.php:805-811 | no field of any form is reported as invalid_field |
| FormParse.DisabledSkipped | includes/Core/Form.php:723-726 | a disabled or readonly field is skipped |
| FormParse.RequiredEmptyFails | includes/Core/Form.php:829-833 | a required field with an empty converted value fails with empty_field |
| FormParse.CheckboxAccepted | includes/Core/Form.php:822-854 | a plain checkbox is always accepted into "checked": true when submitted, false otherwise |
| FormParse.EmptyDropped | includes/Core/Form.php:839-847 | an empty value without default is dropped from a non-checkbox unless empty values are allowed |
| FormParse.SelectWithoutOptions | includes/Core/Form.php:761-795 | a select without options rejects every value with empty_field |
| FormParse.FirstFailureWins | includes/Core/Form.php:722-857 | steps after the first failure are never taken; the store is left as the earlier steps made it |
| FormParse.SkipsChangeNothing | includes/Core/Form.php:723-726 | skipped steps change neither result nor store |
| FormParse.AllDisabledParsesNothing | includes/Core/Form.php:710-857 | when every field is disabled the result is an empty array and the store is unchanged |
| FormParse.FailingFieldEndsParse | includes/Core/Form.php:722-857 | a field whose step fails ends the parse there, whatever fields follow |
| FormParse.AcceptedValueStored | includes/Core/Form.php:850-854 | an accepted non-null value is readable in the result at its path and lands in its field's slot |
| FormPaths.GetByPathKeys | includes/Core/Form.php:659-679 | looking up a joined path is looking up its keys one by one |
| FormPaths.SetByKeysOk | includes/Core/Form.php:690-700 | the walk fails exactly when it meets a value other than null, false or an array |
| FormPaths.GetAfterSet | includes/Core/Form.php:659-700 | after setting a non-null value at a path, reading the path gives it back |
| FormPaths.SetKeepsOtherPaths | includes/Core/Form.php:690-700 | setting a path leaves every path that forks from it (below arrays) unchanged |
| FormPaths.GetByKeysStep | includes/Core/Form.php:669-671 | below an array at the first key the lookup goes on in that array |
| FormPaths.GetByKeysSameHead | includes/Core/Form.php:664-667 | the lookup depends only on the value at the first key |
| FormPaths.GetByPath | includes/Core/Form.php:659-679 | get_by_path; GetByPathKeys reduces it to a key-by-key lookup and SetThenGetByPath reads back what set_by_path wrote |
| FormPaths.SetByKeys | includes/Core/Form.php:690-700 | the reference walk of set_by_path; SetByKeysOk, GetAfterSet and SetKeepsOtherPaths state when it fails, what it writes and what it keeps |
| FormPaths.SetByPath | includes/Core/Form.php:690-700 | set_by_path on a path string; SetThenGetByPath is its round trip with get_by_path |
| FormPaths.SetThenGetByPath | includes/Core/Form.php:659-700 | a non-null value set at a '.'-joined path of separator-free keys, where every value on the way is null, false or an array, is read back from that path |
| FormRender.TabindexRule | includes/Core/Form.php:195-228 | a counted input takes the next number; hidden gets -1; readonly or disabled gets none; a hidden, readonly or disabled field, an html, divider or editor field and a failure before line 195 leave the counter alone; a failure after it (options, mapper) comes with the counter moved as for an input; a repeater leaves it alone in the model (see Left out) |
| FormRender.MultipleSelectName | includes/Core/Form.php:189-193 | a multiple select's name ends in "[]"; other inputs keep their name |
| FormRender.CheckboxNeverEmpty | includes/Core/Form.php:177-180 | a checkbox never has an empty value: an empty one becomes "1" |
| FormRender.ConvertedTypes | includes/Core/Form.php:98-187 | a date picker is a text input and a CKEditor a textarea |
| FormRender.ConsecutiveTabindexes | includes/Core/Form.php:195-203 | counted inputs rendered in a row get consecutive tabindexes from the counter on |
| FormRender.AttributeWriteError | includes/Core/Form.php:99-187 | writing into `attributes` succeeds exactly on null, false or an array; a string or another scalar is an error |
| FormRender.EarlyFailure | includes/Core/Form.php:99-187 | the CKEditor attribute write and settings merge, the posted-value lookup, then the select/date attribute write, in that order; none failing means the posted value is found |
| FormRender.Options | includes/Core/Form.php:137-141 | callable options are replaced by what they return |
| FormRender.LateFailure | includes/Core/Form.php:270-305 | count() of non-array options for an empty value, a non-callable mapper, array_unshift/is_associative_array of non-array select options; FailureCases and SelectWithoutOptionArray state it |
| FormRender.FailureCases | includes/Core/Form.php:99-305 | render_field fails exactly with the first failure before the counter, or, when there is none, with the first after it; otherwise it builds an input |
| FormRender.SelectWithoutOptionArray | includes/Core/Form.php:195-305 | a counted select whose options are neither an array nor callable fails after taking its number |
| FormRender.ScalarAttributesFail | includes/Core/Form.php:99-187 | a CKEditor, select or date picker with string or true-scalar attributes fails before the counter moves |
| FormRender.PostedValue | includes/Core/Form.php:143-146 | the given value wins; otherwise the posted value under the field's name, escaped, or null; an array name is an illegal offset; CheckboxNeverEmpty rests on it |
| FormRender.Decide | includes/Core/Form.php:150-231 | the attribute decisions of render_field and its failures; TabindexRule, FailureCases, MultipleSelectName, CheckboxNeverEmpty and ConvertedTypes state them; a repeater's sub-fields are not rendered (see Left out) |
| FormRender.FieldRenderer.constructor | includes/Core/Form.php:37 | the counter starts at 0 |
| FormRender.FieldRenderer.RenderField | includes/Core/Form.php:36-231 | null data gives false; otherwise the input or the failure decided from the merged settings, with the counter advanced as Decide says (a repeater's sub-fields are not counted, see Left out) |
| Hooks.GateOfRecords | includes/Core/Hooks.php:30-36 | a loop over check outcomes records each one up to the first throw, and that throw |
| Hooks.GateOutcomes | includes/Core/Hooks.php:28-37 | admin_init meets every check outcome in order up to the first check that throws |
| Hooks.GateOfStep | includes/Core/Hooks.php:30-35 | one step: a throwing check ends the loop, otherwise its outcome is recorded |
| Hooks.CreatedMeans | includes/Core/Hooks.php:30-35 | a component gets a form exactly when a position holding it recorded a pass |
| Hooks.StagePrefix | includes/Core/Hooks.php:113-117 | the prefix starts with "fr_field_" and is exactly that when the id is empty |
| Hooks.StageAt | includes/Core/Hooks.php:119-121 | each parsed key is staged under prefix + key with null kept and anything else serialized |
| Hooks.StagedKeys | includes/Core/Hooks.php:119-121 | every staged key is the prefix followed by a parsed key |
| Hooks.StagingStep | includes/Core/Hooks.php:94-125 | one component: no form skips; an error ends the request; an empty parse stages nothing; else its batch goes next |
| Hooks.FormlessStageNothing | includes/Core/Hooks.php:95-98 | components without a form stage nothing |
| Hooks.StageOne | includes/Core/Hooks.php:95-124 | one component's staging; StagingStep states its four cases |
| Hooks.Staging | includes/Core/Hooks.php:94-125 | the whole staging loop; StagingStep and HookSet.InsertPostData state what it appends |
| Hooks.FlushBatchAt | includes/Core/Hooks.php:140-146 | after one batch each key of the post holds its last staged value, or is gone when that was null |
| Hooks.FlushBatchSnoc | includes/Core/Hooks.php:140-146 | the inner loop applies the batch's entries in order: one more entry is applied last |
| Hooks.FlushAt | includes/Core/Hooks.php:138-148 | after save_post each key of the post ends with the last value staged for it over all batches; nothing else changes |
| Hooks.FlushSnoc | includes/Core/Hooks.php:139-147 | the outer loop flushes the batches in order: one more batch is flushed last |
| Hooks.FormMetaboxes | includes/Core/Hooks.php:59-82 | at most one metabox per component |
| Hooks.HookSet.constructor | includes/Core/Hooks.php:14-16 | the hooks hold the core and nothing is staged |
| Hooks.HookSet.AdminInit | includes/Core/Hooks.php:28-37 | create_form is called exactly on the components whose check passed before the first throw, and no other component changes |
| Hooks.HookSet.CreateForms | includes/Core/Hooks.php:30-36 | the loop gives each component a form exactly when it is among those that passed |
| Hooks.HookSet.CheckAndCreate | includes/Core/Hooks.php:32-35 | a component gets a form exactly when its check returns true |
| Hooks.HookSet.RegisterMetaboxes | includes/Core/Hooks.php:59-82 | a metabox for each component with a form, with its position's context |
| Hooks.HookSet.InsertPostData | includes/Core/Hooks.php:90-129 | without framering data nothing is staged; otherwise every batch is appended in component order; the post data comes back unchanged |
| Hooks.HookSet.StageAll | includes/Core/Hooks.php:94-125 | the loop appends exactly the staged batches, or stops with the error |
| Hooks.HookSet.StageNext | includes/Core/Hooks.php:95-124 | one pass of the loop, carrying the staging invariant over one component |
| Hooks.HookSet.SavePost | includes/Core/Hooks.php:138-148 | the store becomes the flush of the staged batches, in order |
| Hooks.StageComponent | includes/Core/Hooks.php:100-124 | one component's staging outcome |
| Hooks.StageLoop | includes/Core/Hooks.php:119-121 | the staging loop over a parsed value; one that is no array stages nothing |
| Html.AttributePartsKept | includes/Core/HtmlElement.php:171-187 | the attribute parts are exactly the kept attributes, in order |
| Html.Kept | includes/Core/HtmlElement.php:177-179 | every attribute kept is not skipped, and every attribute not skipped is kept |
| Html.SkippedValues | includes/Core/HtmlElement.php:177 | 0 and "" are rendered; null, false, "0", [] and 0.0 are dropped |
| Html.OpeningParts | includes/Core/HtmlElement.php:168 | the first part is "<" followed by the tag |
| Html.CloseLast | includes/Core/HtmlElement.php:197-210 | only the last part is extended |
| Html.ChildMarkups | includes/Core/HtmlElement.php:85-87 | one markup per child |
| Html.SelfClosing | includes/Core/HtmlElement.php:189-201 | without content input and img end in " />", every other tag in "></tag>" |
| Html.WithContent | includes/Core/HtmlElement.php:202-211 | with content the opening tag is closed, then the content and the closing tag follow |
| Html.Markup | includes/Core/HtmlElement.php:165-228 | render's markup of an element state; SelfClosing and WithContent state its two shapes, HtmlElement.Render is proved to return it |
| Html.ContentPriority | includes/Core/HtmlElement.php:72-91 | inner html wins over escaped inner text, which wins over the children |
| Html.InnerContent | includes/Core/HtmlElement.php:72-91 | get_inner_content; ContentPriority states the order of the three slots |
| Html.HtmlReplacesContent | includes/Core/HtmlElement.php:99-105 | after set_inner_html the content is that html, unless it is empty-looking |
| Html.TextReplacesContent | includes/Core/HtmlElement.php:113-119 | after set_inner_text the content is the escaped text, unless it is empty-looking |
| Html.ZeroTextIsNoContent | includes/Core/HtmlElement.php:138-140 | the text "0" counts as no content |
| Html.RoutedDropsContentKeys | includes/Core/HtmlElement.php:38-65 | inner_text, inner_html and children, when set, are not kept as attributes |
| Html.HtmlElement.Plain | includes/Core/HtmlElement.php:38-42 | tag and attributes are kept, with no content and no result |
| Html.HtmlElement.Create | includes/Core/HtmlElement.php:38-65 | content options go to their slots and leave the attributes; the children elements are given exactly when `children` is set; a non-string text or html is a TypeError |
| Html.HtmlElement.RouteContent | includes/Core/HtmlElement.php:44-54 | inner_text then inner_html are set and removed from the attributes |
| Html.HtmlElement.RemoveAttribute | includes/Core/HtmlElement.php:47 | the attribute is removed |
| Html.HtmlElement.SetInnerHtml | includes/Core/HtmlElement.php:99-105 | the html is set and text and children are cleared |
| Html.HtmlElement.SetInnerText | includes/Core/HtmlElement.php:113-119 | the text is set and html and children are cleared |
| Html.HtmlElement.AppendChild | includes/Core/HtmlElement.php:127-131 | the child goes last and earlier children stay |
| Html.HtmlElement.AdoptChildren | includes/Core/HtmlElement.php:57-64 | the children are appended in order and the children attribute removed |
| Html.HtmlElement.AppendAll | includes/Core/HtmlElement.php:58-61 | the children are appended in order |
| Html.HtmlElement.SetAttribute | includes/Core/HtmlElement.php:149-152 | the key is overwritten in place or added last |
| Html.HtmlElement.SetProperty | includes/Core/HtmlElement.php:154-157 | as set_attribute, with the value defaulting to true |
| Html.HtmlElement.Opening | includes/Core/HtmlElement.php:168-187 | the loop builds the tag and the kept attributes |
| Html.HtmlElement.Render | includes/Core/HtmlElement.php:165-228 | the element is always dirty, so the markup is rebuilt from its state, cached and returned |

## Left out

- Host functions are opaque functions passed in as `Php.Host`:
  - `sanitize_*`, `esc_*`, `is_email`, `htmlentities`, `__`;
  - `maybe_serialize`/`maybe_unserialize`, float-to-string and `floatval`.
  - The model proves nothing about what they compute.
- `uniqid` is a parameter: the suffix a call would return.
- `$_POST`, `$_GET` and `$_POST["framering"]` are plain inputs, and so is the current post.
- `is_submit` is left out: it depends on the request method.
- FormNames.ParseStr: only the bracket syntax of `parse_str` is modelled. A name
  holding `&`, `=`, `%` or `+` is parsed as if those were ordinary characters,
  where PHP splits or decodes it (PHP reads "a&b" as the variable "a").
- FormNames.SubnamesOfChain, FormNames.KeyPathShape: `parse_field_subnames` is
  modelled only on the single chain `parse_str` builds for one name, which is
  every input it receives from the core.
- Php.LooseEq: PHP 8 `==` only as far as the core compares values. Only the
  canonical integer spelling counts as a numeric string: two strings are
  compared by spelling (`"1.0" == "1"` is false in the model), an integer or a
  float equals a string only when the string spells an integer of that value
  (`1.5 == "1.5"` and `1 == " 1"` are false in the model), where PHP compares
  any numeric string by value.
- FormNames.ParseNameStep: a plain integer-like name such as "5" is stored as
  the string "5"; PHP takes it from `array_keys` and stores the integer 5.
  Every later use reads it as the same array key, so nothing downstream differs.
- FormRender.FieldRenderer.RenderField: a repeater (`includes/Core/Form.php:113-133`)
  hands its sub-fields to `render_fields`, which calls `render_field` on each of
  them, so every counted sub-field draws the next number from the counter. The
  model does not render the sub-fields and leaves the counter unchanged for a
  repeater (so do `FormRender.Decide` and `FormRender.TabindexRule`): after a
  repeater with one plain text sub-field PHP's counter is one higher than the
  model's. `render_fields` is not part of this model.
- FormRender.Decide, FormRender.FieldRenderer.RenderField: the failures that
  come after the option checks are not modelled, and the model builds an `Input`
  there. These are a non-string option name or text given to an `HtmlElement`,
  and a failing mapper call. The `value` of the `Input` is the field's value
  before the `mapToFront` mapper is applied. The options callable is given the
  merged settings, without the CKEditor's changes to `type` and `attributes`.
  An empty string as `attributes` is taken to fail like any other string.
- Markup printed by `render_field` is left out, because it is output, not decisions:
  - the `html`, `divider`, `editor`, `repeater` branches (they appear only as `Passthrough`);
  - the label and description wrappers, options, step/min/max;
  - the rendering of the built element.
- `render_fields`, `process_fields`, the setters and getters of Form's display
  settings, and the `render` of a Form are left out: they are markup and plumbing.
- Html.HtmlElement.Render: the two `apply_filters` hooks are taken as the
  identity, and `echo` is not modelled.
- Html.HtmlElement.AppendChild: a child is kept as its state when appended. Later
  changes to the child object, and the children's own `result` caches, are not
  reflected (no aliasing).
- Hook, menu and script registration (`add_action`, `add_meta_box`,
  `add_submenu_page`, `wp_enqueue_*`) is plumbing. A metabox is the triple it would be
  registered with.
- `wp_send_json_error`/`exit` are not modelled.
  - Hooks.StageOne: a `WP_Error` from `process` ends the request as the fatal
    error of indexing it at `includes/Core/Hooks.php:102`, which comes first.
- Plugin.Handle: `get_form()->process` is an opaque function of the submitted
  data. The Form a component creates is not built from its fields, because
  `Component.php` does not define `create_form` or `get_form`.
- FieldModel.Field.constructor: the parent object is passed separately, since
  a field array holds no objects in this model. `get_parent` simply returns it.
- `includes/Views/Admin/DebugTools.php`, `src/js/index.ts` and `webpack.config.js`
  are not part of this model: admin UI, browser glue and build configuration.
- `framering.php` contributes only the prefix `fr_`.
