/**
 * Component (includes/Component.php): a titled group of field arrays shown
 * where its visibility rules hold. The rule check is modelled as the code
 * is written: inside the condition loop the leaf value overwrites the
 * group operator, and check_single never returns true.
 */
module Components {
  import opened Wrappers
  import opened Php
  import opened Rules

  const AddFieldTypeError := "TypeError: Component::add_field(): Argument #1 ($field) must be of type array"
  const NoNameError := "All components must have a name."
  const NoRulesError := "All components must have at least one rule."

  /** One entry of the rules array: a RuleCondition object or a plain value. */
  datatype Rule = ConditionRule(rc: RuleCondition) | ValueRule(v: Value)

  /** The `rules` option: an array of rules, or a value that is no array. */
  datatype RuleSet = RuleList(items: seq<Rule>) | Scalar(v: Value)

  /** `empty($data["rules"])`. */
  predicate NoRules(rules: RuleSet)
  {
    match rules
    case RuleList(items) => items == []
    case Scalar(v) => Empty(v)
  }

  /** What the page being shown answers to the host's conditional tags. */
  datatype Context = Context(isHome: bool, postType: Value, isArchive: bool)

  const InvalidRule := "Rule must be an array or a RuleCondition instance."

  /**
   * check_single (includes/Component.php:105-143): false on a mismatch and
   * null otherwise; `is_post` falls through and compares with "page".
   */
  function CheckSingle(key: Key, check: Value, ctx: Context): (r: Value)
    ensures r == Bool(false) || r == Null
  {
    if key == "is_homepage" || key == "is_home" then
      if Bool(ctx.isHome) != check then Bool(false) else Null
    else if key == "is_post" || key == "is_page" || key == "post_type" then
      var expected := if key == "post_type" then check else Str("page");
      if ctx.postType != expected then Bool(false) else Null
    else if key == "is_archive" then
      if check.Bool? then (if Bool(ctx.isArchive) != check then Bool(false) else Null)
      else if !ctx.isArchive then Bool(false) else Null
    else Null
  }

  /** A leaf never holds: check_single's result is falsy for every key and value. */
  lemma CheckSingleNeverHolds(key: Key, check: Value, ctx: Context)
    ensures Empty(CheckSingle(key, check, ctx))
  {
  }

  /** `is_post` and `is_page` both test for the post type "page", whatever value they are given. */
  lemma PostMeansPage(check: Value, other: Value, ctx: Context)
    ensures CheckSingle("is_post", check, ctx) == CheckSingle("is_page", other, ctx)
    ensures CheckSingle("is_page", check, ctx) == (if ctx.postType == Str("page") then Null else Bool(false))
  {
  }

  /**
   * `is_archive` with a boolean compares it with is_archive(); with anything
   * else it passes the value to is_archive(), which takes no argument and
   * ignores it, so the page must be an archive.
   */
  lemma ArchiveRule(check: Value, ctx: Context)
    ensures check.Bool? ==> (CheckSingle("is_archive", check, ctx) == Bool(false) <==> ctx.isArchive != check.b)
    ensures !check.Bool? ==> (CheckSingle("is_archive", check, ctx) == Bool(false) <==> !ctx.isArchive)
  {
  }

  /** An unknown key is never a mismatch. */
  lemma UnknownKeyIsNull(key: Key, check: Value, ctx: Context)
    requires key !in ["is_homepage", "is_home", "is_post", "is_page", "post_type", "is_archive"]
    ensures CheckSingle(key, check, ctx) == Null
  {
  }

  /** The conditions a rule iterates over, or None when the rule is neither an array nor a RuleCondition. */
  function Leaves(rule: Rule): Option<Entries>
  {
    match rule
    case ConditionRule(rc) => Some(if rc.conditions.Arr? then rc.conditions.entries else [])
    case ValueRule(v) => if v.Arr? then Some(v.entries) else None
  }

  /**
   * The inner loop of check (includes/Component.php:86-99) with the leaf in
   * `$condition`: true when it returns false.
   */
  function Refuses(leaves: Entries, ctx: Context): bool
    decreases |leaves|
  {
    if leaves == [] then false
    else
      var value := CheckSingle(leaves[0].0, leaves[0].1, ctx);
      if leaves[0].1 == Str("OR") && !Empty(value) then false
      else if leaves[0].1 == Str("AND") && Empty(value) then true
      else Refuses(leaves[1..], ctx)
  }

  /** Some leaf's value is the string "AND". */
  predicate HasAndLeaf(leaves: Entries)
  {
    exists j :: 0 <= j < |leaves| && leaves[j].1 == Str("AND")
  }

  /** The inner loop returns false exactly when some leaf's value is the string "AND". */
  lemma {:induction false} RefusesIffAndLeaf(leaves: Entries, ctx: Context)
    ensures Refuses(leaves, ctx) <==> HasAndLeaf(leaves)
    decreases |leaves|
  {
    if leaves != [] {
      CheckSingleNeverHolds(leaves[0].0, leaves[0].1, ctx);
      RefusesIffAndLeaf(leaves[1..], ctx);
      assert HasAndLeaf(leaves) <==> leaves[0].1 == Str("AND") || HasAndLeaf(leaves[1..]) by {
        if HasAndLeaf(leaves[1..]) {
          var j :| 0 <= j < |leaves[1..]| && leaves[1..][j].1 == Str("AND");
          assert leaves[j + 1].1 == Str("AND");
        }
        if HasAndLeaf(leaves) && leaves[0].1 != Str("AND") {
          var j :| 0 <= j < |leaves| && leaves[j].1 == Str("AND");
          assert leaves[1..][j - 1].1 == Str("AND");
        }
      }
    }
  }

  /** The outer loop of check (includes/Component.php:68-102) over the rules. */
  function CheckRules(items: seq<Rule>, ctx: Context): Result<bool, string>
    decreases |items|
  {
    if items == [] then Ok(true)
    else
      match Leaves(items[0])
      case None => Err(InvalidRule)
      case Some(leaves) => if Refuses(leaves, ctx) then Ok(false) else CheckRules(items[1..], ctx)
  }

  /** check: a rules value that is no array is not iterated, so it passes. */
  function CheckOutcome(rules: RuleSet, ctx: Context): Result<bool, string>
  {
    match rules
    case RuleList(items) => CheckRules(items, ctx)
    case Scalar(_) => Ok(true)
  }

  /** Rule i is an array or a RuleCondition whose conditions hold no "AND" leaf. */
  predicate Passes(items: seq<Rule>, i: int)
    requires 0 <= i < |items|
  {
    Leaves(items[i]).Some? && !HasAndLeaf(Leaves(items[i]).value)
  }

  /** Every rule before i passes. */
  predicate PassBefore(items: seq<Rule>, i: int)
    requires 0 <= i <= |items|
  {
    forall k :: 0 <= k < i ==> Passes(items, k)
  }

  /**
   * check as written: it throws at the first rule that is neither an array
   * nor a RuleCondition unless an earlier rule has an "AND" leaf; otherwise
   * it is false exactly when some rule has an "AND" leaf.
   */
  lemma {:induction false} CheckAsWritten(items: seq<Rule>, ctx: Context)
    ensures CheckRules(items, ctx) == Ok(true) <==> forall i :: 0 <= i < |items| ==> Passes(items, i)
    ensures CheckRules(items, ctx).Err? <==>
      exists i :: 0 <= i < |items| && Leaves(items[i]).None? && PassBefore(items, i)
    decreases |items|
  {
    if items != [] {
      var rest := items[1..];
      if Leaves(items[0]).None? {
        assert Leaves(items[0]).None? && PassBefore(items, 0);
        assert !Passes(items, 0);
      } else {
        RefusesIffAndLeaf(Leaves(items[0]).value, ctx);
        if !Passes(items, 0) {
          assert CheckRules(items, ctx) == Ok(false);
        } else {
          CheckAsWritten(rest, ctx);
          assert CheckRules(items, ctx) == CheckRules(rest, ctx);
          assert forall i :: 0 <= i < |rest| ==> (Passes(rest, i) <==> Passes(items, i + 1));
          if forall i :: 0 <= i < |rest| ==> Passes(rest, i) {
            assert forall i :: 0 <= i < |items| ==> Passes(items, i) by {
              forall i | 0 <= i < |items| ensures Passes(items, i) {
                if i > 0 {
                  assert Passes(rest, i - 1);
                }
              }
            }
          }
          if CheckRules(rest, ctx).Err? {
            var i :| 0 <= i < |rest| && Leaves(rest[i]).None? && PassBefore(rest, i);
            assert Leaves(items[i + 1]).None?;
            assert PassBefore(items, i + 1) by {
              forall k | 0 <= k < i + 1 ensures Passes(items, k) {
                if k > 0 {
                  assert Passes(rest, k - 1);
                }
              }
            }
          }
          if exists i :: 0 <= i < |items| && Leaves(items[i]).None? && PassBefore(items, i) {
            var i :| 0 <= i < |items| && Leaves(items[i]).None? && PassBefore(items, i);
            assert i > 0;
            assert Leaves(rest[i - 1]).None?;
            assert PassBefore(rest, i - 1) by {
              forall k | 0 <= k < i - 1 ensures Passes(rest, k) {
                assert Passes(items, k + 1);
              }
            }
          }
        }
      }
    }
  }

  /** The field arrays add_field receives, in order; an entry that is no array is a TypeError. */
  function FieldEntries(es: Entries): Result<seq<Entries>, string>
    decreases |es|
  {
    if es == [] then Ok([])
    else if !es[0].1.Arr? then Err(AddFieldTypeError)
    else AfterAdding([es[0].1.entries], FieldEntries(es[1..]))
  }

  /** `done` followed by what a later run adds, or its failure. */
  function AfterAdding(done: seq<Entries>, r: Result<seq<Entries>, string>): Result<seq<Entries>, string>
  {
    match r
    case Ok(more) => Ok(done + more)
    case Err(e) => Err(e)
  }

  /** add_field fails exactly when some field value is not an array. */
  lemma {:induction false} FieldEntriesFails(es: Entries)
    ensures FieldEntries(es).Err? <==> exists i :: 0 <= i < |es| && !es[i].1.Arr?
    decreases |es|
  {
    if es != [] && es[0].1.Arr? {
      var tail := es[1..];
      FieldEntriesFails(tail);
      if FieldEntries(tail).Err? {
        var i :| 0 <= i < |tail| && !tail[i].1.Arr?;
        assert es[i + 1] == tail[i];
      } else {
        forall i | 0 <= i < |es|
          ensures es[i].1.Arr?
        {
          if i > 0 {
            assert es[i] == tail[i - 1];
          }
        }
      }
    }
  }

  /** When add_field accepts them all, the fields are the values' entries, in order. */
  lemma {:induction false} FieldEntriesAccepted(es: Entries)
    requires FieldEntries(es).Ok?
    ensures |FieldEntries(es).value| == |es|
    ensures forall i :: 0 <= i < |es| ==> es[i].1 == Arr(FieldEntries(es).value[i])
    decreases |es|
  {
    if es != [] {
      var tail := es[1..];
      FieldEntriesAccepted(tail);
      var rest := FieldEntries(tail).value;
      var all := FieldEntries(es).value;
      assert all == [es[0].1.entries] + rest;
      forall i | 0 <= i < |es|
        ensures es[i].1 == Arr(all[i])
      {
        if i > 0 {
          assert es[i] == tail[i - 1];
          assert all[i] == rest[i - 1];
        }
      }
    }
  }

  /** One step of the constructor's fields loop. */
  lemma FieldEntriesStep(es: Entries, i: nat)
    requires i < |es|
    ensures FieldEntries(es[i..]) ==
      if !es[i].1.Arr? then Err(AddFieldTypeError)
      else AfterAdding([es[i].1.entries], FieldEntries(es[i + 1..]))
  {
    assert es[i..][1..] == es[i + 1..];
  }

  /** Fields added one after another accumulate in order. */
  lemma AfterAddingSnoc(before: seq<Entries>, x: Entries, r: Result<seq<Entries>, string>)
    ensures AfterAdding(before, AfterAdding([x], r)) == AfterAdding(before + [x], r)
  {
    match r {
      case Ok(more) => assert before + ([x] + more) == (before + [x]) + more;
      case Err(_) =>
    }
  }

  /** The `fields` option: a value that is no array adds nothing. */
  function FieldsOf(fields: Value): Result<seq<Entries>, string>
  {
    if fields.Arr? then FieldEntries(fields.entries) else Ok([])
  }

  class Component {
    const title: Value
    const rules: RuleSet
    var fields: seq<Entries>

    constructor Plain(title: Value, rules: RuleSet)
      ensures this.title == title && this.rules == rules && fields == []
    {
      this.title := title;
      this.rules := rules;
      fields := [];
    }

    /**
     * The constructor (includes/Component.php:38-56), given the "title",
     * "rules" and "fields" entries of its options (null when absent): an
     * empty title or empty rules throw; the fields are added in order.
     */
    static method Create(title: Value, rules: RuleSet, fields: Value) returns (r: Result<Component, string>)
      ensures Empty(title) ==> r == Err(NoNameError)
      ensures !Empty(title) && NoRules(rules) ==> r == Err(NoRulesError)
      ensures !Empty(title) && !NoRules(rules) && FieldsOf(fields).Err? ==> r == Err(FieldsOf(fields).error)
      ensures !Empty(title) && !NoRules(rules) && FieldsOf(fields).Ok? ==>
        r.Ok? && fresh(r.value) && r.value.title == title && r.value.rules == rules && r.value.fields == FieldsOf(fields).value
    {
      if Empty(title) {
        return Err(NoNameError);
      }
      if NoRules(rules) {
        return Err(NoRulesError);
      }
      var c := new Component.Plain(title, rules);
      if fields.Arr? {
        var added := c.AddFields(fields.entries);
        if added.Err? {
          return Err(added.error);
        }
      }
      return Ok(c);
    }

    /** The fields loop of the constructor (includes/Component.php:51-55); a TypeError stops it. */
    method AddFields(es: Entries) returns (r: Result<bool, string>)
      modifies this`fields
      ensures FieldEntries(es).Err? ==> r == Err(FieldEntries(es).error)
      ensures FieldEntries(es).Ok? ==> r == Ok(true) && fields == old(fields) + FieldEntries(es).value
    {
      var i := 0;
      ghost var added: seq<Entries> := [];
      assert es[i..] == es;
      match FieldEntries(es) {
        case Ok(more) => assert [] + more == more;
        case Err(_) =>
      }
      while i < |es|
        invariant 0 <= i <= |es|
        invariant fields == old(fields) + added
        invariant FieldEntries(es) == AfterAdding(added, FieldEntries(es[i..]))
      {
        FieldEntriesStep(es, i);
        if !es[i].1.Arr? {
          return Err(AddFieldTypeError);
        }
        AddField(es[i].1.entries);
        AppendLast(old(fields), added, es[i].1.entries);
        AfterAddingSnoc(added, es[i].1.entries, FieldEntries(es[i + 1..]));
        added := added + [es[i].1.entries];
        i := i + 1;
      }
      assert es[i..] == [];
      assert added + [] == added;
      return Ok(true);
    }

    /** add_field (includes/Component.php:58-60): the field goes last. */
    method AddField(field: Entries)
      modifies this`fields
      ensures fields == old(fields) + [field]
    {
      fields := fields + [field];
    }

    /** check (includes/Component.php:67-103), looping as the code does; throwing is an Err. */
    method Check(ctx: Context) returns (r: Result<bool, string>)
      ensures r == CheckOutcome(rules, ctx)
    {
      if rules.Scalar? {
        return Ok(true);
      }
      var items := rules.items;
      var i := 0;
      while i < |items|
        invariant 0 <= i <= |items|
        invariant CheckRules(items[i..], ctx) == CheckRules(items, ctx)
      {
        assert items[i..][1..] == items[i + 1..];
        var conditions: Entries := [];
        match items[i] {
          case ConditionRule(rc) =>
            conditions := if rc.conditions.Arr? then rc.conditions.entries else [];
          case ValueRule(v) =>
            if !v.Arr? {
              return Err(InvalidRule);
            }
            conditions := v.entries;
        }
        var refused := CheckConditions(conditions, ctx);
        if refused {
          return Ok(false);
        }
        i := i + 1;
      }
      return Ok(true);
    }

    /**
     * The inner loop of check (includes/Component.php:86-99): each leaf is
     * the value `$condition` takes; true when check returns false.
     */
    static method CheckConditions(conditions: Entries, ctx: Context) returns (refused: bool)
      ensures refused == Refuses(conditions, ctx)
    {
      var j := 0;
      while j < |conditions|
        invariant 0 <= j <= |conditions|
        invariant Refuses(conditions[j..], ctx) == Refuses(conditions, ctx)
      {
        assert conditions[j..][1..] == conditions[j + 1..];
        var key := conditions[j].0;
        var condition := conditions[j].1;
        var value := CheckSingle(key, condition, ctx);
        if condition == Str("OR") && !Empty(value) {
          return false;
        } else if condition == Str("AND") && Empty(value) {
          return true;
        }
        j := j + 1;
      }
      return false;
    }
  }
}
