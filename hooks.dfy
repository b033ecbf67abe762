/**
 * The WordPress hooks (includes/Core/Hooks.php): forms are created for the
 * components whose rules match, metaboxes are added for those with a form,
 * submitted values are staged under their meta keys before the post is
 * written, and the staged values are flushed to the post's meta afterwards.
 */
module Hooks {
  import opened Wrappers
  import opened Php
  import opened FormParse
  import opened FieldModel
  import opened Components
  import opened Plugin

  // ---------------------------------------------------------------------
  // admin_init
  // ---------------------------------------------------------------------

  /** The outcome of each component's check, in order. */
  function Outcomes(hs: seq<Handle>, ctx: Context): (r: seq<Result<bool, string>>)
    ensures |r| == |hs|
  {
    if hs == [] then [] else [CheckOutcome(hs[0].component.rules, ctx)] + Outcomes(hs[1..], ctx)
  }

  lemma {:induction false} OutcomesAt(hs: seq<Handle>, j: nat, ctx: Context)
    requires j < |hs|
    ensures Outcomes(hs, ctx)[j] == CheckOutcome(hs[j].component.rules, ctx)
  {
    if j > 0 {
      OutcomesAt(hs[1..], j - 1, ctx);
    }
  }

  /**
   * The outcomes a loop over `outs` records, up to the first error, which
   * ends it (its message is the second component).
   */
  function GateOf(outs: seq<Result<bool, string>>): (seq<bool>, Option<string>)
  {
    if outs == [] then ([], None)
    else
      match outs[0]
      case Err(e) => ([], Some(e))
      case Ok(b) =>
        var rest := GateOf(outs[1..]);
        ([b] + rest.0, rest.1)
  }

  /** The check outcomes admin_init meets, in order, up to the first check that throws. */
  function Gate(hs: seq<Handle>, ctx: Context): (seq<bool>, Option<string>)
  {
    GateOf(Outcomes(hs, ctx))
  }

  /** GateOf records every outcome before the first error, and that error. */
  lemma {:induction false} GateOfRecords(outs: seq<Result<bool, string>>)
    ensures var r := GateOf(outs);
      && |r.0| <= |outs|
      && (r.1.None? ==> |r.0| == |outs|)
      && (r.1.Some? ==> |r.0| < |outs| && outs[|r.0|] == Err(r.1.value))
      && forall i :: 0 <= i < |r.0| ==> outs[i] == Ok(r.0[i])
  {
    if outs != [] {
      GateOfRecords(outs[1..]);
    }
  }

  /**
   * admin_init records every outcome up to the first check that throws, and
   * stops there; with no throw it records all of them.
   */
  lemma GateOutcomes(hs: seq<Handle>, ctx: Context)
    ensures var r := Gate(hs, ctx);
      && |r.0| <= |hs|
      && (r.1.None? ==> |r.0| == |hs|)
      && (r.1.Some? ==> |r.0| < |hs| && CheckOutcome(hs[|r.0|].component.rules, ctx) == Err(r.1.value))
      && forall i :: 0 <= i < |r.0| ==> CheckOutcome(hs[i].component.rules, ctx) == Ok(r.0[i])
  {
    var outs := Outcomes(hs, ctx);
    GateOfRecords(outs);
    forall j | 0 <= j < |hs|
      ensures outs[j] == CheckOutcome(hs[j].component.rules, ctx)
    {
      OutcomesAt(hs, j, ctx);
    }
  }

  /** The components among the first |passes| whose check passed: those create_form is called on. */
  function Created(hs: seq<Handle>, passes: seq<bool>): set<Handle>
    decreases |passes|
  {
    if |passes| == 0 then {}
    else
      var n := |passes| - 1;
      Created(hs, passes[..n]) + (if passes[n] && n < |hs| then {hs[n]} else {})
  }

  /** One step of admin_init's loop: a check that throws ends it, otherwise its outcome is recorded. */
  lemma GateOfStep(outs: seq<Result<bool, string>>, i: nat)
    requires i < |outs|
    ensures GateOf(outs[i..]) ==
      match outs[i]
      case Err(e) => ([], Some(e))
      case Ok(b) => ([b] + GateOf(outs[i + 1..]).0, GateOf(outs[i + 1..]).1)
  {
    assert outs[i..][1..] == outs[i + 1..];
  }

  /** The loop invariant of admin_init carried over a check that passes or fails without throwing. */
  lemma GateAdvance(outs: seq<Result<bool, string>>, done: seq<bool>, i: nat, b: bool)
    requires i < |outs| && outs[i] == Ok(b)
    requires GateOf(outs) == (done + GateOf(outs[i..]).0, GateOf(outs[i..]).1)
    ensures GateOf(outs) == ((done + [b]) + GateOf(outs[i + 1..]).0, GateOf(outs[i + 1..]).1)
  {
    GateOfStep(outs, i);
    assert done + ([b] + GateOf(outs[i + 1..]).0) == (done + [b]) + GateOf(outs[i + 1..]).0;
  }

  /** The loop invariant of admin_init at a check that throws: the gate ends there with its error. */
  lemma GateStop(outs: seq<Result<bool, string>>, done: seq<bool>, i: nat, e: string)
    requires i < |outs| && outs[i] == Err(e)
    requires GateOf(outs) == (done + GateOf(outs[i..]).0, GateOf(outs[i..]).1)
    ensures GateOf(outs) == (done, Some(e))
  {
    GateOfStep(outs, i);
    assert done + [] == done;
  }

  /** A component gets a form exactly when some position holding it recorded a pass. */
  lemma {:induction false} CreatedMeans(x: Handle, hs: seq<Handle>, passes: seq<bool>)
    ensures x in Created(hs, passes) <==> exists j :: 0 <= j < |passes| && j < |hs| && passes[j] && hs[j] == x
    decreases |passes|
  {
    if |passes| > 0 {
      var n := |passes| - 1;
      var init := passes[..n];
      CreatedMeans(x, hs, init);
      if exists j :: 0 <= j < |passes| && j < |hs| && passes[j] && hs[j] == x {
        var j :| 0 <= j < |passes| && j < |hs| && passes[j] && hs[j] == x;
        if j < n {
          assert init[j];
        }
      }
      if exists j :: 0 <= j < |init| && j < |hs| && init[j] && hs[j] == x {
        var j :| 0 <= j < |init| && j < |hs| && init[j] && hs[j] == x;
        assert passes[j];
      }
    }
  }

  /** One more outcome adds the next component exactly when it passed. */
  lemma CreatedSnoc(hs: seq<Handle>, done: seq<bool>, b: bool)
    requires |done| < |hs|
    ensures Created(hs, done + [b]) == Created(hs, done) + (if b then {hs[|done|]} else {})
  {
    assert (done + [b])[..|done|] == done;
  }

  // ---------------------------------------------------------------------
  // insert_post_data
  // ---------------------------------------------------------------------

  /** The prefix of a component's staged keys (includes/Core/Hooks.php:113-117). */
  function StagePrefix(id: Value, h: Host): (p: string)
    ensures |p| >= |KeyPrefix| && p[..|KeyPrefix|] == KeyPrefix
    ensures Empty(id) ==> p == KeyPrefix
  {
    KeyPrefix + (if !Empty(id) then ConcatStr(id, h) + "_" else "")
  }

  /** A staged value: null stays null, anything else is serialized. */
  function StagedValue(v: Value, h: Host): Value
  {
    if v == Null then Null else h.maybeSerialize(v)
  }

  /** The staging loop (includes/Core/Hooks.php:119-121) over the parsed entries, into `save`. */
  function Stage(prefix: string, parsed: Entries, save: Entries, h: Host): Entries
    decreases |parsed|
  {
    if parsed == [] then save
    else Stage(prefix, parsed[1..], Put(save, prefix + parsed[0].0, StagedValue(parsed[0].1, h)), h)
  }

  /** A parsed key is staged under prefix + key with its staged value; other keys keep what `save` had. */
  lemma {:induction false} StageAt(prefix: string, parsed: Entries, save: Entries, h: Host, k: Key)
    requires DistinctKeys(parsed)
    ensures Get(Stage(prefix, parsed, save, h), prefix + k) ==
      if HasKey(parsed, k) then Some(StagedValue(At(parsed, k), h)) else Get(save, prefix + k)
    decreases |parsed|
  {
    if parsed != [] {
      var rest := parsed[1..];
      assert DistinctKeys(rest);
      assert HasKey(parsed, k) <==> parsed[0].0 == k || HasKey(rest, k);
      var next := Put(save, prefix + parsed[0].0, StagedValue(parsed[0].1, h));
      StageAt(prefix, rest, next, h, k);
      if parsed[0].0 == k {
        assert !HasKey(rest, k);
        assert At(parsed, k) == parsed[0].1;
      } else {
        assert (prefix + parsed[0].0)[|prefix|..] == parsed[0].0;
        assert (prefix + k)[|prefix|..] == k;
        if HasKey(rest, k) {
          assert At(parsed, k) == At(rest, k);
        }
      }
    }
  }

  /** Every staged key is the prefix followed by a parsed key. */
  lemma {:induction false} StagedKeys(prefix: string, parsed: Entries, save: Entries, h: Host, key: string)
    requires HasKey(Stage(prefix, parsed, save, h), key)
    ensures HasKey(save, key) || exists k :: HasKey(parsed, k) && key == prefix + k
    decreases |parsed|
  {
    if parsed != [] {
      var next := Put(save, prefix + parsed[0].0, StagedValue(parsed[0].1, h));
      StagedKeys(prefix, parsed[1..], next, h, key);
      if HasKey(next, key) && !HasKey(save, key) {
        assert Get(next, key).Some?;
        assert key == prefix + parsed[0].0;
        assert HasKey(parsed, parsed[0].0);
      }
      if exists k :: HasKey(parsed[1..], k) && key == prefix + k {
        var k :| HasKey(parsed[1..], k) && key == prefix + k;
        var i :| 0 <= i < |parsed[1..]| && parsed[1..][i].0 == k;
        assert parsed[i + 1].0 == k;
      }
    }
  }

  /** The message of the fatal error raised by indexing a WP_Error object. */
  const WpErrorAsArray := "Error: Cannot use object of type WP_Error as array"

  /**
   * What one component with a form contributes to insert_post_data
   * (includes/Core/Hooks.php:100-124): the fatal error that ends the request,
   * no batch when its parsed value is empty, or the batch it stages.
   */
  function StageOne(hd: Handle, data: Value, h: Host): Result<Option<Entries>, string>
  {
    match hd.process(data)
    case Err(WpError(_, _)) => Err(WpErrorAsArray)
    case Err(Fatal(reason)) => Err(reason)
    case Ok(result) =>
      var parsed := At(result, hd.name);
      if Empty(parsed) then Ok(None)
      else Ok(Some(Stage(StagePrefix(hd.id, h), if parsed.Arr? then parsed.entries else [], [], h)))
  }

  /**
   * The loop of insert_post_data (includes/Core/Hooks.php:94-125): the batch
   * each component with a form stages, in order, or the fatal error that
   * ends the request.
   */
  function Staging(hs: seq<Handle>, data: Value, h: Host): Result<seq<Entries>, string>
    reads hs
    decreases |hs|
  {
    if hs == [] then Ok([])
    else if !hs[0].hasForm then Staging(hs[1..], data, h)
    else
      match StageOne(hs[0], data, h)
      case Err(e) => Err(e)
      case Ok(None) => Staging(hs[1..], data, h)
      case Ok(Some(batch)) => Prefixed([batch], Staging(hs[1..], data, h))
  }

  /** One step of insert_post_data's loop. */
  lemma StagingStep(hs: seq<Handle>, i: nat, data: Value, h: Host)
    requires i < |hs|
    ensures Staging(hs[i..], data, h) ==
      if !hs[i].hasForm then Staging(hs[i + 1..], data, h)
      else match StageOne(hs[i], data, h)
        case Err(e) => Err(e)
        case Ok(None) => Staging(hs[i + 1..], data, h)
        case Ok(Some(batch)) => Prefixed([batch], Staging(hs[i + 1..], data, h))
  {
    assert hs[i..][1..] == hs[i + 1..];
    assert hs[i..][0] == hs[i];
  }

  /**
   * insert_post_data's loop invariant carried over one component: `staged`
   * were staged before component `i`, whose staging outcome is `outcome`.
   */
  lemma StagingAdvance(hs: seq<Handle>, i: nat, all: Result<seq<Entries>, string>, staged: seq<Entries>, outcome: Result<Option<Entries>, string>, data: Value, h: Host)
    requires i < |hs| && (hs[i].hasForm ==> outcome == StageOne(hs[i], data, h))
    requires all == Prefixed(staged, Staging(hs[i..], data, h))
    ensures !hs[i].hasForm || (outcome.Ok? && outcome.value.None?) ==>
      all == Prefixed(staged, Staging(hs[i + 1..], data, h))
    ensures hs[i].hasForm && outcome.Ok? && outcome.value.Some? ==>
      all == Prefixed(staged + [outcome.value.value], Staging(hs[i + 1..], data, h))
    ensures hs[i].hasForm && outcome.Err? ==> all == Err(outcome.error)
  {
    StagingStep(hs, i, data, h);
    if hs[i].hasForm && outcome.Ok? && outcome.value.Some? {
      PrefixedAppend(staged, [outcome.value.value], Staging(hs[i + 1..], data, h));
    }
  }

  /** Components without a form stage nothing. */
  lemma {:induction false} FormlessStageNothing(hs: seq<Handle>, data: Value, h: Host)
    requires forall i :: 0 <= i < |hs| ==> !hs[i].hasForm
    ensures Staging(hs, data, h) == Ok([])
    decreases |hs|
  {
    if hs != [] {
      FormlessStageNothing(hs[1..], data, h);
    }
  }

  // ---------------------------------------------------------------------
  // save_post
  // ---------------------------------------------------------------------

  /** One staged entry applied to the post's meta: null deletes the key, anything else updates it. */
  function Apply(meta: Meta, postId: int, key: string, v: Value): Meta
  {
    if v == Null then meta - {(ById(Int(postId)), key)} else meta[(ById(Int(postId)), key) := v]
  }

  /** The inner loop of save_post (includes/Core/Hooks.php:140-146). */
  function FlushBatch(meta: Meta, batch: Entries, postId: int): Meta
    decreases |batch|
  {
    if batch == [] then meta else FlushBatch(Apply(meta, postId, batch[0].0, batch[0].1), batch[1..], postId)
  }

  /** The outer loop of save_post (includes/Core/Hooks.php:139-147). */
  function Flush(meta: Meta, batches: seq<Entries>, postId: int): Meta
    decreases |batches|
  {
    if batches == [] then meta else Flush(FlushBatch(meta, batches[0], postId), batches[1..], postId)
  }

  /** The last value staged for a key in a batch. */
  function LastIn(batch: Entries, key: string): Option<Value>
    decreases |batch|
  {
    if batch == [] then None
    else if batch[|batch| - 1].0 == key then Some(batch[|batch| - 1].1)
    else LastIn(batch[..|batch| - 1], key)
  }

  /** The last value staged for a key over all batches. */
  function LastStaged(batches: seq<Entries>, key: string): Option<Value>
    decreases |batches|
  {
    if batches == [] then None
    else if LastIn(batches[|batches| - 1], key).Some? then LastIn(batches[|batches| - 1], key)
    else LastStaged(batches[..|batches| - 1], key)
  }

  /** What the store holds for a target and key, if anything. */
  function Lookup(meta: Meta, t: Target, key: string): Option<Value>
  {
    if (t, key) in meta then Some(meta[(t, key)]) else None
  }

  /** The effect of a staged value on what the store then holds. */
  function Outcome(before: Option<Value>, staged: Option<Value>): Option<Value>
  {
    match staged
    case None => before
    case Some(v) => if v == Null then None else Some(v)
  }

  /** Flushing a batch extended by one entry applies that entry last. */
  lemma {:induction false} FlushBatchSnoc(meta: Meta, batch: Entries, e: (Key, Value), postId: int)
    ensures FlushBatch(meta, batch + [e], postId) == Apply(FlushBatch(meta, batch, postId), postId, e.0, e.1)
    decreases |batch|
  {
    if batch != [] {
      assert (batch + [e])[1..] == batch[1..] + [e];
      FlushBatchSnoc(Apply(meta, postId, batch[0].0, batch[0].1), batch[1..], e, postId);
    }
  }

  /** After one batch, the post's key holds its last staged value (gone if that was null); other entries are untouched. */
  lemma {:induction false} FlushBatchAt(meta: Meta, batch: Entries, postId: int, t: Target, key: string)
    ensures Lookup(FlushBatch(meta, batch, postId), t, key) ==
      if t == ById(Int(postId)) then Outcome(Lookup(meta, t, key), LastIn(batch, key)) else Lookup(meta, t, key)
    decreases |batch|
  {
    if batch != [] {
      var init := batch[..|batch| - 1];
      var last := batch[|batch| - 1];
      assert batch == init + [last];
      FlushBatchSnoc(meta, init, last, postId);
      FlushBatchAt(meta, init, postId, t, key);
    }
  }

  /** Flushing batches extended by one batch flushes that batch last. */
  lemma {:induction false} FlushSnoc(meta: Meta, batches: seq<Entries>, b: Entries, postId: int)
    ensures Flush(meta, batches + [b], postId) == FlushBatch(Flush(meta, batches, postId), b, postId)
    decreases |batches|
  {
    if batches != [] {
      assert (batches + [b])[1..] == batches[1..] + [b];
      FlushSnoc(FlushBatch(meta, batches[0], postId), batches[1..], b, postId);
    }
  }

  /**
   * save_post's effect: each key of the post ends with the last value staged
   * for it (deleted when that value is null), and nothing else changes.
   */
  lemma {:induction false} FlushAt(meta: Meta, batches: seq<Entries>, postId: int, t: Target, key: string)
    ensures Lookup(Flush(meta, batches, postId), t, key) ==
      if t == ById(Int(postId)) then Outcome(Lookup(meta, t, key), LastStaged(batches, key)) else Lookup(meta, t, key)
    decreases |batches|
  {
    if batches != [] {
      var init := batches[..|batches| - 1];
      var last := batches[|batches| - 1];
      assert batches == init + [last];
      FlushSnoc(meta, init, last, postId);
      FlushAt(meta, init, postId, t, key);
      FlushBatchAt(Flush(meta, init, postId), last, postId, t, key);
    }
  }

  // ---------------------------------------------------------------------
  // The hooks object
  // ---------------------------------------------------------------------

  /** The metaboxes of the components that have a form (includes/Core/Hooks.php:59-82). */
  function FormMetaboxes(hs: seq<Handle>): (r: seq<Metabox>)
    reads hs
    ensures |r| <= |hs|
    decreases |hs|
  {
    if hs == [] then []
    else (if hs[0].hasForm then [Metabox(hs[0].id, hs[0].component.title, MetaboxContext(hs[0].position))] else []) + FormMetaboxes(hs[1..])
  }

  class HookSet {
    const core: Core
    /** Batches of meta key to staged value, one per component that staged something. */
    var toSave: seq<Entries>

    constructor(core: Core)
      ensures this.core == core && toSave == []
    {
      this.core := core;
      toSave := [];
    }

    /**
     * admin_init (includes/Core/Hooks.php:28-37): create_form is called for
     * each component whose check passes, in order, until a check throws.
     */
    method AdminInit(ctx: Context) returns (r: Result<bool, string>)
      modifies core.components
      ensures var g := Gate(old(core.components), ctx); r == if g.1.Some? then Err(g.1.value) else Ok(true)
      ensures forall x :: x in old(core.components) ==>
        x.hasForm == (old(x.hasForm) || x in Created(old(core.components), Gate(old(core.components), ctx).0))
    {
      ghost var outs := Outcomes(core.components, ctx);
      forall j | 0 <= j < |outs|
        ensures outs[j] == CheckOutcome(core.components[j].component.rules, ctx)
      {
        OutcomesAt(core.components, j, ctx);
      }
      r := CreateForms(core.components, outs, ctx);
    }

    /** The loop of admin_init over the components; `outs` says what each check returns. */
    static method CreateForms(hs: seq<Handle>, ghost outs: seq<Result<bool, string>>, ctx: Context) returns (r: Result<bool, string>)
      requires |outs| == |hs|
      requires forall j {:trigger outs[j], hs[j]} :: 0 <= j < |hs| ==> outs[j] == CheckOutcome(hs[j].component.rules, ctx)
      modifies hs
      ensures var g := GateOf(outs); r == if g.1.Some? then Err(g.1.value) else Ok(true)
      ensures forall x {:trigger x in hs} :: x in hs ==> x.hasForm == (old(x.hasForm) || x in Created(hs, GateOf(outs).0))
    {
      ghost var done: seq<bool> := [];
      var i := 0;
      assert outs[0..] == outs;
      assert [] + GateOf(outs).0 == GateOf(outs).0;
      while i < |hs|
        invariant 0 <= i <= |hs| && |done| == i
        invariant GateOf(outs) == (done + GateOf(outs[i..]).0, GateOf(outs[i..]).1)
        invariant forall x {:trigger x in hs} :: x in hs ==> x.hasForm == (old(x.hasForm) || x in Created(hs, done))
      {
        var pass := CheckAndCreate(hs[i], ctx);
        if pass.Err? {
          GateStop(outs, done, i, pass.error);
          return Err(pass.error);
        }
        GateAdvance(outs, done, i, pass.value);
        CreatedSnoc(hs, done, pass.value);
        forall x | x in hs
          ensures x.hasForm == (old(x.hasForm) || x in Created(hs, done + [pass.value]))
        {
          if x == hs[i] {
            assert pass.value ==> x in Created(hs, done + [pass.value]);
          }
        }
        done := done + [pass.value];
        i := i + 1;
      }
      assert outs[i..] == [];
      assert done + [] == done;
      return Ok(true);
    }

    /** One step of admin_init (includes/Core/Hooks.php:30-35): a component that passes its check gets a form. */
    static method CheckAndCreate(hd: Handle, ctx: Context) returns (pass: Result<bool, string>)
      modifies hd
      ensures pass == CheckOutcome(hd.component.rules, ctx)
      ensures hd.hasForm == (old(hd.hasForm) || pass == Ok(true))
    {
      pass := hd.component.Check(ctx);
      if pass.Ok? && pass.value {
        hd.CreateForm();
      }
    }

    /** register_metaboxes (includes/Core/Hooks.php:59-82). */
    method RegisterMetaboxes() returns (boxes: seq<Metabox>)
      ensures boxes == FormMetaboxes(core.components)
    {
      var hs := core.components;
      boxes := [];
      var i := 0;
      while i < |hs|
        invariant 0 <= i <= |hs|
        invariant FormMetaboxes(hs) == boxes + FormMetaboxes(hs[i..])
      {
        assert hs[i..][1..] == hs[i + 1..];
        if hs[i].hasForm {
          var context := MetaboxContext(hs[i].position);
          boxes := boxes + [Metabox(hs[i].id, hs[i].component.title, context)];
        }
        i := i + 1;
      }
      assert hs[i..] == [];
    }

    /**
     * insert_post_data (includes/Core/Hooks.php:90-129): with framering data
     * submitted (`framering` null when absent), each component with a form
     * stages its batch; the post data comes back unchanged.
     */
    method InsertPostData(postData: Value, framering: Value, h: Host) returns (r: Result<Value, string>)
      modifies this`toSave
      ensures framering == Null ==> r == Ok(postData) && toSave == old(toSave)
      ensures framering != Null ==>
        match Staging(core.components, framering, h)
        case Ok(batches) => r == Ok(postData) && toSave == old(toSave) + batches
        case Err(e) => r == Err(e)
    {
      if framering != Null {
        var staged := StageAll(core.components, framering, h);
        if staged.Err? {
          return Err(staged.error);
        }
      }
      return Ok(postData);
    }

    /** The loop over the components of insert_post_data (includes/Core/Hooks.php:94-125), appending each batch as it is staged. */
    method StageAll(hs: seq<Handle>, framering: Value, h: Host) returns (r: Result<(), string>)
      modifies this`toSave
      ensures match Staging(hs, framering, h)
        case Ok(batches) => r.Ok? && toSave == old(toSave) + batches
        case Err(e) => r == Err(e)
    {
      var i := 0;
      ghost var staged: seq<Entries> := [];
      ghost var all := Staging(hs, framering, h);
      assert hs[0..] == hs;
      match all {
        case Ok(batches) => assert [] + batches == batches;
        case Err(_) =>
      }
      while i < |hs|
        invariant 0 <= i <= |hs|
        invariant toSave == old(toSave) + staged
        invariant all == Prefixed(staged, Staging(hs[i..], framering, h))
      {
        var outcome := StageNext(hs, i, all, staged, framering, h);
        if outcome.Err? {
          return Err(outcome.error);
        }
        if outcome.value.Some? {
          var batch := outcome.value.value;
          AppendLast(old(toSave), staged, batch);
          toSave := toSave + [batch];
          staged := staged + [batch];
        }
        i := i + 1;
      }
      assert hs[i..] == [];
      assert staged + [] == staged;
      return Ok(());
    }

    /** One pass of insert_post_data's loop: a component without a form stages nothing. */
    static method StageNext(hs: seq<Handle>, i: nat, ghost all: Result<seq<Entries>, string>, ghost staged: seq<Entries>,
                            framering: Value, h: Host) returns (outcome: Result<Option<Entries>, string>)
      requires i < |hs| && all == Prefixed(staged, Staging(hs[i..], framering, h))
      ensures outcome.Err? ==> all == Err(outcome.error)
      ensures outcome.Ok? && outcome.value.None? ==> all == Prefixed(staged, Staging(hs[i + 1..], framering, h))
      ensures outcome.Ok? && outcome.value.Some? ==>
        all == Prefixed(staged + [outcome.value.value], Staging(hs[i + 1..], framering, h))
    {
      if hs[i].hasForm {
        outcome := StageComponent(hs[i], framering, h);
      } else {
        outcome := Ok(None);
      }
      StagingAdvance(hs, i, all, staged, outcome, framering, h);
    }

    /** save_post (includes/Core/Hooks.php:138-148): the staged batches are written in order. */
    method SavePost(postId: int, store: MetaStore)
      modifies store
      ensures store.meta == Flush(old(store.meta), toSave, postId)
    {
      var i := 0;
      while i < |toSave|
        invariant 0 <= i <= |toSave|
        invariant Flush(old(store.meta), toSave, postId) == Flush(store.meta, toSave[i..], postId)
      {
        assert toSave[i..][1..] == toSave[i + 1..];
        var save := toSave[i];
        ghost var start := store.meta;
        var j := 0;
        while j < |save|
          invariant 0 <= j <= |save|
          invariant FlushBatch(start, save, postId) == FlushBatch(store.meta, save[j..], postId)
        {
          assert save[j..][1..] == save[j + 1..];
          var (key, value) := save[j];
          if value == Null {
            store.Delete(ById(Int(postId)), key);
          } else {
            store.Update(ById(Int(postId)), key, value);
          }
          j := j + 1;
        }
        assert save[j..] == [];
        i := i + 1;
      }
      assert toSave[i..] == [];
    }
  }

  /** One component's part of insert_post_data's loop body (includes/Core/Hooks.php:100-124). */
  method StageComponent(hd: Handle, framering: Value, h: Host) returns (r: Result<Option<Entries>, string>)
    ensures r == StageOne(hd, framering, h)
  {
    var outcome := hd.process(framering);
    if outcome.Err? {
      match outcome.error {
        case WpError(_, _) => return Err(WpErrorAsArray);
        case Fatal(reason) => return Err(reason);
      }
    }
    var parsed := At(outcome.value, hd.name);
    if Empty(parsed) {
      return Ok(None);
    }
    var prefix := StagePrefix(hd.id, h);
    var save := StageLoop(prefix, parsed, h);
    return Ok(Some(save));
  }

  /** The staging loop of insert_post_data over one parsed value; a value that is no array stages nothing. */
  method StageLoop(prefix: string, parsed: Value, h: Host) returns (save: Entries)
    ensures save == Stage(prefix, if parsed.Arr? then parsed.entries else [], [], h)
  {
    save := [];
    if parsed.Arr? {
      var es := parsed.entries;
      var i := 0;
      while i < |es|
        invariant 0 <= i <= |es|
        invariant Stage(prefix, es, [], h) == Stage(prefix, es[i..], save, h)
      {
        assert es[i..][1..] == es[i + 1..];
        save := Put(save, prefix + es[i].0, if es[i].1 == Null then Null else h.maybeSerialize(es[i].1));
        i := i + 1;
      }
      assert es[i..] == [];
    }
  }
}
