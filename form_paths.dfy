/**
 * Key-path access into nested arrays, as Form (includes/Core/Form.php) does
 * with `get_by_path` and `set_by_path`: a path is a '.'-separated string of
 * keys.
 */
module FormPaths {
  import opened Wrappers
  import opened Strings
  import opened Php

  /** The separator parse_form uses between the keys of a path. */
  const Sep: char := '.'

  /**
   * get_by_path (includes/Core/Form.php:659-680): the first key of the path
   * is looked up; an array with keys left is searched again with the rest of
   * the path, and any other set value is returned as is, however many keys
   * remain. An unset (missing or null) key gives null.
   */
  function GetByPath(arr: Entries, path: string): Value
    decreases |path|
  {
    var keys := Split(path, Sep);
    var first := keys[0];
    if IsSetAt(arr, first) then
      if At(arr, first).Arr? && |keys| > 1 then
        JoinSplit(path, Sep);
        GetByPath(At(arr, first).entries, Join(keys[1..], Sep))
      else At(arr, first)
    else Null
  }

  /** The same lookup over a list of keys, the form the lemmas below use. */
  function GetByKeys(arr: Entries, keys: seq<Key>): Value
    requires |keys| >= 1
    decreases |keys|
  {
    var first := keys[0];
    if IsSetAt(arr, first) then
      if At(arr, first).Arr? && |keys| > 1 then GetByKeys(At(arr, first).entries, keys[1..])
      else At(arr, first)
    else Null
  }

  /** Looking up the joined path is looking up its keys one by one. */
  lemma {:induction false} GetByPathKeys(arr: Entries, keys: seq<Key>)
    requires |keys| >= 1 && forall i :: 0 <= i < |keys| ==> Sep !in keys[i]
    ensures GetByPath(arr, Join(keys, Sep)) == GetByKeys(arr, keys)
    decreases |keys|
  {
    SplitJoin(keys, Sep);
    var first := keys[0];
    if IsSetAt(arr, first) && At(arr, first).Arr? && |keys| > 1 {
      GetByPathKeys(At(arr, first).entries, keys[1..]);
    }
  }

  /**
   * set_by_path (includes/Core/Form.php:690-700) on the value `node` that the
   * walk has reached: the walk takes a reference to `node[key]` for each key
   * in turn, so null and false become empty arrays on the way, while a
   * string or another scalar cannot be indexed by reference and is fatal.
   * The value reached last is replaced by `v`.
   */
  function SetByKeys(node: Value, keys: seq<Key>, v: Value): Result<Value, string>
    decreases |keys|
  {
    if keys == [] then Ok(v)
    else
      var container: Option<Entries> :=
        match node
        case Null => Some([])
        case Bool(b) => if b then None else Some([])
        case Arr(es) => Some(es)
        case _ => None;
      match container
      case None =>
        if node.Str? then Err(StringOffsetReference)
        else Err(ScalarAsArray)
      case Some(es) =>
        match SetByKeys(At(es, keys[0]), keys[1..], v)
        case Ok(child) => Ok(Arr(Put(es, keys[0], child)))
        case Err(e) => Err(e)
  }

  /** set_by_path on a path string. */
  function SetByPath(arr: Value, v: Value, path: string): Result<Value, string>
  {
    SetByKeys(arr, Split(path, Sep), v)
  }

  /** Every value the walk passes through can be indexed by reference. */
  predicate Settable(node: Value, keys: seq<Key>)
    decreases |keys|
  {
    keys == [] ||
    (match node
     case Null => Settable(Null, keys[1..])
     case Bool(b) => !b && Settable(Null, keys[1..])
     case Arr(es) => Settable(At(es, keys[0]), keys[1..])
     case _ => false)
  }

  /** The walk fails exactly when it meets a value other than null, false or an array. */
  lemma {:induction false} SetByKeysOk(node: Value, keys: seq<Key>, v: Value)
    ensures SetByKeys(node, keys, v).Ok? <==> Settable(node, keys)
    ensures SetByKeys(node, keys, v).Ok? && keys != [] ==> SetByKeys(node, keys, v).value.Arr?
    decreases |keys|
  {
    if keys != [] {
      match node
      case Null => SetByKeysOk(Null, keys[1..], v);
      case Bool(b) => SetByKeysOk(Null, keys[1..], v);
      case Arr(es) => SetByKeysOk(At(es, keys[0]), keys[1..], v);
      case _ =>
    }
  }

  /** After setting a non-null value at a path, reading the path gives it back. */
  lemma {:induction false} GetAfterSet(node: Value, keys: seq<Key>, v: Value)
    requires |keys| >= 1 && v != Null
    requires SetByKeys(node, keys, v).Ok?
    ensures SetByKeys(node, keys, v).value.Arr?
    ensures GetByKeys(SetByKeys(node, keys, v).value.entries, keys) == v
    decreases |keys|
  {
    SetByKeysOk(node, keys, v);
    var es := match node case Arr(es) => es case _ => [];
    var child := SetByKeys(At(es, keys[0]), keys[1..], v);
    assert SetByKeys(node, keys, v) == Ok(Arr(Put(es, keys[0], child.value)));
    if |keys| > 1 {
      GetAfterSet(At(es, keys[0]), keys[1..], v);
    }
  }

  /**
   * The same round trip on path strings, as parse_form uses them: a value set
   * at a '.'-joined path is read back from that path.
   */
  lemma SetThenGetByPath(arr: Entries, keys: seq<Key>, v: Value)
    requires |keys| >= 1 && forall i :: 0 <= i < |keys| ==> Sep !in keys[i]
    requires v != Null && Settable(Arr(arr), keys)
    ensures SetByPath(Arr(arr), v, Join(keys, Sep)).Ok?
    ensures SetByPath(Arr(arr), v, Join(keys, Sep)).value.Arr?
    ensures GetByPath(SetByPath(Arr(arr), v, Join(keys, Sep)).value.entries, Join(keys, Sep)) == v
  {
    SplitJoin(keys, Sep);
    SetByKeysOk(Arr(arr), keys, v);
    GetAfterSet(Arr(arr), keys, v);
    GetByPathKeys(SetByKeys(Arr(arr), keys, v).value.entries, keys);
  }

  /**
   * Setting a path leaves alone every path that leaves it at a key where the
   * original holds an array all the way down to the fork.
   */
  lemma {:induction false} SetKeepsOtherPaths(arr: Entries, keys: seq<Key>, v: Value, other: seq<Key>, fork: nat)
    requires fork < |keys| && fork < |other| && other[fork] != keys[fork]
    requires forall i :: 0 <= i < fork ==> other[i] == keys[i]
    requires ArraysAlong(arr, keys, fork)
    requires SetByKeys(Arr(arr), keys, v).Ok?
    ensures SetByKeys(Arr(arr), keys, v).value.Arr?
    ensures GetByKeys(SetByKeys(Arr(arr), keys, v).value.entries, other) == GetByKeys(arr, other)
    decreases fork
  {
    SetByKeysOk(Arr(arr), keys, v);
    var child := SetByKeys(At(arr, keys[0]), keys[1..], v);
    var updated := Put(arr, keys[0], child.value);
    assert SetByKeys(Arr(arr), keys, v) == Ok(Arr(updated));
    if fork > 0 {
      var inner := At(arr, keys[0]).entries;
      SetKeepsOtherPaths(inner, keys[1..], v, other[1..], fork - 1);
      assert At(updated, keys[0]) == child.value;
      GetByKeysStep(updated, other);
      GetByKeysStep(arr, other);
    } else {
      GetByKeysSameHead(updated, arr, other);
    }
  }

  /** Below an array at the first key, the lookup goes on in that array. */
  lemma GetByKeysStep(arr: Entries, keys: seq<Key>)
    requires |keys| > 1 && At(arr, keys[0]).Arr?
    ensures GetByKeys(arr, keys) == GetByKeys(At(arr, keys[0]).entries, keys[1..])
  {
  }

  /** The lookup depends on nothing but the value at the first key. */
  lemma GetByKeysSameHead(a: Entries, b: Entries, keys: seq<Key>)
    requires |keys| >= 1 && Get(a, keys[0]) == Get(b, keys[0])
    ensures GetByKeys(a, keys) == GetByKeys(b, keys)
  {
  }

  /** The values on the first `n` keys of the path are all arrays. */
  predicate ArraysAlong(arr: Entries, keys: seq<Key>, n: nat)
    requires n <= |keys|
    decreases n
  {
    n == 0 || (At(arr, keys[0]).Arr? && ArraysAlong(At(arr, keys[0]).entries, keys[1..], n - 1))
  }
}
