/**
 * The slice of PHP's value semantics the core relies on: values, ordered
 * arrays with normalised keys, `empty()`, `isset()`, loose `==`, string and
 * key conversion, `array_merge`, and the host (WordPress) functions the core
 * calls, passed in as a record of functions.
 */
module Php {
  import opened Wrappers
  import opened Strings

  /**
   * An array key in its canonical spelling. PHP stores "5" and 5 under the
   * same integer key; keeping every key as its decimal/string spelling is
   * that normalisation. `IsIntKey` tells integer keys apart.
   */
  type Key = string

  datatype Value =
    | Null
    | Bool(b: bool)
    | Int(i: int)
    | Float(r: real)
    | Str(s: string)
    | Arr(entries: seq<(Key, Value)>)

  /** An ordered PHP array. */
  type Entries = seq<(Key, Value)>

  /**
   * Functions of the host the core calls but does not define. They are
   * total functions of their arguments here; what they compute is the
   * host's business.
   */
  datatype Host = Host(
    floatToString: real -> string,         // PHP's float-to-string conversion
    floatval: Value -> real,               // floatval
    sanitizeTextField: Value -> Value,     // sanitize_text_field
    sanitizeTextareaField: Value -> Value, // sanitize_textarea_field
    sanitizeHexColor: Value -> Value,      // sanitize_hex_color
    isEmail: Value -> bool,                // is_email (truthiness of its result)
    sanitizeEmail: Value -> Value,         // sanitize_email
    escHtml: Value -> Value,               // esc_html
    escAttr: Value -> string,              // esc_attr
    htmlEntities: string -> string,        // htmlentities
    isCallable: Value -> bool,             // is_callable
    call: (Value, seq<Value>) -> Value,    // call_user_func_array
    maybeSerialize: Value -> Value,        // maybe_serialize
    maybeUnserialize: Value -> Value       // maybe_unserialize
  )

  /**
   * is_callable: only a string naming a function or an array naming a
   * method can be callable here (the value model holds no closures); which
   * of those are is the host's business.
   */
  predicate IsCallable(v: Value, h: Host)
  {
    (v.Str? || v.Arr?) && h.isCallable(v)
  }

  // ---------------------------------------------------------------------
  // Ordered maps: PHP arrays, and every other key-ordered store of the core
  // ---------------------------------------------------------------------

  // ---------------------------------------------------------------------
  // Messages of the PHP errors the core can raise
  // ---------------------------------------------------------------------

  const IllegalOffsetInIsset := "TypeError: Illegal offset type in isset or empty"
  const IllegalOffset := "TypeError: Illegal offset type"
  const StringOffsetAccess := "TypeError: Cannot access offset of type string on string"
  const StringOffsetReference := "Error: Cannot create references to/from string offsets"
  const ScalarAsArray := "Error: Cannot use a scalar value as an array"
  const ParseStrTypeError := "TypeError: parse_str(): Argument #1 ($string) must be of type string"

  /** Appending one more element after a concatenation. */
  lemma AppendLast<T>(a: seq<T>, b: seq<T>, x: T)
    ensures a + b + [x] == a + (b + [x])
  {
  }

  function Keys<K, V>(es: seq<(K, V)>): (ks: seq<K>)
    ensures |ks| == |es|
  {
    if es == [] then [] else [es[0].0] + Keys(es[1..])
  }

  predicate HasKey<K(==), V>(es: seq<(K, V)>, k: K)
  {
    exists i :: 0 <= i < |es| && es[i].0 == k
  }

  /** No key occurs twice: what every PHP array satisfies. */
  predicate DistinctKeys<K(==), V>(es: seq<(K, V)>)
  {
    forall i, j :: 0 <= i < j < |es| ==> es[i].0 != es[j].0
  }

  /** `$a[$k]` when the key exists. */
  function Get<K(==), V>(es: seq<(K, V)>, k: K): (r: Option<V>)
    ensures r.Some? <==> HasKey(es, k)
  {
    if es == [] then None
    else if es[0].0 == k then Some(es[0].1)
    else
      var r := Get(es[1..], k);
      assert forall i :: 0 <= i < |es| - 1 ==> es[1..][i] == es[i + 1];
      r
  }

  /** A key that is present is found at some position with the value Get returns. */
  lemma {:induction false} GetFound<K, V>(es: seq<(K, V)>, k: K)
    requires HasKey(es, k)
    ensures exists i :: 0 <= i < |es| && es[i] == (k, Get(es, k).value)
  {
    if es[0].0 != k {
      GetFound(es[1..], k);
      var i :| 0 <= i < |es[1..]| && es[1..][i] == (k, Get(es[1..], k).value);
      assert es[i + 1] == es[1..][i];
    } else {
      assert es[0] == (k, Get(es, k).value);
    }
  }

  /** `$a[$k] = $v`: an existing key keeps its position, a new key goes last. */
  function Put<K(==,!new), V>(es: seq<(K, V)>, k: K, v: V): (r: seq<(K, V)>)
    ensures Get(r, k) == Some(v)
    ensures forall k' :: k' != k ==> Get(r, k') == Get(es, k')
    ensures HasKey(es, k) ==> Keys(r) == Keys(es)
    ensures !HasKey(es, k) ==> Keys(r) == Keys(es) + [k]
  {
    if es == [] then [(k, v)]
    else if es[0].0 == k then
      var r := [(k, v)] + es[1..];
      assert r[1..] == es[1..];
      r
    else
      var rest := Put(es[1..], k, v);
      var r := [es[0]] + rest;
      assert r[1..] == rest;
      assert HasKey(es, k) ==> HasKey(es[1..], k) by {
        if HasKey(es, k) {
          var i :| 0 <= i < |es| && es[i].0 == k;
          assert es[1..][i - 1] == es[i];
        }
      }
      assert HasKey(es[1..], k) ==> HasKey(es, k) by {
        if HasKey(es[1..], k) {
          var i :| 0 <= i < |es| - 1 && es[1..][i].0 == k;
          assert es[i + 1] == es[1..][i];
        }
      }
      r
  }

  /** A second write to the same key replaces the first, in place. */
  lemma PutTwice<K(!new), V>(es: seq<(K, V)>, k: K, x: V, y: V)
    ensures Keys(Put(Put(es, k, x), k, y)) == Keys(Put(es, k, x))
    ensures forall k' :: Get(Put(Put(es, k, x), k, y), k') == Get(Put(es, k, y), k')
  {
    assert HasKey(Put(es, k, x), k);
  }

  /** Writing a key keeps the keys of an array distinct. */
  lemma {:induction false} PutDistinct<K(!new), V>(es: seq<(K, V)>, k: K, v: V)
    requires DistinctKeys(es)
    ensures DistinctKeys(Put(es, k, v))
  {
    if es != [] && es[0].0 != k {
      PutDistinct(es[1..], k, v);
      var r := Put(es, k, v);
      var rest := Put(es[1..], k, v);
      assert r == [es[0]] + rest;
      forall i | 0 < i < |r| ensures r[i].0 != es[0].0 {
        assert r[i] == rest[i - 1];
        if rest[i - 1].0 != k {
          assert Get(rest, rest[i - 1].0) == Get(es[1..], rest[i - 1].0);
          assert Get(rest, rest[i - 1].0).Some?;
          var j :| 0 <= j < |es[1..]| && es[1..][j].0 == rest[i - 1].0;
          assert es[j + 1] == es[1..][j];
        }
      }
    } else if es != [] {
      var r := Put(es, k, v);
      assert forall i :: 0 < i < |r| ==> r[i] == es[i];
    }
  }

  /** `unset($a[$k])`. */
  function Remove<K(==,!new), V>(es: seq<(K, V)>, k: K): (r: seq<(K, V)>)
    ensures !HasKey(r, k)
    ensures forall k' :: k' != k ==> Get(r, k') == Get(es, k')
    ensures |r| <= |es|
  {
    if es == [] then []
    else if es[0].0 == k then Remove(es[1..], k)
    else
      var r := [es[0]] + Remove(es[1..], k);
      assert r[1..] == Remove(es[1..], k);
      r
  }

  /** `$a[$k]` as an rvalue: a missing key reads as null (with a warning). */
  function At(es: Entries, k: Key): Value
  {
    match Get(es, k)
    case Some(v) => v
    case None => Null
  }

  // ---------------------------------------------------------------------
  // Truthiness, emptiness, isset
  // ---------------------------------------------------------------------

  /** PHP `empty($v)` for a value that exists; also the falsiness of `!$v`. */
  predicate Empty(v: Value)
  {
    match v
    case Null => true
    case Bool(b) => !b
    case Int(i) => i == 0
    case Float(r) => r == 0.0
    case Str(s) => s == "" || s == "0"
    case Arr(es) => es == []
  }

  /** `isset($a[$k])`: the key exists and its value is not null. */
  predicate IsSetAt(es: Entries, k: Key)
  {
    At(es, k) != Null
  }

  /** `isset($a[$k]) && $a[$k]`, the guard `(isset($f["disabled"]) && $f["disabled"])`. */
  predicate FlagSet(es: Entries, k: Key)
  {
    !Empty(At(es, k))
  }

  /** `isset($a[$k]) && $a[$k] === true`. */
  predicate StrictTrueAt(es: Entries, k: Key)
  {
    At(es, k) == Bool(true)
  }

  /**
   * is_associative_array (includes/Core/Form.php:15-23): true as soon as one
   * key is a string key, scanning the keys in order.
   */
  function IsAssociativeArray(es: Entries): (r: bool)
    ensures r <==> exists i :: 0 <= i < |es| && !IsIntKey(es[i].0)
  {
    if es == [] then false
    else if !IsIntKey(es[0].0) then true
    else
      var r := IsAssociativeArray(es[1..]);
      assert forall i :: 0 <= i < |es| - 1 ==> es[1..][i] == es[i + 1];
      r
  }

  // ---------------------------------------------------------------------
  // Conversions
  // ---------------------------------------------------------------------

  /** String conversion as done by `.` and string interpolation. */
  function ConcatStr(v: Value, h: Host): string
  {
    match v
    case Null => ""
    case Bool(b) => if b then "1" else ""
    case Int(i) => DecInt(i)
    case Float(r) => h.floatToString(r)
    case Str(s) => s
    case Arr(_) => "Array"
  }

  /**
   * Coercion of an argument into a `string` parameter. For a function of
   * the program itself null is a TypeError (None); for a built-in it is
   * accepted as "". An array is a TypeError either way.
   */
  function StringParam(v: Value, builtin: bool, h: Host): (r: Option<string>)
    ensures r.None? <==> v.Arr? || (v.Null? && !builtin)
  {
    match v
    case Null => if builtin then Some("") else None
    case Arr(_) => None
    case _ => Some(ConcatStr(v, h))
  }

  /** Integer part of a real, rounding toward zero as PHP's (int) cast does. */
  function Trunc(r: real): int
  {
    if r >= 0.0 then r.Floor else -((-r).Floor)
  }

  /** Array-offset conversion: null is "", booleans are 0/1, floats are truncated; arrays are illegal. */
  function ToKey(v: Value): (r: Option<Key>)
    ensures r.None? <==> v.Arr?
  {
    match v
    case Null => Some("")
    case Bool(b) => Some(if b then "1" else "0")
    case Int(i) => Some(DecInt(i))
    case Float(r) => Some(DecInt(Trunc(r)))
    case Str(s) => Some(s)
    case Arr(_) => None
  }

  /** A key as `foreach ($a as $k => ...)` hands it out: integer-like keys come back as ints. */
  function KeyValue(k: Key): (v: Value)
    ensures ToKey(v) == Some(k)
    ensures v.Int? <==> IsIntKey(k)
  {
    if IsIntKey(k) then DecIntOf(k); Int(IntOf(k)) else Str(k)
  }

  // ---------------------------------------------------------------------
  // Loose comparison
  // ---------------------------------------------------------------------

  /**
   * PHP 8 `==` on the values the core compares: a boolean compares truth
   * values, null against a string is the empty string, null against
   * anything else compares truth values. Only integer spellings count as
   * numeric strings (see README).
   */
  predicate LooseEq(a: Value, b: Value)
  {
    match (a, b)
    case (Bool(x), _) => x == !Empty(b)
    case (_, Bool(y)) => y == !Empty(a)
    case (Null, Str(t)) => t == ""
    case (Str(s), Null) => s == ""
    case (Null, _) => Empty(b)
    case (_, Null) => Empty(a)
    case (Int(x), Int(y)) => x == y
    case (Int(x), Float(y)) => x as real == y
    case (Float(x), Int(y)) => x == y as real
    case (Float(x), Float(y)) => x == y
    case (Int(x), Str(t)) => t == DecInt(x)
    case (Str(s), Int(y)) => s == DecInt(y)
    case (Float(x), Str(t)) => IsIntKey(t) && x == IntOf(t) as real
    case (Str(s), Float(y)) => IsIntKey(s) && y == IntOf(s) as real
    case (Str(s), Str(t)) => s == t
    case (Arr(xs), Arr(ys)) =>
      |xs| == |ys| &&
      forall i :: 0 <= i < |xs| ==> HasKey(ys, xs[i].0) && LooseEq(xs[i].1, At(ys, xs[i].0))
    case _ => false
  }

  /** `in_array($needle, $haystack)` with loose comparison. */
  predicate InArray(needle: Value, haystack: Entries)
  {
    exists i :: 0 <= i < |haystack| && LooseEq(needle, haystack[i].1)
  }

  // ---------------------------------------------------------------------
  // array_merge
  // ---------------------------------------------------------------------

  /** Folds `es` into `acc`: string keys are overwritten in place, integer keys are renumbered from `next`. */
  function MergeInto(acc: Entries, es: Entries, next: nat): (r: (Entries, nat))
    ensures r.1 >= next
    decreases |es|
  {
    if es == [] then (acc, next)
    else if IsIntKey(es[0].0) then MergeInto(Put(acc, DecInt(next), es[0].1), es[1..], next + 1)
    else MergeInto(Put(acc, es[0].0, es[0].1), es[1..], next)
  }

  /** Under MergeInto a string key takes the value `es` gives it, or keeps the one in `acc`. */
  lemma {:induction false} MergeIntoAt(acc: Entries, es: Entries, next: nat, k: Key)
    requires DistinctKeys(es) && !IsIntKey(k)
    ensures Get(MergeInto(acc, es, next).0, k) == if HasKey(es, k) then Get(es, k) else Get(acc, k)
    decreases |es|
  {
    if es != [] {
      var rest := es[1..];
      assert forall i :: 0 <= i < |rest| ==> rest[i] == es[i + 1];
      assert DistinctKeys(rest);
      assert HasKey(es, k) <==> es[0].0 == k || HasKey(rest, k);
      if IsIntKey(es[0].0) {
        MergeIntoAt(Put(acc, DecInt(next), es[0].1), rest, next + 1, k);
      } else {
        MergeIntoAt(Put(acc, es[0].0, es[0].1), rest, next, k);
        if es[0].0 == k {
          assert !HasKey(rest, k);
        }
      }
    }
  }

  /** `array_merge($a, $b)`. */
  function ArrayMerge(a: Entries, b: Entries): Entries
  {
    var left := MergeInto([], a, 0);
    MergeInto(left.0, b, left.1).0
  }

  /** A string key of `array_merge($a, $b)` holds `$b`'s value when `$b` has the key and `$a`'s otherwise. */
  lemma ArrayMergeAt(a: Entries, b: Entries, k: Key)
    requires DistinctKeys(a) && DistinctKeys(b) && !IsIntKey(k)
    ensures Get(ArrayMerge(a, b), k) == if HasKey(b, k) then Get(b, k) else Get(a, k)
  {
    var left := MergeInto([], a, 0);
    MergeIntoAt([], a, 0, k);
    MergeIntoAt(left.0, b, left.1, k);
  }
}
