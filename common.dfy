/** Shared vocabulary: optional values, JavaScript truthiness of the values the
    code tests with `if (x)` or `x || y`, the insertion-ordered dictionary that a
    JavaScript `Map` is, and `String.prototype.trim`. */
module Common {

  datatype Option<T> = None | Some(value: T)

  /** A JSON value, for payloads that are passed on without being looked into. */
  datatype Json =
    | JNull
    | JBool(b: bool)
    | JNumber(n: int)
    | JString(s: string)
    | JArray(elems: seq<Json>)
    | JObject(fields: seq<(string, Json)>)

  /** The outcome of an HTTP handler: the body on success, or an error status. */
  datatype Response<T> =
    | Ok(value: T)
    | Created(value: T)
    | BadRequest
    | Unauthorized
    | Forbidden
    | NotFound
    | Locked(heldBy: Option<string>)
    | ServerError

  function Status<T>(r: Response<T>): (code: int)
    ensures r.Ok? <==> code == 200
    ensures r.Created? <==> code == 201
    ensures r.BadRequest? <==> code == 400
    ensures r.Unauthorized? <==> code == 401
    ensures r.Forbidden? <==> code == 403
    ensures r.NotFound? <==> code == 404
    ensures r.Locked? <==> code == 423
    ensures r.ServerError? <==> code == 500
  {
    match r
    case Ok(_) => 200
    case Created(_) => 201
    case BadRequest => 400
    case Unauthorized => 401
    case Forbidden => 403
    case NotFound => 404
    case Locked(_) => 423
    case ServerError => 500
  }

  /** A string-valued field is truthy in JavaScript when it is present and not "". */
  predicate Truthy(s: Option<string>) {
    s.Some? && s.value != ""
  }

  /** `a || b` on two optional strings. */
  function OrElse(a: Option<string>, b: Option<string>): (r: Option<string>)
    ensures Truthy(a) ==> r == a
    ensures !Truthy(a) ==> r == b
  {
    if Truthy(a) then a else b
  }

  // ---------------------------------------------------------------------------
  // A JavaScript Map: entries in insertion order, each key at most once.
  // `set` on a present key replaces the value where the key already is; on a new
  // key it appends; `delete` drops the entry.

  type Assoc<K, V> = seq<(K, V)>

  ghost predicate KeysDistinct<K, V>(m: Assoc<K, V>) {
    forall i, j :: 0 <= i < j < |m| ==> m[i].0 != m[j].0
  }

  predicate HasKey<K(==), V>(m: Assoc<K, V>, k: K) {
    exists i :: 0 <= i < |m| && m[i].0 == k
  }

  /** Position of the first entry with key `k`, if any. */
  function IndexOfKey<K(==), V>(m: Assoc<K, V>, k: K): (r: Option<nat>)
    ensures r.Some? ==> r.value < |m| && m[r.value].0 == k
    ensures r.Some? ==> forall i :: 0 <= i < r.value ==> m[i].0 != k
    ensures r.None? <==> !HasKey(m, k)
  {
    if |m| == 0 then None
    else if m[0].0 == k then Some(0)
    else
      match IndexOfKey(m[1..], k)
      case None => assert forall i :: 1 <= i < |m| ==> m[i] == m[1..][i - 1]; None
      case Some(i) => Some(i + 1)
  }

  function Get<K(==), V>(m: Assoc<K, V>, k: K): (r: Option<V>)
    ensures r.None? <==> !HasKey(m, k)
  {
    match IndexOfKey(m, k)
    case None => None
    case Some(i) => Some(m[i].1)
  }

  /** `map.set(k, v)`. */
  function Put<K(==), V>(m: Assoc<K, V>, k: K, v: V): (r: Assoc<K, V>)
    ensures HasKey(m, k) ==> |r| == |m|
    ensures !HasKey(m, k) ==> r == m + [(k, v)]
  {
    match IndexOfKey(m, k)
    case None => m + [(k, v)]
    case Some(i) => m[i := (k, v)]
  }

  /** `map.delete(k)`: every entry with key `k` goes, the rest keep their order. */
  function Remove<K(==), V>(m: Assoc<K, V>, k: K): (r: Assoc<K, V>)
    ensures |r| <= |m|
    ensures forall i :: 0 <= i < |r| ==> r[i].0 != k
  {
    if |m| == 0 then []
    else if m[0].0 == k then Remove(m[1..], k)
    else [m[0]] + Remove(m[1..], k)
  }

  lemma {:induction false} RemoveKeeps<K, V>(m: Assoc<K, V>, k: K, e: (K, V))
    ensures e in Remove(m, k) <==> e in m && e.0 != k
  {
    if |m| > 0 {
      RemoveKeeps(m[1..], k, e);
      assert m == [m[0]] + m[1..];
    }
  }

  lemma PutGet<K, V>(m: Assoc<K, V>, k: K, v: V, j: K)
    requires KeysDistinct(m)
    ensures KeysDistinct(Put(m, k, v))
    ensures Get(Put(m, k, v), j) == if j == k then Some(v) else Get(m, j)
  {
    var r := Put(m, k, v);
    assert forall i :: 0 <= i < |r| ==> r[i].0 == (if i < |m| then m[i].0 else k);
    assert HasKey(r, k) by {
      var idx := if HasKey(m, k) then IndexOfKey(m, k).value else |m|;
      assert r[idx].0 == k;
    }
    var a := IndexOfKey(r, j);
    if j == k {
      assert r[a.value] == (k, v);
    } else if HasKey(m, j) {
      var b := IndexOfKey(m, j).value;
      assert r[b].0 == j;
      assert a.value == b;
    } else {
      assert !HasKey(r, j);
    }
  }

  lemma RemoveGet<K, V>(m: Assoc<K, V>, k: K, j: K)
    requires KeysDistinct(m)
    ensures KeysDistinct(Remove(m, k))
    ensures Get(Remove(m, k), j) == if j == k then None else Get(m, j)
  {
    RemoveDistinct(m, k);
    var r := Remove(m, k);
    if j != k && HasKey(m, j) {
      var b := IndexOfKey(m, j).value;
      RemoveKeeps(m, k, m[b]);
      var i :| 0 <= i < |r| && r[i] == m[b];
      assert HasKey(r, j);
      var a := IndexOfKey(r, j).value;
      RemoveKeeps(m, k, r[a]);
      assert r[a] in m;
      var c :| 0 <= c < |m| && m[c] == r[a];
      assert c == b;
    } else if j != k {
      forall i | 0 <= i < |r| ensures r[i].0 != j {
        RemoveKeeps(m, k, r[i]);
      }
    }
  }

  lemma {:induction false} RemoveDistinct<K, V>(m: Assoc<K, V>, k: K)
    requires KeysDistinct(m)
    ensures KeysDistinct(Remove(m, k))
  {
    if |m| > 0 {
      RemoveDistinct(m[1..], k);
      if m[0].0 != k {
        var t := Remove(m[1..], k);
        forall e | e in t ensures e.0 != m[0].0 {
          RemoveKeeps(m[1..], k, e);
        }
      }
    }
  }

  // ---------------------------------------------------------------------------
  // String.prototype.trim

  /** JavaScript's WhiteSpace and LineTerminator code points. */
  predicate IsWhitespace(c: char) {
    c == '\t' || c == '\n' || c == '\U{000B}' || c == '\U{000C}' || c == '\r' || c == ' '
    || c == '\U{00A0}' || c == '\U{1680}' || ('\U{2000}' <= c <= '\U{200A}')
    || c == '\U{2028}' || c == '\U{2029}' || c == '\U{202F}' || c == '\U{205F}'
    || c == '\U{3000}' || c == '\U{FEFF}'
  }

  function TrimStart(s: string): (r: string)
    ensures |r| <= |s| && r == s[|s| - |r|..]
    ensures r != [] ==> !IsWhitespace(r[0])
    ensures forall i :: 0 <= i < |s| - |r| ==> IsWhitespace(s[i])
  {
    if s != [] && IsWhitespace(s[0]) then TrimStart(s[1..]) else s
  }

  function TrimEnd(s: string): (r: string)
    ensures |r| <= |s| && r == s[..|r|]
    ensures r != [] ==> !IsWhitespace(r[|r| - 1])
    ensures forall i :: |r| <= i < |s| ==> IsWhitespace(s[i])
  {
    if s != [] && IsWhitespace(s[|s| - 1]) then TrimEnd(s[..|s| - 1]) else s
  }

  function Trim(s: string): string {
    TrimEnd(TrimStart(s))
  }

  /** `s.trim()` is truthy exactly when `s` holds a character that is not white space. */
  lemma TrimNonEmpty(s: string)
    ensures Trim(s) != "" <==> exists i :: 0 <= i < |s| && !IsWhitespace(s[i])
  {
    var a := TrimStart(s);
    if Trim(s) == "" {
      forall i | 0 <= i < |s| ensures IsWhitespace(s[i]) {
        if i >= |s| - |a| {
          assert s[i] == a[i - (|s| - |a|)];
        }
      }
    } else {
      var r := Trim(s);
      assert r[0] == a[0] == s[|s| - |a|];
    }
  }
}
