/** A parsed JSON value (RFC 8259: object, array, string, number, true/false, null), as
    Python's `json.loads` hands it to the program, and the few Python operations the
    pipeline applies to it: `k in v`, `d.get(k, default)`, `d[k] = v` and `list(v)`. */
module Json {
  import opened Wrappers
  import PyStr

  /** A JSON object is the Python `dict` that `json.loads` builds: its items in insertion
      order. A number keeps its literal text, which decides whether Python sees an `int`
      or a `float`. */
  datatype Json =
    | Null
    | Bool(b: bool)
    | Number(literal: string)
    | String(s: string)
    | Array(elems: seq<Json>)
    | Object(members: seq<(string, Json)>)

  /** `json.loads` yields an `int` for a number without fraction or exponent. */
  predicate IsIntegerLiteral(t: string) {
    var digits := if t != [] && t[0] == '-' then t[1..] else t;
    digits != [] && forall i :: 0 <= i < |digits| ==> '0' <= digits[i] <= '9'
  }

  /** `type(v).__name__` of the Python object that stands for `v`. */
  function TypeName(v: Json): string {
    match v
    case Null => "NoneType"
    case Bool(_) => "bool"
    case Number(t) => if IsIntegerLiteral(t) then "int" else "float"
    case String(_) => "str"
    case Array(_) => "list"
    case Object(_) => "dict"
  }

  predicate HasKey(members: seq<(string, Json)>, k: string) {
    exists i :: 0 <= i < |members| && members[i].0 == k
  }

  /** `d[k]`, or `None` where `d[k]` would raise `KeyError`. A dict holds each key once;
      the first item with the key is the one found. */
  function Lookup(members: seq<(string, Json)>, k: string): (r: Option<Json>)
    ensures r.None? <==> !HasKey(members, k)
    decreases |members|
  {
    if members == [] then None
    else if members[0].0 == k then Some(members[0].1)
    else
      var r := Lookup(members[1..], k);
      assert !HasKey(members[1..], k) ==> !HasKey(members, k) by {
        if !HasKey(members[1..], k) {
          forall i | 0 <= i < |members| ensures members[i].0 != k {
            if i > 0 { assert members[i] == members[1..][i - 1]; }
          }
        }
      }
      r
  }

  /** `d.get(k, default)`. */
  function GetOr(members: seq<(string, Json)>, k: string, default: Json): Json {
    match Lookup(members, k)
    case Some(v) => v
    case None => default
  }

  /** The keys of a dict, in insertion order (`list(d)`). */
  function Keys(members: seq<(string, Json)>): (r: seq<string>)
    ensures |r| == |members|
    ensures forall i :: 0 <= i < |r| ==> r[i] == members[i].0
    decreases |members|
  {
    if members == [] then [] else [members[0].0] + Keys(members[1..])
  }

  /** `d[k] = v` on the items of a dict. */
  function Put(members: seq<(string, Json)>, k: string, v: Json): seq<(string, Json)>
    decreases |members|
  {
    if members == [] then [(k, v)]
    else if members[0].0 == k then [(k, v)] + members[1..]
    else [members[0]] + Put(members[1..], k, v)
  }

  /** After `d[k] = v`, `d[k]` is `v` and every other key reads as before. */
  lemma {:induction false} PutLookup(members: seq<(string, Json)>, k: string, v: Json)
    ensures Lookup(Put(members, k, v), k) == Some(v)
    ensures forall k' :: k' != k ==> Lookup(Put(members, k, v), k') == Lookup(members, k')
    decreases |members|
  {
    if members != [] && members[0].0 != k {
      PutLookup(members[1..], k, v);
      var r := Put(members, k, v);
      assert r[1..] == Put(members[1..], k, v);
    }
  }

  /** `d[k] = v` neither adds nor removes any other key. */
  lemma PutOtherKey(members: seq<(string, Json)>, k: string, v: Json, k': string)
    requires k' != k
    ensures HasKey(Put(members, k, v), k') <==> HasKey(members, k')
  {
    PutLookup(members, k, v);
  }

  lemma HasKeyTail(members: seq<(string, Json)>, k: string)
    requires members != [] && members[0].0 != k
    ensures HasKey(members[1..], k) <==> HasKey(members, k)
  {
    if HasKey(members, k) {
      var i :| 0 <= i < |members| && members[i].0 == k;
      assert members[1..][i - 1].0 == k;
    }
    if HasKey(members[1..], k) {
      var i :| 0 <= i < |members[1..]| && members[1..][i].0 == k;
      assert members[i + 1].0 == k;
    }
  }

  /** `d[k] = v` keeps an existing key in its place and puts a new key at the end. */
  lemma {:induction false} PutKeys(members: seq<(string, Json)>, k: string, v: Json)
    ensures Keys(Put(members, k, v)) == if HasKey(members, k) then Keys(members) else Keys(members) + [k]
    decreases |members|
  {
    if members == [] {
    } else if members[0].0 == k {
      assert HasKey(members, k) by { assert members[0].0 == k; }
    } else {
      HasKeyTail(members, k);
      PutKeys(members[1..], k, v);
      var r := Put(members, k, v);
      assert r == [members[0]] + Put(members[1..], k, v);
      assert Keys(r) == [members[0].0] + Keys(Put(members[1..], k, v));
    }
  }

  /** The first item with a key is the one `d[k]` finds. */
  lemma {:induction false} LookupAt(members: seq<(string, Json)>, i: nat)
    requires i < |members| && forall j :: 0 <= j < i ==> members[j].0 != members[i].0
    ensures Lookup(members, members[i].0) == Some(members[i].1)
    decreases i
  {
    if i > 0 {
      LookupAt(members[1..], i - 1);
    }
  }

  /** Assigning to the key at position `i` (its first occurrence) replaces that item. */
  lemma {:induction false} PutExisting(members: seq<(string, Json)>, i: nat, v: Json)
    requires i < |members| && forall j :: 0 <= j < i ==> members[j].0 != members[i].0
    ensures Put(members, members[i].0, v) == members[..i] + [(members[i].0, v)] + members[i + 1..]
    decreases i
  {
    if i > 0 {
      PutExisting(members[1..], i - 1, v);
      assert members[1..][..i - 1] == members[1..i];
      assert members[1..][i..] == members[i + 1..];
    }
  }

  /** Assigning to an absent key appends an item. */
  lemma {:induction false} PutAbsent(members: seq<(string, Json)>, k: string, v: Json)
    requires !HasKey(members, k)
    ensures Put(members, k, v) == members + [(k, v)]
    decreases |members|
  {
    if members != [] {
      assert members[0].0 != k;
      HasKeyTail(members, k);
      PutAbsent(members[1..], k, v);
      assert members == [members[0]] + members[1..];
    }
  }

  /** `key in v`. On a dict it tests the keys, on a list the elements, on a str the
      substrings; on None, a bool or a number it raises `TypeError`. */
  function Contains(v: Json, key: string): (r: Result<bool>)
    ensures r.Err? <==> v.Null? || v.Bool? || v.Number?
    ensures v.Object? ==> r == Ok(HasKey(v.members, key))
  {
    match v
    case Object(ms) => Ok(HasKey(ms, key))
    case Array(es) => Ok(String(key) in es)
    case String(s) => Ok(PyStr.IsSubstring(key, s))
    case _ => Err("argument of type '" + TypeName(v) + "' is not iterable")
  }

  /** The one-character strings of `s`, in order. */
  function Chars(s: string): seq<Json>
  {
    seq(|s|, i requires 0 <= i < |s| => String([s[i]]))
  }

  /** `list(v)`: a str gives its characters, a list its elements, a dict its keys; None,
      a bool or a number raise `TypeError`. */
  function ListOf(v: Json): (r: Result<seq<Json>>)
    ensures r.Err? <==> v.Null? || v.Bool? || v.Number?
    ensures r.Err? ==> r.message == "'" + TypeName(v) + "' object is not iterable"
    ensures v.Array? ==> r == Ok(v.elems)
    ensures v.String? ==>
      (r.Ok? && |r.value| == |v.s| && forall i :: 0 <= i < |v.s| ==> r.value[i] == String([v.s[i]]))
    ensures v.Object? ==>
      (r.Ok? && |r.value| == |v.members| &&
       forall i :: 0 <= i < |v.members| ==> r.value[i] == String(v.members[i].0))
  {
    match v
    case String(s) => Ok(Chars(s))
    case Array(es) => Ok(es)
    case Object(ms) => Ok(seq(|ms|, i requires 0 <= i < |ms| => String(ms[i].0)))
    case _ => Err("'" + TypeName(v) + "' object is not iterable")
  }
}
