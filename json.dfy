/** A decoded request body, as PHP's `json_decode($raw, true)` hands it to the
    endpoints: objects and lists both become PHP arrays. `Obj` keeps the keys in
    insertion order, which is PHP's iteration order. Numbers are integers only. */
module Json {
  import opened Php

  datatype Json =
    | Null
    | Bool(b: bool)
    | Num(n: int)
    | Str(s: string)
    | Arr(items: seq<Json>)
    | Obj(fields: seq<(string, Json)>)

  /** `is_array($j)` */
  predicate IsArray(j: Json)
  {
    j.Arr? || j.Obj?
  }

  function Lookup(fields: seq<(string, Json)>, k: string): Json
  {
    if fields == [] then Null
    else if fields[0].0 == k then fields[0].1
    else Lookup(fields[1..], k)
  }

  predicate HasKey(fields: seq<(string, Json)>, k: string)
  {
    exists i :: 0 <= i < |fields| && fields[i].0 == k
  }

  /** `$j['k']` for a key that is not a decimal number: the member of an
      object, `null` when it is absent or `$j` is not an array. (A string
      offset such as `"abc"['k']` is not set either, which is all `isset`
      ever asks of one here.) */
  function At(j: Json, k: string): Json
  {
    if j.Obj? then Lookup(j.fields, k) else Null
  }

  /** `$j[0]`: the head of a list, or the member with key "0" of an object. */
  function At0(j: Json): Json
  {
    match j
    case Arr(items) => if |items| > 0 then items[0] else Null
    case Obj(fields) => Lookup(fields, "0")
    case _ => Null
  }

  /** `isset(<access chain>)` holds iff the chain ends on a non-null value. */
  predicate IsSet(j: Json)
  {
    j != Null
  }

  /** `$j ?? $default` */
  function Coalesce(j: Json, default: Json): Json
  {
    if j != Null then j else default
  }

  /** PHP's conversion to bool (`if ($j)`); `empty($j)` is its negation. */
  predicate Truthy(j: Json)
  {
    match j
    case Null => false
    case Bool(b) => b
    case Num(n) => n != 0
    case Str(s) => s != "" && s != "0"
    case Arr(items) => |items| > 0
    case Obj(fields) => |fields| > 0
  }

  /** PHP's conversion to string (concatenation, interpolation, `strtolower`
      of a scalar); an array converts to "Array". */
  function ToPhpString(j: Json): string
  {
    match j
    case Null => ""
    case Bool(b) => if b then "1" else ""
    case Num(n) => IntToString(n)
    case Str(s) => s
    case Arr(_) => "Array"
    case Obj(_) => "Array"
  }

  /** `intval($j)` / `(int)$j` */
  function IntVal(j: Json): int
  {
    match j
    case Null => 0
    case Bool(b) => if b then 1 else 0
    case Num(n) => n
    case Str(s) => StringToInt(s)
    case Arr(items) => if |items| > 0 then 1 else 0
    case Obj(fields) => if |fields| > 0 then 1 else 0
  }

  /** `intval` of a 64-bit integer written as a JSON string is that integer. */
  lemma IntValOfNumericString(n: int)
    requires IsInt64(n)
    ensures IntVal(Str(IntToString(n))) == n
  {
    IntToStringRoundTrip(n);
  }

  /** `case 'label':` of a PHP 8 `switch` on a decoded value, which compares
      loosely. For the labels used here (non-empty, not numeric) a string
      matches only the identical string, `true` matches every label, and
      `null`, `false`, numbers and arrays match none. */
  predicate SwitchMatches(v: Json, caseLabel: string)
  {
    match v
    case Str(s) => s == caseLabel
    case Bool(b) => b
    case _ => false
  }

  /** What `Google\Client::getRefreshToken()` yields for a token array: its
      `refresh_token` entry, used as a condition. */
  predicate HasRefreshToken(token: Json)
  {
    Truthy(At(token, "refresh_token"))
  }

  // ---------------------------------------------------------------- PHP array assignment

  /** `$a[$k] = $v`: an existing key keeps its place and takes the new value;
      a new key goes at the end. */
  function Put(fields: seq<(string, Json)>, k: string, v: Json): (r: seq<(string, Json)>)
  {
    if fields == [] then [(k, v)]
    else if fields[0].0 == k then [(k, v)] + fields[1..]
    else [fields[0]] + Put(fields[1..], k, v)
  }

  /** After `$a[$k] = $v`, `$a[$k]` is `$v`, every other key reads as before,
      and the keys are the old keys plus `k`. */
  lemma {:induction false} PutLookup(fields: seq<(string, Json)>, k: string, v: Json, k': string)
    ensures Lookup(Put(fields, k, v), k') == if k' == k then v else Lookup(fields, k')
    ensures HasKey(Put(fields, k, v), k') <==> k' == k || HasKey(fields, k')
  {
    var r := Put(fields, k, v);
    if fields != [] && fields[0].0 != k {
      PutLookup(fields[1..], k, v, k');
      assert r == [fields[0]] + Put(fields[1..], k, v);
      assert r[1..] == Put(fields[1..], k, v);
      HasKeyFirstOrRest(r, k');
      HasKeyFirstOrRest(fields, k');
    } else if fields != [] {
      assert r[1..] == fields[1..];
      HasKeyFirstOrRest(r, k');
      HasKeyFirstOrRest(fields, k');
    } else {
      assert HasKey(r, k') <==> k' == k by {
        if k' == k { assert r[0].0 == k'; }
      }
    }
  }

  /** A key is present iff it is the first one or present in the rest. */
  lemma HasKeyFirstOrRest(fields: seq<(string, Json)>, k: string)
    requires fields != []
    ensures HasKey(fields, k) <==> fields[0].0 == k || HasKey(fields[1..], k)
  {
    if HasKey(fields, k) {
      var i :| 0 <= i < |fields| && fields[i].0 == k;
      if i > 0 { assert fields[1..][i - 1].0 == k; }
    }
    if HasKey(fields[1..], k) {
      var i :| 0 <= i < |fields[1..]| && fields[1..][i].0 == k;
      assert fields[i + 1].0 == k;
    }
  }

  predicate DistinctKeys(fields: seq<(string, Json)>)
  {
    forall i, j :: 0 <= i < j < |fields| ==> fields[i].0 != fields[j].0
  }

  /** In an array whose keys are distinct, each key reads its own value and
      any other key reads as absent. */
  lemma {:induction false} LookupDistinct(fields: seq<(string, Json)>, k: string)
    requires DistinctKeys(fields)
    ensures forall i :: 0 <= i < |fields| && fields[i].0 == k ==> Lookup(fields, k) == fields[i].1
    ensures (forall i :: 0 <= i < |fields| ==> fields[i].0 != k) ==> Lookup(fields, k) == Null
  {
    if fields != [] {
      assert forall i :: 0 <= i < |fields[1..]| ==> fields[1..][i] == fields[i + 1];
      LookupDistinct(fields[1..], k);
    }
  }

  // ---------------------------------------------------------------- iteration

  /** How many values `foreach ($j as $v)` visits. */
  function Width(j: Json): nat
  {
    match j
    case Arr(items) => |items|
    case Obj(fields) => |fields|
    case _ => 0
  }

  /** The `i`-th value `foreach` visits; it is a proper part of `j`. */
  function Child(j: Json, i: nat): (c: Json)
    requires i < Width(j)
    ensures c < j
  {
    match j
    case Arr(items) => items[i]
    case Obj(fields) => assert fields[i] in fields; fields[i].1
  }

  /** The `i`-th key `foreach ($j as $k => $v)` visits: a list's keys are its indices. */
  function KeyAt(j: Json, i: nat): string
    requires i < Width(j)
  {
    match j
    case Arr(_) => NatToString(i)
    case Obj(fields) => fields[i].0
  }
}

/** Depth-first, document-order search for the first array node of a decoded
    body that satisfies a test: the shape shared by `findFunctionAndParams`
    (gmail_api.php) and `findTitleAndContent` (gdocs_creator.php). */
module JsonSearch {
  import opened Php
  import opened Json

  /** Every array node of `j`, in pre-order (a node before its children,
      children in iteration order). Scalars are not nodes. */
  function Nodes(j: Json): seq<Json>
    decreases j, Width(j) + 1
  {
    if IsArray(j) then [j] + NodesFrom(j, 0) else []
  }

  function NodesFrom(j: Json, i: nat): seq<Json>
    requires i <= Width(j)
    decreases j, Width(j) - i
  {
    if i == Width(j) then [] else Nodes(Child(j, i)) + NodesFrom(j, i + 1)
  }

  /** The first element of a flat sequence satisfying `p`. */
  function FirstIn(s: seq<Json>, p: Json -> bool): Option<Json>
  {
    if s == [] then None else if p(s[0]) then Some(s[0]) else FirstIn(s[1..], p)
  }

  /** The search as the PHP functions run it: test the node, then recurse
      into each child that is an array, stopping at the first success. */
  function FirstMatch(j: Json, p: Json -> bool): Option<Json>
    decreases j, Width(j) + 1
  {
    if !IsArray(j) then None
    else if p(j) then Some(j)
    else FirstMatchFrom(j, p, 0)
  }

  function FirstMatchFrom(j: Json, p: Json -> bool, i: nat): Option<Json>
    requires i <= Width(j)
    decreases j, Width(j) - i
  {
    if i == Width(j) then None
    else match FirstMatch(Child(j, i), p)
      case Some(n) => Some(n)
      case None => FirstMatchFrom(j, p, i + 1)
  }

  lemma {:induction false} FirstInAppend(s: seq<Json>, t: seq<Json>, p: Json -> bool)
    ensures FirstIn(s + t, p) == if FirstIn(s, p).Some? then FirstIn(s, p) else FirstIn(t, p)
  {
    if s == [] {
      assert s + t == t;
    } else {
      assert (s + t)[0] == s[0] && (s + t)[1..] == s[1..] + t;
      FirstInAppend(s[1..], t, p);
    }
  }

  /** The recursive search finds exactly the first node, in document order,
      that satisfies the test. */
  lemma {:induction false} FirstMatchIsFirstNode(j: Json, p: Json -> bool)
    ensures FirstMatch(j, p) == FirstIn(Nodes(j), p)
    decreases j, Width(j) + 1
  {
    if IsArray(j) {
      FirstMatchFromIsFirstNode(j, p, 0);
    }
  }

  lemma {:induction false} FirstMatchFromIsFirstNode(j: Json, p: Json -> bool, i: nat)
    requires i <= Width(j)
    ensures FirstMatchFrom(j, p, i) == FirstIn(NodesFrom(j, i), p)
    decreases j, Width(j) - i
  {
    if i < Width(j) {
      FirstMatchIsFirstNode(Child(j, i), p);
      FirstMatchFromIsFirstNode(j, p, i + 1);
      FirstInAppend(Nodes(Child(j, i)), NodesFrom(j, i + 1), p);
    }
  }

  /** What the search returns is a node of the body that passes the test. */
  lemma FirstInFound(s: seq<Json>, p: Json -> bool)
    ensures FirstIn(s, p).Some? ==> FirstIn(s, p).value in s && p(FirstIn(s, p).value)
    ensures FirstIn(s, p).None? <==> forall n :: n in s ==> !p(n)
  {
  }
}
