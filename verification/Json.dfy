/** JSON values, and how Python compares and tests them. */
module Json {
  datatype Json =
    | Null
    | Bool(b: bool)
    | Int(n: int)
    | Float(x: real)
    | Str(s: string)
    | Arr(items: seq<Json>)
    | Obj(fields: map<string, Json>)

  /** `value.get(key)` of a dictionary: a missing key reads as null. */
  function Get(j: Json, key: string): Json {
    if j.Obj? && key in j.fields then j.fields[key] else Null
  }

  /** The value is a dictionary with this value under the key. */
  predicate Has(j: Json, key: string, v: Json) {
    j.Obj? && key in j.fields && j.fields[key] == v
  }

  predicate Lacks(j: Json, key: string) {
    j.Obj? ==> key !in j.fields
  }

  /** Reading a key gives what is stored there, or null. */
  lemma GetExact(j: Json, key: string, v: Json)
    ensures Get(j, key) == v <==> Has(j, key, v) || (v == Null && Lacks(j, key))
  {
  }

  /** The same one level down. */
  predicate Under(j: Json, outer: string, key: string, v: Json) {
    j.Obj? && outer in j.fields && Has(j.fields[outer], key, v)
  }

  lemma UnderExact(j: Json, outer: string, key: string, v: Json)
    requires v != Null
    ensures Get(Get(j, outer), key) == v <==> Under(j, outer, key, v)
  {
  }

  predicate Truthy(j: Json) {
    match j
    case Null => false
    case Bool(b) => b
    case Int(n) => n != 0
    case Float(x) => x != 0.0
    case Str(s) => s != ""
    case Arr(items) => items != []
    case Obj(fields) => fields != map[]
  }

  lemma TruthyExact(j: Json)
    ensures Truthy(j) <==> j !in {Null, Bool(false), Int(0), Float(0.0), Str(""), Arr([]), Obj(map[])}
  {
  }

  predicate IsNumber(j: Json) {
    j.Bool? || j.Int? || j.Float?
  }

  /** The number a number-like value stands for; booleans count as 0 and 1. */
  function Number(j: Json): real
    requires IsNumber(j)
  {
    match j
    case Bool(b) => if b then 1.0 else 0.0
    case Int(n) => n as real
    case Float(x) => x
  }

  /** Python's `==`, which does not tell 1, 1.0 and True apart. */
  predicate Same(a: Json, b: Json) {
    if IsNumber(a) && IsNumber(b) then Number(a) == Number(b)
    else
      match (a, b)
      case (Null, Null) => true
      case (Str(s), Str(t)) => s == t
      case (Arr(xs), Arr(ys)) => |xs| == |ys| && forall i | 0 <= i < |xs| :: Same(xs[i], ys[i])
      case (Obj(f), Obj(g)) => f.Keys == g.Keys && forall k | k in f.Keys :: Same(f[k], g[k])
      case _ => false
  }

  /** A value with every number and boolean replaced by the number it stands for. */
  function Plain(j: Json): Json {
    match j
    case Bool(true) => Float(1.0)
    case Bool(false) => Float(0.0)
    case Int(n) => Float(n as real)
    case Arr(items) => Arr(seq(|items|, i requires 0 <= i < |items| => Plain(items[i])))
    case Obj(fields) => Obj(map k | k in fields :: Plain(fields[k]))
    case _ => j
  }

  /** Python's equality is equality but for the kinds of numbers. So it is symmetric and transitive. */
  lemma {:induction false} SameExact(a: Json, b: Json)
    ensures Same(a, b) <==> Plain(a) == Plain(b)
    decreases a
  {
    match (a, b)
    case (Arr(xs), Arr(ys)) =>
      if |xs| == |ys| {
        forall i | 0 <= i < |xs| ensures Same(xs[i], ys[i]) <==> Plain(xs[i]) == Plain(ys[i]) {
          SameExact(xs[i], ys[i]);
        }
      }
      SameItems(xs, ys);
    case (Obj(f), Obj(g)) =>
      forall k | k in f && k in g ensures Same(f[k], g[k]) <==> Plain(f[k]) == Plain(g[k]) { SameExact(f[k], g[k]); }
      SameFields(f, g);
    case _ =>
  }

  lemma SameItems(xs: seq<Json>, ys: seq<Json>)
    ensures Plain(Arr(xs)) == Plain(Arr(ys)) <==>
            |xs| == |ys| && forall i | 0 <= i < |xs| :: Plain(xs[i]) == Plain(ys[i])
  {
    var p, q := Plain(Arr(xs)).items, Plain(Arr(ys)).items;
    assert |p| == |xs| && |q| == |ys|;
    assert forall i | 0 <= i < |xs| :: p[i] == Plain(xs[i]);
    assert forall i | 0 <= i < |ys| :: q[i] == Plain(ys[i]);
  }

  lemma SameFields(f: map<string, Json>, g: map<string, Json>)
    ensures Plain(Obj(f)) == Plain(Obj(g)) <==> f.Keys == g.Keys && forall k | k in f :: Plain(f[k]) == Plain(g[k])
  {
    var p, q := Plain(Obj(f)).fields, Plain(Obj(g)).fields;
    assert p.Keys == f.Keys && q.Keys == g.Keys;
    assert forall k | k in f :: p[k] == Plain(f[k]);
    assert forall k | k in g :: q[k] == Plain(g[k]);
  }

  /** Nothing in the value is a number or a boolean. */
  predicate NoNumbers(j: Json) {
    match j
    case Arr(items) => forall i | 0 <= i < |items| :: NoNumbers(items[i])
    case Obj(fields) => forall k | k in fields.Keys :: NoNumbers(fields[k])
    case _ => !IsNumber(j)
  }

  lemma {:induction false} PlainKeepsRest(j: Json)
    ensures NoNumbers(j) ==> Plain(j) == j
    ensures NoNumbers(Plain(j)) ==> NoNumbers(j)
  {
    match j
    case Arr(items) =>
      forall i | 0 <= i < |items|
        ensures NoNumbers(items[i]) ==> Plain(items[i]) == items[i]
        ensures NoNumbers(Plain(items[i])) ==> NoNumbers(items[i])
      {
        PlainKeepsRest(items[i]);
      }
      assert forall i | 0 <= i < |items| :: Plain(j).items[i] == Plain(items[i]);
      if NoNumbers(j) { assert Plain(j).items == items; }
    case Obj(fields) =>
      forall k | k in fields
        ensures NoNumbers(fields[k]) ==> Plain(fields[k]) == fields[k]
        ensures NoNumbers(Plain(fields[k])) ==> NoNumbers(fields[k])
      {
        PlainKeepsRest(fields[k]);
      }
      assert Plain(j).fields.Keys == fields.Keys;
      assert forall k | k in fields :: Plain(j).fields[k] == Plain(fields[k]);
      if NoNumbers(j) { assert Plain(j).fields == fields; }
    case _ =>
  }

  /** Without numbers and booleans on one side, equal is the same. */
  lemma SameIsEqual(a: Json, b: Json)
    requires NoNumbers(a)
    ensures Same(a, b) <==> a == b
    ensures Same(b, a) <==> a == b
  {
    hide Same, Plain, NoNumbers;
    SameExact(a, b);
    SameExact(b, a);
    PlainKeepsRest(a);
    PlainKeepsRest(b);
  }

  lemma SameRefl(a: Json)
    ensures Same(a, a)
  {
    match a
    case Arr(xs) => forall i | 0 <= i < |xs| ensures Same(xs[i], xs[i]) { SameRefl(xs[i]); }
    case Obj(f) => forall k | k in f.Keys ensures Same(f[k], f[k]) { SameRefl(f[k]); }
    case _ =>
  }

  // ---------------------------------------------------------------------
  // The order of keys
  // ---------------------------------------------------------------------

  /** Lexicographic order by code point, as `sorted` uses it. */
  predicate Below(a: string, b: string) {
    b != "" && (a == "" || a[0] < b[0] || (a[0] == b[0] && Below(a[1..], b[1..])))
  }

  lemma SameFirst(a: string, b: string, n: nat)
    requires n <= |a| && n <= |b| && a[..n] == b[..n]
    ensures n > 0 ==> a[0] == b[0]
  {
    assert n > 0 ==> a[0] == a[..n][0] && b[0] == b[..n][0];
  }

  /** At the first place where the two differ, `a` ends or has the smaller code point. */
  lemma {:induction false} BelowExact(a: string, b: string)
    ensures Below(a, b) <==>
            exists n :: 0 <= n <= |a| && n < |b| && a[..n] == b[..n] && (n == |a| || a[n] < b[n])
  {
    if a != "" && b != "" && a[0] == b[0] {
      BelowExact(a[1..], b[1..]);
      if Below(a, b) {
        var n :| 0 <= n <= |a[1..]| && n < |b[1..]| && a[1..][..n] == b[1..][..n]
                 && (n == |a[1..]| || a[1..][n] < b[1..][n]);
        assert a[..n + 1] == [a[0]] + a[1..][..n] && b[..n + 1] == [b[0]] + b[1..][..n];
        assert n + 1 == |a| || a[n + 1] < b[n + 1];
      }
      if n :| 0 <= n <= |a| && n < |b| && a[..n] == b[..n] && (n == |a| || a[n] < b[n]) {
        SameFirst(a, b, n);
        assert n > 0;
        assert a[1..][..n - 1] == a[..n][1..] && b[1..][..n - 1] == b[..n][1..];
        assert n - 1 == |a[1..]| || a[1..][n - 1] < b[1..][n - 1];
      }
    } else {
      if Below(a, b) { assert a[..0] == b[..0]; }
      if n :| 0 <= n <= |a| && n < |b| && a[..n] == b[..n] && (n == |a| || a[n] < b[n]) {
        SameFirst(a, b, n);
      }
    }
  }

  lemma {:induction false} BelowTrichotomy(a: string, b: string)
    ensures Below(a, b) || a == b || Below(b, a)
    ensures !(Below(a, b) && Below(b, a))
    ensures !Below(a, a)
    decreases |a| + |b|
  {
    if a != "" && b != "" {
      if a[0] == b[0] {
        BelowTrichotomy(a[1..], b[1..]);
        assert a == [a[0]] + a[1..] && b == [b[0]] + b[1..];
      }
    }
    if a != "" { BelowIrreflexive(a); }
  }

  lemma {:induction false} BelowIrreflexive(a: string)
    ensures !Below(a, a)
  {
    if a != "" { BelowIrreflexive(a[1..]); }
  }

  lemma {:induction false} BelowTransitive(a: string, b: string, c: string)
    requires Below(a, b) && Below(b, c)
    ensures Below(a, c)
    decreases |a|
  {
    if a != "" && a[0] == b[0] && b[0] == c[0] {
      BelowTransitive(a[1..], b[1..], c[1..]);
    }
  }

  predicate IsLeast(k: string, keys: set<string>) {
    k in keys && forall j | j in keys :: j == k || Below(k, j)
  }

  lemma LeastIsUnique(keys: set<string>)
    ensures forall k, j | IsLeast(k, keys) && IsLeast(j, keys) :: k == j
  {
    hide Below;
    forall k, j | IsLeast(k, keys) && IsLeast(j, keys)
      ensures k == j
    {
      BelowTrichotomy(k, j);
    }
  }

  lemma {:induction false} LeastExists(keys: set<string>)
    requires keys != {}
    ensures exists k :: IsLeast(k, keys)
    decreases keys
  {
    hide Below;
    var x :| x in keys;
    if keys == {x} {
      assert IsLeast(x, keys);
    } else {
      LeastExists(keys - {x});
      var y :| IsLeast(y, keys - {x});
      BelowTrichotomy(x, y);
      if Below(x, y) {
        forall j | j in keys
          ensures j == x || Below(x, j)
        {
          if j != x && j != y { BelowTransitive(x, y, j); }
        }
        assert IsLeast(x, keys);
      } else {
        assert IsLeast(y, keys);
      }
    }
  }

  /** The first key in sorted order. */
  function Least(keys: set<string>): (k: string)
    requires keys != {}
    ensures IsLeast(k, keys)
  {
    LeastIsUnique(keys);
    LeastExists(keys);
    var k :| IsLeast(k, keys);
    k
  }
}
