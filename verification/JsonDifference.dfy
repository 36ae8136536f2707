/** The first difference between two JSON values, in the order in which the checker looks. */
module JsonDifference {
  import opened Options
  import opened Json

  datatype Step = Key(k: string) | Index(i: nat)

  datatype What =
    | TypeChanged
    | Missing(key: string)
    | Unexpected(key: string)
    | LengthChanged
    | ValueChanged

  datatype Difference = Difference(path: seq<Step>, what: What)

  predicate SameType(a: Json, b: Json) {
    && (a.Null? <==> b.Null?) && (a.Bool? <==> b.Bool?) && (a.Int? <==> b.Int?) && (a.Float? <==> b.Float?)
    && (a.Str? <==> b.Str?) && (a.Arr? <==> b.Arr?) && (a.Obj? <==> b.Obj?)
  }

  /** The name of a value's type. */
  function TypeName(j: Json): string {
    match j
    case Null => "NoneType"
    case Bool(_) => "bool"
    case Int(_) => "int"
    case Float(_) => "float"
    case Str(_) => "str"
    case Arr(_) => "list"
    case Obj(_) => "dict"
  }

  lemma TypesExact(a: Json, b: Json)
    ensures SameType(a, b) <==> TypeName(a) == TypeName(b)
  {
  }

  function Inside(step: Step, d: Option<Difference>): Option<Difference> {
    match d
    case Some(x) => Some(Difference([step] + x.path, x.what))
    case None => None
  }

  /** `first_difference`: types first, then missing keys, then unexpected ones, then the children in
      the order of their sorted keys; for lists the length, then the items. */
  function FirstDifference(a: Json, b: Json): Option<Difference>
    decreases a, 1, 0
  {
    if !SameType(a, b) then Some(Difference([], TypeChanged))
    else
      match a
      case Obj(f) =>
        var missing, unexpected := f.Keys - b.fields.Keys, b.fields.Keys - f.Keys;
        if missing != {} then Some(Difference([], Missing(Least(missing))))
        else if unexpected != {} then Some(Difference([], Unexpected(Least(unexpected))))
        else InKeys(a, b, f.Keys)
      case Arr(xs) =>
        if |xs| != |b.items| then Some(Difference([], LengthChanged)) else InItems(a, b, 0)
      case _ => if a != b then Some(Difference([], ValueChanged)) else None
  }

  function InKeys(a: Json, b: Json, keys: set<string>): Option<Difference>
    requires a.Obj? && b.Obj? && keys <= a.fields.Keys && keys <= b.fields.Keys
    decreases a, 0, |keys|
  {
    if keys == {} then None
    else
      var k := Least(keys);
      var d := FirstDifference(a.fields[k], b.fields[k]);
      if d.Some? then Inside(Key(k), d) else InKeys(a, b, keys - {k})
  }

  function InItems(a: Json, b: Json, i: nat): Option<Difference>
    requires a.Arr? && b.Arr? && |a.items| == |b.items| && i <= |a.items|
    decreases a, 0, |a.items| - i
  {
    if i == |a.items| then None
    else
      var d := FirstDifference(a.items[i], b.items[i]);
      if d.Some? then Inside(Index(i), d) else InItems(a, b, i + 1)
  }

  // ---------------------------------------------------------------------
  // Exactness
  // ---------------------------------------------------------------------

  /** No difference is found exactly between equal values, and equal means structurally and in type:
      1, 1.0 and true differ. */
  lemma {:induction false} NoneIffEqual(a: Json, b: Json)
    ensures FirstDifference(a, b).None? <==> a == b
    decreases a, 1, 0
  {
    if SameType(a, b) {
      match a
      case Obj(f) =>
        if f.Keys == b.fields.Keys {
          KeysNoneIffEqual(a, b, f.Keys);
          assert f == b.fields <==> forall k | k in f.Keys :: f[k] == b.fields[k];
        }
      case Arr(xs) =>
        if |xs| == |b.items| { ItemsNoneIffEqual(a, b, 0); }
      case _ =>
    }
  }

  lemma {:induction false} KeysNoneIffEqual(a: Json, b: Json, keys: set<string>)
    requires a.Obj? && b.Obj? && keys <= a.fields.Keys && keys <= b.fields.Keys
    ensures InKeys(a, b, keys).None? <==> forall k | k in keys :: a.fields[k] == b.fields[k]
    decreases a, 0, |keys|
  {
    if keys != {} {
      var k := Least(keys);
      NoneIffEqual(a.fields[k], b.fields[k]);
      KeysNoneIffEqual(a, b, keys - {k});
    }
  }

  lemma {:induction false} ItemsNoneIffEqual(a: Json, b: Json, i: nat)
    requires a.Arr? && b.Arr? && |a.items| == |b.items| && i <= |a.items|
    ensures InItems(a, b, i).None? <==> forall j | i <= j < |a.items| :: a.items[j] == b.items[j]
    decreases a, 0, |a.items| - i
  {
    if i < |a.items| {
      NoneIffEqual(a.items[i], b.items[i]);
      ItemsNoneIffEqual(a, b, i + 1);
    }
  }

  // ---------------------------------------------------------------------
  // Being the first
  // ---------------------------------------------------------------------

  /** The value at a path, if there is one. */
  function At(j: Json, path: seq<Step>): Option<Json>
    decreases |path|
  {
    if path == [] then Some(j)
    else
      match (j, path[0])
      case (Obj(f), Key(k)) => if k in f then At(f[k], path[1..]) else None
      case (Arr(xs), Index(i)) => if i < |xs| then At(xs[i], path[1..]) else None
      case _ => None
  }

  predicate StepBefore(s: Step, t: Step) {
    match (s, t)
    case (Key(k), Key(l)) => Below(k, l)
    case (Index(i), Index(j)) => i < j
    case _ => false
  }

  /** The first path branches off to an earlier sibling of the second. */
  predicate Before(p: seq<Step>, q: seq<Step>)
    decreases |p|
  {
    p != [] && q != [] && (StepBefore(p[0], q[0]) || (p[0] == q[0] && Before(p[1..], q[1..])))
  }

  /** Two containers agree on everything that is looked at before their children. */
  predicate SameShape(a: Json, b: Json) {
    || (a.Obj? && b.Obj? && a.fields.Keys == b.fields.Keys)
    || (a.Arr? && b.Arr? && |a.items| == |b.items|)
  }

  /** What is wrong between two values themselves, not inside them. */
  predicate Shows(a: Json, b: Json, what: What) {
    match what
    case TypeChanged => !SameType(a, b)
    case Missing(k) => a.Obj? && b.Obj? && IsLeast(k, a.fields.Keys - b.fields.Keys)
    case Unexpected(k) => a.Obj? && b.Obj? && a.fields.Keys <= b.fields.Keys
          && IsLeast(k, b.fields.Keys - a.fields.Keys)
    case LengthChanged => a.Arr? && b.Arr? && |a.items| != |b.items|
    case ValueChanged => SameType(a, b) && !a.Obj? && !a.Arr? && a != b
  }

  /** A difference stands at its path, in containers of the same shape all the way down, and
      everything on an earlier branch agrees. */
  ghost predicate IsFirst(a: Json, b: Json, d: Difference) {
    && At(a, d.path).Some? && At(b, d.path).Some?
    && Shows(At(a, d.path).value, At(b, d.path).value, d.what)
    && (forall n | 0 <= n < |d.path| ::
          At(a, d.path[..n]).Some? && At(b, d.path[..n]).Some?
                && SameShape(At(a, d.path[..n]).value, At(b, d.path[..n]).value))
    && (forall p | Before(p, d.path) :: At(a, p) == At(b, p))
  }

  /** A first difference of two children is one of the parents, when all earlier children agree. */
  lemma FirstUnder(a: Json, b: Json, step: Step, x: Json, y: Json, d: Difference)
    requires SameShape(a, b) && At(a, [step]) == Some(x) && At(b, [step]) == Some(y) && IsFirst(x, y, d)
    requires forall s | StepBefore(s, step) :: At(a, [s]) == At(b, [s])
    ensures IsFirst(a, b, Difference([step] + d.path, d.what))
  {
    hide SameShape, Shows, StepBefore;
    var path := [step] + d.path;
    AtStep(a, step, x, d.path);
    AtStep(b, step, y, d.path);
    forall n | 0 <= n < |path|
      ensures At(a, path[..n]).Some? && At(b, path[..n]).Some?
            && SameShape(At(a, path[..n]).value, At(b, path[..n]).value)
    {
      if n > 0 {
        assert path[..n] == [step] + d.path[..n - 1];
        AtStep(a, step, x, d.path[..n - 1]);
        AtStep(b, step, y, d.path[..n - 1]);
      }
    }
    forall p | Before(p, path)
      ensures At(a, p) == At(b, p)
    {
      assert p == [p[0]] + p[1..] && path[1..] == d.path;
      AtSplit(a, p);
      AtSplit(b, p);
      if !StepBefore(p[0], step) { assert Before(p[1..], d.path); }
    }
  }

  lemma AtStep(j: Json, step: Step, x: Json, rest: seq<Step>)
    requires At(j, [step]) == Some(x)
    ensures At(j, [step] + rest) == At(x, rest)
  {
    assert ([step] + rest)[1..] == rest && [step][1..] == [];
  }

  lemma AtSplit(j: Json, p: seq<Step>)
    requires p != []
    ensures At(j, p) == match At(j, [p[0]]) case Some(x) => At(x, p[1..]) case None => None
  {
    assert [p[0]][1..] == [];
  }

  lemma AtChild(a: Json, k: string)
    requires a.Obj? && k in a.fields
    ensures At(a, [Key(k)]) == Some(a.fields[k])
  {
    assert [Key(k)][1..] == [];
  }

  lemma AtItem(a: Json, i: nat)
    requires a.Arr? && i < |a.items|
    ensures At(a, [Index(i)]) == Some(a.items[i])
  {
    assert [Index(i)][1..] == [];
  }

  lemma EarlierKeys(a: Json, b: Json, k: string)
    requires a.Obj? && b.Obj? && a.fields.Keys == b.fields.Keys
    requires forall l | l in a.fields && Below(l, k) :: a.fields[l] == b.fields[l]
    ensures forall s | StepBefore(s, Key(k)) :: At(a, [s]) == At(b, [s])
  {
    hide Below;
    forall s | StepBefore(s, Key(k))
      ensures At(a, [s]) == At(b, [s])
    {
      assert [s][1..] == [];
    }
  }

  lemma EarlierItems(a: Json, b: Json, i: nat)
    requires a.Arr? && b.Arr? && |a.items| == |b.items| && i <= |a.items|
    requires forall j | 0 <= j < i :: a.items[j] == b.items[j]
    ensures forall s | StepBefore(s, Index(i)) :: At(a, [s]) == At(b, [s])
  {
    forall s | StepBefore(s, Index(i))
      ensures At(a, [s]) == At(b, [s])
    {
      assert [s][1..] == [];
    }
  }

  lemma FirstHere(a: Json, b: Json, what: What)
    requires Shows(a, b, what)
    ensures IsFirst(a, b, Difference([], what))
  {
    hide Shows;
  }

  /** The difference that is found is a first one. */
  lemma {:induction false} FoundIsFirst(a: Json, b: Json)
    ensures FirstDifference(a, b).Some? ==> IsFirst(a, b, FirstDifference(a, b).value)
    decreases a, 1, 0
  {
    hide IsFirst, IsLeast, Below;
    var d := FirstDifference(a, b);
    if d.Some? {
      if !SameType(a, b) {
        FirstHere(a, b, TypeChanged);
      } else {
        match a
        case Obj(f) =>
          if f.Keys == b.fields.Keys {
            KeysFoundIsFirst(a, b, f.Keys);
          } else {
            KeySetsDiffer(f.Keys, b.fields.Keys);
            FirstHere(a, b, d.value.what);
          }
        case Arr(xs) =>
          if |xs| == |b.items| {
            ItemsFoundIsFirst(a, b, 0);
          } else {
            FirstHere(a, b, LengthChanged);
          }
        case _ => FirstHere(a, b, ValueChanged);
      }
    }
  }

  lemma KeySetsDiffer(f: set<string>, g: set<string>)
    requires f != g
    ensures f - g != {} || g - f != {}
    ensures f - g == {} ==> f <= g
  {
    assert forall k | k in f :: k in g || k in f - g;
    assert forall k | k in g :: k in f || k in g - f;
  }

  lemma {:induction false} KeysFoundIsFirst(a: Json, b: Json, keys: set<string>)
    requires a.Obj? && b.Obj? && a.fields.Keys == b.fields.Keys && keys <= a.fields.Keys
    requires forall l | l in a.fields && l !in keys :: a.fields[l] == b.fields[l]
    ensures InKeys(a, b, keys).Some? ==> IsFirst(a, b, InKeys(a, b, keys).value)
    decreases a, 0, |keys|
  {
    hide IsFirst, Below;
    if keys != {} {
      var k := Least(keys);
      var d := FirstDifference(a.fields[k], b.fields[k]);
      if d.Some? {
        FoundIsFirst(a.fields[k], b.fields[k]);
        AtChild(a, k);
        AtChild(b, k);
        forall l | l in a.fields && Below(l, k)
          ensures a.fields[l] == b.fields[l]
        {
          BelowTrichotomy(l, k);
        }
        EarlierKeys(a, b, k);
        FirstUnder(a, b, Key(k), a.fields[k], b.fields[k], d.value);
      } else {
        NoneIffEqual(a.fields[k], b.fields[k]);
        KeysFoundIsFirst(a, b, keys - {k});
      }
    }
  }

  lemma {:induction false} ItemsFoundIsFirst(a: Json, b: Json, i: nat)
    requires a.Arr? && b.Arr? && |a.items| == |b.items| && i <= |a.items|
    requires forall j | 0 <= j < i :: a.items[j] == b.items[j]
    ensures InItems(a, b, i).Some? ==> IsFirst(a, b, InItems(a, b, i).value)
    decreases a, 0, |a.items| - i
  {
    hide IsFirst;
    if i < |a.items| {
      var d := FirstDifference(a.items[i], b.items[i]);
      if d.Some? {
        FoundIsFirst(a.items[i], b.items[i]);
        AtItem(a, i);
        AtItem(b, i);
        EarlierItems(a, b, i);
        FirstUnder(a, b, Index(i), a.items[i], b.items[i], d.value);
      } else {
        NoneIffEqual(a.items[i], b.items[i]);
        ItemsFoundIsFirst(a, b, i + 1);
      }
    }
  }

  // ---------------------------------------------------------------------
  // There is only one first difference
  // ---------------------------------------------------------------------

  lemma StepsCompare(a: Json, s: Step, t: Step)
    requires At(a, [s]).Some? && At(a, [t]).Some?
    ensures s == t || StepBefore(s, t) || StepBefore(t, s)
  {
    hide Below;
    if s.Key? && t.Key? { BelowTrichotomy(s.k, t.k); }
  }

  /** Different values with an equal shape along the way cannot both agree before each other. */
  lemma FirstNeedsDifference(a: Json, b: Json, d: Difference)
    requires IsFirst(a, b, d)
    ensures a != b
  {
    hide Below;
    if a == b {
      ShowsDiffers(At(a, d.path).value, At(b, d.path).value, d.what);
    }
  }

  lemma ShowsDiffers(a: Json, b: Json, what: What)
    requires Shows(a, b, what)
    ensures a != b
  {
    hide Below;
  }

  lemma ShowsOne(a: Json, b: Json, what: What, other: What)
    requires Shows(a, b, what) && Shows(a, b, other)
    ensures what == other
  {
    hide Below, IsLeast;
    if a.Obj? && b.Obj? {
      LeastIsUnique(a.fields.Keys - b.fields.Keys);
      LeastIsUnique(b.fields.Keys - a.fields.Keys);
      if what.Missing? { LeastInside(what.key, a.fields.Keys - b.fields.Keys); }
      if other.Missing? { LeastInside(other.key, a.fields.Keys - b.fields.Keys); }
    }
  }

  lemma LeastInside(k: string, keys: set<string>)
    requires IsLeast(k, keys)
    ensures k in keys
  {
  }

  lemma ShowsOrShape(a: Json, b: Json, what: What)
    requires Shows(a, b, what)
    ensures !SameShape(a, b)
  {
    hide Below;
  }

  lemma FirstTail(a: Json, b: Json, d: Difference)
    requires IsFirst(a, b, d) && d.path != []
    ensures SameShape(a, b) && At(a, [d.path[0]]).Some? && At(b, [d.path[0]]).Some?
    ensures IsFirst(At(a, [d.path[0]]).value, At(b, [d.path[0]]).value, Difference(d.path[1..], d.what))
    ensures forall s | StepBefore(s, d.path[0]) :: At(a, [s]) == At(b, [s])
  {
    hide SameShape, Shows, StepBefore;
    var step, rest := d.path[0], d.path[1..];
    AtSplit(a, d.path);
    AtSplit(b, d.path);
    assert d.path == [step] + rest;
    assert d.path[..0] == [];
    var x, y := At(a, [step]).value, At(b, [step]).value;
    forall n | 0 <= n < |rest|
      ensures At(x, rest[..n]).Some? && At(y, rest[..n]).Some?
            && SameShape(At(x, rest[..n]).value, At(y, rest[..n]).value)
    {
      assert d.path[..n + 1] == [step] + rest[..n];
      AtStep(a, step, x, rest[..n]);
      AtStep(b, step, y, rest[..n]);
    }
    forall p | Before(p, rest)
      ensures At(x, p) == At(y, p)
    {
      assert ([step] + p)[1..] == p;
      assert Before([step] + p, d.path);
      AtStep(a, step, x, p);
      AtStep(b, step, y, p);
    }
    forall s | StepBefore(s, step)
      ensures At(a, [s]) == At(b, [s])
    {
      assert Before([s], d.path);
    }
  }

  lemma {:induction false} FirstIsUnique(a: Json, b: Json, d: Difference, e: Difference)
    requires IsFirst(a, b, d) && IsFirst(a, b, e)
    ensures d == e
    decreases |d.path|
  {
    hide IsFirst, SameShape, Shows, StepBefore;
    FirstRoot(a, b, d);
    FirstRoot(a, b, e);
    if d.path == [] || e.path == [] {
      if d.path == [] && e.path == [] {
        ShowsOne(a, b, d.what, e.what);
      } else if d.path == [] {
        ShowsOrShape(a, b, d.what);
        FirstTail(a, b, e);
      } else {
        ShowsOrShape(a, b, e.what);
        FirstTail(a, b, d);
      }
    } else {
      FirstTail(a, b, d);
      FirstTail(a, b, e);
      var s, t := d.path[0], e.path[0];
      StepsCompare(a, s, t);
      FirstNeedsDifference(At(a, [s]).value, At(b, [s]).value, Difference(d.path[1..], d.what));
      FirstNeedsDifference(At(a, [t]).value, At(b, [t]).value, Difference(e.path[1..], e.what));
      assert s == t;
      FirstIsUnique(At(a, [s]).value, At(b, [s]).value,
                    Difference(d.path[1..], d.what), Difference(e.path[1..], e.what));
      assert d.path == [s] + d.path[1..] && e.path == [t] + e.path[1..];
    }
  }

  lemma FirstRoot(a: Json, b: Json, d: Difference)
    requires IsFirst(a, b, d)
    ensures d.path == [] ==> Shows(a, b, d.what)
  {
    hide Shows;
  }

  /** `first_difference` is exact and first: it finds nothing exactly between equal values, and what it
      finds is the one difference that no earlier one precedes. */
  lemma ExactAndFirst(a: Json, b: Json)
    ensures FirstDifference(a, b).None? <==> a == b
    ensures forall d :: FirstDifference(a, b) == Some(d) <==> IsFirst(a, b, d)
  {
    hide IsFirst;
    NoneIffEqual(a, b);
    FoundIsFirst(a, b);
    forall d
      ensures FirstDifference(a, b) == Some(d) <==> IsFirst(a, b, d)
    {
      if IsFirst(a, b, d) {
        FirstNeedsDifference(a, b, d);
        FirstIsUnique(a, b, d, FirstDifference(a, b).value);
      }
    }
  }
}
