/** The JSON-like configuration value the compressor walks, the truthiness
    JavaScript gives it, and the order in which an object's keys are visited. */
module ConfigValue {

  /** A parsed configuration: null, a boolean, a number, a string, an array or
      an object (an unordered map from keys to values). */
  datatype Value =
    | Null
    | Bool(b: bool)
    | Num(n: int)
    | Str(s: string)
    | Arr(items: seq<Value>)
    | Obj(fields: map<string, Value>)

  /** JavaScript truthiness: `null`, `false`, `0` and `""` are falsy, every
      array and object is truthy. */
  predicate Truthy(v: Value) {
    match v
    case Null => false
    case Bool(b) => b
    case Num(n) => n != 0
    case Str(s) => s != ""
    case Arr(_) => true
    case Obj(_) => true
  }

  /** `typeof v === 'object'`, which holds for `null` as well. */
  predicate ObjectTyped(v: Value) {
    v.Null? || v.Arr? || v.Obj?
  }

  /** Strict code-point order on strings. */
  predicate Less(a: string, b: string)
    decreases |a|
  {
    if a == [] then b != []
    else b != [] && (a[0] < b[0] || (a[0] == b[0] && Less(a[1..], b[1..])))
  }

  lemma {:induction false} LessIrreflexive(a: string)
    ensures !Less(a, a)
    decreases |a|
  {
    if a != [] {
      LessIrreflexive(a[1..]);
    }
  }

  lemma {:induction false} LessTransitive(a: string, b: string, c: string)
    requires Less(a, b) && Less(b, c)
    ensures Less(a, c)
    decreases |a|
  {
    if a != [] && a[0] == b[0] && b[0] == c[0] {
      LessTransitive(a[1..], b[1..], c[1..]);
    }
  }

  lemma {:induction false} LessTotal(a: string, b: string)
    requires a != b
    ensures Less(a, b) || Less(b, a)
    decreases |a|
  {
    if a != [] && b != [] && a[0] == b[0] {
      assert a[1..] != b[1..] by {
        assert a == [a[0]] + a[1..] && b == [b[0]] + b[1..];
      }
      LessTotal(a[1..], b[1..]);
    }
  }

  lemma {:induction false} LessAsymmetric(a: string, b: string)
    requires Less(a, b)
    ensures !Less(b, a)
    decreases |a|
  {
    if a != [] && a[0] == b[0] {
      LessAsymmetric(a[1..], b[1..]);
    }
  }

  /** `x` is the smallest member of `s`. */
  predicate IsLeast(x: string, s: set<string>) {
    x in s && forall y :: y in s && y != x ==> Less(x, y)
  }

  lemma {:induction false} LeastExists(s: set<string>)
    requires s != {}
    ensures exists x :: IsLeast(x, s)
    decreases |s|
  {
    var x :| x in s;
    if s - {x} == {} {
      assert s == {x};
      assert IsLeast(x, s);
    } else {
      LeastExists(s - {x});
      var y :| IsLeast(y, s - {x});
      if Less(x, y) {
        forall z | z in s && z != x
          ensures Less(x, z)
        {
          if z != y {
            LessTransitive(x, y, z);
          }
        }
        assert IsLeast(x, s);
      } else {
        LessTotal(x, y);
        assert IsLeast(y, s);
      }
    }
  }

  lemma LeastUnique(x: string, y: string, s: set<string>)
    requires IsLeast(x, s) && IsLeast(y, s)
    ensures x == y
  {
    if x != y {
      LessAsymmetric(x, y);
    }
  }

  function Least(s: set<string>): (x: string)
    requires s != {}
    ensures IsLeast(x, s)
  {
    LeastExists(s);
    assert forall a, b :: IsLeast(a, s) && IsLeast(b, s) ==> a == b by {
      forall a, b | IsLeast(a, s) && IsLeast(b, s)
        ensures a == b
      {
        LeastUnique(a, b, s);
      }
    }
    var x :| IsLeast(x, s);
    x
  }

  /** `ks` lists the members of `s` once each, in ascending order. */
  ghost predicate Enumerates(ks: seq<string>, s: set<string>) {
    |ks| == |s| &&
    (forall k :: k in ks <==> k in s) &&
    (forall i :: 0 <= i < |ks| ==> ks[i] in s) &&
    (forall i, j :: 0 <= i < j < |ks| ==> Less(ks[i], ks[j])) &&
    (forall i, j :: 0 <= i < j < |ks| ==> ks[i] != ks[j])
  }

  /** The keys of an object in the order the compressor visits them: ascending
      code-point order. */
  function Enumerate(s: set<string>): (ks: seq<string>)
    ensures |ks| == |s|
    ensures forall k :: k in ks <==> k in s
    ensures forall i :: 0 <= i < |ks| ==> ks[i] in s
    ensures forall i, j :: 0 <= i < j < |ks| ==> Less(ks[i], ks[j])
    ensures forall i, j :: 0 <= i < j < |ks| ==> ks[i] != ks[j]
    decreases |s|
  {
    if s == {} then []
    else
      var x := Least(s);
      var rest := Enumerate(s - {x});
      PrependLeast(s, x, rest);
      [x] + rest
  }

  /** The least member followed by an enumeration of the others enumerates all. */
  lemma PrependLeast(s: set<string>, x: string, rest: seq<string>)
    requires IsLeast(x, s) && Enumerates(rest, s - {x})
    ensures Enumerates([x] + rest, s)
  {
    var ks := [x] + rest;
    assert forall j :: 0 <= j < |rest| ==> Less(x, rest[j]) by {
      forall j | 0 <= j < |rest|
        ensures Less(x, rest[j])
      {
        assert rest[j] in s - {x};
      }
    }
    assert forall j :: 0 <= j < |rest| ==> rest[j] != x;
    assert |s - {x}| == |s| - 1;
    forall i, j | 0 <= i < j < |ks|
      ensures Less(ks[i], ks[j]) && ks[i] != ks[j]
    {
      if i > 0 {
        assert ks[i] == rest[i - 1] && ks[j] == rest[j - 1];
      } else {
        assert ks[j] == rest[j - 1];
      }
    }
  }

  /** The number of nodes of a value; the compressor's recursion decreases it. */
  ghost function Size(v: Value): nat
    decreases v, 1
  {
    match v
    case Arr(items) => 1 + ItemsSize(items, 0, v)
    case Obj(m) => 1 + FieldsSize(m, Enumerate(m.Keys), 0, v)
    case _ => 1
  }

  ghost function ItemsSize(items: seq<Value>, i: nat, whole: Value): nat
    requires whole == Arr(items)
    decreases whole, 0, |items| - i
  {
    if i >= |items| then 0 else Size(items[i]) + ItemsSize(items, i + 1, whole)
  }

  ghost function FieldsSize(m: map<string, Value>, ks: seq<string>, i: nat, whole: Value): nat
    requires whole == Obj(m) && forall k :: k in ks ==> k in m
    decreases whole, 0, |ks| - i
  {
    if i >= |ks| then 0 else Size(m[ks[i]]) + FieldsSize(m, ks, i + 1, whole)
  }

  lemma {:induction false} ItemsSizeCovers(items: seq<Value>, i: nat, j: nat)
    requires i <= j < |items|
    ensures Size(items[j]) <= ItemsSize(items, i, Arr(items))
    decreases j - i
  {
    if i < j {
      ItemsSizeCovers(items, i + 1, j);
    }
  }

  lemma {:induction false} FieldsSizeCovers(m: map<string, Value>, ks: seq<string>, i: nat, j: nat)
    requires (forall k :: k in ks ==> k in m) && i <= j < |ks|
    ensures Size(m[ks[j]]) <= FieldsSize(m, ks, i, Obj(m))
    decreases j - i
  {
    if i < j {
      FieldsSizeCovers(m, ks, i + 1, j);
    }
  }

  /** An array element is smaller than the array. */
  lemma ItemSmaller(items: seq<Value>, i: nat)
    requires i < |items|
    ensures Size(items[i]) < Size(Arr(items))
  {
    ItemsSizeCovers(items, 0, i);
  }

  /** A member of an object is smaller than the object. */
  lemma FieldSmaller(m: map<string, Value>, k: string)
    requires k in m
    ensures Size(m[k]) < Size(Obj(m))
  {
    var ks := Enumerate(m.Keys);
    var j :| 0 <= j < |ks| && ks[j] == k;
    FieldsSizeCovers(m, ks, 0, j);
  }

  /** Values of size one: everything but arrays and objects. */
  predicate Leaf(v: Value) {
    !v.Arr? && !v.Obj?
  }

  lemma {:induction false} ItemsSizeLeaves(a: seq<Value>, b: seq<Value>, i: nat)
    requires |a| == |b| && i <= |a|
    requires forall j :: 0 <= j < |a| ==> a[j] == b[j] || (Leaf(a[j]) && Leaf(b[j]))
    ensures ItemsSize(a, i, Arr(a)) == ItemsSize(b, i, Arr(b))
    decreases |a| - i
  {
    if i < |a| {
      ItemsSizeLeaves(a, b, i + 1);
    }
  }

  lemma {:induction false} FieldsSizeLeaves(a: map<string, Value>, b: map<string, Value>, ks: seq<string>, i: nat)
    requires a.Keys == b.Keys && (forall k :: k in ks ==> k in a) && i <= |ks|
    requires forall k :: k in a ==> a[k] == b[k] || (Leaf(a[k]) && Leaf(b[k]))
    ensures FieldsSize(a, ks, i, Obj(a)) == FieldsSize(b, ks, i, Obj(b))
    decreases |ks| - i
  {
    if i < |ks| {
      FieldsSizeLeaves(a, b, ks, i + 1);
    }
  }

  /** Replacing leaves by leaves keeps the size of an array. */
  lemma ArrSizeLeaves(a: seq<Value>, b: seq<Value>)
    requires |a| == |b|
    requires forall j :: 0 <= j < |a| ==> a[j] == b[j] || (Leaf(a[j]) && Leaf(b[j]))
    ensures Size(Arr(a)) == Size(Arr(b))
  {
    ItemsSizeLeaves(a, b, 0);
  }

  /** Replacing leaves by leaves keeps the size of an object. */
  lemma ObjSizeLeaves(a: map<string, Value>, b: map<string, Value>)
    requires a.Keys == b.Keys
    requires forall k :: k in a ==> a[k] == b[k] || (Leaf(a[k]) && Leaf(b[k]))
    ensures Size(Obj(a)) == Size(Obj(b))
  {
    FieldsSizeLeaves(a, b, Enumerate(a.Keys), 0);
  }
}
