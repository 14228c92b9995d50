/** The key renaming of the object pass, in closed form: when every vocabulary
    token begins with a character above '9' (an assumption about the
    compression index, which the loader does not establish) and distinct
    tokens have distinct integers (which the loaded vocabulary guarantees,
    see `LoadedInjective`), a vocabulary key is moved to the numeral of its
    integer, and every other key keeps its place. */
module Renaming {
  import opened Text
  import opened ConfigValue
  import opened Vocabulary
  import opened Compressor

  /** Every token begins with a character that no numeral begins with (the
      tokens of the vocabulary are words). */
  predicate Words(vocab: Vocab) {
    forall t :: t in vocab ==> t != "" && t[0] > '9'
  }

  /** Distinct tokens have distinct integers. */
  predicate Injective(vocab: Vocab) {
    forall a, c :: a in vocab && c in vocab && a != c ==> vocab[a] != vocab[c]
  }

  lemma DigitCharInjective(a: nat, c: nat)
    requires a < 10 && c < 10 && DigitChar(a) == DigitChar(c)
    ensures a == c
  {
    var digits := "0123456789";
    assert forall i, j :: 0 <= i < j < 10 ==> digits[i] != digits[j];
  }

  /** Decimal numerals are distinct for distinct integers. */
  lemma {:induction false} NumeralInjective(a: nat, c: nat)
    requires Numeral(a) == Numeral(c)
    ensures a == c
    decreases a
  {
    var na, nc := Numeral(a), Numeral(c);
    if a < 10 && c < 10 {
      assert na[0] == nc[0];
      DigitCharInjective(a, c);
    } else if a >= 10 && c >= 10 {
      assert na[|na| - 1] == DigitChar(a % 10) && nc[|nc| - 1] == DigitChar(c % 10);
      DigitCharInjective(a % 10, c % 10);
      assert na[..|na| - 1] == Numeral(a / 10) && nc[..|nc| - 1] == Numeral(c / 10);
      NumeralInjective(a / 10, c / 10);
    }
  }

  /** A numeral sorts before any word, so the object pass visits it first. */
  lemma NumeralBeforeWord(n: nat, w: string)
    requires w != "" && w[0] > '9'
    ensures Less(Numeral(n), w) && Numeral(n) != w
  {
  }

  /** The numeral of a token's integer is not itself a token. */
  lemma NumeralNotToken(vocab: Vocab, n: nat)
    requires Words(vocab)
    ensures Numeral(n) !in vocab
  {
  }

  /** Some vocabulary key of `m` is renamed to `x`. */
  ghost predicate Shadowed(vocab: Vocab, m: map<string, Value>, x: string) {
    exists j :: j in m && j in vocab && Numeral(vocab[j]) == x
  }

  /** The value a key that is not renamed ends with: the steps' result when
      they assigned it, the old value otherwise. */
  function Kept(vocab: Vocab, key: string, data: Value, b: string): Value {
    var f := FieldStep(vocab, key, data, b);
    if f.stored then f.value else data
  }

  // The loop state after the keys in `done` were visited, one fact at a time.

  ghost predicate Moved(vocab: Vocab, m: map<string, Value>, done: set<string>, cfg: map<string, Value>, b: string)
    requires done <= m.Keys
  {
    forall k :: k in done && k in vocab ==>
      Numeral(vocab[k]) in cfg && cfg[Numeral(vocab[k])] == FieldStep(vocab, k, m[k], b).value
  }

  ghost predicate Gone(vocab: Vocab, m: map<string, Value>, done: set<string>, cfg: map<string, Value>) {
    forall k :: k in vocab && k in cfg ==> k in m && k !in done
  }

  ghost predicate Pending(m: map<string, Value>, done: set<string>, cfg: map<string, Value>) {
    forall k :: k in m && k !in done ==> k in cfg && cfg[k] == m[k]
  }

  ghost predicate Settled(vocab: Vocab, m: map<string, Value>, done: set<string>, cfg: map<string, Value>, b: string)
    requires done <= m.Keys
  {
    forall k :: k in done && k !in vocab && !Shadowed(vocab, m, k) ==>
      k in cfg && cfg[k] == Kept(vocab, k, m[k], b)
  }

  ghost predicate NoStray(vocab: Vocab, m: map<string, Value>, done: set<string>, cfg: map<string, Value>) {
    forall x :: x in cfg ==>
      (x in m && (x !in vocab || x !in done)) ||
      exists k :: k in done && k in vocab && x == Numeral(vocab[k])
  }

  ghost predicate State(vocab: Vocab, m: map<string, Value>, done: set<string>, cfg: map<string, Value>, b: string) {
    done <= m.Keys &&
    Moved(vocab, m, done, cfg, b) && Gone(vocab, m, done, cfg) && Pending(m, done, cfg) &&
    Settled(vocab, m, done, cfg, b) && NoStray(vocab, m, done, cfg)
  }

  /** What visiting `k` may assume: `k` is the least key not yet visited. */
  ghost predicate NextKey(m: map<string, Value>, done: set<string>, k: string) {
    done <= m.Keys && k in m && k !in done &&
    (forall x :: x in done ==> Less(x, k)) &&
    (forall y :: y in m && y !in done && y != k ==> Less(k, y))
  }

  lemma StepMoved(vocab: Vocab, m: map<string, Value>, done: set<string>, cfg: map<string, Value>, k: string, b: string)
    requires Words(vocab) && Injective(vocab) && NextKey(m, done, k)
    requires Moved(vocab, m, done, cfg, b)
    ensures Moved(vocab, m, done + {k}, ObjectStep(vocab, m, cfg, k, b), b)
  {
    var next := ObjectStep(vocab, m, cfg, k, b);
    forall j | j in done + {k} && j in vocab
      ensures Numeral(vocab[j]) in next && next[Numeral(vocab[j])] == FieldStep(vocab, j, m[j], b).value
    {
      if j == k {
        NumeralBeforeWord(vocab[k], k);
      } else if k in vocab {
        NumeralBeforeWord(vocab[j], k);
        if Numeral(vocab[j]) == Numeral(vocab[k]) {
          NumeralInjective(vocab[j], vocab[k]);
        }
      } else if Numeral(vocab[j]) == k {
        NumeralBeforeWord(vocab[j], j);
        LessAsymmetric(j, k);
      }
    }
  }

  lemma StepGone(vocab: Vocab, m: map<string, Value>, done: set<string>, cfg: map<string, Value>, k: string, b: string)
    requires Words(vocab) && NextKey(m, done, k)
    requires Gone(vocab, m, done, cfg)
    ensures Gone(vocab, m, done + {k}, ObjectStep(vocab, m, cfg, k, b))
  {
    if k in vocab {
      NumeralNotToken(vocab, vocab[k]);
    }
  }

  lemma StepPending(vocab: Vocab, m: map<string, Value>, done: set<string>, cfg: map<string, Value>, k: string, b: string)
    requires Words(vocab) && NextKey(m, done, k)
    requires Pending(m, done, cfg)
    ensures Pending(m, done + {k}, ObjectStep(vocab, m, cfg, k, b))
  {
    var next := ObjectStep(vocab, m, cfg, k, b);
    forall y | y in m && y !in done + {k}
      ensures y in next && next[y] == m[y]
    {
      if k in vocab {
        NumeralBeforeWord(vocab[k], k);
        if y == Numeral(vocab[k]) {
          LessAsymmetric(k, y);
        }
      }
    }
  }

  lemma StepSettled(vocab: Vocab, m: map<string, Value>, done: set<string>, cfg: map<string, Value>, k: string, b: string)
    requires NextKey(m, done, k)
    requires Pending(m, done, cfg) && Settled(vocab, m, done, cfg, b)
    ensures Settled(vocab, m, done + {k}, ObjectStep(vocab, m, cfg, k, b), b)
  {
    var next := ObjectStep(vocab, m, cfg, k, b);
    forall x | x in done + {k} && x !in vocab && !Shadowed(vocab, m, x)
      ensures x in next && next[x] == Kept(vocab, x, m[x], b)
    {
      if k in vocab {
        assert x != Numeral(vocab[k]);
      }
    }
  }

  lemma StepNoStray(vocab: Vocab, m: map<string, Value>, done: set<string>, cfg: map<string, Value>, k: string, b: string)
    requires NextKey(m, done, k)
    requires NoStray(vocab, m, done, cfg)
    ensures NoStray(vocab, m, done + {k}, ObjectStep(vocab, m, cfg, k, b))
  {
    var next := ObjectStep(vocab, m, cfg, k, b);
    forall x | x in next
      ensures (x in m && (x !in vocab || x !in done + {k})) ||
        exists j :: j in done + {k} && j in vocab && x == Numeral(vocab[j])
    {
      if k in vocab && x == Numeral(vocab[k]) {
        assert k in done + {k};
      } else if x != k {
        assert x in cfg;
      }
    }
  }

  lemma Step(vocab: Vocab, m: map<string, Value>, done: set<string>, cfg: map<string, Value>, k: string, b: string)
    requires Words(vocab) && Injective(vocab) && NextKey(m, done, k)
    requires State(vocab, m, done, cfg, b)
    ensures State(vocab, m, done + {k}, ObjectStep(vocab, m, cfg, k, b), b)
  {
    StepMoved(vocab, m, done, cfg, k, b);
    StepGone(vocab, m, done, cfg, k, b);
    StepPending(vocab, m, done, cfg, k, b);
    StepSettled(vocab, m, done, cfg, k, b);
    StepNoStray(vocab, m, done, cfg, k, b);
  }

  /** The keys visited before position `i`. */
  function Visited(ks: seq<string>, i: nat): set<string>
    requires i <= |ks|
  {
    set p | 0 <= p < i :: ks[p]
  }

  lemma VisitedNext(m: map<string, Value>, i: nat)
    requires i < |m.Keys|
    ensures var ks := Enumerate(m.Keys);
      NextKey(m, Visited(ks, i), ks[i]) && Visited(ks, i + 1) == Visited(ks, i) + {ks[i]}
  {
    var ks := Enumerate(m.Keys);
    var done := Visited(ks, i);
    forall x | x in done
      ensures x in m && x != ks[i] && Less(x, ks[i])
    {
      var p :| 0 <= p < i && ks[p] == x;
    }
    forall y | y in m && y !in done && y != ks[i]
      ensures Less(ks[i], y)
    {
      var q :| 0 <= q < |ks| && ks[q] == y;
    }
    VisitedStep(ks, i);
  }

  lemma VisitedStep(ks: seq<string>, i: nat)
    requires i < |ks|
    ensures Visited(ks, i + 1) == Visited(ks, i) + {ks[i]}
  {
    forall x | x in Visited(ks, i + 1)
      ensures x in Visited(ks, i) + {ks[i]}
    {
      var p :| 0 <= p < i + 1 && ks[p] == x;
      if p < i {
        assert x in Visited(ks, i);
      }
    }
  }

  lemma {:induction false} PassState(vocab: Vocab, m: map<string, Value>, i: nat, cfg: map<string, Value>, b: string)
    requires Words(vocab) && Injective(vocab) && i <= |m.Keys|
    requires State(vocab, m, Visited(Enumerate(m.Keys), i), cfg, b)
    ensures State(vocab, m, m.Keys, ObjectFrom(vocab, m, Enumerate(m.Keys), i, cfg, b), b)
    decreases |m.Keys| - i
  {
    var ks := Enumerate(m.Keys);
    if i == |ks| {
      VisitedAll(m);
    } else {
      VisitedNext(m, i);
      var next := ObjectStep(vocab, m, cfg, ks[i], b);
      Step(vocab, m, Visited(ks, i), cfg, ks[i], b);
      PassState(vocab, m, i + 1, next, b);
    }
  }

  lemma VisitedAll(m: map<string, Value>)
    ensures Visited(Enumerate(m.Keys), |m.Keys|) == m.Keys
  {
    var ks := Enumerate(m.Keys);
    forall k | k in m
      ensures k in Visited(ks, |ks|)
    {
      var p :| 0 <= p < |ks| && ks[p] == k;
    }
  }

  /** The object pass renames exactly the vocabulary keys: each one's value,
      after the steps, moves to the numeral of its integer; no vocabulary key
      is left; a key outside the vocabulary that no rename lands on keeps its
      place with the value it was assigned, or its old value; and there are no
      other keys. */
  lemma ObjectRenames(vocab: Vocab, m: map<string, Value>, b: string)
    requires Words(vocab) && Injective(vocab)
    ensures var r := ObjectPass(vocab, m, b);
      (forall k :: k in m && k in vocab ==>
        Numeral(vocab[k]) in r && r[Numeral(vocab[k])] == FieldStep(vocab, k, m[k], b).value) &&
      (forall k :: k in vocab ==> k !in r) &&
      (forall k :: k in m && k !in vocab && !Shadowed(vocab, m, k) ==>
        k in r && r[k] == Kept(vocab, k, m[k], b)) &&
      (forall x :: x in r ==>
        (x in m && x !in vocab) || exists k :: k in m && k in vocab && x == Numeral(vocab[k]))
  {
    assert Visited(Enumerate(m.Keys), 0) == {};
    PassState(vocab, m, 0, m, b);
  }

  /** The loaded vocabulary gives distinct tokens distinct integers. */
  lemma LoadedInjective(groups: seq<seq<string>>)
    ensures Injective(Numbered(Flatten(groups)))
  {
    forall a, c | a in Numbered(Flatten(groups)) && c in Numbered(Flatten(groups)) && a != c
      ensures Numbered(Flatten(groups))[a] != Numbered(Flatten(groups))[c]
    {
      NumberedInjective(Flatten(groups), a, c);
    }
  }

  /** An object compressed once holds no vocabulary key, so a second pass
      renames nothing and keeps exactly the same keys (its values may still
      change: a vocabulary string under a renamed key is replaced only then). */
  lemma KeysStable(vocab: Vocab, m: map<string, Value>, b: string, b2: string)
    requires Words(vocab) && Injective(vocab)
    ensures var r := ObjectPass(vocab, m, b);
      (forall k :: k in r ==> k !in vocab) && ObjectPass(vocab, r, b2).Keys == r.Keys
  {
    var r := ObjectPass(vocab, m, b);
    ObjectRenames(vocab, m, b);
    ObjectRenames(vocab, r, b2);
    var r2 := ObjectPass(vocab, r, b2);
    forall k | k in r
      ensures k in r2
    {
      assert !Shadowed(vocab, r, k);
    }
  }

  /** `compress` on an object, with the renaming stated on its result. */
  lemma CompressObjectRenames(vocab: Vocab, m: map<string, Value>, base: string, deep: bool)
    requires Words(vocab) && Injective(vocab)
    ensures var r := Compress(vocab, Obj(m), base, deep);
      var b := NormalBase(base);
      r == Obj(ObjectPass(vocab, m, b)) &&
      (forall k :: k in m && k in vocab ==>
        Numeral(vocab[k]) in r.fields && r.fields[Numeral(vocab[k])] == FieldStep(vocab, k, m[k], b).value) &&
      (forall k :: k in vocab ==> k !in r.fields) &&
      (forall k :: k in m && k !in vocab && !Shadowed(vocab, m, k) ==>
        k in r.fields && r.fields[k] == Kept(vocab, k, m[k], b)) &&
      (forall x :: x in r.fields ==>
        (x in m && x !in vocab) || exists k :: k in m && k in vocab && x == Numeral(vocab[k]))
  {
    ObjectRenames(vocab, m, NormalBase(base));
  }

  /** An object whose keys are all vocabulary keys: the result holds exactly
      the numerals, each with its member's value after the steps (`origin`
      names the key each expected numeral comes from). */
  lemma Renamed(vocab: Vocab, m: map<string, Value>, base: string, deep: bool, expected: map<string, Value>, origin: map<string, string>)
    requires Words(vocab) && Injective(vocab)
    requires forall k :: k in m ==> k in vocab
    requires forall k :: k in m ==>
      Numeral(vocab[k]) in expected && expected[Numeral(vocab[k])] == FieldStep(vocab, k, m[k], NormalBase(base)).value
    requires forall x :: x in expected ==> x in origin && origin[x] in m && x == Numeral(vocab[origin[x]])
    ensures Compress(vocab, Obj(m), base, deep) == Obj(expected)
  {
    RenamedPass(vocab, m, NormalBase(base), expected, origin);
    ObjectCompressed(vocab, m, base, deep);
  }

  /** `compress` on an object is the object pass under the normalised base. */
  lemma ObjectCompressed(vocab: Vocab, m: map<string, Value>, base: string, deep: bool)
    ensures Compress(vocab, Obj(m), base, deep) == Obj(ObjectPass(vocab, m, NormalBase(base)))
  {
  }

  lemma RenamedPass(vocab: Vocab, m: map<string, Value>, b: string, expected: map<string, Value>, origin: map<string, string>)
    requires Words(vocab) && Injective(vocab)
    requires forall k :: k in m ==> k in vocab
    requires forall k :: k in m ==>
      Numeral(vocab[k]) in expected && expected[Numeral(vocab[k])] == FieldStep(vocab, k, m[k], b).value
    requires forall x :: x in expected ==> x in origin && origin[x] in m && x == Numeral(vocab[origin[x]])
    ensures ObjectPass(vocab, m, b) == expected
  {
    RenamedFrom(vocab, m, b, expected);
    RenamedOnto(vocab, m, b, expected, origin);
    MapsAgree(ObjectPass(vocab, m, b), expected);
  }

  lemma MapsAgree(r: map<string, Value>, expected: map<string, Value>)
    requires forall x :: x in r ==> x in expected && r[x] == expected[x]
    requires forall x :: x in expected ==> x in r
    ensures r == expected
  {
  }

  lemma RenamedFrom(vocab: Vocab, m: map<string, Value>, b: string, expected: map<string, Value>)
    requires Words(vocab) && Injective(vocab)
    requires forall k :: k in m ==> k in vocab
    requires forall k :: k in m ==>
      Numeral(vocab[k]) in expected && expected[Numeral(vocab[k])] == FieldStep(vocab, k, m[k], b).value
    ensures forall x :: x in ObjectPass(vocab, m, b) ==> x in expected && ObjectPass(vocab, m, b)[x] == expected[x]
  {
    ObjectRenames(vocab, m, b);
  }

  lemma RenamedOnto(vocab: Vocab, m: map<string, Value>, b: string, expected: map<string, Value>, origin: map<string, string>)
    requires Words(vocab) && Injective(vocab)
    requires forall k :: k in m ==> k in vocab
    requires forall x :: x in expected ==> x in origin && origin[x] in m && x == Numeral(vocab[origin[x]])
    ensures forall x :: x in expected ==> x in ObjectPass(vocab, m, b)
  {
    ObjectRenames(vocab, m, b);
  }

  /** An object with no vocabulary key keeps its keys; each member holds its
      value after the steps. */
  lemma NoneRenamed(vocab: Vocab, m: map<string, Value>, b: string)
    requires Words(vocab) && Injective(vocab)
    requires forall k :: k in m ==> k !in vocab
    ensures ObjectPass(vocab, m, b) == map k | k in m :: Kept(vocab, k, m[k], b)
  {
    ObjectRenames(vocab, m, b);
    var r := ObjectPass(vocab, m, b);
    var expected := map k | k in m :: Kept(vocab, k, m[k], b);
    forall k | k in m
      ensures k in r && r[k] == expected[k]
    {
      assert !Shadowed(vocab, m, k);
    }
    MapsAgree(r, expected);
  }

  /** The pass over an empty object is empty. */
  lemma EmptyPass(vocab: Vocab, b: string)
    ensures ObjectPass(vocab, map[], b) == map[]
  {
    var none: map<string, Value> := map[];
    assert Enumerate(none.Keys) == [];
  }

  /** Each member's value after the steps. */
  function Values(vocab: Vocab, m: map<string, Value>, b: string): (vals: map<string, Value>)
    ensures vals.Keys == m.Keys
  {
    map j | j in m :: FieldStep(vocab, j, m[j], b).value
  }

  lemma ValuesAdd(vocab: Vocab, m: map<string, Value>, k: string, v: Value, b: string)
    requires k !in m
    ensures Values(vocab, m[k := v], b) == Values(vocab, m, b)[k := FieldStep(vocab, k, v, b).value]
  {
    var n := m[k := v];
    var lhs := Values(vocab, n, b);
    var rhs := Values(vocab, m, b)[k := FieldStep(vocab, k, v, b).value];
    forall j | j in n
      ensures lhs[j] == rhs[j]
    {
    }
    MapsAgree(lhs, rhs);
  }

  /** `r` holds, under the numeral of each key of `m`, that key's entry of
      `vals`, and nothing else. */
  ghost predicate AllMoved(vocab: Vocab, m: map<string, Value>, vals: map<string, Value>, r: map<string, Value>)
    requires forall j :: j in m ==> j in vocab && j in vals
  {
    (forall j :: j in m ==> Numeral(vocab[j]) in r && r[Numeral(vocab[j])] == vals[j]) &&
    r.Keys == Renames(vocab, m)
  }

  /** The numerals the keys of `m` are renamed to. */
  ghost function Renames(vocab: Vocab, m: map<string, Value>): set<string>
    requires forall j :: j in m ==> j in vocab
  {
    set j | j in m :: Numeral(vocab[j])
  }

  lemma AllMovedPass(vocab: Vocab, m: map<string, Value>, b: string)
    requires Words(vocab) && Injective(vocab)
    requires forall j :: j in m ==> j in vocab
    ensures AllMoved(vocab, m, Values(vocab, m, b), ObjectPass(vocab, m, b))
  {
    MovedValues(vocab, m, b);
    MovedKeys(vocab, m, b);
  }

  lemma MovedValues(vocab: Vocab, m: map<string, Value>, b: string)
    requires Words(vocab) && Injective(vocab)
    requires forall j :: j in m ==> j in vocab
    ensures var r := ObjectPass(vocab, m, b);
      forall j :: j in m ==> Numeral(vocab[j]) in r && r[Numeral(vocab[j])] == Values(vocab, m, b)[j]
  {
    ObjectRenames(vocab, m, b);
  }

  lemma MovedKeys(vocab: Vocab, m: map<string, Value>, b: string)
    requires Words(vocab) && Injective(vocab)
    requires forall j :: j in m ==> j in vocab
    ensures ObjectPass(vocab, m, b).Keys == Renames(vocab, m)
  {
    ObjectRenames(vocab, m, b);
    KeysRenamed(vocab, m, ObjectPass(vocab, m, b));
  }

  lemma KeysRenamed(vocab: Vocab, m: map<string, Value>, r: map<string, Value>)
    requires forall j :: j in m ==> j in vocab
    requires forall k :: k in m && k in vocab ==> Numeral(vocab[k]) in r
    requires forall x :: x in r ==>
      (x in m && x !in vocab) || exists k :: k in m && k in vocab && x == Numeral(vocab[k])
    ensures r.Keys == Renames(vocab, m)
  {
    forall x | x in r
      ensures x in Renames(vocab, m)
    {
      var j :| j in m && j in vocab && x == Numeral(vocab[j]);
    }
    forall x | x in Renames(vocab, m)
      ensures x in r
    {
      var j :| j in m && x == Numeral(vocab[j]);
    }
  }

  /** Adding a vocabulary key to an object of vocabulary keys adds one entry to
      the result: the new member's value under the key's numeral. */
  lemma RenameOne(vocab: Vocab, m: map<string, Value>, k: string, v: Value, b: string)
    requires Words(vocab) && Injective(vocab)
    requires forall j :: j in m ==> j in vocab
    requires k in vocab && k !in m
    ensures ObjectPass(vocab, m[k := v], b) ==
      ObjectPass(vocab, m, b)[Numeral(vocab[k]) := FieldStep(vocab, k, v, b).value]
  {
    AllMovedPass(vocab, m, b);
    AllMovedPass(vocab, m[k := v], b);
    ValuesAdd(vocab, m, k, v, b);
    MovedOne(vocab, m, k, v, Values(vocab, m, b), FieldStep(vocab, k, v, b).value,
      ObjectPass(vocab, m, b), ObjectPass(vocab, m[k := v], b));
  }

  lemma MovedOne(vocab: Vocab, m: map<string, Value>, k: string, v: Value, vals: map<string, Value>, w: Value,
                 r: map<string, Value>, r2: map<string, Value>)
    requires Injective(vocab)
    requires forall j :: j in m ==> j in vocab && j in vals
    requires k in vocab && k !in m
    requires AllMoved(vocab, m, vals, r) && AllMoved(vocab, m[k := v], vals[k := w], r2)
    ensures r2 == r[Numeral(vocab[k]) := w]
  {
    forall j | j in m
      ensures Numeral(vocab[j]) != Numeral(vocab[k])
    {
      NumeralsDistinct(vocab, j, k);
    }
    MovedFrom(vocab, m, k, v, vals, w, r, r2);
    MovedOnto(vocab, m, k, v, vals, w, r, r2);
    MapsAgree(r2, r[Numeral(vocab[k]) := w]);
  }

  lemma MovedFrom(vocab: Vocab, m: map<string, Value>, k: string, v: Value, vals: map<string, Value>, w: Value,
                  r: map<string, Value>, r2: map<string, Value>)
    requires k in vocab && k !in m
    requires forall j :: j in m ==> j in vocab && j in vals && Numeral(vocab[j]) != Numeral(vocab[k])
    requires AllMoved(vocab, m, vals, r) && AllMoved(vocab, m[k := v], vals[k := w], r2)
    ensures forall x :: x in r2 ==> x in r[Numeral(vocab[k]) := w] && r2[x] == r[Numeral(vocab[k]) := w][x]
  {
    var n := m[k := v];
    var nk := Numeral(vocab[k]);
    forall x | x in r2
      ensures x in r[nk := w] && r2[x] == r[nk := w][x]
    {
      var j :| j in n && x == Numeral(vocab[j]);
      if j != k {
        assert j in m && x != nk;
        assert r2[x] == vals[j] == r[x];
      }
    }
  }

  /** Distinct tokens are renamed to distinct numerals. */
  lemma NumeralsDistinct(vocab: Vocab, j: string, k: string)
    requires Injective(vocab)
    requires j in vocab && k in vocab && j != k
    ensures Numeral(vocab[j]) != Numeral(vocab[k])
  {
    if Numeral(vocab[j]) == Numeral(vocab[k]) {
      NumeralInjective(vocab[j], vocab[k]);
    }
  }

  lemma MovedOnto(vocab: Vocab, m: map<string, Value>, k: string, v: Value, vals: map<string, Value>, w: Value,
                  r: map<string, Value>, r2: map<string, Value>)
    requires forall j :: j in m ==> j in vocab && j in vals
    requires k in vocab && k !in m
    requires AllMoved(vocab, m, vals, r) && AllMoved(vocab, m[k := v], vals[k := w], r2)
    ensures forall x :: x in r[Numeral(vocab[k]) := w] ==> x in r2
  {
    var n := m[k := v];
    forall x | x in r[Numeral(vocab[k]) := w]
      ensures x in r2
    {
      if x != Numeral(vocab[k]) {
        var j :| j in m && x == Numeral(vocab[j]);
        assert j in n;
      }
    }
  }

  /** Adding a key outside the vocabulary to an object without vocabulary keys
      adds that key, holding the value the steps leave it with. */
  lemma KeepOne(vocab: Vocab, m: map<string, Value>, k: string, v: Value, b: string)
    requires Words(vocab) && Injective(vocab)
    requires forall j :: j in m ==> j !in vocab
    requires k !in vocab && k !in m
    ensures ObjectPass(vocab, m[k := v], b) == ObjectPass(vocab, m, b)[k := Kept(vocab, k, v, b)]
  {
    var n := m[k := v];
    NoneRenamed(vocab, m, b);
    NoneRenamed(vocab, n, b);
    var r := ObjectPass(vocab, m, b);
    var r2 := ObjectPass(vocab, n, b);
    var target := r[k := Kept(vocab, k, v, b)];
    forall x | x in r2
      ensures x in target && r2[x] == target[x]
    {
    }
    MapsAgree(r2, target);
  }
}
