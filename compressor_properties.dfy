/** What the compressor guarantees: base stripping can be undone, a value that
    mentions no vocabulary entry comes back unchanged, the pruning of the
    top-level array in closed form, and the key renaming of an object pass. */
module CompressorProperties {
  import opened Text
  import opened Catalog
  import opened ConfigValue
  import opened Vocabulary
  import opened Compressor

  // ---------------------------------------------------------------------
  // Base stripping

  /** A base that was normalised once is left alone by the nested calls that
      receive it again. */
  lemma NormalBaseIdempotent(base: string)
    ensures NormalBase(NormalBase(base)) == NormalBase(base)
    ensures base != "" && base[|base| - 1] == '/' ==> NormalBase(base) == base
    ensures base != "" && base[|base| - 1] != '/' ==> NormalBase(base) == base + "/"
  {
  }

  /** Stripping removes exactly the base: putting it back restores the string,
      and a string that does not start with the base is unchanged. */
  lemma StripRestores(s: string, b: string)
    ensures b != "" && StartsWith(s, b) ==> b + Strip(s, b) == s
    ensures !(b != "" && StartsWith(s, b)) ==> Strip(s, b) == s
  {
    if b != "" && StartsWith(s, b) {
      assert s == s[..|b|] + s[|b|..];
    }
  }

  /** The base is removed from the front of a relative path. */
  lemma StripPrefix(b: string, rest: string)
    requires b != ""
    ensures Strip(b + rest, b) == rest
  {
    assert (b + rest)[..|b|] == b;
  }

  /** A bare string node loses the normalised base when it starts with it. */
  lemma CompressString(vocab: Vocab, s: string, base: string, deep: bool)
    requires s != ""
    ensures var r := Compress(vocab, Str(s), base, deep);
      r.Str? &&
      (base != "" && StartsWith(s, NormalBase(base)) ==> NormalBase(base) + r.s == s) &&
      (base == "" || !StartsWith(s, NormalBase(base)) ==> r.s == s)
  {
    StripRestores(s, NormalBase(base));
  }

  // ---------------------------------------------------------------------
  // Values the vocabulary does not touch

  /** No `null`, no vocabulary key, no vocabulary string, and every array with
      a capture slot has a non-empty one. */
  predicate Plain(vocab: Vocab, v: Value)
    decreases v
  {
    match v
    case Null => false
    case Bool(_) => true
    case Num(_) => true
    case Str(s) => s !in vocab
    case Arr(items) =>
      (|items| > 2 ==> Truthy(items[2]) && HasLength(items[2])) &&
      forall i :: 0 <= i < |items| ==> Plain(vocab, items[i])
    case Obj(fm) => forall k :: k in fm ==> k !in vocab && Plain(vocab, fm[k])
  }

  lemma {:induction false} PresentAll(slots: seq<Option<Value>>, items: seq<Value>)
    requires |slots| == |items|
    requires forall i :: 0 <= i < |slots| ==> slots[i] == Some(items[i])
    ensures Present(slots) == items
    decreases |slots|
  {
    if slots != [] {
      var n := |slots| - 1;
      PresentAll(slots[..n], items[..n]);
      assert items == items[..n] + [items[n]];
    }
  }

  lemma SubstitutePlain(vocab: Vocab, d: Value)
    requires Plain(vocab, d)
    ensures Substitute(vocab, d) == d
  {
    match d
    case Arr(items) =>
      var r := seq(|items|, j requires 0 <= j < |items| => SourceToken(vocab, items[j]));
      assert r == items by {
        forall j | 0 <= j < |items|
          ensures r[j] == items[j]
        {
          PlainNotToken(vocab, items[j]);
        }
      }
    case Obj(fm) =>
      var r := map k | k in fm :: SourceToken(vocab, fm[k]);
      assert r == fm by {
        forall k | k in fm
          ensures r[k] == fm[k]
        {
          PlainNotToken(vocab, fm[k]);
        }
      }
    case _ =>
  }

  lemma PlainNotToken(vocab: Vocab, v: Value)
    requires Plain(vocab, v)
    ensures SourceToken(vocab, v) == v
  {
  }

  /** Without a base, a value that mentions no vocabulary entry compresses to
      itself, at any depth. */
  lemma {:induction false} CompressPlain(vocab: Vocab, v: Value, deep: bool)
    requires Plain(vocab, v)
    ensures Compress(vocab, v, "", deep) == v
    decreases Size(v), 2
  {
    match v
    case Arr(items) =>
      forall i | 0 <= i < |items|
        ensures Compress(vocab, items[i], "", true) == items[i]
      {
        ItemSmaller(items, i);
        CompressPlain(vocab, items[i], true);
      }
      PresentAll(Slots(vocab, items, "", deep), items);
    case Obj(fm) =>
      ObjectFromPlain(vocab, fm, Enumerate(fm.Keys), 0);
    case _ =>
  }

  lemma {:induction false} FieldPlain(vocab: Vocab, key: string, d: Value)
    requires key !in vocab && Plain(vocab, d)
    ensures FieldStep(vocab, key, d, "").value == d
    decreases Size(d), 4
  {
    SubstitutePlain(vocab, d);
    if ObjectTyped(d) && key !in VerbatimKeys {
      CompressPlain(vocab, d, false);
    }
  }

  lemma {:induction false} ObjectFromPlain(vocab: Vocab, m: map<string, Value>, ks: seq<string>, i: nat)
    requires forall j :: 0 <= j < |ks| ==> ks[j] in m
    requires forall k :: k in m ==> k !in vocab && Plain(vocab, m[k])
    ensures ObjectFrom(vocab, m, ks, i, m, "") == m
    decreases Size(Obj(m)), 1, |ks| - i
  {
    if i < |ks| {
      FieldSmaller(m, ks[i]);
      FieldPlain(vocab, ks[i], m[ks[i]]);
      StepPlain(vocab, m, ks[i]);
      ObjectFromPlain(vocab, m, ks, i + 1);
    }
  }

  lemma StepPlain(vocab: Vocab, m: map<string, Value>, key: string)
    requires key in m && key !in vocab
    requires FieldStep(vocab, key, m[key], "").value == m[key]
    ensures ObjectStep(vocab, m, m, key, "") == m
  {
  }

  // ---------------------------------------------------------------------
  // Arrays

  /** An array with its capture slot, and every nested array, keeps all its
      elements, each compressed with the base as a deep element. */
  lemma ArrayKept(vocab: Vocab, items: seq<Value>, base: string, deep: bool)
    requires !NoCapture(items, deep)
    ensures var r := Compress(vocab, Arr(items), base, deep);
      r.Arr? && |r.items| == |items| &&
      forall i :: 0 <= i < |items| ==> r.items[i] == Compress(vocab, items[i], NormalBase(base), true)
  {
    var b := NormalBase(base);
    var slots := Slots(vocab, items, b, deep);
    var out := seq(|items|, i requires 0 <= i < |items| => Compress(vocab, items[i], b, true));
    PresentAll(slots, out);
  }

  /** A top-level array whose capture slot is falsy or empty: element 0 is
      compressed, element 1 is compressed and kept only when that leaves it
      truthy with some key, elements 2 and 3 are dropped, and elements 4..
      follow unchanged in their order. */
  lemma ArrayPruned(vocab: Vocab, items: seq<Value>, base: string)
    requires NoCapture(items, false)
    ensures var b := NormalBase(base);
      var c1 := Compress(vocab, items[1], b, true);
      Compress(vocab, Arr(items), base, false) ==
        Arr([Compress(vocab, items[0], b, true)] +
            (if Truthy(c1) && KeyCount(c1) > 0 then [c1] else []) +
            (if |items| > 4 then items[4..] else []))
  {
    var b := NormalBase(base);
    var slots := Slots(vocab, items, b, false);
    CompressArr(vocab, items, base, false);
    PrunedSlots(vocab, items, b);
    PresentPruned(slots, if |items| > 4 then items[4..] else []);
  }

  /** An array compresses to the elements its slots keep. */
  lemma CompressArr(vocab: Vocab, items: seq<Value>, base: string, deep: bool)
    ensures Compress(vocab, Arr(items), base, deep) == Arr(Present(Slots(vocab, items, NormalBase(base), deep)))
  {
  }

  /** The filter over slots shaped like a pruned top-level array. */
  lemma PresentPruned(slots: seq<Option<Value>>, tail: seq<Value>)
    requires |slots| >= 3 && slots[0].Some? && slots[2] == None
    requires |slots| > 3 ==> slots[3] == None
    requires |tail| == if |slots| > 4 then |slots| - 4 else 0
    requires forall j :: 4 <= j < |slots| ==> slots[j] == Some(tail[j - 4])
    ensures Present(slots) == [slots[0].value] + (if slots[1].Some? then [slots[1].value] else []) + tail
  {
    PresentThree(slots[..3]);
    if |slots| == 3 {
      assert slots[..3] == slots;
    } else {
      assert slots[..4][..3] == slots[..3];
      assert Present(slots[..4]) == Present(slots[..3]);
      PresentTail(slots, 4, tail);
    }
  }

  lemma PrunedSlots(vocab: Vocab, items: seq<Value>, b: string)
    requires NoCapture(items, false)
    ensures var slots := Slots(vocab, items, b, false);
      var c1 := Compress(vocab, items[1], b, true);
      slots[0] == Some(Compress(vocab, items[0], b, true)) &&
      slots[1] == (if Truthy(c1) && KeyCount(c1) > 0 then Some(c1) else None) &&
      slots[2] == None && (|items| > 3 ==> slots[3] == None) &&
      forall j :: 4 <= j < |items| ==> slots[j] == Some(items[j])
  {
  }

  lemma PresentThree(x: seq<Option<Value>>)
    requires |x| == 3 && x[0].Some? && x[2] == None
    ensures Present(x) == [x[0].value] + (if x[1].Some? then [x[1].value] else [])
  {
    var two := x[..2];
    var one := two[..1];
    assert one == [x[0]] && one[..0] == [];
    assert Present(one) == [x[0].value];
    assert Present(two) == Present(one) + (if x[1].Some? then [x[1].value] else []);
    assert Present(x) == Present(two);
  }

  /** The slots from `k` on all hold values: the filter appends them in order. */
  lemma {:induction false} PresentTail(slots: seq<Option<Value>>, k: nat, tail: seq<Value>)
    requires k <= |slots| && |tail| == |slots| - k
    requires forall i :: k <= i < |slots| ==> slots[i] == Some(tail[i - k])
    ensures Present(slots) == Present(slots[..k]) + tail
    decreases |slots|
  {
    if |slots| > k {
      var n := |slots| - 1;
      assert slots[..n][..k] == slots[..k];
      PresentTail(slots[..n], k, tail[..|tail| - 1]);
      assert tail == tail[..|tail| - 1] + [tail[|tail| - 1]];
    } else {
      assert slots[..k] == slots;
    }
  }

  // ---------------------------------------------------------------------
  // The rules for one member

  /** A string member outside `source`: `href` and `src` lose the base; a
      vocabulary string becomes its integer unless the key is a literal key;
      any other string is kept. */
  lemma FieldString(vocab: Vocab, key: string, s: string, b: string)
    requires key != "source"
    ensures var f := FieldStep(vocab, key, Str(s), b);
      var s1 := if key in {"href", "src"} then Strip(s, b) else s;
      (key !in LiteralKeys && s1 in vocab ==> f == Field(true, Num(vocab[s1]))) &&
      (key in LiteralKeys || s1 !in vocab ==> f.value == Str(s1))
  {
  }

  /** Booleans and numbers are never assigned. */
  lemma FieldScalar(vocab: Vocab, key: string, d: Value, b: string)
    requires d.Bool? || d.Num?
    ensures FieldStep(vocab, key, d, b) == Field(false, d)
  {
  }

  /** A `source` token is replaced by its index. */
  lemma FieldSourceToken(vocab: Vocab, t: string, b: string)
    requires t in SourceTokens
    ensures FieldStep(vocab, "source", Str(t), b) == Field(true, Index(vocab, t, false))
  {
  }

  /** An array or object member: under `source` its tokens are substituted
      first; unless the key is `proxy` or `attributes` it is then compressed
      without a base, with the presence of a base as the `deep` flag; under
      `proxy` and `attributes` it is kept as it is. */
  lemma FieldNested(vocab: Vocab, key: string, d: Value, b: string)
    requires d.Arr? || d.Obj?
    ensures var d1 := if key == "source" then Substitute(vocab, d) else d;
      FieldStep(vocab, key, d, b) ==
        if key in VerbatimKeys then Field(false, d)
        else Field(true, Compress(vocab, d1, "", b != ""))
  {
  }

  // ---------------------------------------------------------------------
  // `compress` as it is declared

  /** Whether `compress(config, global_base)`, declared without a `deep`
      parameter, reaches a read of the undeclared name `deep` (which throws a
      `ReferenceError`): every array does, since the check after the element
      loop runs even when the array is empty; `null` does, since it is turned
      into an empty array first; an object does when one of its members that
      the deep step recurses into does. */
  predicate ReadsDeep(v: Value)
    decreases v
  {
    match v
    case Null => true
    case Arr(_) => true
    case Obj(fm) => exists k :: k in fm && k !in VerbatimKeys && ObjectTyped(fm[k]) && ReadsDeep(fm[k])
    case _ => false
  }
}
