/** The vocabulary index: grouped tokens flattened into a token -> integer map
    with one running counter, and the `index` lookup the compressor uses. */
module Vocabulary {
  import opened ConfigValue

  /** What `load_index` builds: each token's integer. */
  type Vocab = map<string, nat>

  /** The tokens of all groups: the groups in declaration order, each group's
      tokens in array order. */
  function Flatten(groups: seq<seq<string>>): (ts: seq<string>)
    decreases |groups|
  {
    if groups == [] then [] else Flatten(groups[..|groups| - 1]) + groups[|groups| - 1]
  }

  /** Every token mapped to its position in `ts`; assigning in order, a repeated
      token is left with its later position. */
  function Numbered(ts: seq<string>): Vocab
    decreases |ts|
  {
    if ts == [] then map[] else Numbered(ts[..|ts| - 1])[ts[|ts| - 1] := |ts| - 1]
  }

  /** `load_index` once the vocabulary file is parsed: the nested loop over the
      groups and their tokens, with the running counter `_i`. */
  method LoadIndex(groups: seq<seq<string>>) returns (index: Vocab)
    ensures index == Numbered(Flatten(groups))
  {
    index := map[];
    var counter := 0;
    for g := 0 to |groups|
      invariant counter == |Flatten(groups[..g])|
      invariant index == Numbered(Flatten(groups[..g]))
    {
      assert groups[..g + 1][..g] == groups[..g];
      ghost var before := Flatten(groups[..g]);
      assert before + groups[g][..0] == before;
      for i := 0 to |groups[g]|
        invariant counter == |before| + i
        invariant index == Numbered(before + groups[g][..i])
      {
        ghost var ts := before + groups[g][..i + 1];
        assert ts[..|ts| - 1] == before + groups[g][..i];
        index := index[groups[g][i] := counter];
        counter := counter + 1;
      }
      assert groups[g][..|groups[g]|] == groups[g];
      FlattenStep(groups, g);
    }
    assert groups[..|groups|] == groups;
  }

  /** A token is in the index exactly when some group lists it. */
  lemma {:induction false} NumberedKeys(ts: seq<string>, k: string)
    ensures k in Numbered(ts) <==> k in ts
    decreases |ts|
  {
    if ts != [] {
      NumberedKeys(ts[..|ts| - 1], k);
      assert ts == ts[..|ts| - 1] + [ts[|ts| - 1]];
    }
  }

  /** A token's integer is the last position at which it is listed. */
  lemma {:induction false} NumberedLast(ts: seq<string>, k: string)
    requires k in ts
    ensures k in Numbered(ts)
    ensures Numbered(ts)[k] < |ts| && ts[Numbered(ts)[k]] == k
    ensures forall j :: Numbered(ts)[k] < j < |ts| ==> ts[j] != k
    decreases |ts|
  {
    var init := ts[..|ts| - 1];
    assert ts == init + [ts[|ts| - 1]];
    if ts[|ts| - 1] != k {
      assert k in init;
      NumberedLast(init, k);
    }
  }

  /** Distinct tokens receive distinct integers. */
  lemma NumberedInjective(ts: seq<string>, a: string, b: string)
    requires a in Numbered(ts) && b in Numbered(ts) && a != b
    ensures Numbered(ts)[a] != Numbered(ts)[b]
  {
    NumberedKeys(ts, a);
    NumberedKeys(ts, b);
    NumberedLast(ts, a);
    NumberedLast(ts, b);
  }

  /** The counter's value when group `g` starts. */
  function Offset(groups: seq<seq<string>>, g: nat): nat
    requires g <= |groups|
  {
    |Flatten(groups[..g])|
  }

  lemma FlattenStep(groups: seq<seq<string>>, g: nat)
    requires g < |groups|
    ensures Flatten(groups[..g + 1]) == Flatten(groups[..g]) + groups[g]
  {
    assert groups[..g + 1][..g] == groups[..g];
  }

  /** The tokens of the first `g` groups begin the flattened list. */
  lemma {:induction false} FlattenPrefix(groups: seq<seq<string>>, g: nat)
    requires g <= |groups|
    ensures |Flatten(groups[..g])| <= |Flatten(groups)|
    ensures Flatten(groups)[..|Flatten(groups[..g])|] == Flatten(groups[..g])
    decreases |groups| - g
  {
    if g == |groups| {
      assert groups[..g] == groups;
    } else {
      FlattenPrefix(groups, g + 1);
      FlattenStep(groups, g);
      var a := Flatten(groups[..g]);
      var b := Flatten(groups[..g + 1]);
      assert b[..|a|] == a;
      assert Flatten(groups)[..|a|] == Flatten(groups)[..|b|][..|a|];
    }
  }

  /** Token `i` of group `g` sits at the running count `Offset(groups, g) + i`. */
  lemma FlattenAt(groups: seq<seq<string>>, g: nat, i: nat)
    requires g < |groups| && i < |groups[g]|
    ensures Offset(groups, g) + i < |Flatten(groups)|
    ensures Flatten(groups)[Offset(groups, g) + i] == groups[g][i]
  {
    FlattenStep(groups, g);
    FlattenPrefix(groups, g + 1);
    var b := Flatten(groups[..g + 1]);
    assert b[Offset(groups, g) + i] == groups[g][i];
    assert Flatten(groups)[..|b|][Offset(groups, g) + i] == groups[g][i];
  }

  /** When no token is listed twice, token `i` of group `g` gets the running
      count of the tokens before it. */
  lemma RunningCount(groups: seq<seq<string>>, g: nat, i: nat)
    requires g < |groups| && i < |groups[g]|
    requires forall p, q :: 0 <= p < q < |Flatten(groups)| ==> Flatten(groups)[p] != Flatten(groups)[q]
    ensures groups[g][i] in Numbered(Flatten(groups))
    ensures Numbered(Flatten(groups))[groups[g][i]] == Offset(groups, g) + i
  {
    var ts := Flatten(groups);
    FlattenAt(groups, g, i);
    NumberedLast(ts, groups[g][i]);
  }

  /** `index(key, exists)`: the key's integer, else `false` when `exists` is set,
      else the key itself. */
  function Index(vocab: Vocab, key: string, mustExist: bool): Value {
    if key in vocab then Num(vocab[key])
    else if mustExist then Bool(false)
    else Str(key)
  }

  /** `index` over the loaded vocabulary: a listed token yields the last
      position at which the groups list it; any other key yields `false` when
      `exists` is set and the key itself otherwise. */
  lemma IndexLoaded(groups: seq<seq<string>>, key: string, mustExist: bool)
    ensures key in Flatten(groups) ==>
      var r := Index(Numbered(Flatten(groups)), key, mustExist);
      r.Num? && 0 <= r.n < |Flatten(groups)| && Flatten(groups)[r.n] == key &&
      forall j :: r.n < j < |Flatten(groups)| ==> Flatten(groups)[j] != key
    ensures key !in Flatten(groups) ==>
      Index(Numbered(Flatten(groups)), key, mustExist) == if mustExist then Bool(false) else Str(key)
  {
    NumberedKeys(Flatten(groups), key);
    if key in Flatten(groups) {
      NumberedLast(Flatten(groups), key);
    }
  }
}
