/** The config compressor of the browser generator: a recursive rewrite of a
    configuration value that shortens base URLs and replaces vocabulary keys
    and values by their integers.  The functions state what each pass
    computes; the methods are the source's loops over a local copy of the
    value, proved against them. */
module Compressor {
  import opened Text
  import opened Catalog
  import opened ConfigValue
  import opened Vocabulary

  /** The values a `source` entry may name, replaced by their integers. */
  const SourceTokens: set<string> := {"xhr", "cors", "cssText"}

  /** Keys whose string values are never replaced by an integer. */
  const LiteralKeys: set<string> := {"href", "src", "match", "proxy", "search", "replace", "attributes"}

  /** Keys whose object values are copied without compressing them. */
  const VerbatimKeys: set<string> := {"proxy", "attributes"}

  /** The global base with the trailing slash the compressor appends; an empty
      (falsy) base stays empty. */
  function NormalBase(base: string): (b: string)
    ensures b == "" <==> base == ""
    ensures b != "" ==> b[|b| - 1] == '/' && StartsWith(b, base) && |b| <= |base| + 1
  {
    if base == "" then ""
    else if base[|base| - 1] == '/' then base
    else base + "/"
  }

  /** `s.replace(b, '')` guarded by `s.indexOf(b) === 0` and a truthy `b`: the
      first occurrence of `b` is then the prefix, and it is removed. */
  function Strip(s: string, b: string): string {
    if b != "" && StartsWith(s, b) then s[|b|..] else s
  }

  /** `index(value)` applied to a `source` token; other values are kept. */
  function SourceToken(vocab: Vocab, v: Value): Value {
    if v.Str? && v.s in SourceTokens then Index(vocab, v.s, false) else v
  }

  /** The `for (_key in data)` loop of a `source` entry that is an object (or an
      array, or `null`, which `typeof` also calls an object). */
  function Substitute(vocab: Vocab, data: Value): (r: Value)
    ensures ObjectTyped(r) <==> ObjectTyped(data)
    ensures Size(r) == Size(data)
  {
    match data
    case Arr(items) =>
      var r := seq(|items|, j requires 0 <= j < |items| => SourceToken(vocab, items[j]));
      ArrSizeLeaves(items, r);
      Arr(r)
    case Obj(fm) =>
      var r := map k | k in fm :: SourceToken(vocab, fm[k]);
      ObjSizeLeaves(fm, r);
      Obj(r)
    case _ => data
  }

  /** The value a key ends up with, and whether the compressor assigned it to
      `config[key]` (when it does not, an unrenamed key keeps its old value). */
  datatype Field = Field(stored: bool, value: Value)

  /** Base stripping of an `href` or `src` string; the result is only kept
      when a later step stores it. */
  function StripStep(key: string, data: Value, b: string): (r: Value)
    ensures Size(r) == Size(data) && ObjectTyped(r) == ObjectTyped(data)
  {
    if key in {"href", "src"} && data.Str? && b != "" then Str(Strip(data.s, b)) else data
  }

  /** The `source` substitution: a token string becomes its integer, an
      object-typed value has its members substituted; both are stored. */
  function SourceStep(vocab: Vocab, key: string, d: Value): (f: Field)
    ensures Size(f.value) == Size(d) && ObjectTyped(f.value) == ObjectTyped(d)
  {
    if key != "source" then Field(false, d)
    else if d.Str? && d.s in SourceTokens then Field(true, Index(vocab, d.s, false))
    else if ObjectTyped(d) then Field(true, Substitute(vocab, d))
    else Field(false, d)
  }

  /** Recursion into an object-typed value outside `proxy` and `attributes`:
      no base, and the base as the `deep` flag. */
  function DeepStep(vocab: Vocab, key: string, d: Value, b: string): (f: Field)
    decreases Size(d), 3
  {
    if ObjectTyped(d) && key !in VerbatimKeys then Field(true, Compress(vocab, d, "", b != ""))
    else Field(false, d)
  }

  /** A vocabulary string outside the literal keys becomes its integer. */
  function TokenStep(vocab: Vocab, key: string, d: Value): (f: Field) {
    if d.Str? && d.s in vocab && key !in LiteralKeys then Field(true, Num(vocab[d.s]))
    else Field(false, d)
  }

  /** The steps applied to one member `key: data` of an object, in order. */
  function FieldStep(vocab: Vocab, key: string, data: Value, b: string): (f: Field)
    decreases Size(data), 4
  {
    var f2 := SourceStep(vocab, key, StripStep(key, data, b));
    var f3 := DeepStep(vocab, key, f2.value, b);
    var f4 := TokenStep(vocab, key, f3.value);
    Field(f2.stored || f3.stored || f4.stored, f4.value)
  }

  /** One iteration of the `for (var key in config)` loop: a vocabulary key is
      moved to its integer's numeral, any other key is overwritten when the
      steps assigned it. */
  function ObjectStep(vocab: Vocab, m: map<string, Value>, cfg: map<string, Value>, key: string, b: string): map<string, Value>
    requires key in m
    decreases Size(m[key]), 5
  {
    var f := FieldStep(vocab, key, m[key], b);
    if key in vocab then cfg[Numeral(vocab[key]) := f.value] - {key}
    else if f.stored then cfg[key := f.value]
    else cfg
  }

  /** The object loop over the keys `ks[i..]`, each member read as the object
      held it when the loop began. */
  function ObjectFrom(vocab: Vocab, m: map<string, Value>, ks: seq<string>, i: nat, cfg: map<string, Value>, b: string): map<string, Value>
    requires forall j :: 0 <= j < |ks| ==> ks[j] in m
    decreases Size(Obj(m)), 1, |ks| - i
  {
    if i >= |ks| then cfg
    else
      FieldSmaller(m, ks[i]);
      ObjectFrom(vocab, m, ks, i + 1, ObjectStep(vocab, m, cfg, ks[i], b), b)
  }

  /** The object pass: all keys, in the visiting order. */
  function ObjectPass(vocab: Vocab, m: map<string, Value>, b: string): map<string, Value>
    decreases Size(Obj(m)), 1, |m.Keys| + 1
  {
    ObjectFrom(vocab, m, Enumerate(m.Keys), 0, m, b)
  }

  /** `config[i].length` is truthy. */
  predicate HasLength(v: Value) {
    match v
    case Str(s) => |s| > 0
    case Arr(items) => |items| > 0
    case Obj(fm) => "length" in fm && Truthy(fm["length"])
    case _ => false
  }

  /** `Object.keys(v).length`. */
  function KeyCount(v: Value): nat {
    match v
    case Str(s) => |s|
    case Arr(items) => |items|
    case Obj(fm) => |fm.Keys|
    case _ => 0
  }

  /** A top-level array whose capture slot (element 2) is falsy or empty. */
  predicate NoCapture(items: seq<Value>, deep: bool) {
    !deep && |items| > 2 && (!Truthy(items[2]) || !HasLength(items[2]))
  }

  /** The array after the element loop and the slot-1 check: `None` marks a
      deleted element.  Without a capture slot, elements 2 and 3 are deleted,
      the loop breaks so elements 4.. stay as they were, and element 1 is
      deleted when its compressed form is falsy or has no keys. */
  function Slots(vocab: Vocab, items: seq<Value>, b: string, deep: bool): (r: seq<Option<Value>>)
    ensures |r| == |items|
    decreases Size(Arr(items)), 1
  {
    if !NoCapture(items, deep) then
      seq(|items|, j requires 0 <= j < |items| => ItemSmaller(items, j); Some(Compress(vocab, items[j], b, true)))
    else
      ItemSmaller(items, 0);
      ItemSmaller(items, 1);
      var c0 := Compress(vocab, items[0], b, true);
      var c1 := Compress(vocab, items[1], b, true);
      seq(|items|, j requires 0 <= j < |items| =>
        if j == 0 then Some(c0)
        else if j == 1 then (if Truthy(c1) && KeyCount(c1) > 0 then Some(c1) else None)
        else if j <= 3 then None
        else Some(items[j]))
  }

  /** `filter(value => value !== undefined)`: the elements that were not deleted. */
  function Present(slots: seq<Option<Value>>): (r: seq<Value>)
    ensures |r| <= |slots|
  {
    if slots == [] then []
    else Present(slots[..|slots| - 1]) + if slots[|slots| - 1].Some? then [slots[|slots| - 1].value] else []
  }

  /** `compress(config, global_base, deep)`. */
  function Compress(vocab: Vocab, v: Value, base: string, deep: bool): (r: Value)
    ensures v.Null? ==> r == Arr([])
    ensures !v.Null? && !Truthy(v) ==> r == v
    ensures v.Arr? ==> r.Arr?
    ensures v.Obj? ==> r.Obj?
    ensures v.Str? ==> r.Str?
    ensures v.Bool? || v.Num? ==> r == v
    decreases Size(v), 2
  {
    if v.Null? then Arr([])
    else if !Truthy(v) then v
    else
      var b := NormalBase(base);
      match v
      case Arr(items) => Arr(Present(Slots(vocab, items, b, deep)))
      case Obj(m) => Obj(ObjectPass(vocab, m, b))
      case Str(s) => Str(Strip(s, b))
      case _ => v
  }

  /** The exported `compress(config, js_config, global_base)`: its second
      argument lands in the `global_base` slot and its third in the `deep`
      slot.  An absent argument is the empty string. */
  function CompressConfig(vocab: Vocab, config: Value, jsConfig: string, globalBase: string): Value {
    Compress(vocab, config, jsConfig, globalBase != "")
  }

  /** The `source` loop over an array's elements. */
  method SubstituteItems(vocab: Vocab, items: seq<Value>) returns (r: Value)
    ensures r == Substitute(vocab, Arr(items))
  {
    var out := items;
    for j := 0 to |items|
      invariant |out| == |items|
      invariant forall p :: 0 <= p < j ==> out[p] == SourceToken(vocab, items[p])
      invariant forall p :: j <= p < |items| ==> out[p] == items[p]
    {
      if out[j].Str? && out[j].s in SourceTokens {
        out := out[j := Index(vocab, out[j].s, false)];
      }
    }
    r := Arr(out);
  }

  /** The `source` loop over an object's members. */
  method SubstituteFields(vocab: Vocab, fm: map<string, Value>) returns (r: Value)
    ensures r == Substitute(vocab, Obj(fm))
  {
    var ks := Enumerate(fm.Keys);
    var out := fm;
    for j := 0 to |ks|
      invariant out.Keys == fm.Keys
      invariant forall k :: k in fm ==> out[k] == if k in ks[..j] then SourceToken(vocab, fm[k]) else fm[k]
    {
      var key := ks[j];
      ghost var before := out;
      if out[key].Str? && out[key].s in SourceTokens {
        out := out[key := Index(vocab, out[key].s, false)];
      }
      FieldsNext(vocab, fm, ks, j, before, out);
    }
    assert ks[..|ks|] == ks;
    SubstitutedFields(vocab, fm, out);
    r := Obj(out);
  }

  /** One iteration of the `source` loop over an object: the member `ks[j]` is
      substituted and no other member changes. */
  lemma FieldsNext(vocab: Vocab, fm: map<string, Value>, ks: seq<string>, j: nat, before: map<string, Value>, out: map<string, Value>)
    requires j < |ks| && ks[j] in fm && before.Keys == fm.Keys
    requires forall p, q :: 0 <= p < q < |ks| ==> ks[p] != ks[q]
    requires forall k :: k in fm ==> before[k] == if k in ks[..j] then SourceToken(vocab, fm[k]) else fm[k]
    requires var key := ks[j];
      out == if before[key].Str? && before[key].s in SourceTokens then before[key := Index(vocab, before[key].s, false)] else before
    ensures out.Keys == fm.Keys
    ensures forall k :: k in fm ==> out[k] == if k in ks[..j + 1] then SourceToken(vocab, fm[k]) else fm[k]
  {
    assert ks[..j + 1] == ks[..j] + [ks[j]];
    assert ks[j] !in ks[..j];
  }

  lemma SubstitutedFields(vocab: Vocab, fm: map<string, Value>, out: map<string, Value>)
    requires out.Keys == fm.Keys
    requires forall k :: k in fm ==> out[k] == SourceToken(vocab, fm[k])
    ensures Obj(out) == Substitute(vocab, Obj(fm))
  {
    var expected := map k | k in fm :: SourceToken(vocab, fm[k]);
    assert out == expected;
  }

  /** `compress`, with the loops of the source. */
  method CompressValue(vocab: Vocab, v: Value, base: string, deep: bool) returns (r: Value)
    ensures r == Compress(vocab, v, base, deep)
    decreases Size(v), 2
  {
    var config := v;
    if config.Null? {
      config := Arr([]);
    }
    if !Truthy(config) {
      return config;
    }
    var b := base;
    if b != "" && b[|b| - 1] != '/' {
      b := b + "/";
    }
    if config.Arr? {
      r := CompressArray(vocab, config.items, b, deep);
    } else if config.Obj? {
      var fields := CompressObject(vocab, config.fields, b);
      r := Obj(fields);
    } else if config.Str? && b != "" {
      if StartsWith(config.s, b) {
        r := Str(config.s[|b|..]);
      } else {
        r := config;
      }
    } else {
      r := config;
    }
  }

  /** The array branch of `compress`: the element loop, the slot-1 check and
      the filter. */
  method CompressArray(vocab: Vocab, items: seq<Value>, b: string, deep: bool) returns (r: Value)
    ensures r == Arr(Present(Slots(vocab, items, b, deep)))
    decreases Size(Arr(items)), 1
  {
    var config := ElementLoop(vocab, items, b, deep);
    var kept: seq<Value> := [];
    for j := 0 to |config|
      invariant kept == Present(config[..j])
    {
      assert config[..j + 1][..j] == config[..j];
      if config[j].Some? {
        kept := kept + [config[j].value];
      }
    }
    assert config[..|config|] == config;
    r := Arr(kept);
  }

  /** The element loop with its `nocapture` flag, then the slot-1 check; a
      deleted element is `None`. */
  method ElementLoop(vocab: Vocab, items: seq<Value>, b: string, deep: bool) returns (config: seq<Option<Value>>)
    ensures config == Slots(vocab, items, b, deep)
    decreases Size(Arr(items)), 0
  {
    config := seq(|items|, j requires 0 <= j < |items| => Some(items[j]));
    var nocapture := false;
    var i := 0;
    while i < |items|
      invariant 0 <= i <= |items| && |config| == |items|
      invariant nocapture <==> NoCapture(items, deep) && i > 2
      invariant NoCapture(items, deep) ==> i <= 3
      invariant forall j :: i <= j < |items| ==> config[j] == Some(items[j])
      invariant forall j :: 0 <= j < i && j != 2 ==> config[j] == Some(Compress(vocab, items[j], b, true))
      invariant 2 < i ==> config[2] == if NoCapture(items, deep) then None else Some(Compress(vocab, items[2], b, true))
    {
      if !deep && i == 2 && (!Truthy(config[i].value) || !HasLength(config[i].value)) {
        config := config[i := None];
        nocapture := true;
      } else if !deep && i == 3 && nocapture {
        config := config[i := None];
        break;
      } else {
        ItemSmaller(items, i);
        var c := CompressValue(vocab, config[i].value, b, true);
        config := config[i := Some(c)];
      }
      i := i + 1;
    }
    if !deep && nocapture {
      var c1 := config[1].value;
      if !Truthy(c1) || KeyCount(c1) == 0 {
        config := config[1 := None];
      }
      SlotsNoCapture(vocab, items, b, deep, config);
    } else {
      SlotsKept(vocab, items, b, deep, config);
    }
  }

  lemma SlotsKept(vocab: Vocab, items: seq<Value>, b: string, deep: bool, config: seq<Option<Value>>)
    requires !NoCapture(items, deep) && |config| == |items|
    requires forall j :: 0 <= j < |items| ==> config[j] == Some(Compress(vocab, items[j], b, true))
    ensures config == Slots(vocab, items, b, deep)
  {
  }

  lemma SlotsNoCapture(vocab: Vocab, items: seq<Value>, b: string, deep: bool, config: seq<Option<Value>>)
    requires NoCapture(items, deep) && |config| == |items|
    requires config[0] == Some(Compress(vocab, items[0], b, true))
    requires var c1 := Compress(vocab, items[1], b, true);
      config[1] == if Truthy(c1) && KeyCount(c1) > 0 then Some(c1) else None
    requires config[2] == None && (|items| > 3 ==> config[3] == None)
    requires forall j :: 4 <= j < |items| ==> config[j] == Some(items[j])
    ensures config == Slots(vocab, items, b, deep)
  {
  }

  /** The object branch of `compress`: the `for (var key in config)` loop. */
  method CompressObject(vocab: Vocab, m: map<string, Value>, b: string) returns (r: map<string, Value>)
    ensures r == ObjectPass(vocab, m, b)
    decreases Size(Obj(m)), 1
  {
    var keys := Enumerate(m.Keys);
    var config := m;
    for i := 0 to |keys|
      invariant ObjectFrom(vocab, m, keys, i, config, b) == ObjectPass(vocab, m, b)
    {
      var key := keys[i];
      FieldSmaller(m, key);
      config := VisitKey(vocab, m, config, key, b);
    }
    r := config;
  }

  /** The body of the object loop for one key: the steps, then a vocabulary
      key is moved to its integer's numeral. */
  method VisitKey(vocab: Vocab, m: map<string, Value>, config0: map<string, Value>, key: string, b: string) returns (config: map<string, Value>)
    requires key in m
    ensures config == ObjectStep(vocab, m, config0, key, b)
    decreases Size(m[key]), 5
  {
    var data;
    ghost var stored;
    data, config, stored := MemberSteps(vocab, m, config0, key, b);
    if key in vocab {
      ghost var written := config;
      config := config[Numeral(vocab[key]) := data];
      config := config - {key};
      MoveOverwritten(config0, written, key, Numeral(vocab[key]), data, stored);
    }
  }

  /** The steps for the member `key`, each step that assigns `config[key]`
      followed by the store. */
  method MemberSteps(vocab: Vocab, m: map<string, Value>, config0: map<string, Value>, key: string, b: string)
    returns (data: Value, config: map<string, Value>, ghost stored: bool)
    requires key in m
    ensures Field(stored, data) == FieldStep(vocab, key, m[key], b)
    ensures config == if stored then config0[key := data] else config0
    decreases Size(m[key]), 4
  {
    // compress base href
    var d0 := StripEntry(key, m[key], b);
    // cache source array
    var d1, s1 := SourceEntry(vocab, key, d0);
    config := config0;
    if s1 {
      config := config[key := d1];
    }
    // deep array
    var d2, s2 := DeepEntry(vocab, key, d1, b);
    if s2 {
      config := config[key := d2];
    }
    // data
    var d3, s3 := TokenEntry(vocab, key, d2);
    if s3 {
      config := config[key := d3];
    }
    data, stored := d3, s1 || s2 || s3;
    StoreChain(config0, key, d1, s1, d2, s2, d3, s3);
  }

  /** Three conditional stores to the same key leave the last value stored,
      when a step that does not store keeps the value it was given. */
  lemma StoreChain(c0: map<string, Value>, key: string, d1: Value, s1: bool, d2: Value, s2: bool, d3: Value, s3: bool)
    requires (!s2 ==> d2 == d1) && (!s3 ==> d3 == d2)
    ensures var c1 := if s1 then c0[key := d1] else c0;
      var c2 := if s2 then c1[key := d2] else c1;
      var c3 := if s3 then c2[key := d3] else c2;
      c3 == if s1 || s2 || s3 then c0[key := d3] else c0
  {
  }

  /** The `href`/`src` block: strip the base from a string that starts with it. */
  method StripEntry(key: string, d: Value, b: string) returns (data: Value)
    ensures data == StripStep(key, d, b)
  {
    data := d;
    if key in {"href", "src"} && d.Str? && b != "" {
      if StartsWith(d.s, b) {
        data := Str(d.s[|b|..]);
      }
    }
  }

  /** The `source` block: whether it assigns `config[key]`, and the value. */
  method SourceEntry(vocab: Vocab, key: string, d: Value) returns (data: Value, stored: bool)
    ensures Field(stored, data) == SourceStep(vocab, key, d)
  {
    data, stored := d, false;
    if key == "source" {
      if d.Str? && d.s in SourceTokens {
        data, stored := Index(vocab, d.s, false), true;
      } else if d.Arr? {
        data := SubstituteItems(vocab, d.items);
        stored := true;
      } else if d.Obj? {
        data := SubstituteFields(vocab, d.fields);
        stored := true;
      } else if d.Null? {
        stored := true;
      }
    }
  }

  /** The `deep array` block. */
  method DeepEntry(vocab: Vocab, key: string, d: Value, b: string) returns (data: Value, stored: bool)
    ensures Field(stored, data) == DeepStep(vocab, key, d, b)
    decreases Size(d), 3
  {
    data, stored := d, false;
    if ObjectTyped(d) && key !in VerbatimKeys {
      data := CompressValue(vocab, d, "", b != "");
      stored := true;
    }
  }

  /** The `data` block. */
  method TokenEntry(vocab: Vocab, key: string, d: Value) returns (data: Value, stored: bool)
    ensures Field(stored, data) == TokenStep(vocab, key, d)
  {
    data, stored := d, false;
    if d.Str? && d.s in vocab && key !in LiteralKeys {
      data, stored := Num(vocab[d.s]), true;
    }
  }

  /** Renaming a key makes any earlier assignment to it irrelevant. */
  lemma MoveOverwritten(c0: map<string, Value>, c1: map<string, Value>, key: string, target: string, v: Value, stored: bool)
    requires c1 == if stored then c0[key := v] else c0
    ensures c1[target := v] - {key} == c0[target := v] - {key}
  {
  }
}
