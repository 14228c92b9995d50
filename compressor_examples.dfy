/** The compressor on the configurations of the package's own test suite, over
    the fragment of the vocabulary those tests show. */
module CompressorExamples {
  import opened Text
  import opened ConfigValue
  import opened Vocabulary
  import opened Compressor
  import opened CompressorProperties
  import opened Renaming

  /** The tokens the tests use, with the integers their expected output shows. */
  const Sample: Vocab := map[
    "type" := 2, "href" := 4, "src" := 5, "attributes" := 14, "dependencies" := 15,
    "ref" := 16, "load_timing" := 48, "requestAnimationFrame" := 52,
    "requestIdleCallback" := 53, "domReady" := 54, "frame" := 56,
    "exec_timing" := 60, "lazy" := 62, "config" := 89]

  const Base: string := "https://domain.com/"

  /** What the tests rely on: the integers their expected output shows for
      the tokens they use, and that the other strings they compress under a
      non-literal key are no tokens.  The examples below hold for every
      vocabulary of this shape, whatever else it lists. */
  predicate TestVocabulary(vocab: Vocab) {
    Words(vocab) && Injective(vocab) &&
    "type" in vocab && vocab["type"] == 2 &&
    "href" in vocab && vocab["href"] == 4 &&
    "src" in vocab && vocab["src"] == 5 &&
    "attributes" in vocab && vocab["attributes"] == 14 &&
    "dependencies" in vocab && vocab["dependencies"] == 15 &&
    "ref" in vocab && vocab["ref"] == 16 &&
    "load_timing" in vocab && vocab["load_timing"] == 48 &&
    "requestAnimationFrame" in vocab && vocab["requestAnimationFrame"] == 52 &&
    "requestIdleCallback" in vocab && vocab["requestIdleCallback"] == 53 &&
    "domReady" in vocab && vocab["domReady"] == 54 &&
    "frame" in vocab && vocab["frame"] == 56 &&
    "exec_timing" in vocab && vocab["exec_timing"] == 60 &&
    "lazy" in vocab && vocab["lazy"] == 62 &&
    "config" in vocab && vocab["config"] == 89 &&
    ".element-in-view" !in vocab && "dep" !in vocab
  }

  lemma SampleFits()
    ensures TestVocabulary(Sample)
  {
    SampleWords();
    SampleInjective();
    SampleEntries();
    SampleLater();
    SampleAbsent();
  }

  lemma SampleWords()
    ensures Words(Sample)
  {
  }

  lemma SampleInjective()
    ensures Injective(Sample)
  {
  }

  lemma SampleEntries()
    ensures "type" in Sample && Sample["type"] == 2
    ensures "href" in Sample && Sample["href"] == 4
    ensures "src" in Sample && Sample["src"] == 5
    ensures "attributes" in Sample && Sample["attributes"] == 14
    ensures "dependencies" in Sample && Sample["dependencies"] == 15
    ensures "ref" in Sample && Sample["ref"] == 16
    ensures "load_timing" in Sample && Sample["load_timing"] == 48
  {
  }

  lemma SampleLater()
    ensures "requestAnimationFrame" in Sample && Sample["requestAnimationFrame"] == 52
    ensures "requestIdleCallback" in Sample && Sample["requestIdleCallback"] == 53
    ensures "domReady" in Sample && Sample["domReady"] == 54
    ensures "frame" in Sample && Sample["frame"] == 56
    ensures "exec_timing" in Sample && Sample["exec_timing"] == 60
    ensures "lazy" in Sample && Sample["lazy"] == 62
    ensures "config" in Sample && Sample["config"] == 89
  {
  }

  lemma SampleAbsent()
    ensures ".element-in-view" !in Sample && "dep" !in Sample
  {
  }

  lemma SampleNumerals()
    ensures Numeral(2) == "2" && Numeral(4) == "4" && Numeral(5) == "5"
    ensures Numeral(14) == "14" && Numeral(15) == "15" && Numeral(16) == "16"
    ensures Numeral(48) == "48" && Numeral(56) == "56" && Numeral(60) == "60" && Numeral(89) == "89"
  {
  }

  lemma StripBase(rest: string)
    ensures Strip(Base + rest, Base) == rest
  {
    StripPrefix(Base, rest);
  }

  // ---------------------------------------------------------------------
  // One member at a time

  /** A token under a key that is neither literal nor stripped becomes its
      integer. */
  lemma TokenMember(vocab: Vocab, key: string, s: string, b: string)
    requires key != "source" && key !in LiteralKeys && s in vocab
    ensures FieldStep(vocab, key, Str(s), b).value == Num(vocab[s])
  {
    FieldString(vocab, key, s, b);
  }

  /** A string that is no token, under a key that is not stripped, is kept. */
  lemma PlainMember(vocab: Vocab, key: string, s: string, b: string)
    requires key != "source" && key !in {"href", "src"} && s !in vocab
    ensures FieldStep(vocab, key, Str(s), b).value == Str(s)
  {
    FieldString(vocab, key, s, b);
  }

  /** An `href` or `src` below the base loses it and is kept as a string. */
  lemma PathMember(vocab: Vocab, key: string, rest: string)
    requires key in {"href", "src"}
    ensures FieldStep(vocab, key, Str(Base + rest), Base).value == Str(rest)
  {
    StripBase(rest);
    FieldString(vocab, key, Base + rest, Base);
  }

  /** An `href` or `src` that does not start with the base is kept. */
  lemma OtherPathMember(vocab: Vocab, key: string, s: string, b: string)
    requires key in {"href", "src"} && (b == "" || !StartsWith(s, b))
    ensures FieldStep(vocab, key, Str(s), b).value == Str(s)
  {
    FieldString(vocab, key, s, b);
  }

  /** A nested object outside `source`, `proxy` and `attributes`. */
  lemma NestedMember(vocab: Vocab, key: string, d: Value, b: string)
    requires d.Obj? && key != "source" && key !in VerbatimKeys
    ensures FieldStep(vocab, key, d, b).value == Compress(vocab, d, "", b != "")
  {
    FieldNested(vocab, key, d, b);
  }

  /** A nested object under `proxy` or `attributes` is kept as it is. */
  lemma VerbatimMember(vocab: Vocab, key: string, d: Value, b: string)
    requires d.Obj? && key in VerbatimKeys
    ensures FieldStep(vocab, key, d, b).value == d
  {
    FieldNested(vocab, key, d, b);
  }

  // ---------------------------------------------------------------------
  // Objects of vocabulary keys, one key at a time

  lemma OneRenamed(vocab: Vocab, k1: string, v1: Value, b: string)
    requires Words(vocab) && Injective(vocab) && k1 in vocab
    ensures ObjectPass(vocab, map[k1 := v1], b) ==
      map[Numeral(vocab[k1]) := FieldStep(vocab, k1, v1, b).value]
  {
    EmptyPass(vocab, b);
    RenameOne(vocab, map[], k1, v1, b);
  }

  lemma TwoRenamed(vocab: Vocab, k1: string, v1: Value, k2: string, v2: Value, b: string)
    requires Words(vocab) && Injective(vocab)
    requires k1 in vocab && k2 in vocab && k1 != k2
    ensures ObjectPass(vocab, map[k1 := v1, k2 := v2], b) ==
      map[Numeral(vocab[k1]) := FieldStep(vocab, k1, v1, b).value,
          Numeral(vocab[k2]) := FieldStep(vocab, k2, v2, b).value]
  {
    OneRenamed(vocab, k1, v1, b);
    RenameOne(vocab, map[k1 := v1], k2, v2, b);
  }

  lemma ThreeRenamed(vocab: Vocab, k1: string, v1: Value, k2: string, v2: Value, k3: string, v3: Value, b: string)
    requires Words(vocab) && Injective(vocab)
    requires k1 in vocab && k2 in vocab && k3 in vocab
    requires k1 != k2 && k1 != k3 && k2 != k3
    ensures ObjectPass(vocab, map[k1 := v1, k2 := v2, k3 := v3], b) ==
      map[Numeral(vocab[k1]) := FieldStep(vocab, k1, v1, b).value,
          Numeral(vocab[k2]) := FieldStep(vocab, k2, v2, b).value,
          Numeral(vocab[k3]) := FieldStep(vocab, k3, v3, b).value]
  {
    TwoRenamed(vocab, k1, v1, k2, v2, b);
    RenameOne(vocab, map[k1 := v1, k2 := v2], k3, v3, b);
  }

  // ---------------------------------------------------------------------
  // The test objects

  /** `{"href": "test.css"}` compresses to `{"4": "test.css"}`. */
  lemma SimpleHref(vocab: Vocab)
    requires TestVocabulary(vocab)
    ensures CompressConfig(vocab, Obj(map["href" := Str("test.css")]), "", "") ==
      Obj(map["4" := Str("test.css")])
  {
    SimpleHrefPass(vocab);
    ObjectCompressed(vocab, map["href" := Str("test.css")], "", false);
  }

  lemma SimpleHrefPass(vocab: Vocab)
    requires TestVocabulary(vocab)
    ensures ObjectPass(vocab, map["href" := Str("test.css")], "") == map["4" := Str("test.css")]
  {
    SimpleHrefShape(vocab);
    OtherPathMember(vocab, "href", "test.css", "");
  }

  lemma SimpleHrefShape(vocab: Vocab)
    requires TestVocabulary(vocab)
    ensures ObjectPass(vocab, map["href" := Str("test.css")], "") ==
      map["4" := FieldStep(vocab, "href", Str("test.css"), "").value]
  {
    SampleNumerals();
    OneRenamed(vocab, "href", Str("test.css"), "");
  }

  /** The `exec_timing` object of the tests. */
  const LazyTiming: Value := Obj(map["type" := Str("lazy"), "config" := Str(".element-in-view")])

  const LazyTimingOut: Value := Obj(map["2" := Num(62), "89" := Str(".element-in-view")])

  lemma LazyTimingShape(vocab: Vocab)
    requires TestVocabulary(vocab)
    ensures ObjectPass(vocab, LazyTiming.fields, "") ==
      map["2" := FieldStep(vocab, "type", Str("lazy"), "").value,
          "89" := FieldStep(vocab, "config", Str(".element-in-view"), "").value]
  {
    SampleNumerals();
    TwoRenamed(vocab, "type", Str("lazy"), "config", Str(".element-in-view"), "");
  }

  lemma LazyTimingMembers(vocab: Vocab)
    requires TestVocabulary(vocab)
    ensures FieldStep(vocab, "type", Str("lazy"), "").value == Num(62)
    ensures FieldStep(vocab, "config", Str(".element-in-view"), "").value == Str(".element-in-view")
  {
    TokenMember(vocab, "type", "lazy", "");
    PlainMember(vocab, "config", ".element-in-view", "");
  }

  lemma LazyTimingPass(vocab: Vocab)
    requires TestVocabulary(vocab)
    ensures ObjectPass(vocab, LazyTiming.fields, "") == LazyTimingOut.fields
  {
    LazyTimingShape(vocab);
    LazyTimingMembers(vocab);
  }

  lemma LazyTimingCompressed(vocab: Vocab)
    requires TestVocabulary(vocab)
    ensures Compress(vocab, LazyTiming, "", true) == LazyTimingOut
  {
    LazyTimingPass(vocab);
    ObjectCompressed(vocab, LazyTiming.fields, "", true);
  }

  /** The stylesheet entry of the tests. */
  const Stylesheet: Value := Obj(map[
    "href" := Str("https://domain.com/test2.css"),
    "load_timing" := Str("domReady"),
    "exec_timing" := LazyTiming])

  const StylesheetOut: Value := Obj(map["4" := Str("test2.css"), "48" := Num(54), "60" := LazyTimingOut])

  lemma StylesheetShape(vocab: Vocab)
    requires TestVocabulary(vocab)
    ensures ObjectPass(vocab, Stylesheet.fields, Base) ==
      map["4" := FieldStep(vocab, "href", Str("https://domain.com/test2.css"), Base).value,
          "48" := FieldStep(vocab, "load_timing", Str("domReady"), Base).value,
          "60" := FieldStep(vocab, "exec_timing", LazyTiming, Base).value]
  {
    SampleNumerals();
    ThreeRenamed(vocab, "href", Str("https://domain.com/test2.css"), "load_timing", Str("domReady"),
      "exec_timing", LazyTiming, Base);
  }

  lemma StylesheetHref(vocab: Vocab)
    ensures FieldStep(vocab, "href", Str("https://domain.com/test2.css"), Base).value == Str("test2.css")
  {
    assert Base + "test2.css" == "https://domain.com/test2.css";
    PathMember(vocab, "href", "test2.css");
  }

  lemma StylesheetLoad(vocab: Vocab)
    requires TestVocabulary(vocab)
    ensures FieldStep(vocab, "load_timing", Str("domReady"), Base).value == Num(54)
  {
    TokenMember(vocab, "load_timing", "domReady", Base);
  }

  lemma StylesheetExec(vocab: Vocab)
    requires TestVocabulary(vocab)
    ensures FieldStep(vocab, "exec_timing", LazyTiming, Base).value == LazyTimingOut
  {
    NestedMember(vocab, "exec_timing", LazyTiming, Base);
    LazyTimingCompressed(vocab);
  }

  lemma StylesheetPass(vocab: Vocab)
    requires TestVocabulary(vocab)
    ensures ObjectPass(vocab, Stylesheet.fields, Base) == StylesheetOut.fields
  {
    StylesheetShape(vocab);
    StylesheetHref(vocab);
    StylesheetLoad(vocab);
    StylesheetExec(vocab);
  }

  lemma StylesheetCompressed(vocab: Vocab)
    requires TestVocabulary(vocab)
    ensures Compress(vocab, Stylesheet, Base, true) == StylesheetOut
  {
    assert NormalBase(Base) == Base;
    StylesheetPass(vocab);
    ObjectCompressed(vocab, Stylesheet.fields, Base, true);
  }

  /** A bare path below the base loses it. */
  lemma PathCompressed(vocab: Vocab, rest: string)
    ensures Compress(vocab, Str(Base + rest), Base, true) == Str(rest)
  {
    assert NormalBase(Base) == Base;
    StripBase(rest);
  }

  /** A two-element top-level array has no capture slot to check: both
      elements are compressed as deep elements. */
  lemma PairKept(vocab: Vocab, x0: Value, x1: Value, base: string)
    ensures Compress(vocab, Arr([x0, x1]), base, false) ==
      Arr([Compress(vocab, x0, NormalBase(base), true), Compress(vocab, x1, NormalBase(base), true)])
  {
    ArrayKept(vocab, [x0, x1], base, false);
  }

  /** A two-element array with the base as second argument: the bare string
      and the `href` lose the base, keys and tokens become integers. */
  lemma ArrayWithBase(vocab: Vocab)
    requires TestVocabulary(vocab)
    ensures CompressConfig(vocab, Arr([Str("https://domain.com/test1.css"), Stylesheet]), Base, "") ==
      Arr([Str("test1.css"), StylesheetOut])
  {
    PairKept(vocab, Str("https://domain.com/test1.css"), Stylesheet, Base);
    ArrayWithBaseElements(vocab);
  }

  lemma ArrayWithBaseElements(vocab: Vocab)
    requires TestVocabulary(vocab)
    ensures Compress(vocab, Str("https://domain.com/test1.css"), NormalBase(Base), true) == Str("test1.css")
    ensures Compress(vocab, Stylesheet, NormalBase(Base), true) == StylesheetOut
  {
    assert NormalBase(Base) == Base;
    CssPath(vocab);
    StylesheetCompressed(vocab);
  }

  lemma CssPath(vocab: Vocab)
    ensures Compress(vocab, Str("https://domain.com/test1.css"), Base, true) == Str("test1.css")
  {
    assert Base + "test1.css" == "https://domain.com/test1.css";
    PathCompressed(vocab, "test1.css");
  }

  /** The dependency entry of the third test. */
  const Dependency: Value := Obj(map["src" := Str("test-dep.js"), "ref" := Str("dep")])

  const DependencyOut: Value := Obj(map["5" := Str("test-dep.js"), "16" := Str("dep")])

  lemma DependencyShape(vocab: Vocab)
    requires TestVocabulary(vocab)
    ensures ObjectPass(vocab, Dependency.fields, Base) ==
      map["5" := FieldStep(vocab, "src", Str("test-dep.js"), Base).value,
          "16" := FieldStep(vocab, "ref", Str("dep"), Base).value]
  {
    SampleNumerals();
    TwoRenamed(vocab, "src", Str("test-dep.js"), "ref", Str("dep"), Base);
  }

  lemma DependencyMembers(vocab: Vocab)
    requires TestVocabulary(vocab)
    ensures FieldStep(vocab, "src", Str("test-dep.js"), Base).value == Str("test-dep.js")
    ensures FieldStep(vocab, "ref", Str("dep"), Base).value == Str("dep")
  {
    assert !StartsWith("test-dep.js", Base);
    OtherPathMember(vocab, "src", "test-dep.js", Base);
    PlainMember(vocab, "ref", "dep", Base);
  }

  lemma DependencyPass(vocab: Vocab)
    requires TestVocabulary(vocab)
    ensures ObjectPass(vocab, Dependency.fields, Base) == DependencyOut.fields
  {
    DependencyShape(vocab);
    DependencyMembers(vocab);
  }

  lemma DependencyCompressed(vocab: Vocab)
    requires TestVocabulary(vocab)
    ensures Compress(vocab, Dependency, Base, true) == DependencyOut
  {
    assert NormalBase(Base) == Base;
    DependencyPass(vocab);
    ObjectCompressed(vocab, Dependency.fields, Base, true);
  }

  /** The `load_timing` and `exec_timing` objects of the script entry. */
  const FrameTiming: Value := Obj(map["type" := Str("requestAnimationFrame"), "frame" := Num(4)])

  const FrameTimingOut: Value := Obj(map["2" := Num(52), "56" := Num(4)])

  const IdleTiming: Value := Obj(map["type" := Str("requestIdleCallback")])

  const IdleTimingOut: Value := Obj(map["2" := Num(53)])

  const CustomAttributes: Value := Obj(map["data-custom-attr" := Str("test")])

  lemma FrameTimingShape(vocab: Vocab)
    requires TestVocabulary(vocab)
    ensures ObjectPass(vocab, FrameTiming.fields, "") ==
      map["2" := FieldStep(vocab, "type", Str("requestAnimationFrame"), "").value,
          "56" := FieldStep(vocab, "frame", Num(4), "").value]
  {
    SampleNumerals();
    TwoRenamed(vocab, "type", Str("requestAnimationFrame"), "frame", Num(4), "");
  }

  lemma FrameTimingMembers(vocab: Vocab)
    requires TestVocabulary(vocab)
    ensures FieldStep(vocab, "type", Str("requestAnimationFrame"), "").value == Num(52)
    ensures FieldStep(vocab, "frame", Num(4), "").value == Num(4)
  {
    TokenMember(vocab, "type", "requestAnimationFrame", "");
    FieldScalar(vocab, "frame", Num(4), "");
  }

  lemma FrameTimingPass(vocab: Vocab)
    requires TestVocabulary(vocab)
    ensures ObjectPass(vocab, FrameTiming.fields, "") == FrameTimingOut.fields
  {
    FrameTimingShape(vocab);
    FrameTimingMembers(vocab);
  }

  lemma FrameTimingCompressed(vocab: Vocab)
    requires TestVocabulary(vocab)
    ensures Compress(vocab, FrameTiming, "", true) == FrameTimingOut
  {
    FrameTimingPass(vocab);
    ObjectCompressed(vocab, FrameTiming.fields, "", true);
  }

  lemma IdleTimingShape(vocab: Vocab)
    requires TestVocabulary(vocab)
    ensures ObjectPass(vocab, IdleTiming.fields, "") ==
      map["2" := FieldStep(vocab, "type", Str("requestIdleCallback"), "").value]
  {
    SampleNumerals();
    OneRenamed(vocab, "type", Str("requestIdleCallback"), "");
  }

  lemma IdleTimingMember(vocab: Vocab)
    requires TestVocabulary(vocab)
    ensures FieldStep(vocab, "type", Str("requestIdleCallback"), "").value == Num(53)
  {
    TokenMember(vocab, "type", "requestIdleCallback", "");
  }

  lemma IdleTimingPass(vocab: Vocab)
    requires TestVocabulary(vocab)
    ensures ObjectPass(vocab, IdleTiming.fields, "") == IdleTimingOut.fields
  {
    IdleTimingShape(vocab);
    IdleTimingMember(vocab);
  }

  lemma IdleTimingCompressed(vocab: Vocab)
    requires TestVocabulary(vocab)
    ensures Compress(vocab, IdleTiming, "", true) == IdleTimingOut
  {
    IdleTimingPass(vocab);
    ObjectCompressed(vocab, IdleTiming.fields, "", true);
  }

  /** The script entry of the third test. */
  const Script: Value := Obj(map[
    "src" := Str("https://domain.com/test2.js"),
    "load_timing" := FrameTiming,
    "exec_timing" := IdleTiming,
    "dependencies" := Str("dep"),
    "attributes" := CustomAttributes])

  const ScriptOut: Value := Obj(map[
    "5" := Str("test2.js"),
    "48" := FrameTimingOut,
    "60" := IdleTimingOut,
    "15" := Str("dep"),
    "14" := CustomAttributes])

  lemma ScriptSrc(vocab: Vocab)
    ensures FieldStep(vocab, "src", Str("https://domain.com/test2.js"), Base).value == Str("test2.js")
  {
    assert Base + "test2.js" == "https://domain.com/test2.js";
    PathMember(vocab, "src", "test2.js");
  }

  lemma ScriptLoad(vocab: Vocab)
    requires TestVocabulary(vocab)
    ensures FieldStep(vocab, "load_timing", FrameTiming, Base).value == FrameTimingOut
  {
    NestedMember(vocab, "load_timing", FrameTiming, Base);
    FrameTimingCompressed(vocab);
  }

  lemma ScriptExec(vocab: Vocab)
    requires TestVocabulary(vocab)
    ensures FieldStep(vocab, "exec_timing", IdleTiming, Base).value == IdleTimingOut
  {
    NestedMember(vocab, "exec_timing", IdleTiming, Base);
    IdleTimingCompressed(vocab);
  }

  lemma ScriptDependencies(vocab: Vocab)
    requires TestVocabulary(vocab)
    ensures FieldStep(vocab, "dependencies", Str("dep"), Base).value == Str("dep")
  {
    PlainMember(vocab, "dependencies", "dep", Base);
  }

  lemma ScriptAttributes(vocab: Vocab)
    ensures FieldStep(vocab, "attributes", CustomAttributes, Base).value == CustomAttributes
  {
    VerbatimMember(vocab, "attributes", CustomAttributes, Base);
  }

  /** The script entry is renamed one member at a time: `src`, the two
      timings, then `dependencies` and `attributes`. */
  lemma ScriptHeadShape(vocab: Vocab)
    requires TestVocabulary(vocab)
    ensures ObjectPass(vocab, map["src" := Str("https://domain.com/test2.js"), "load_timing" := FrameTiming,
                                  "exec_timing" := IdleTiming], Base) ==
      map["5" := FieldStep(vocab, "src", Str("https://domain.com/test2.js"), Base).value,
          "48" := FieldStep(vocab, "load_timing", FrameTiming, Base).value,
          "60" := FieldStep(vocab, "exec_timing", IdleTiming, Base).value]
  {
    SampleNumerals();
    ThreeRenamed(vocab, "src", Str("https://domain.com/test2.js"), "load_timing", FrameTiming,
      "exec_timing", IdleTiming, Base);
  }

  lemma ScriptHead(vocab: Vocab)
    requires TestVocabulary(vocab)
    ensures ObjectPass(vocab, map["src" := Str("https://domain.com/test2.js"), "load_timing" := FrameTiming,
                                  "exec_timing" := IdleTiming], Base) ==
      map["5" := Str("test2.js"), "48" := FrameTimingOut, "60" := IdleTimingOut]
  {
    ScriptHeadShape(vocab);
    ScriptSrc(vocab);
    ScriptLoad(vocab);
    ScriptExec(vocab);
  }

  /** One more vocabulary key on an object whose pass is known. */
  lemma Extended(vocab: Vocab, m: map<string, Value>, k: string, v: Value, b: string,
                 before: map<string, Value>, n: string, w: Value)
    requires Words(vocab) && Injective(vocab)
    requires forall j :: j in m ==> j in vocab
    requires k in vocab && k !in m && Numeral(vocab[k]) == n
    requires ObjectPass(vocab, m, b) == before && FieldStep(vocab, k, v, b).value == w
    ensures ObjectPass(vocab, m[k := v], b) == before[n := w]
  {
    RenameOne(vocab, m, k, v, b);
  }

  /** The keys of the partial script entries are vocabulary keys, and the key
      added next is new. */
  lemma ScriptKeys(vocab: Vocab)
    requires TestVocabulary(vocab)
    ensures forall j :: (j in map["src" := Str("https://domain.com/test2.js"), "load_timing" := FrameTiming,
                                  "exec_timing" := IdleTiming]) ==> j in vocab
    ensures forall j :: (j in map["src" := Str("https://domain.com/test2.js"), "load_timing" := FrameTiming,
                                  "exec_timing" := IdleTiming, "dependencies" := Str("dep")]) ==> j in vocab
    ensures "dependencies" !in map["src" := Str("https://domain.com/test2.js"), "load_timing" := FrameTiming,
                                   "exec_timing" := IdleTiming]
    ensures "attributes" !in map["src" := Str("https://domain.com/test2.js"), "load_timing" := FrameTiming,
                                 "exec_timing" := IdleTiming, "dependencies" := Str("dep")]
  {
  }

  lemma ScriptFour(vocab: Vocab)
    requires TestVocabulary(vocab)
    ensures ObjectPass(vocab, map["src" := Str("https://domain.com/test2.js"), "load_timing" := FrameTiming,
                                  "exec_timing" := IdleTiming, "dependencies" := Str("dep")], Base) ==
      map["5" := Str("test2.js"), "48" := FrameTimingOut, "60" := IdleTimingOut, "15" := Str("dep")]
  {
    ScriptHead(vocab);
    ScriptDependencies(vocab);
    SampleNumerals();
    ScriptKeys(vocab);
    Extended(vocab, map["src" := Str("https://domain.com/test2.js"), "load_timing" := FrameTiming,
      "exec_timing" := IdleTiming], "dependencies", Str("dep"), Base,
      map["5" := Str("test2.js"), "48" := FrameTimingOut, "60" := IdleTimingOut], "15", Str("dep"));
  }

  lemma ScriptPass(vocab: Vocab)
    requires TestVocabulary(vocab)
    ensures ObjectPass(vocab, Script.fields, Base) == ScriptOut.fields
  {
    ScriptFour(vocab);
    ScriptAttributes(vocab);
    SampleNumerals();
    ScriptKeys(vocab);
    Extended(vocab, map["src" := Str("https://domain.com/test2.js"), "load_timing" := FrameTiming,
      "exec_timing" := IdleTiming, "dependencies" := Str("dep")], "attributes", CustomAttributes, Base,
      map["5" := Str("test2.js"), "48" := FrameTimingOut, "60" := IdleTimingOut, "15" := Str("dep")],
      "14", CustomAttributes);
  }

  lemma ScriptCompressed(vocab: Vocab)
    requires TestVocabulary(vocab)
    ensures Compress(vocab, Script, Base, true) == ScriptOut
  {
    assert NormalBase(Base) == Base;
    ScriptPass(vocab);
    ObjectCompressed(vocab, Script.fields, Base, true);
  }

  /** A five-element top-level array with its capture slot keeps all its
      elements, each compressed as a deep element. */
  lemma FiveElements(vocab: Vocab, items: seq<Value>, base: string)
    requires |items| == 5 && !NoCapture(items, false)
    ensures var b := NormalBase(base);
      Compress(vocab, Arr(items), base, false) ==
      Arr([Compress(vocab, items[0], b, true), Compress(vocab, items[1], b, true),
           Compress(vocab, items[2], b, true), Compress(vocab, items[3], b, true),
           Compress(vocab, items[4], b, true)])
  {
    var b := NormalBase(base);
    ArrayKept(vocab, items, base, false);
    var r := Compress(vocab, Arr(items), base, false).items;
    assert r == [Compress(vocab, items[0], b, true), Compress(vocab, items[1], b, true),
                 Compress(vocab, items[2], b, true), Compress(vocab, items[3], b, true),
                 Compress(vocab, items[4], b, true)];
  }

  /** A capture slot holding a non-empty string. */
  lemma PathCaptured(items: seq<Value>)
    requires |items| > 2 && items[2].Str? && items[2].s != ""
    ensures !NoCapture(items, false)
  {
  }

  /** The five-element loader configuration of the third test. */
  const Loader: seq<Value> :=
    [Str("https://domain.com/test1.css"), Stylesheet, Str("https://domain.com/test.js"), Dependency, Script]

  const LoaderOut: seq<Value> := [Str("test1.css"), StylesheetOut, Str("test.js"), DependencyOut, ScriptOut]

  /** Its capture slot holds a script path, so nothing is pruned and every
      element is compressed. */
  lemma LoaderConfig(vocab: Vocab)
    requires TestVocabulary(vocab)
    ensures CompressConfig(vocab, Arr(Loader), Base, "") == Arr(LoaderOut)
  {
    PathCaptured(Loader);
    FiveElements(vocab, Loader, Base);
    LoaderElements(vocab);
  }

  lemma LoaderElements(vocab: Vocab)
    requires TestVocabulary(vocab)
    ensures |Loader| == 5
    ensures Compress(vocab, Loader[0], NormalBase(Base), true) == LoaderOut[0]
    ensures Compress(vocab, Loader[1], NormalBase(Base), true) == LoaderOut[1]
    ensures Compress(vocab, Loader[2], NormalBase(Base), true) == LoaderOut[2]
    ensures Compress(vocab, Loader[3], NormalBase(Base), true) == LoaderOut[3]
    ensures Compress(vocab, Loader[4], NormalBase(Base), true) == LoaderOut[4]
  {
    LoaderAt();
    BaseNormal();
    CssPath(vocab);
    StylesheetCompressed(vocab);
    ScriptPath(vocab);
    DependencyCompressed(vocab);
    ScriptCompressed(vocab);
  }

  lemma LoaderAt()
    ensures |Loader| == 5 && |LoaderOut| == 5
    ensures Loader[0] == Str("https://domain.com/test1.css") && LoaderOut[0] == Str("test1.css")
    ensures Loader[1] == Stylesheet && LoaderOut[1] == StylesheetOut
    ensures Loader[2] == Str("https://domain.com/test.js") && LoaderOut[2] == Str("test.js")
    ensures Loader[3] == Dependency && LoaderOut[3] == DependencyOut
    ensures Loader[4] == Script && LoaderOut[4] == ScriptOut
  {
  }

  lemma BaseNormal()
    ensures NormalBase(Base) == Base
  {
  }

  lemma ScriptPath(vocab: Vocab)
    ensures Compress(vocab, Str("https://domain.com/test.js"), Base, true) == Str("test.js")
  {
    assert Base + "test.js" == "https://domain.com/test.js";
    PathCompressed(vocab, "test.js");
  }

  /** Compressing twice is not the same as compressing once: a vocabulary
      string under a renamed literal key is replaced on the second pass. */
  lemma RecompressChanges(vocab: Vocab)
    requires TestVocabulary(vocab)
    ensures Compress(vocab, Obj(map["href" := Str("lazy")]), "", false) == Obj(map["4" := Str("lazy")])
    ensures Compress(vocab, Obj(map["4" := Str("lazy")]), "", false) == Obj(map["4" := Num(62)])
  {
    FirstPass(vocab);
    ObjectCompressed(vocab, map["href" := Str("lazy")], "", false);
    SecondPass(vocab);
    ObjectCompressed(vocab, map["4" := Str("lazy")], "", false);
  }

  lemma FirstPass(vocab: Vocab)
    requires TestVocabulary(vocab)
    ensures ObjectPass(vocab, map["href" := Str("lazy")], "") == map["4" := Str("lazy")]
  {
    FirstShape(vocab);
    OtherPathMember(vocab, "href", "lazy", "");
  }

  lemma FirstShape(vocab: Vocab)
    requires TestVocabulary(vocab)
    ensures ObjectPass(vocab, map["href" := Str("lazy")], "") ==
      map["4" := FieldStep(vocab, "href", Str("lazy"), "").value]
  {
    SampleNumerals();
    OneRenamed(vocab, "href", Str("lazy"), "");
  }

  lemma SecondPass(vocab: Vocab)
    requires TestVocabulary(vocab)
    ensures ObjectPass(vocab, map["4" := Str("lazy")], "") == map["4" := Num(62)]
  {
    SecondShape(vocab);
    SecondMember(vocab);
  }

  lemma SecondShape(vocab: Vocab)
    requires TestVocabulary(vocab)
    ensures ObjectPass(vocab, map["4" := Str("lazy")], "") == map["4" := Kept(vocab, "4", Str("lazy"), "")]
  {
    assert "4" !in vocab;
    EmptyPass(vocab, "");
    KeepOne(vocab, map[], "4", Str("lazy"), "");
  }

  lemma SecondMember(vocab: Vocab)
    requires TestVocabulary(vocab)
    ensures Kept(vocab, "4", Str("lazy"), "") == Num(62)
  {
    FieldString(vocab, "4", "lazy", "");
  }

  /** As declared, the two array vectors of the tests never return: both are
      arrays, and so is a member nested in an object; the plain object of the
      first vector reads no `deep`. */
  lemma DeclaredArrayThrows()
    ensures ReadsDeep(Arr([Str("https://domain.com/test1.css"), Stylesheet]))
    ensures ReadsDeep(Arr(Loader))
    ensures ReadsDeep(Obj(map["exec_timing" := Arr([])]))
    ensures !ReadsDeep(Obj(map["href" := Str("test.css")]))
  {
    var m := map["exec_timing" := Arr([])];
    assert "exec_timing" in m && "exec_timing" !in VerbatimKeys && ObjectTyped(m["exec_timing"]) && ReadsDeep(m["exec_timing"]);
  }
}
