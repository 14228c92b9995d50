/** Worked examples of resolution on a small catalog, and the places where the
    Node and browser copies of the generator part ways. */
module ResolverExamples {
  import opened Catalog
  import opened Text
  import opened Resolver
  import opened ResolverProperties

  /** A catalog in package order, cut down to the modules the examples use. */
  const Small: seq<string> := ["async-core", "event-emitter", "css-loader", "js-loader", "vendor", "timing", "inview", "debug"]

  lemma SmallFinds()
    ensures Find(Small, "async-core") == Some(0)
    ensures Find(Small, "css-loader") == Some(2)
    ensures Find(Small, "vendor") == Some(4)
    ensures Find(Small, "timing") == Some(5)
    ensures Find(Small, "inview") == Some(6)
  {
    SmallFindsEarly();
    SmallFindsLate();
  }

  lemma SmallFindsEarly()
    ensures Find(Small, "async-core") == Some(0)
    ensures Find(Small, "css-loader") == Some(2)
  {
  }

  lemma SmallFindsLate()
    ensures Find(Small, "vendor") == Some(4)
    ensures Find(Small, "timing") == Some(5)
    ensures Find(Small, "inview") == Some(6)
  {
  }

  /** A name without white space or capital letters. */
  predicate Plain(s: string) {
    forall i :: 0 <= i < |s| ==> !IsSpace(s[i]) && !('A' <= s[i] <= 'Z')
  }

  lemma NormalizePlain(s: string)
    requires Plain(s)
    ensures Trim(s) == s && Lower(s) == s && Normalize(s) == s
  {
    assert TrimStart(s) == s;
    assert TrimEnd(s) == s;
    assert Lower(s) == s;
  }

  lemma PlainCss()
    ensures Trim("css-loader") == "css-loader" && Normalize("css-loader") == "css-loader"
  {
    assert Plain("css-loader");
    NormalizePlain("css-loader");
  }

  lemma PlainInview()
    ensures Trim("inview") == "inview" && Normalize("inview") == "inview"
  {
    assert Plain("inview");
    NormalizePlain("inview");
  }

  /** The table the parse builds for `css-loader, inview`. */
  const Picked: Table := [None, None, Some("css-loader"), None, None, None, Some("inview")]

  lemma ParseCss(v: Variant)
    ensures ParseToken(v, Small, Parsed([], false, []), "css-loader") == Parsed([None, None, Some("css-loader")], false, [])
  {
    PlainCss();
    SmallFinds();
    StoreCss();
  }

  lemma StoreCss()
    ensures Store([], 2, "css-loader") == [None, None, Some("css-loader")]
  {
    var gap: Table := seq(2, _ => None);
    assert gap == [None, None];
  }

  lemma StoreInview()
    ensures Store([None, None, Some("css-loader")], 6, "inview") == Picked
  {
    var gap: Table := seq(3, _ => None);
    assert gap == [None, None, None];
  }

  lemma ParseInview(v: Variant)
    ensures ParseToken(v, Small, Parsed([None, None, Some("css-loader")], false, []), "inview") == Parsed(Picked, false, [])
  {
    PlainInview();
    SmallFinds();
    StoreInview();
  }

  lemma ParsePicked(v: Variant)
    ensures Parse(v, Small, ["css-loader", "inview"]) == Parsed(Picked, false, [])
  {
    ParseCss(v);
    ParseInview(v);
    assert ["css-loader", "inview"][1..] == ["inview"];
    assert ["inview"][1..] == [];
  }

  lemma SmallUnique()
    ensures Unique(Small)
  {
  }

  lemma SmallPositions()
    ensures Position(Small, "css-loader") == 2 && Position(Small, "vendor") == 4
    ensures Position(Small, "timing") == 5 && Position(Small, "inview") == 6
  {
    SmallFinds();
  }

  /** Node: `inview` brings `timing`, and nothing brings `vendor`. */
  const NodeWalked: Table := [None, None, Some("css-loader"), None, None, Some("timing"), Some("inview")]

  /** Browser: `timing` brings `vendor` through the cascade. */
  const BrowserWalked: Table := [None, None, Some("css-loader"), None, Some("vendor"), Some("timing"), Some("inview")]

  const NodeExpanded: Table := [Some("async-core"), None, Some("css-loader"), None, None, Some("timing"), Some("inview")]
  const BrowserExpanded: Table := [Some("async-core"), None, Some("css-loader"), None, Some("vendor"), Some("timing"), Some("inview")]

  lemma PickedFacts()
    ensures Active(Picked, "css-loader") && Active(Picked, "inview")
    ensures !Active(Picked, "async-core") && !Active(Picked, "event-emitter") && !Active(Picked, "js-loader")
    ensures !Active(Picked, "timing") && !Active(Picked, "capture-observer")
    ensures Store(Picked, 2, "css-loader") == Picked && Store(Picked, 5, "timing") == NodeWalked
  {
  }

  lemma WalkedFacts()
    ensures !Active(NodeWalked, "debug") && !Active(BrowserWalked, "debug")
    ensures Store(NodeWalked, 6, "inview") == NodeWalked && Store(NodeWalked, 4, "vendor") == BrowserWalked
    ensures Store(BrowserWalked, 6, "inview") == BrowserWalked
    ensures Store(NodeWalked, 0, BOOTSTRAP) == NodeExpanded && Store(BrowserWalked, 0, BOOTSTRAP) == BrowserExpanded
  {
  }

  lemma SmallNames()
    ensures |Small| == 8 && Small[0] == "async-core" && Small[1] == "event-emitter" && Small[2] == "css-loader"
    ensures Small[3] == "js-loader" && Small[4] == "vendor" && Small[5] == "timing" && Small[6] == "inview"
    ensures Small[7] == "debug"
  {
  }

  /** One turn of the outer loop of the walk. */
  lemma WalkNext(v: Variant, debug: bool, c: seq<string>, t: Table, i: nat)
    requires i < |c|
    ensures WalkFrom(v, debug, c, t, i) == WalkFrom(v, debug, c, WalkStep(v, debug, c, t, c[i]), i + 1)
  {
  }

  /** The walk is over once it has passed the last catalog entry. */
  lemma WalkDone(v: Variant, debug: bool, c: seq<string>, t: Table, i: nat)
    requires i >= |c|
    ensures WalkFrom(v, debug, c, t, i) == t
  {
  }

  /** A module that is not selected, and that no rule of the walk names, is
      passed over. */
  lemma Idle(v: Variant, debug: bool, c: seq<string>, t: Table, name: string)
    requires name !in {"css-loader", "js-loader", "regex", "vendor"} && !Active(t, name)
    ensures WalkStep(v, debug, c, t, name) == t
  {
  }

  /** A loader is visited in exactly when it is selected. */
  lemma LoaderStep(v: Variant, debug: bool, c: seq<string>, t: Table, name: string)
    requires name == "css-loader" || name == "js-loader"
    ensures WalkStep(v, debug, c, t, name) == if Active(t, name) then Activate(v, c, t, name) else t
  {
  }

  /** `vendor` is passed over when neither module that needs it is there. */
  lemma VendorIdle(v: Variant, debug: bool, c: seq<string>, t: Table)
    requires !Active(t, "timing") && !Active(t, "capture-observer")
    ensures WalkStep(v, debug, c, t, "vendor") == t
  {
  }

  /** A selected `inview` or `responsive` activates `timing` and then itself. */
  lemma TimingFirst(v: Variant, debug: bool, c: seq<string>, t: Table, name: string)
    requires (name == "inview" || name == "responsive") && Active(t, name)
    ensures WalkStep(v, debug, c, t, name) == Activate(v, c, Activate(v, c, t, "timing"), name)
  {
    assert StepCalls(v, debug, t, name) == CallTwo("timing", name);
  }

  /** `Expanded` without the debug option, once the walk is known. */
  lemma ExpandedOf(v: Variant, c: seq<string>, t: Table, w: Table)
    requires WalkFrom(v, false, c, t, 0) == w
    ensures Expanded(v, c, t, false) == Store(w, 0, BOOTSTRAP)
  {
  }

  /** The catalog and the table are parameters in the lemmas below, so that the
      verifier does not evaluate the walk on constants by itself. */
  lemma QuietStep(v: Variant, c: seq<string>, t: Table, i: nat)
    requires c == Small && t == Picked && i < 6
    ensures WalkStep(v, false, c, t, c[i]) == t
  {
    SmallNames();
    PickedFacts();
    if i == 2 {
      LoaderStep(v, false, c, t, "css-loader");
      ActivatePlain(v, c, t, "css-loader");
      SmallPositions();
    } else if i == 3 {
      LoaderStep(v, false, c, t, "js-loader");
    } else if i == 4 {
      VendorIdle(v, false, c, t);
    } else {
      Idle(v, false, c, t, c[i]);
    }
  }

  /** Visiting the modules before `inview` changes nothing for this selection. */
  lemma QuietSteps(v: Variant, c: seq<string>, t: Table)
    requires c == Small && t == Picked
    ensures WalkFrom(v, false, c, t, 0) == WalkFrom(v, false, c, t, 6)
  {
    SmallNames();
    WalkNext(v, false, c, t, 0);
    QuietStep(v, c, t, 0);
    WalkNext(v, false, c, t, 1);
    QuietStep(v, c, t, 1);
    WalkNext(v, false, c, t, 2);
    QuietStep(v, c, t, 2);
    WalkNext(v, false, c, t, 3);
    QuietStep(v, c, t, 3);
    WalkNext(v, false, c, t, 4);
    QuietStep(v, c, t, 4);
    WalkNext(v, false, c, t, 5);
    QuietStep(v, c, t, 5);
  }

  /** In the Node copy `timing` only stores itself. */
  lemma TimingNodeIs(c: seq<string>, t: Table, w: Table)
    requires Store(t, Position(c, "timing"), "timing") == w
    ensures Activate(Node, c, t, "timing") == w
  {
    ActivateTiming(Node, c, t);
  }

  /** In the browser copy `timing` stores itself and then `vendor`. */
  lemma TimingVendorIs(c: seq<string>, t: Table, t0: Table, w: Table)
    requires Store(t, Position(c, "timing"), "timing") == t0
    requires Store(t0, Position(c, "vendor"), "vendor") == w
    ensures Activate(Browser, c, t, "timing") == w
  {
    ActivateTiming(Browser, c, t);
    ActivatePlain(Browser, c, t0, "vendor");
  }

  /** A selected `inview`: the step is `timing`'s activation, then `inview`'s store. */
  lemma InviewIs(v: Variant, c: seq<string>, t: Table, a: Table, w: Table)
    requires Active(t, "inview") && Activate(v, c, t, "timing") == a
    requires Store(a, Position(c, "inview"), "inview") == w
    ensures WalkStep(v, false, c, t, "inview") == w
  {
    TimingFirst(v, false, c, t, "inview");
    ActivatePlain(v, c, a, "inview");
  }

  lemma InviewStepNode(c: seq<string>, t: Table)
    requires c == Small && t == Picked
    ensures WalkStep(Node, false, c, t, "inview") == NodeWalked
  {
    PickedFacts();
    WalkedFacts();
    SmallPositions();
    TimingNodeIs(c, t, NodeWalked);
    InviewIs(Node, c, t, NodeWalked, NodeWalked);
  }

  lemma TimingBrowser(c: seq<string>, t: Table)
    requires c == Small && t == Picked
    ensures Activate(Browser, c, t, "timing") == BrowserWalked
  {
    PickedFacts();
    WalkedFacts();
    SmallPositions();
    TimingVendorIs(c, t, NodeWalked, BrowserWalked);
  }

  lemma InviewStepBrowser(c: seq<string>, t: Table)
    requires c == Small && t == Picked
    ensures WalkStep(Browser, false, c, t, "inview") == BrowserWalked
  {
    PickedFacts();
    WalkedFacts();
    SmallPositions();
    TimingBrowser(c, t);
    InviewIs(Browser, c, t, BrowserWalked, BrowserWalked);
  }

  /** The last two turns: `inview`, then `debug`, which is not selected. */
  lemma WalkTail(v: Variant, c: seq<string>, t: Table, w: Table)
    requires c == Small && WalkStep(v, false, c, t, "inview") == w && !Active(w, "debug")
    ensures WalkFrom(v, false, c, t, 6) == w
  {
    SmallNames();
    WalkNext(v, false, c, t, 6);
    WalkNext(v, false, c, w, 7);
    Idle(v, false, c, w, "debug");
    WalkDone(v, false, c, w, 8);
  }

  lemma WalkNode(c: seq<string>, t: Table)
    requires c == Small && t == Picked
    ensures WalkFrom(Node, false, c, t, 0) == NodeWalked
  {
    QuietSteps(Node, c, t);
    InviewStepNode(c, t);
    WalkedFacts();
    WalkTail(Node, c, t, NodeWalked);
  }

  lemma WalkBrowser(c: seq<string>, t: Table)
    requires c == Small && t == Picked
    ensures WalkFrom(Browser, false, c, t, 0) == BrowserWalked
  {
    QuietSteps(Browser, c, t);
    InviewStepBrowser(c, t);
    WalkedFacts();
    WalkTail(Browser, c, t, BrowserWalked);
  }

  lemma GatePicked(v: Variant)
    ensures Selection(v, Small, ["css-loader", "inview"]) == Picked
    ensures Gate(Picked, Parse(v, Small, ["css-loader", "inview"]).errors) == None
  {
    ParsePicked(v);
    PickedFacts();
  }

  lemma ExpandedNode(c: seq<string>, t: Table)
    requires c == Small && t == Picked
    ensures Expanded(Node, c, t, false) == NodeExpanded
  {
    WalkNode(c, t);
    ExpandedOf(Node, c, t, NodeWalked);
    WalkedFacts();
  }

  lemma ExpandedBrowser(c: seq<string>, t: Table)
    requires c == Small && t == Picked
    ensures Expanded(Browser, c, t, false) == BrowserExpanded
  {
    WalkBrowser(c, t);
    ExpandedOf(Browser, c, t, BrowserWalked);
    WalkedFacts();
  }

  /** Reindexing one more slot. */
  lemma CompactSnoc(t: Table, x: Option<string>)
    ensures Compact(t + [x]) == Compact(t) + if x.Some? && x.value != "" then [x.value] else []
  {
    assert (t + [x])[..|t|] == t;
  }

  lemma CompactNode()
    ensures Compact(NodeExpanded) == ["async-core", "css-loader", "timing", "inview"]
  {
    var t0: Table := [];
    var t1 := t0 + [Some("async-core")];
    CompactSnoc(t0, Some("async-core"));
    var t2 := t1 + [None];
    CompactSnoc(t1, None);
    var t3 := t2 + [Some("css-loader")];
    CompactSnoc(t2, Some("css-loader"));
    var t4 := t3 + [None];
    CompactSnoc(t3, None);
    var t5 := t4 + [None];
    CompactSnoc(t4, None);
    var t6 := t5 + [Some("timing")];
    CompactSnoc(t5, Some("timing"));
    var t7 := t6 + [Some("inview")];
    CompactSnoc(t6, Some("inview"));
    assert t7 == NodeExpanded;
  }

  lemma CompactBrowser()
    ensures Compact(BrowserExpanded) == ["async-core", "css-loader", "vendor", "timing", "inview"]
  {
    var t0: Table := [];
    var t1 := t0 + [Some("async-core")];
    CompactSnoc(t0, Some("async-core"));
    var t2 := t1 + [None];
    CompactSnoc(t1, None);
    var t3 := t2 + [Some("css-loader")];
    CompactSnoc(t2, Some("css-loader"));
    var t4 := t3 + [None];
    CompactSnoc(t3, None);
    var t5 := t4 + [Some("vendor")];
    CompactSnoc(t4, Some("vendor"));
    var t6 := t5 + [Some("timing")];
    CompactSnoc(t5, Some("timing"));
    var t7 := t6 + [Some("inview")];
    CompactSnoc(t6, Some("inview"));
    assert t7 == BrowserExpanded;
  }

  /** Node copy: `inview` brings `timing`; `vendor` sits before `timing` in the
      catalog, so the walk has passed it and the bundle has no `vendor`. */
  lemma NodeInview(c: seq<string>, tokens: seq<string>)
    requires c == Small && tokens == ["css-loader", "inview"]
    ensures Resolve(Node, c, tokens, false) == Resolved(["async-core", "css-loader", "timing", "inview"])
  {
    GatePicked(Node);
    ExpandedNode(c, Picked);
    CompactNode();
  }

  /** Browser copy: the cascade from `timing` adds `vendor` whatever its
      catalog position. */
  lemma BrowserInview(c: seq<string>, tokens: seq<string>)
    requires c == Small && tokens == ["css-loader", "inview"]
    ensures Resolve(Browser, c, tokens, false) == Resolved(["async-core", "css-loader", "vendor", "timing", "inview"])
  {
    GatePicked(Browser);
    ExpandedBrowser(c, Picked);
    CompactBrowser();
  }

  /** A requested name spelled as the catalog lists it, other than the
      bootstrap module, is taken by either copy of the parser. */
  lemma TakesListed(v: Variant, c: seq<string>, tok: string)
    requires CatalogOk(c) && Plain(tok) && tok in c && tok != BOOTSTRAP && tok != "all"
    ensures Takes(v, c, tok) && !RequestsAll(tok) && Normalize(tok) == tok && RefusedOne(v, c, tok) == []
  {
    NormalizePlain(tok);
    var i :| 0 <= i < |c| && c[i] == tok;
    assert Find(c, tok).Some? && Find(c, tok).value != 0;
  }

  lemma PlainLoader(x: string)
    requires x == "css-loader" || x == "js-loader"
    ensures Plain(x)
  {
  }

  /** The bootstrap module comes before any other catalog module. */
  lemma BootstrapBefore(c: seq<string>, x: string)
    requires CatalogOk(c) && x in c && x != BOOTSTRAP
    ensures Ascending(c, [BOOTSTRAP, x])
  {
    PositionOfListed(c, 0);
    var i :| 0 <= i < |c| && c[i] == x;
    PositionOfListed(c, i);
  }

  /** The modules no rule brings (without the debug option). */
  const Unbringable: set<string> := {"api", "debug", "dependency", "capture-observer", "inview", "responsive", "localstorage", "cache-api"}

  /** A module no rule brings is in the bundle only when selected. */
  lemma NotBrought(s: Table, r: seq<string>, y: string)
    requires AllExplained(s, r, false) && y in Unbringable && !Active(s, y)
    ensures y !in r
  {
  }

  /** With only a loader selected, no rule brings anything. */
  lemma LoaderAloneMembers(s: Table, r: seq<string>, x: string)
    requires AllExplained(s, r, false) && (x == "css-loader" || x == "js-loader")
    requires forall y :: Active(s, y) <==> y == x
    ensures forall y :: y in r ==> y == BOOTSTRAP || y == x
  {
    forall m | Active(s, m) ensures !StartsWith(m, "capture-") {
      NotCaptureMethod(m);
    }
    forall y | y in Unbringable && y != "localstorage" ensures y !in r {
      NotBrought(s, r, y);
    }
    NotBrought(s, r, "localstorage");
    assert "timing" !in r && "cache" !in r && "capture" !in r;
    assert "capture-insert" !in r && "regex" !in r && "vendor" !in r && "event-emitter" !in r;
  }

  /** The parse of a lone loader selects just that loader and passes the gate. */
  lemma LoaderSelection(v: Variant, c: seq<string>, x: string)
    requires CatalogOk(c) && (x == "css-loader" || x == "js-loader")
    ensures forall y :: Active(Selection(v, c, [x]), y) <==> y == x
    ensures Resolve(v, c, [x], false).Resolved?
  {
    PlainLoader(x);
    TakesListed(v, c, x);
    OneToken(v, c, [x], x);
    SelectionFacts(v, c, [x]);
    ResolveGate(v, c, [x], false);
  }

  /** A request of one name the parser takes. */
  lemma OneToken(v: Variant, c: seq<string>, tokens: seq<string>, x: string)
    requires tokens == [x] && Takes(v, c, x) && !RequestsAll(x) && RefusedOne(v, c, x) == []
    ensures Taken(v, c, tokens) == [Normalize(x)] && Refused(v, c, tokens) == [] && !AnyAll(tokens)
  {
    assert tokens[1..] == [];
  }

  /** None of these names is a `capture-*` module. */
  lemma NotCaptureMethod(m: string)
    requires m in {"css-loader", "js-loader", "localstorage", "timing"}
    ensures !StartsWith(m, "capture-")
  {
    if |m| >= 8 {
      assert m[..8][1] == m[1];
    }
  }

  /** `generate(['css-loader'])` and `generate(['js-loader'])`: the bootstrap
      module and the loader, and nothing else, on every catalog consistent with
      the package, in both copies. */
  lemma LoaderAlone(v: Variant, c: seq<string>, x: string)
    requires CatalogOk(c) && (x == "css-loader" || x == "js-loader")
    ensures Resolve(v, c, [x], false) == Resolved([BOOTSTRAP, x])
  {
    var tokens := [x];
    LoaderSelection(v, c, x);
    var s := Selection(v, c, tokens);
    ResolvedExplained(v, c, tokens, false);
    ResolvedHead(v, c, tokens, false);
    ResolvedKeepsSelection(v, c, tokens, false);
    ResolvedOrder(v, c, tokens, false);
    var r := Resolve(v, c, tokens, false).modules;
    LoaderAloneMembers(s, r, x);
    BootstrapBefore(c, x);
    AscendingUnique(c, r, [BOOTSTRAP, x]);
  }

  /** The request of the bundle test for the CSS loader, local storage and
      timing, and the list it expects, in package order. */
  const StorageRequest: seq<string> := ["css-loader", "localstorage", "timing"]
  const StorageBundle: seq<string> := ["async-core", "event-emitter", "css-loader", "vendor", "cache", "cache-css", "localstorage", "timing"]

  /** A request of names the parser all takes, spelled as the catalog lists
      them: each is taken in turn. */
  lemma {:induction false} TakenWhole(v: Variant, c: seq<string>, tokens: seq<string>)
    requires forall k :: 0 <= k < |tokens| ==> Takes(v, c, tokens[k]) && Normalize(tokens[k]) == tokens[k]
    ensures Taken(v, c, tokens) == tokens
    decreases |tokens|
  {
    if tokens != [] {
      var rest := tokens[1..];
      assert forall k :: 0 <= k < |rest| ==> rest[k] == tokens[k + 1];
      TakenWhole(v, c, rest);
      TakenStep(v, c, tokens);
    }
  }

  lemma TakenStep(v: Variant, c: seq<string>, tokens: seq<string>)
    requires tokens != [] && Takes(v, c, tokens[0]) && Normalize(tokens[0]) == tokens[0]
    requires Taken(v, c, tokens[1..]) == tokens[1..]
    ensures Taken(v, c, tokens) == tokens
  {
    TakenHead(v, c, tokens);
    assert tokens == [tokens[0]] + tokens[1..];
  }

  lemma TakenHead(v: Variant, c: seq<string>, tokens: seq<string>)
    requires tokens != [] && Takes(v, c, tokens[0])
    ensures Taken(v, c, tokens) == [Normalize(tokens[0])] + Taken(v, c, tokens[1..])
  {
  }

  /** Nothing is refused when every name is taken. */
  lemma {:induction false} RefusedNone(v: Variant, c: seq<string>, tokens: seq<string>)
    requires forall k :: 0 <= k < |tokens| ==> RefusedOne(v, c, tokens[k]) == []
    ensures Refused(v, c, tokens) == []
    decreases |tokens|
  {
    if tokens != [] {
      RefusedNone(v, c, tokens[1..]);
    }
  }

  /** A request of listed, plainly spelled names other than the bootstrap
      module selects exactly those names. */
  lemma AllSelected(v: Variant, c: seq<string>, tokens: seq<string>)
    requires CatalogOk(c)
    requires forall k :: 0 <= k < |tokens| ==> Plain(tokens[k]) && tokens[k] in c && tokens[k] != BOOTSTRAP && tokens[k] != "all"
    ensures forall y :: Active(Selection(v, c, tokens), y) <==> y in tokens
    ensures Refused(v, c, tokens) == [] && !AnyAll(tokens) && Taken(v, c, tokens) == tokens
  {
    forall k | 0 <= k < |tokens|
      ensures Takes(v, c, tokens[k]) && !RequestsAll(tokens[k]) && RefusedOne(v, c, tokens[k]) == [] && Normalize(tokens[k]) == tokens[k]
    {
      TakesListed(v, c, tokens[k]);
    }
    TakenWhole(v, c, tokens);
    RefusedNone(v, c, tokens);
    SelectionFacts(v, c, tokens);
  }

  /** The names of the request, as the catalog lists them. */
  lemma StorageName(c: seq<string>, x: string)
    requires CatalogOk(c) && x in {"css-loader", "localstorage", "timing"}
    ensures Plain(x) && x in c && x != BOOTSTRAP && x != "all"
  {
    assert Plain(x) by {
      if x == "css-loader" { PlainLoader(x); } else { PlainStorage(x); }
    }
  }

  lemma PlainStorage(x: string)
    requires x == "localstorage" || x == "timing"
    ensures Plain(x) && x != BOOTSTRAP && x != "all"
  {
  }

  /** The parse of the request selects its three names and passes the gate. */
  lemma StorageSelection(v: Variant, c: seq<string>, tokens: seq<string>)
    requires CatalogOk(c) && tokens == StorageRequest
    ensures forall y :: Active(Selection(v, c, tokens), y) <==> y == "css-loader" || y == "localstorage" || y == "timing"
    ensures Resolve(v, c, tokens, false).Resolved?
  {
    StorageNames(c, tokens);
    AllSelected(v, c, tokens);
    assert tokens[0] == "css-loader";
    GateOpens(v, c, tokens);
  }

  /** A request with a loader taken, nothing refused and no `all` resolves. */
  lemma GateOpens(v: Variant, c: seq<string>, tokens: seq<string>)
    requires Unique(c) && !AnyAll(tokens) && Refused(v, c, tokens) == [] && "css-loader" in Taken(v, c, tokens)
    ensures Resolve(v, c, tokens, false).Resolved?
  {
    ResolveGate(v, c, tokens, false);
  }

  lemma StorageNames(c: seq<string>, tokens: seq<string>)
    requires CatalogOk(c) && tokens == StorageRequest
    ensures forall k :: 0 <= k < |tokens| ==> Plain(tokens[k]) && tokens[k] in c && tokens[k] != BOOTSTRAP && tokens[k] != "all"
  {
    forall k | 0 <= k < |tokens| ensures Plain(tokens[k]) && tokens[k] in c && tokens[k] != BOOTSTRAP && tokens[k] != "all" {
      StorageName(c, tokens[k]);
    }
  }

  /** With the CSS loader, local storage and timing selected, the rules can
      bring only `event-emitter`, `vendor`, `cache` and `cache-css`. */
  lemma StorageUpper(s: Table, r: seq<string>)
    requires AllExplained(s, r, false)
    requires forall y :: Active(s, y) <==> y == "css-loader" || y == "localstorage" || y == "timing"
    ensures forall y :: y in r ==> y in StorageBundle
  {
    forall m | Active(s, m) ensures !StartsWith(m, "capture-") {
      NotCaptureMethod(m);
    }
    forall y | y in Unbringable && y != "localstorage" ensures y !in r {
      NotBrought(s, r, y);
    }
    assert "js-loader" !in r;
    assert "capture" !in r;
    assert "capture-insert" !in r && "capture-css" !in r && "capture-js" !in r && "regex" !in r && "cache-js" !in r;
  }

  /** The rules bring all four. */
  lemma StorageLower(v: Variant, c: seq<string>, s: Table, r: seq<string>)
    requires WalkRulesHold(c, s, r)
    requires forall n :: n in Triggers && n in r && !Exempt(v, false, n) ==> Needs(v, Dense(r), n)
    requires forall y :: Active(s, y) ==> y in r
    requires Active(s, "css-loader") && Active(s, "localstorage") && Active(s, "timing")
    ensures forall y :: y in StorageBundle ==> y in r || y == BOOTSTRAP
  {
    assert "cache" in r && "vendor" in r;
    assert Needs(v, Dense(r), "cache");
  }

  /** `generate(['css-loader', 'localstorage', 'timing'])` on every catalog
      consistent with the package, in both copies: exactly the eight modules
      the test expects, in catalog order. */
  lemma StorageMembers(v: Variant, c: seq<string>)
    requires CatalogOk(c)
    ensures Resolve(v, c, StorageRequest, false).Resolved?
    ensures var r := Resolve(v, c, StorageRequest, false).modules;
      Ascending(c, r) && forall y :: y in r <==> y in StorageBundle
  {
    var tokens := StorageRequest;
    StorageSelection(v, c, tokens);
    var s := Selection(v, c, tokens);
    ResolvedExplained(v, c, tokens, false);
    ResolvedHead(v, c, tokens, false);
    ResolvedKeepsSelection(v, c, tokens, false);
    ResolvedOrder(v, c, tokens, false);
    ResolvedCascades(v, c, tokens, false);
    ResolvedWalkRules(v, c, tokens, false);
    var r := Resolve(v, c, tokens, false).modules;
    StorageUpper(s, r);
    StorageLower(v, c, s, r);
  }

  /** The list the test expects, on a catalog that lists these modules in
      the package's order. */
  lemma StorageAndTiming(v: Variant, c: seq<string>)
    requires CatalogOk(c) && Ascending(c, StorageBundle)
    ensures Resolve(v, c, StorageRequest, false) == Resolved(StorageBundle)
  {
    StorageMembers(v, c);
    AscendingUnique(c, Resolve(v, c, StorageRequest, false).modules, StorageBundle);
  }
}
