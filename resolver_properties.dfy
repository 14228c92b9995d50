/** What the resolver promises, proved about the functions of module `Resolver`:
    `add_module` places a name and applies its cascade, repeating it changes
    nothing, the walk keeps everything that was requested and satisfies the
    cascade and walk rules, and a successful result starts with `async-core`
    and lists catalog modules in ascending catalog order without repetition. */
module ResolverProperties {
  import opened Catalog
  import opened Text
  import opened Resolver

  /** The names the rule tables mention; a catalog consistent with the package
      lists all of them. */
  predicate ListsRuleNames(c: seq<string>) {
    "api" in c && "debug" in c && "dependency" in c && "event-emitter" in c &&
    "cache" in c && "cache-css" in c && "cache-js" in c && "css-loader" in c && "js-loader" in c &&
    "capture" in c && "capture-css" in c && "capture-js" in c && "capture-insert" in c &&
    "capture-observer" in c && "timing" in c && "vendor" in c && "regex" in c &&
    "inview" in c && "responsive" in c && "localstorage" in c && "cache-api" in c
  }

  /** A catalog as the package ships it: unique non-empty names, the bootstrap
      module first, and every module the rules name. */
  predicate CatalogOk(c: seq<string>) {
    Unique(c) && |c| > 0 && c[0] == BOOTSTRAP && ListsRuleNames(c) &&
    forall i :: 0 <= i < |c| ==> c[i] != ""
  }

  /** Every filled slot holds the catalog name of its own position. */
  predicate Listed(c: seq<string>, t: Table) {
    forall i :: 0 <= i < |t| && t[i].Some? ==> i < |c| && t[i].value == c[i]
  }

  /** Everything active in `t` is active in `u`. */
  ghost predicate Sub(t: Table, u: Table) {
    forall x :: Active(t, x) ==> Active(u, x)
  }

  /** The targets a cascade can add; none of them cascades further. */
  const CascadeTargets: set<string> := {"event-emitter", "cache-css", "cache-js", "capture-css", "capture-js", "vendor", "regex"}

  /** The cascade rule table, read as a condition on the active modules, one
      predicate per rule of `add_module`. */
  predicate Needs(v: Variant, t: Table, n: string) {
    EmitterOk(t, n) && CacheOk(t, n) && CaptureOk(t, n) && VendorOk(v, t, n) && RegexOk(v, t, n)
  }

  predicate EmitterOk(t: Table, n: string) {
    n in {"api", "debug", "dependency"} ==> Active(t, "event-emitter")
  }

  predicate CacheOk(t: Table, n: string) {
    n == "cache" ==>
      Active(t, "event-emitter") &&
      (Active(t, "css-loader") ==> Active(t, "cache-css")) &&
      (Active(t, "js-loader") ==> Active(t, "cache-js"))
  }

  predicate CaptureOk(t: Table, n: string) {
    n == "capture" ==>
      (Active(t, "css-loader") ==> Active(t, "capture-css")) &&
      (Active(t, "js-loader") ==> Active(t, "capture-js"))
  }

  predicate VendorOk(v: Variant, t: Table, n: string) {
    v == Browser && n in {"timing", "capture-observer"} ==> Active(t, "vendor")
  }

  predicate RegexOk(v: Variant, t: Table, n: string) {
    v == Browser && n in {"dependency", "capture"} ==> Active(t, "regex")
  }

  /** What each cascade rule of `add_module(n)` adds, read on the table `t`
      the rule finds: the rule's targets whose condition holds there. */
  predicate EmitterBrings(n: string, y: string) {
    n in {"api", "debug", "dependency"} && y == "event-emitter"
  }

  predicate CacheBrings(t: Table, n: string, y: string) {
    n == "cache" &&
      (y == "event-emitter" ||
       (y == "cache-css" && Active(t, "css-loader")) ||
       (y == "cache-js" && Active(t, "js-loader")))
  }

  predicate CaptureBrings(t: Table, n: string, y: string) {
    n == "capture" &&
      ((y == "capture-css" && Active(t, "css-loader")) ||
       (y == "capture-js" && Active(t, "js-loader")))
  }

  predicate VendorBrings(v: Variant, n: string, y: string) {
    v == Browser && n in {"timing", "capture-observer"} && y == "vendor"
  }

  predicate RegexBrings(v: Variant, n: string, y: string) {
    v == Browser && n in {"dependency", "capture"} && y == "regex"
  }

  /** All the rules of `add_module(n)` together. */
  predicate Brings(v: Variant, t: Table, n: string, y: string) {
    EmitterBrings(n, y) || CacheBrings(t, n, y) || CaptureBrings(t, n, y) || VendorBrings(v, n, y) || RegexBrings(v, n, y)
  }

  lemma StoreListed(c: seq<string>, t: Table, x: string)
    requires Unique(c) && Listed(c, t) && x in c
    ensures Listed(c, Store(t, Position(c, x), x))
    ensures forall y :: Active(Store(t, Position(c, x), x), y) <==> Active(t, y) || y == x
  {
    var p := Position(c, x);
    var r := Store(t, p, x);
    forall y | Active(t, y) ensures Active(r, y) {
      var j :| 0 <= j < |t| && t[j] == Some(y);
      if j != p {
        assert r[j] == Some(y);
      } else {
        assert y == c[p] == x;
        assert r[p] == Some(y);
      }
    }
    forall y | Active(r, y) ensures Active(t, y) || y == x {
      var j :| 0 <= j < |r| && r[j] == Some(y);
      if j != p {
        assert j < |t| && t[j] == Some(y);
      }
    }
  }

  /** No rule of `add_module` fires for a name outside `Triggers`. */
  lemma RulesSkip(v: Variant, c: seq<string>, t: Table, name: string)
    requires name !in Triggers
    ensures EmitterRule(v, c, t, name) == t && CacheRule(v, c, t, name) == t && CaptureRule(v, c, t, name) == t
    ensures VendorRule(v, c, t, name) == t && RegexRule(v, c, t, name) == t
  {
  }

  lemma TargetInert(x: string)
    requires x in CascadeTargets
    ensures x !in Triggers
  {
  }

  /** A name outside `Triggers` has no cascade: activating it only stores it. */
  lemma ActivatePlain(v: Variant, c: seq<string>, t: Table, x: string)
    requires x !in Triggers
    ensures Activate(v, c, t, x) == Store(t, Position(c, x), x)
  {
    RulesSkip(v, c, Store(t, Position(c, x), x), x);
  }

  /** A cascade target has no cascade of its own: activating it only stores it. */
  lemma ActivateTarget(v: Variant, c: seq<string>, t: Table, x: string)
    requires x in CascadeTargets
    ensures Activate(v, c, t, x) == Store(t, Position(c, x), x)
  {
    TargetInert(x);
    ActivatePlain(v, c, t, x);
  }

  /** `timing` stores itself and, in the browser copy only, brings `vendor`. */
  lemma ActivateTiming(v: Variant, c: seq<string>, t: Table)
    ensures var t0 := Store(t, Position(c, "timing"), "timing");
      Activate(v, c, t, "timing") == if v == Browser then Activate(v, c, t0, "vendor") else t0
  {
  }

  /** Activating a cascade target adds exactly that name. */
  lemma AddTarget(v: Variant, c: seq<string>, t: Table, x: string)
    requires Unique(c) && Listed(c, t) && x in c && x in CascadeTargets
    ensures Listed(c, Activate(v, c, t, x))
    ensures forall y :: Active(Activate(v, c, t, x), y) <==> Active(t, y) || y == x
  {
    ActivateTarget(v, c, t, x);
    StoreListed(c, t, x);
  }

  /** `u` has everything `t` has, plus cascade targets only. */
  ghost predicate Grows(t: Table, u: Table) {
    Sub(t, u) && forall y :: Active(u, y) && !Active(t, y) ==> y in CascadeTargets
  }

  lemma GrowsTrans(t: Table, u: Table, w: Table)
    requires Grows(t, u) && Grows(u, w)
    ensures Grows(t, w)
  {
  }

  /** Adding cascade targets never breaks a rule that held: no rule asks
      something of a missing target, and the loaders they test stay as they were. */
  lemma GrowsKeeps(v: Variant, t: Table, u: Table, n: string)
    requires Grows(t, u)
    ensures EmitterOk(t, n) ==> EmitterOk(u, n)
    ensures CacheOk(t, n) ==> CacheOk(u, n)
    ensures CaptureOk(t, n) ==> CaptureOk(u, n)
    ensures VendorOk(v, t, n) ==> VendorOk(v, u, n)
    ensures RegexOk(v, t, n) ==> RegexOk(v, u, n)
  {
    assert !Active(u, "css-loader") || Active(t, "css-loader");
    assert !Active(u, "js-loader") || Active(t, "js-loader");
  }

  lemma EmitterFacts(v: Variant, c: seq<string>, t: Table, n: string)
    requires Unique(c) && ListsRuleNames(c) && Listed(c, t)
    ensures Listed(c, EmitterRule(v, c, t, n)) && Grows(t, EmitterRule(v, c, t, n))
    ensures EmitterOk(EmitterRule(v, c, t, n), n)
    ensures forall y :: Active(EmitterRule(v, c, t, n), y) <==> Active(t, y) || EmitterBrings(n, y)
  {
    if n in {"api", "debug", "dependency"} {
      AddTarget(v, c, t, "event-emitter");
    }
  }

  lemma CacheFacts(v: Variant, c: seq<string>, t: Table, n: string)
    requires Unique(c) && ListsRuleNames(c) && Listed(c, t)
    ensures Listed(c, CacheRule(v, c, t, n)) && Grows(t, CacheRule(v, c, t, n))
    ensures CacheOk(CacheRule(v, c, t, n), n)
    ensures forall y :: Active(CacheRule(v, c, t, n), y) <==> Active(t, y) || CacheBrings(t, n, y)
  {
    if n == "cache" {
      var a := if Active(t, "css-loader") then Activate(v, c, t, "cache-css") else t;
      if Active(t, "css-loader") {
        AddTarget(v, c, t, "cache-css");
      }
      assert Listed(c, a) && Grows(t, a);
      var b := if Active(a, "js-loader") then Activate(v, c, a, "cache-js") else a;
      if Active(a, "js-loader") {
        AddTarget(v, c, a, "cache-js");
      }
      assert Listed(c, b) && Grows(a, b);
      var r := Activate(v, c, b, "event-emitter");
      AddTarget(v, c, b, "event-emitter");
      assert Grows(b, r);
      GrowsTrans(t, a, b);
      GrowsTrans(t, b, r);
      assert r == CacheRule(v, c, t, n);
      assert Active(r, "css-loader") ==> Active(t, "css-loader") && Active(a, "cache-css") && Active(r, "cache-css");
      assert Active(r, "js-loader") ==> Active(a, "js-loader") && Active(b, "cache-js") && Active(r, "cache-js");
    }
  }

  lemma CaptureFacts(v: Variant, c: seq<string>, t: Table, n: string)
    requires Unique(c) && ListsRuleNames(c) && Listed(c, t)
    ensures Listed(c, CaptureRule(v, c, t, n)) && Grows(t, CaptureRule(v, c, t, n))
    ensures CaptureOk(CaptureRule(v, c, t, n), n)
    ensures forall y :: Active(CaptureRule(v, c, t, n), y) <==> Active(t, y) || CaptureBrings(t, n, y)
  {
    if n == "capture" {
      var a := if Active(t, "css-loader") then Activate(v, c, t, "capture-css") else t;
      if Active(t, "css-loader") {
        AddTarget(v, c, t, "capture-css");
      }
      assert Listed(c, a) && Grows(t, a);
      var r := if Active(a, "js-loader") then Activate(v, c, a, "capture-js") else a;
      if Active(a, "js-loader") {
        AddTarget(v, c, a, "capture-js");
      }
      assert Grows(a, r);
      GrowsTrans(t, a, r);
      assert Active(r, "css-loader") ==> Active(t, "css-loader") && Active(a, "capture-css") && Active(r, "capture-css");
      assert Active(r, "js-loader") ==> Active(a, "js-loader") && Active(r, "capture-js");
    }
  }

  lemma VendorFacts(v: Variant, c: seq<string>, t: Table, n: string)
    requires Unique(c) && ListsRuleNames(c) && Listed(c, t)
    ensures Listed(c, VendorRule(v, c, t, n)) && Grows(t, VendorRule(v, c, t, n))
    ensures VendorOk(v, VendorRule(v, c, t, n), n)
    ensures forall y :: Active(VendorRule(v, c, t, n), y) <==> Active(t, y) || VendorBrings(v, n, y)
  {
    if v == Browser && n in {"timing", "capture-observer"} {
      AddTarget(v, c, t, "vendor");
    }
  }

  lemma RegexFacts(v: Variant, c: seq<string>, t: Table, n: string)
    requires Unique(c) && ListsRuleNames(c) && Listed(c, t)
    ensures Listed(c, RegexRule(v, c, t, n)) && Grows(t, RegexRule(v, c, t, n))
    ensures RegexOk(v, RegexRule(v, c, t, n), n)
    ensures forall y :: Active(RegexRule(v, c, t, n), y) <==> Active(t, y) || RegexBrings(v, n, y)
  {
    if v == Browser && n in {"dependency", "capture"} {
      AddTarget(v, c, t, "regex");
    }
  }

  /** `add_module(n)` on a consistent table: the name becomes active, nothing
      active is lost, the only other names it adds are cascade targets, and
      afterwards the cascade rule of `n` holds. */
  lemma ActivateFacts(v: Variant, c: seq<string>, t: Table, n: string)
    requires Unique(c) && ListsRuleNames(c) && Listed(c, t) && n in c
    ensures Listed(c, Activate(v, c, t, n))
    ensures Sub(t, Activate(v, c, t, n))
    ensures Active(Activate(v, c, t, n), n)
    ensures forall y :: Active(Activate(v, c, t, n), y) && !Active(t, y) ==> y == n || y in CascadeTargets
    ensures Needs(v, Activate(v, c, t, n), n)
    ensures forall y :: Active(Activate(v, c, t, n), y) <==> Active(t, y) || y == n || Brings(v, t, n, y)
  {
    ActivateExactly(v, c, t, n);
    var t0 := Store(t, Position(c, n), n);
    StoreListed(c, t, n);
    var t1 := EmitterRule(v, c, t0, n);
    EmitterFacts(v, c, t0, n);
    var t2 := CacheRule(v, c, t1, n);
    CacheFacts(v, c, t1, n);
    var t3 := CaptureRule(v, c, t2, n);
    CaptureFacts(v, c, t2, n);
    var t4 := VendorRule(v, c, t3, n);
    VendorFacts(v, c, t3, n);
    var r := RegexRule(v, c, t4, n);
    RegexFacts(v, c, t4, n);
    GrowsTrans(t2, t3, t4);
    GrowsTrans(t2, t4, r);
    GrowsTrans(t1, t2, r);
    GrowsTrans(t0, t1, r);
    GrowsKeeps(v, t1, r, n);
    GrowsKeeps(v, t2, r, n);
    GrowsKeeps(v, t3, r, n);
    GrowsKeeps(v, t4, r, n);
    assert r == Activate(v, c, t, n);
  }

  /** `add_module(n)` adds `n` and exactly the targets of its rules whose
      conditions hold on the table it is called with. */
  lemma ActivateExactly(v: Variant, c: seq<string>, t: Table, n: string)
    requires Unique(c) && ListsRuleNames(c) && Listed(c, t) && n in c
    ensures forall y :: Active(Activate(v, c, t, n), y) <==> Active(t, y) || y == n || Brings(v, t, n, y)
  {
    var t0 := Store(t, Position(c, n), n);
    StoreListed(c, t, n);
    var t1 := EmitterRule(v, c, t0, n);
    EmitterFacts(v, c, t0, n);
    var t2 := CacheRule(v, c, t1, n);
    CacheFacts(v, c, t1, n);
    var t3 := CaptureRule(v, c, t2, n);
    CaptureFacts(v, c, t2, n);
    var t4 := VendorRule(v, c, t3, n);
    VendorFacts(v, c, t3, n);
    RegexFacts(v, c, t4, n);
    assert n == "cache" ==> (Active(t1, "css-loader") <==> Active(t, "css-loader")) && (Active(t1, "js-loader") <==> Active(t, "js-loader"));
    assert n == "capture" ==> (Active(t2, "css-loader") <==> Active(t, "css-loader")) && (Active(t2, "js-loader") <==> Active(t, "js-loader"));
  }

  /** Writing an active name to its own slot again changes nothing. */
  lemma StoreAgain(c: seq<string>, t: Table, x: string)
    requires Unique(c) && Listed(c, t) && Active(t, x)
    ensures Store(t, Position(c, x), x) == t
  {
    var j :| 0 <= j < |t| && t[j] == Some(x);
    PositionOfListed(c, j);
    assert t[j := Some(x)] == t;
  }

  /** `add_module` on an active name whose rule already holds changes nothing. */
  lemma ActivateSettled(v: Variant, c: seq<string>, t: Table, n: string)
    requires Unique(c) && Listed(c, t) && Active(t, n) && Needs(v, t, n)
    ensures Activate(v, c, t, n) == t
  {
    StoreAgain(c, t, n);
    if n in {"api", "debug", "dependency"} {
      ActivateTarget(v, c, t, "event-emitter");
      StoreAgain(c, t, "event-emitter");
    }
    if n == "cache" {
      if Active(t, "css-loader") {
        ActivateTarget(v, c, t, "cache-css");
        StoreAgain(c, t, "cache-css");
      }
      if Active(t, "js-loader") {
        ActivateTarget(v, c, t, "cache-js");
        StoreAgain(c, t, "cache-js");
      }
      ActivateTarget(v, c, t, "event-emitter");
      StoreAgain(c, t, "event-emitter");
    }
    if n == "capture" {
      if Active(t, "css-loader") {
        ActivateTarget(v, c, t, "capture-css");
        StoreAgain(c, t, "capture-css");
      }
      if Active(t, "js-loader") {
        ActivateTarget(v, c, t, "capture-js");
        StoreAgain(c, t, "capture-js");
      }
    }
    if v == Browser && n in {"timing", "capture-observer"} {
      ActivateTarget(v, c, t, "vendor");
      StoreAgain(c, t, "vendor");
    }
    if v == Browser && n in {"dependency", "capture"} {
      ActivateTarget(v, c, t, "regex");
      StoreAgain(c, t, "regex");
    }
  }

  /** `add_module` is idempotent: a second call with the same name changes nothing. */
  lemma ActivateIdempotent(v: Variant, c: seq<string>, t: Table, n: string)
    requires Unique(c) && ListsRuleNames(c) && Listed(c, t) && n in c
    ensures Activate(v, c, Activate(v, c, t, n), n) == Activate(v, c, t, n)
  {
    ActivateFacts(v, c, t, n);
    ActivateSettled(v, c, Activate(v, c, t, n), n);
  }

  /** `add_module(n)` leaves `n` in its own catalog slot. */
  lemma ActivatePlaces(v: Variant, c: seq<string>, t: Table, n: string)
    requires Unique(c) && ListsRuleNames(c) && Listed(c, t) && n in c
    ensures Position(c, n) < |Activate(v, c, t, n)| && Activate(v, c, t, n)[Position(c, n)] == Some(n)
  {
    ActivateFacts(v, c, t, n);
    var r := Activate(v, c, t, n);
    var j :| 0 <= j < |r| && r[j] == Some(n);
    PositionOfListed(c, j);
  }

  /** No loader becomes active between `t` and `u`. */
  predicate LoadersKept(t: Table, u: Table) {
    (Active(u, "css-loader") ==> Active(t, "css-loader")) && (Active(u, "js-loader") ==> Active(t, "js-loader"))
  }

  /** A rule that held still holds once more names are active, as long as no
      loader was added. */
  lemma Keeps(v: Variant, t: Table, u: Table, n: string)
    requires Sub(t, u) && LoadersKept(t, u) && Needs(v, t, n)
    ensures Needs(v, u, n)
  {
  }

  predicate IsLoader(x: string) {
    x == "css-loader" || x == "js-loader"
  }

  /** No cascade target cascades further, and none is a loader. */
  lemma TargetsInert()
    ensures forall n :: n in Triggers ==> n !in CascadeTargets
    ensures "css-loader" !in CascadeTargets && "js-loader" !in CascadeTargets
  {
  }

  /** One `add_module` call inside a walk step. */
  lemma Once(v: Variant, c: seq<string>, t: Table, x: string)
    requires Unique(c) && ListsRuleNames(c) && Listed(c, t) && x in c
    requires IsLoader(x) ==> Active(t, x)
    ensures Listed(c, Activate(v, c, t, x)) && Sub(t, Activate(v, c, t, x)) && LoadersKept(t, Activate(v, c, t, x))
    ensures Active(Activate(v, c, t, x), x) && Needs(v, Activate(v, c, t, x), x)
    ensures forall n :: n in Triggers && Active(Activate(v, c, t, x), n) && !Active(t, n) ==> n == x
  {
    ActivateFacts(v, c, t, x);
    TargetsInert();
  }

  /** Two `add_module` calls in a row inside a walk step. */
  lemma Twice(v: Variant, c: seq<string>, t: Table, x: string, y: string)
    requires Unique(c) && ListsRuleNames(c) && Listed(c, t) && x in c && y in c
    requires !IsLoader(x) && !IsLoader(y)
    ensures var u := Activate(v, c, Activate(v, c, t, x), y);
      Listed(c, u) && Sub(t, u) && LoadersKept(t, u) &&
      Active(u, x) && Active(u, y) && Needs(v, u, x) && Needs(v, u, y) &&
      forall n :: n in Triggers && Active(u, n) && !Active(t, n) ==> n == x || n == y
  {
    var a := Activate(v, c, t, x);
    Once(v, c, t, x);
    Once(v, c, a, y);
    Keeps(v, a, Activate(v, c, a, y), x);
  }

  /** Node copy: a `debug` module that was requested without the debug option is
      skipped by the walk, so its rule is not applied. */
  predicate Exempt(v: Variant, debug: bool, n: string) {
    v == Node && n == "debug" && !debug
  }

  /** A name that starts with `capture-` takes the last branch of the walk. */
  lemma CaptureFamily(name: string)
    requires StartsWith(name, "capture-")
    ensures name !in {"css-loader", "js-loader", "regex", "vendor", "debug", "inview", "responsive", "localstorage", "cache-api", "capture"}
  {
    assert name[0] == 'c' && name[1] == 'a' && name[2] == 'p' && name[7] == '-';
  }

  /** The calls of a walk step name catalog modules, re-add a loader only
      when it is active, and end with the visited module whenever that module is
      an active trigger the walk does not skip. */
  lemma CallsFacts(v: Variant, debug: bool, c: seq<string>, t: Table, name: string)
    requires ListsRuleNames(c) && name in c
    ensures match StepCalls(v, debug, t, name)
      case NoCall => !(Active(t, name) && name in Triggers && !Exempt(v, debug, name))
      case Call(x) => x == name && (IsLoader(x) ==> Active(t, x))
      case CallTwo(x, y) => x in c && y == name && !IsLoader(x) && !IsLoader(y)
  {
    if StartsWith(name, "capture-") {
      CaptureFamily(name);
    }
  }

  /** The calls of a walk step, made on a consistent table: the table stays
      consistent, loses nothing, gains no loader, and each trigger they
      activate, and the last name called, has its rule satisfied. */
  lemma ApplyFacts(v: Variant, c: seq<string>, t: Table, calls: Calls)
    requires Unique(c) && ListsRuleNames(c) && Listed(c, t)
    requires match calls
      case NoCall => true
      case Call(x) => x in c && (IsLoader(x) ==> Active(t, x))
      case CallTwo(x, y) => x in c && y in c && !IsLoader(x) && !IsLoader(y)
    ensures var u := Apply(v, c, t, calls);
      Listed(c, u) && Sub(t, u) && LoadersKept(t, u) &&
      (forall n :: n in Triggers && Active(u, n) && !Active(t, n) ==> Needs(v, u, n)) &&
      (calls.Call? ==> Needs(v, u, calls.x)) && (calls.CallTwo? ==> Needs(v, u, calls.y))
  {
    match calls
    case NoCall =>
    case Call(x) => Once(v, c, t, x);
    case CallTwo(x, y) => Twice(v, c, t, x, y);
  }

  /** What one walk step does to a consistent table: it keeps the table
      consistent, loses nothing, adds no loader, and every trigger it activates,
      and the module it visits, ends up with its rule satisfied. */
  lemma StepFacts(v: Variant, debug: bool, c: seq<string>, t: Table, name: string)
    requires Unique(c) && ListsRuleNames(c) && Listed(c, t) && name in c
    ensures var u := WalkStep(v, debug, c, t, name);
      Listed(c, u) && Sub(t, u) && LoadersKept(t, u) &&
      (forall n :: n in Triggers && Active(u, n) && !Active(t, n) ==> Needs(v, u, n)) &&
      (name in Triggers && Active(t, name) && !Exempt(v, debug, name) ==> Needs(v, u, name))
  {
    CallsFacts(v, debug, c, t, name);
    ApplyFacts(v, c, t, StepCalls(v, debug, t, name));
  }

  /** `add_module(x)` on a consistent table makes `x` active and loses nothing. */
  lemma Adds(v: Variant, c: seq<string>, t: Table, x: string)
    requires Unique(c) && ListsRuleNames(c) && Listed(c, t) && x in c
    ensures Listed(c, Activate(v, c, t, x)) && Sub(t, Activate(v, c, t, x)) && Active(Activate(v, c, t, x), x)
  {
    ActivateFacts(v, c, t, x);
  }

  /** The calls of a walk step lose nothing and make every name they call active. */
  lemma CallsAdd(v: Variant, c: seq<string>, t: Table, calls: Calls)
    requires Unique(c) && ListsRuleNames(c) && Listed(c, t)
    requires calls.Call? || calls.CallTwo? ==> calls.x in c
    requires calls.CallTwo? ==> calls.y in c
    ensures Sub(t, Apply(v, c, t, calls))
    ensures calls.Call? || calls.CallTwo? ==> Active(Apply(v, c, t, calls), calls.x)
    ensures calls.CallTwo? ==> Active(Apply(v, c, t, calls), calls.y)
  {
    match calls
    case NoCall =>
    case Call(x) => Adds(v, c, t, x);
    case CallTwo(x, y) =>
      var a := Activate(v, c, t, x);
      Adds(v, c, t, x);
      Adds(v, c, a, y);
  }

  /** The walk's own rules, for the module a step visits: `inview` and
      `responsive` bring `timing`. */
  lemma TimingStep(v: Variant, debug: bool, c: seq<string>, t: Table, name: string)
    requires Unique(c) && ListsRuleNames(c) && Listed(c, t) && name in c
    requires (name == "inview" || name == "responsive") && Active(t, name)
    ensures Active(WalkStep(v, debug, c, t, name), "timing")
  {
    assert StepCalls(v, debug, t, name) == CallTwo("timing", name);
    CallsAdd(v, c, t, CallTwo("timing", name));
  }

  /** `localstorage` and `cache-api` bring `cache`. */
  lemma CacheStep(v: Variant, debug: bool, c: seq<string>, t: Table, name: string)
    requires Unique(c) && ListsRuleNames(c) && Listed(c, t) && name in c
    requires (name == "localstorage" || name == "cache-api") && Active(t, name)
    ensures Active(WalkStep(v, debug, c, t, name), "cache")
  {
    assert StepCalls(v, debug, t, name) == CallTwo("cache", name);
    CallsAdd(v, c, t, CallTwo("cache", name));
  }

  /** `capture` brings `capture-insert` unless an insert or observer module is there. */
  lemma CaptureStep(v: Variant, debug: bool, c: seq<string>, t: Table)
    requires Unique(c) && ListsRuleNames(c) && Listed(c, t) && Active(t, "capture")
    ensures var u := WalkStep(v, debug, c, t, "capture");
      Active(u, "capture-insert") || Active(u, "capture-observer")
  {
    CallsAdd(v, c, t, StepCalls(v, debug, t, "capture"));
  }

  /** Every `capture-*` module brings `capture`. */
  lemma CaptureFamilyStep(v: Variant, debug: bool, c: seq<string>, t: Table, name: string)
    requires Unique(c) && ListsRuleNames(c) && Listed(c, t) && name in c
    requires StartsWith(name, "capture-") && Active(t, name)
    ensures Active(WalkStep(v, debug, c, t, name), "capture")
  {
    CaptureFamily(name);
    var calls := if Active(t, "capture") then Call(name) else CallTwo("capture", name);
    assert StepCalls(v, debug, t, name) == calls;
    CallsAdd(v, c, t, calls);
  }

  /** Visiting `regex` adds it exactly when `dependency` or `capture` is
      active, and adds nothing else. */
  lemma RegexStep(v: Variant, debug: bool, c: seq<string>, t: Table)
    requires Unique(c) && ListsRuleNames(c) && Listed(c, t)
    ensures forall y :: Active(WalkStep(v, debug, c, t, "regex"), y) <==>
      Active(t, y) || (y == "regex" && (Active(t, "dependency") || Active(t, "capture")))
  {
    if Active(t, "dependency") || Active(t, "capture") {
      AddTarget(v, c, t, "regex");
    }
  }

  /** Visiting `vendor` adds it exactly when `timing` or `capture-observer`
      is active, and adds nothing else. */
  lemma VendorStep(v: Variant, debug: bool, c: seq<string>, t: Table)
    requires Unique(c) && ListsRuleNames(c) && Listed(c, t)
    ensures forall y :: Active(WalkStep(v, debug, c, t, "vendor"), y) <==>
      Active(t, y) || (y == "vendor" && (Active(t, "timing") || Active(t, "capture-observer")))
  {
    if Active(t, "timing") || Active(t, "capture-observer") {
      AddTarget(v, c, t, "vendor");
    }
  }

  /** After the walk has visited positions `0..i`: every active trigger listed
      before `i` has its cascade rule satisfied. */
  ghost predicate CascadesDone(v: Variant, debug: bool, c: seq<string>, t: Table, i: nat) {
    forall n :: n in Triggers && Active(t, n) && Position(c, n) < i && !Exempt(v, debug, n) ==> Needs(v, t, n)
  }

  /** After the walk has visited positions `0..i`: the walk's own rules hold for
      every module of `t0` (the table the walk started from) visited so far. */
  ghost predicate WalkRulesDone(c: seq<string>, t0: Table, t: Table, i: nat) {
    (Position(c, "inview") < i && Active(t0, "inview") ==> Active(t, "timing")) &&
    (Position(c, "responsive") < i && Active(t0, "responsive") ==> Active(t, "timing")) &&
    (Position(c, "localstorage") < i && Active(t0, "localstorage") ==> Active(t, "cache")) &&
    (Position(c, "cache-api") < i && Active(t0, "cache-api") ==> Active(t, "cache")) &&
    (Position(c, "capture") < i && Active(t0, "capture") ==> Active(t, "capture-insert") || Active(t, "capture-observer")) &&
    (Position(c, "regex") < i && (Active(t0, "dependency") || Active(t0, "capture")) ==> Active(t, "regex")) &&
    (Position(c, "vendor") < i && (Active(t0, "timing") || Active(t0, "capture-observer")) ==> Active(t, "vendor")) &&
    (forall j :: 0 <= j < i && j < |c| && StartsWith(c[j], "capture-") && Active(t0, c[j]) ==> Active(t, "capture"))
  }

  /** Some `capture-*` module is active. */
  ghost predicate HasCaptureMethod(t: Table) {
    exists m :: StartsWith(m, "capture-") && Active(t, m)
  }

  /** Why a module the walk did not start with is in `u`: a rule of
      `add_module` or of the walk brought it, and the modules that rule tests
      are in `u`; `capture` is brought only for a `capture-*` module of the
      starting table `t0`. */
  ghost predicate Brought(t0: Table, u: Table, y: string) {
    (y == "event-emitter" && (Active(u, "api") || Active(u, "debug") || Active(u, "dependency") || Active(u, "cache"))) ||
    (y == "cache-css" && Active(u, "cache") && Active(u, "css-loader")) ||
    (y == "cache-js" && Active(u, "cache") && Active(u, "js-loader")) ||
    (y == "capture-css" && Active(u, "capture") && Active(u, "css-loader")) ||
    (y == "capture-js" && Active(u, "capture") && Active(u, "js-loader")) ||
    (y == "vendor" && (Active(u, "timing") || Active(u, "capture-observer"))) ||
    (y == "regex" && (Active(u, "dependency") || Active(u, "capture"))) ||
    (y == "timing" && (Active(u, "inview") || Active(u, "responsive"))) ||
    (y == "cache" && (Active(u, "localstorage") || Active(u, "cache-api"))) ||
    (y == "capture-insert" && Active(u, "capture")) ||
    (y == "capture" && HasCaptureMethod(t0))
  }

  /** Every module of `u` was in `t0` or was brought by a rule. */
  ghost predicate Explained(t0: Table, u: Table) {
    forall y :: Active(u, y) ==> Active(t0, y) || Brought(t0, u, y)
  }

  /** A reason stays a reason once more modules are active. */
  lemma BroughtGrows(t0: Table, u: Table, w: Table, y: string)
    requires Sub(u, w) && Brought(t0, u, y)
    ensures Brought(t0, w, y)
  {
  }

  /** A target of the rules of `n` is brought once `n` is active. */
  lemma BringsBrought(v: Variant, t0: Table, t: Table, r: Table, n: string, y: string)
    requires Brings(v, t, n, y) && Active(r, n) && Sub(t, r)
    ensures Brought(t0, r, y)
  {
  }

  /** `add_module(x)` keeps every module explained when `x` itself is. */
  lemma ActivateExplained(v: Variant, c: seq<string>, t0: Table, t: Table, x: string)
    requires Unique(c) && ListsRuleNames(c) && Listed(c, t) && x in c && Explained(t0, t)
    requires Active(t, x) || Active(t0, x) || Brought(t0, t, x)
    ensures Explained(t0, Activate(v, c, t, x))
  {
    var r := Activate(v, c, t, x);
    ActivateFacts(v, c, t, x);
    forall y | Active(r, y) ensures Active(t0, y) || Brought(t0, r, y) {
      if Active(t, y) {
        if !Active(t0, y) {
          BroughtGrows(t0, t, r, y);
        }
      } else if y == x {
        if !Active(t0, x) {
          BroughtGrows(t0, t, r, x);
        }
      } else {
        BringsBrought(v, t0, t, r, x, y);
      }
    }
  }

  /** While `capture` is inactive, every active `capture-*` module is one the
      walk started with: the rules bring `capture-css`, `capture-js` and
      `capture-insert` only for an active `capture`. */
  lemma CaptureGrounded(t0: Table, t: Table, m: string)
    requires Explained(t0, t) && StartsWith(m, "capture-") && Active(t, m) && !Active(t, "capture")
    ensures Active(t0, m)
  {
    assert |m| >= 8 && m[0] == 'c' && m[5] == 'r' && m[7] == '-';
  }

  /** What a walk step calls is already active or is brought by a rule. */
  lemma CallsExplained(v: Variant, debug: bool, c: seq<string>, t0: Table, t: Table, name: string)
    requires ListsRuleNames(c) && name in c && Explained(t0, t)
    ensures match StepCalls(v, debug, t, name)
      case NoCall => true
      case Call(x) => Active(t, x) || Brought(t0, t, x)
      case CallTwo(x, y) => (Active(t0, x) || Brought(t0, t, x)) && Active(t, y)
  {
    if StartsWith(name, "capture-") {
      CaptureFamily(name);
      if Active(t, name) && !Active(t, "capture") {
        CaptureGrounded(t0, t, name);
      }
    }
  }

  /** A walk step keeps every module explained. */
  lemma StepExplained(v: Variant, debug: bool, c: seq<string>, t0: Table, t: Table, name: string)
    requires Unique(c) && ListsRuleNames(c) && Listed(c, t) && name in c && Explained(t0, t)
    ensures Explained(t0, WalkStep(v, debug, c, t, name))
  {
    CallsFacts(v, debug, c, t, name);
    CallsExplained(v, debug, c, t0, t, name);
    match StepCalls(v, debug, t, name)
    case NoCall =>
    case Call(x) =>
      ActivateExplained(v, c, t0, t, x);
    case CallTwo(x, y) =>
      ActivateExplained(v, c, t0, t, x);
      var a := Activate(v, c, t, x);
      ActivateFacts(v, c, t, x);
      ActivateExplained(v, c, t0, a, y);
  }

  /** The invariant of the catalog walk: what it keeps and what it has met so
      far, and that it adds only what the rules bring. */
  ghost predicate WalkInv(v: Variant, debug: bool, c: seq<string>, t0: Table, t: Table, i: nat) {
    Listed(c, t) && Sub(t0, t) && LoadersKept(t0, t) && Explained(t0, t) &&
    CascadesDone(v, debug, c, t, i) && WalkRulesDone(c, t0, t, i)
  }

  lemma WalkStepInv(v: Variant, debug: bool, c: seq<string>, t0: Table, t: Table, i: nat)
    requires CatalogOk(c) && i < |c| && WalkInv(v, debug, c, t0, t, i)
    ensures WalkInv(v, debug, c, t0, WalkStep(v, debug, c, t, c[i]), i + 1)
  {
    StepCascades(v, debug, c, t, i);
    StepWalkRules(v, debug, c, t0, t, i);
    StepExplained(v, debug, c, t0, t, c[i]);
  }

  lemma StepCascades(v: Variant, debug: bool, c: seq<string>, t: Table, i: nat)
    requires CatalogOk(c) && i < |c| && Listed(c, t) && CascadesDone(v, debug, c, t, i)
    ensures var u := WalkStep(v, debug, c, t, c[i]);
      Listed(c, u) && Sub(t, u) && LoadersKept(t, u) && CascadesDone(v, debug, c, u, i + 1)
  {
    var name := c[i];
    var u := WalkStep(v, debug, c, t, name);
    PositionOfListed(c, i);
    StepFacts(v, debug, c, t, name);
    forall n | n in Triggers && Active(u, n) && Position(c, n) < i + 1 && !Exempt(v, debug, n)
      ensures Needs(v, u, n)
    {
      if Active(t, n) {
        if Position(c, n) < i {
          Keeps(v, t, u, n);
        } else {
          var j :| 0 <= j < |t| && t[j] == Some(n);
          assert n in c;
        }
      }
    }
  }

  /** A walk step loses no active name. */
  lemma StepSub(v: Variant, debug: bool, c: seq<string>, t: Table, name: string)
    requires Unique(c) && ListsRuleNames(c) && Listed(c, t) && name in c
    ensures Sub(t, WalkStep(v, debug, c, t, name))
  {
    CallsFacts(v, debug, c, t, name);
    CallsAdd(v, c, t, StepCalls(v, debug, t, name));
  }

  /** The rules already met stay met in a larger table. */
  lemma RulesCarry(c: seq<string>, t0: Table, t: Table, u: Table, i: nat)
    requires Sub(t, u) && WalkRulesDone(c, t0, t, i)
    ensures WalkRulesDone(c, t0, u, i)
  {
  }

  /** The walk's own rules for the one module `name`. */
  ghost predicate RuleAt(t0: Table, u: Table, name: string) {
    ((name == "inview" || name == "responsive") && Active(t0, name) ==> Active(u, "timing")) &&
    ((name == "localstorage" || name == "cache-api") && Active(t0, name) ==> Active(u, "cache")) &&
    (name == "capture" && Active(t0, name) ==> Active(u, "capture-insert") || Active(u, "capture-observer")) &&
    (name == "regex" && (Active(t0, "dependency") || Active(t0, "capture")) ==> Active(u, "regex")) &&
    (name == "vendor" && (Active(t0, "timing") || Active(t0, "capture-observer")) ==> Active(u, "vendor")) &&
    (StartsWith(name, "capture-") && Active(t0, name) ==> Active(u, "capture"))
  }

  /** A listed name sits at its own position. */
  lemma InCatalog(c: seq<string>, x: string)
    requires x in c
    ensures Position(c, x) < |c| && c[Position(c, x)] == x
  {
  }

  /** Visiting position `i` meets the rules of the module there. */
  lemma RulesNext(c: seq<string>, t0: Table, u: Table, i: nat)
    requires i < |c| && ListsRuleNames(c) && WalkRulesDone(c, t0, u, i) && RuleAt(t0, u, c[i])
    ensures WalkRulesDone(c, t0, u, i + 1)
  {
    RulesNextPages(c, t0, u, i);
    RulesNextLibraries(c, t0, u, i);
  }

  /** The rules of `inview`, `responsive`, `localstorage` and `cache-api`. */
  lemma RulesNextPages(c: seq<string>, t0: Table, u: Table, i: nat)
    requires i < |c| && "inview" in c && "responsive" in c && "localstorage" in c && "cache-api" in c
    requires WalkRulesDone(c, t0, u, i) && RuleAt(t0, u, c[i])
    ensures Position(c, "inview") < i + 1 && Active(t0, "inview") ==> Active(u, "timing")
    ensures Position(c, "responsive") < i + 1 && Active(t0, "responsive") ==> Active(u, "timing")
    ensures Position(c, "localstorage") < i + 1 && Active(t0, "localstorage") ==> Active(u, "cache")
    ensures Position(c, "cache-api") < i + 1 && Active(t0, "cache-api") ==> Active(u, "cache")
  {
    InCatalog(c, "inview");
    InCatalog(c, "responsive");
    InCatalog(c, "localstorage");
    InCatalog(c, "cache-api");
  }

  /** The rules of `capture`, `regex`, `vendor` and the `capture-*` modules. */
  lemma RulesNextLibraries(c: seq<string>, t0: Table, u: Table, i: nat)
    requires i < |c| && "capture" in c && "regex" in c && "vendor" in c
    requires WalkRulesDone(c, t0, u, i) && RuleAt(t0, u, c[i])
    ensures Position(c, "capture") < i + 1 && Active(t0, "capture") ==> Active(u, "capture-insert") || Active(u, "capture-observer")
    ensures Position(c, "regex") < i + 1 && (Active(t0, "dependency") || Active(t0, "capture")) ==> Active(u, "regex")
    ensures Position(c, "vendor") < i + 1 && (Active(t0, "timing") || Active(t0, "capture-observer")) ==> Active(u, "vendor")
    ensures forall j :: 0 <= j < i + 1 && j < |c| && StartsWith(c[j], "capture-") && Active(t0, c[j]) ==> Active(u, "capture")
  {
    InCatalog(c, "capture");
    InCatalog(c, "regex");
    InCatalog(c, "vendor");
  }

  /** The step lemmas, for the module the walk visits. */
  lemma StepRuleAt(v: Variant, debug: bool, c: seq<string>, t0: Table, t: Table, i: nat)
    requires CatalogOk(c) && i < |c| && Listed(c, t) && Sub(t0, t)
    ensures RuleAt(t0, WalkStep(v, debug, c, t, c[i]), c[i])
  {
    var name := c[i];
    if name == "inview" || name == "responsive" {
      if Active(t, name) {
        TimingStep(v, debug, c, t, name);
      }
    }
    if name == "localstorage" || name == "cache-api" {
      if Active(t, name) {
        CacheStep(v, debug, c, t, name);
      }
    }
    if name == "capture" && Active(t, name) {
      CaptureStep(v, debug, c, t);
    }
    if name == "regex" && (Active(t, "dependency") || Active(t, "capture")) {
      RegexStep(v, debug, c, t);
    }
    if name == "vendor" && (Active(t, "timing") || Active(t, "capture-observer")) {
      VendorStep(v, debug, c, t);
    }
    if StartsWith(name, "capture-") && Active(t, name) {
      CaptureFamilyStep(v, debug, c, t, name);
    }
  }

  lemma StepWalkRules(v: Variant, debug: bool, c: seq<string>, t0: Table, t: Table, i: nat)
    requires CatalogOk(c) && i < |c| && Listed(c, t) && Sub(t0, t) && WalkRulesDone(c, t0, t, i)
    ensures WalkRulesDone(c, t0, WalkStep(v, debug, c, t, c[i]), i + 1)
  {
    var u := WalkStep(v, debug, c, t, c[i]);
    StepSub(v, debug, c, t, c[i]);
    RulesCarry(c, t0, t, u, i);
    StepRuleAt(v, debug, c, t0, t, i);
    RulesNext(c, t0, u, i);
  }

  lemma {:induction false} WalkFromInv(v: Variant, debug: bool, c: seq<string>, t0: Table, t: Table, i: nat)
    requires CatalogOk(c) && i <= |c| && WalkInv(v, debug, c, t0, t, i)
    ensures WalkInv(v, debug, c, t0, WalkFrom(v, debug, c, t, i), |c|)
    decreases |c| - i
  {
    if i < |c| {
      WalkStepInv(v, debug, c, t0, t, i);
      WalkFromInv(v, debug, c, t0, WalkStep(v, debug, c, t, c[i]), i + 1);
    }
  }

  /** The names of `modules` as a dense table, as the generator holds them
      after reindexing. */
  function Dense(r: seq<string>): (t: Table)
    ensures |t| == |r| && forall x :: Active(t, x) <==> x in r
  {
    var t := seq(|r|, i requires 0 <= i < |r| => Some(r[i]));
    assert forall i :: 0 <= i < |r| ==> t[i] == Some(r[i]);
    t
  }

  /** Names in strictly ascending catalog order (hence without repetition). */
  predicate Ascending(c: seq<string>, r: seq<string>) {
    forall a, b :: 0 <= a < b < |r| ==> Position(c, r[a]) < Position(c, r[b])
  }

  /** A list in ascending catalog order is fixed by its members. */
  lemma {:induction false} AscendingUnique(c: seq<string>, r: seq<string>, q: seq<string>)
    requires Ascending(c, r) && Ascending(c, q) && forall x :: x in r <==> x in q
    ensures r == q
    decreases |r|
  {
    SameMembersEmpty(r, q);
    if r != [] {
      assert r[0] in q;
      var k :| 0 <= k < |q| && q[k] == r[0];
      assert q[0] in r;
      var j :| 0 <= j < |r| && r[j] == q[0];
      assert q[0] == r[0];
      forall x ensures x in r[1..] <==> x in q[1..] {
        AscendingTail(c, r, x);
        AscendingTail(c, q, x);
      }
      AscendingUnique(c, r[1..], q[1..]);
    }
  }

  /** Lists with the same members are empty together. */
  lemma SameMembersEmpty(r: seq<string>, q: seq<string>)
    requires forall x :: x in r <==> x in q
    ensures r == [] <==> q == []
  {
    if q != [] {
      assert q[0] in r;
    }
    if r != [] {
      assert r[0] in q;
    }
  }

  /** The tail of an ascending list is the list without its head. */
  lemma AscendingTail(c: seq<string>, r: seq<string>, x: string)
    requires Ascending(c, r) && r != []
    ensures Ascending(c, r[1..]) && (x in r[1..] <==> x in r && x != r[0])
  {
    if x in r[1..] {
      var i :| 0 <= i < |r[1..]| && r[1..][i] == x;
      assert r[i + 1] == x && Position(c, r[0]) < Position(c, r[i + 1]);
    }
    if x in r && x != r[0] {
      var i :| 0 <= i < |r| && r[i] == x;
      assert r[1..][i - 1] == x;
    }
  }

  /** Reindexing keeps exactly the active non-empty names. */
  lemma {:induction false} CompactMembers(t: Table, x: string)
    requires x != ""
    ensures x in Compact(t) <==> Active(t, x)
    decreases |t|
  {
    if t != [] {
      var init := t[..|t| - 1];
      CompactMembers(init, x);
      assert t == init + [t[|t| - 1]];
    }
  }

  /** Reindexing lists a consistent table's names in slot order, which is
      catalog order. */
  lemma {:induction false} CompactAscending(c: seq<string>, t: Table)
    requires Unique(c) && Listed(c, t)
    ensures forall k :: 0 <= k < |Compact(t)| ==> Compact(t)[k] in c && Position(c, Compact(t)[k]) < |t|
    ensures Ascending(c, Compact(t))
    decreases |t|
  {
    if t != [] {
      var init := t[..|t| - 1];
      assert Listed(c, init);
      CompactAscending(c, init);
      var last := t[|t| - 1];
      if last.Some? && last.value != "" {
        PositionOfListed(c, |t| - 1);
      }
    }
  }

  /** A non-empty name in slot 0 is the first name after reindexing. */
  lemma {:induction false} CompactHead(t: Table, x: string)
    requires |t| > 0 && t[0] == Some(x) && x != ""
    ensures |Compact(t)| > 0 && Compact(t)[0] == x
    decreases |t|
  {
    if |t| > 1 {
      CompactHead(t[..|t| - 1], x);
    }
  }

  /** A requested name that selects the whole catalog. */
  predicate RequestsAll(token: string) {
    Trim(token) != "" && Normalize(token) == "all"
  }

  predicate AnyAll(tokens: seq<string>) {
    exists k :: 0 <= k < |tokens| && RequestsAll(tokens[k])
  }

  /** Whether the parse takes a requested name into the table. */
  predicate Takes(v: Variant, c: seq<string>, token: string) {
    Trim(token) != "" && !RequestsAll(token) && Accepts(v, Find(c, Normalize(token)))
  }

  /** The requested names the parse takes, in request order. */
  function Taken(v: Variant, c: seq<string>, tokens: seq<string>): seq<string> {
    if tokens == [] then []
    else (if Takes(v, c, tokens[0]) then [Normalize(tokens[0])] else []) + Taken(v, c, tokens[1..])
  }

  /** The message for a requested name the parse refuses, if it does. */
  function RefusedOne(v: Variant, c: seq<string>, token: string): seq<string> {
    if Trim(token) != "" && !RequestsAll(token) && !Takes(v, c, token) then [InvalidModule(Normalize(token))] else []
  }

  /** The messages for requested names the parse refuses, in request order. */
  function Refused(v: Variant, c: seq<string>, tokens: seq<string>): seq<string> {
    if tokens == [] then [] else RefusedOne(v, c, tokens[0]) + Refused(v, c, tokens[1..])
  }

  /** One iteration of the parse loop, on the table. */
  lemma TokenTable(v: Variant, c: seq<string>, p: Parsed, token: string)
    requires Unique(c) && Listed(c, p.table)
    ensures var q := ParseToken(v, c, p, token);
      Listed(c, q.table) &&
      (forall x :: Active(q.table, x) <==> Active(p.table, x) || (Takes(v, c, token) && x == Normalize(token))) &&
      (|q.table| == 0 <==> |p.table| == 0 && !Takes(v, c, token))
  {
    if Takes(v, c, token) {
      StoreListed(c, p.table, Normalize(token));
    }
  }

  lemma AnyAllSplit(tokens: seq<string>)
    requires tokens != []
    ensures AnyAll(tokens) <==> RequestsAll(tokens[0]) || AnyAll(tokens[1..])
  {
    if AnyAll(tokens[1..]) {
      var k :| 0 <= k < |tokens[1..]| && RequestsAll(tokens[1..][k]);
      assert tokens[k + 1] == tokens[1..][k];
    }
    if AnyAll(tokens) && !RequestsAll(tokens[0]) {
      var k :| 0 <= k < |tokens| && RequestsAll(tokens[k]);
      assert tokens[1..][k - 1] == tokens[k];
    }
  }

  /** The parse loop's table holds exactly the names it takes. */
  lemma {:induction false} ParseTable(v: Variant, c: seq<string>, tokens: seq<string>, p: Parsed)
    requires Unique(c) && Listed(c, p.table)
    ensures var q := ParseFrom(v, c, tokens, p);
      Listed(c, q.table) &&
      (forall x :: Active(q.table, x) <==> Active(p.table, x) || x in Taken(v, c, tokens)) &&
      (|q.table| == 0 <==> |p.table| == 0 && |Taken(v, c, tokens)| == 0)
    decreases |tokens|
  {
    if tokens != [] {
      var p1 := ParseToken(v, c, p, tokens[0]);
      TokenTable(v, c, p, tokens[0]);
      ParseTable(v, c, tokens[1..], p1);
    }
  }

  /** One iteration of the parse loop, on the errors and the `all` flag. */
  lemma TokenFlags(v: Variant, c: seq<string>, p: Parsed, token: string)
    ensures var q := ParseToken(v, c, p, token);
      q.errors == p.errors + RefusedOne(v, c, token) &&
      (q.all <==> p.all || RequestsAll(token))
  {
  }

  lemma Associative(a: seq<string>, b: seq<string>, d: seq<string>)
    ensures (a + b) + d == a + (b + d)
  {
  }

  /** The parse loop's errors are the messages for the names it refuses. */
  lemma {:induction false} ParseErrors(v: Variant, c: seq<string>, tokens: seq<string>, p: Parsed)
    ensures ParseFrom(v, c, tokens, p).errors == p.errors + Refused(v, c, tokens)
    decreases |tokens|
  {
    if tokens != [] {
      var p1 := ParseToken(v, c, p, tokens[0]);
      TokenFlags(v, c, p, tokens[0]);
      ParseErrors(v, c, tokens[1..], p1);
      Associative(p.errors, RefusedOne(v, c, tokens[0]), Refused(v, c, tokens[1..]));
    }
  }

  /** The parse loop's `all` flag is set when any requested name is `all`. */
  lemma {:induction false} ParseAll(v: Variant, c: seq<string>, tokens: seq<string>, p: Parsed)
    ensures ParseFrom(v, c, tokens, p).all <==> p.all || AnyAll(tokens)
    decreases |tokens|
  {
    if tokens != [] {
      var p1 := ParseToken(v, c, p, tokens[0]);
      TokenFlags(v, c, p, tokens[0]);
      ParseAll(v, c, tokens[1..], p1);
      AnyAllSplit(tokens);
    }
  }

  /** The table after the parse and the `all` replacement, described by the
      requested names. */
  lemma SelectionFacts(v: Variant, c: seq<string>, tokens: seq<string>)
    requires Unique(c)
    ensures Listed(c, Selection(v, c, tokens))
    ensures forall x :: Active(Selection(v, c, tokens), x) <==> if AnyAll(tokens) then x in c else x in Taken(v, c, tokens)
    ensures |Selection(v, c, tokens)| == 0 <==> if AnyAll(tokens) then |c| == 0 else |Taken(v, c, tokens)| == 0
    ensures Parse(v, c, tokens).errors == Refused(v, c, tokens)
  {
    var p := Parse(v, c, tokens);
    ParseTable(v, c, tokens, Parsed([], false, []));
    ParseErrors(v, c, tokens, Parsed([], false, []));
    ParseAll(v, c, tokens, Parsed([], false, []));
    if AnyAll(tokens) {
      WholeCatalogFacts(c);
    } else {
      assert Selection(v, c, tokens) == p.table;
    }
  }

  lemma WholeCatalogFacts(c: seq<string>)
    ensures Listed(c, WholeCatalog(c))
    ensures forall x :: Active(WholeCatalog(c), x) <==> x in c
  {
    var w := WholeCatalog(c);
    forall x | x in c ensures Active(w, x) {
      var i :| 0 <= i < |c| && c[i] == x;
      assert w[i] == Some(x);
    }
  }

  /** The selection names nothing. */
  predicate NothingSelected(v: Variant, c: seq<string>, tokens: seq<string>) {
    if AnyAll(tokens) then |c| == 0 else |Taken(v, c, tokens)| == 0
  }

  /** The selection includes a loader. */
  predicate LoaderSelected(v: Variant, c: seq<string>, tokens: seq<string>) {
    if AnyAll(tokens) then "css-loader" in c || "js-loader" in c
    else "css-loader" in Taken(v, c, tokens) || "js-loader" in Taken(v, c, tokens)
  }

  /** The validation gate, in terms of the requested names: nothing selected,
      then no loader, then the refused names, in that order; otherwise the
      request resolves. */
  lemma ResolveGate(v: Variant, c: seq<string>, tokens: seq<string>, debug: bool)
    requires Unique(c)
    ensures Resolve(v, c, tokens, debug) == Rejected(NoModules) <==> NothingSelected(v, c, tokens)
    ensures Resolve(v, c, tokens, debug) == Rejected(MissingLoaderModule) <==>
      !NothingSelected(v, c, tokens) && !LoaderSelected(v, c, tokens)
    ensures Resolve(v, c, tokens, debug) == Rejected(InvalidModules(Refused(v, c, tokens))) <==>
      !NothingSelected(v, c, tokens) && LoaderSelected(v, c, tokens) && Refused(v, c, tokens) != []
    ensures Resolve(v, c, tokens, debug).Resolved? <==>
      !NothingSelected(v, c, tokens) && LoaderSelected(v, c, tokens) && Refused(v, c, tokens) == []
  {
    SelectionLoaders(v, c, tokens);
    GateOutcome(v, c, tokens, debug);
    GateCases(Selection(v, c, tokens), Parse(v, c, tokens).errors, Resolve(v, c, tokens, debug),
      NothingSelected(v, c, tokens), LoaderSelected(v, c, tokens), Refused(v, c, tokens));
  }

  /** The selection is empty, or holds a loader, as the requested names say. */
  lemma SelectionLoaders(v: Variant, c: seq<string>, tokens: seq<string>)
    requires Unique(c)
    ensures var t := Selection(v, c, tokens);
      (|t| == 0 <==> NothingSelected(v, c, tokens)) &&
      (Active(t, "css-loader") || Active(t, "js-loader") <==> LoaderSelected(v, c, tokens)) &&
      Parse(v, c, tokens).errors == Refused(v, c, tokens)
  {
    SelectionFacts(v, c, tokens);
  }

  /** The gate's first-match order, read on an outcome that follows it. */
  lemma GateCases(t: Table, errors: seq<string>, r: Outcome, nothing: bool, loader: bool, refused: seq<string>)
    requires (r.Rejected? <==> Gate(t, errors).Some?) && (Gate(t, errors).Some? ==> r == Rejected(Gate(t, errors).value))
    requires (|t| == 0 <==> nothing) && (Active(t, "css-loader") || Active(t, "js-loader") <==> loader)
    requires errors == refused
    ensures r == Rejected(NoModules) <==> nothing
    ensures r == Rejected(MissingLoaderModule) <==> !nothing && !loader
    ensures r == Rejected(InvalidModules(refused)) <==> !nothing && loader && refused != []
    ensures r.Resolved? <==> !nothing && loader && refused == []
  {
  }

  /** `generate` rejects exactly when the gate matches. */
  lemma GateOutcome(v: Variant, c: seq<string>, tokens: seq<string>, debug: bool)
    ensures var g := Gate(Selection(v, c, tokens), Parse(v, c, tokens).errors);
      (Resolve(v, c, tokens, debug).Rejected? <==> g.Some?) &&
      (g.Some? ==> Resolve(v, c, tokens, debug) == Rejected(g.value))
  {
  }

  /** The walk's own rules, on the resolved list: what was requested brings
      what the walk adds for it. */
  predicate WalkRulesHold(c: seq<string>, t: Table, r: seq<string>) {
    (Active(t, "inview") || Active(t, "responsive") ==> "timing" in r) &&
    (Active(t, "localstorage") || Active(t, "cache-api") ==> "cache" in r) &&
    (Active(t, "capture") ==> "capture-insert" in r || "capture-observer" in r) &&
    (Active(t, "dependency") || Active(t, "capture") ==> "regex" in r) &&
    (Active(t, "timing") || Active(t, "capture-observer") ==> "vendor" in r) &&
    (forall j :: 0 <= j < |c| && StartsWith(c[j], "capture-") && Active(t, c[j]) ==> "capture" in r)
  }

  /** The walk rules are about membership only: a smaller start and a larger
      result keep them. */
  lemma RulesMono(c: seq<string>, t0: Table, t1: Table, w: Table, e: Table, i: nat)
    requires Sub(t0, t1) && Sub(w, e) && WalkRulesDone(c, t1, w, i)
    ensures WalkRulesDone(c, t0, e, i)
  {
  }

  /** What the debug activation, the walk and the bootstrap slot do to a
      consistent table. */
  lemma ExpandedFacts(v: Variant, c: seq<string>, t: Table, debug: bool)
    requires CatalogOk(c) && Listed(c, t)
    ensures var e := Expanded(v, c, t, debug);
      Listed(c, e) && Sub(t, e) && |e| > 0 && e[0] == Some(BOOTSTRAP) &&
      (debug ==> Active(e, "debug")) &&
      (forall n :: n in Triggers && Active(e, n) && !Exempt(v, debug, n) ==> Needs(v, e, n)) &&
      WalkRulesDone(c, t, e, |c|) &&
      forall y :: Active(e, y) ==> y == BOOTSTRAP || Active(t, y) || (debug && y == "debug") || Brought(t, e, y)
  {
    ExpandedExplained(v, c, t, debug);
    var t1 := if debug then Activate(v, c, t, "debug") else t;
    if debug {
      ActivateFacts(v, c, t, "debug");
    }
    assert Listed(c, t1) && Sub(t, t1);
    assert WalkInv(v, debug, c, t1, t1, 0);
    WalkFromInv(v, debug, c, t1, t1, 0);
    var w := WalkFrom(v, debug, c, t1, 0);
    Bootstrap(v, debug, c, t1, w);
    var e := Store(w, 0, BOOTSTRAP);
    assert e == Expanded(v, c, t, debug);
    RulesMono(c, t, t1, w, e, |c|);
  }

  /** The expansion holds the bootstrap module, the selection, `debug` under
      the debug option, and modules a rule brought; nothing else. */
  lemma ExpandedExplained(v: Variant, c: seq<string>, t: Table, debug: bool)
    requires CatalogOk(c) && Listed(c, t)
    ensures var e := Expanded(v, c, t, debug);
      forall y :: Active(e, y) ==> y == BOOTSTRAP || Active(t, y) || (debug && y == "debug") || Brought(t, e, y)
  {
    var t1 := if debug then Activate(v, c, t, "debug") else t;
    DebugStart(v, c, t, debug);
    WalkExplained(v, debug, c, t1);
    var w := WalkFrom(v, debug, c, t1, 0);
    PositionOfListed(c, 0);
    StoreListed(c, w, BOOTSTRAP);
    var e := Store(w, 0, BOOTSTRAP);
    assert e == Expanded(v, c, t, debug);
    forall y | Active(e, y) && y != BOOTSTRAP && !Active(t, y) && !(debug && y == "debug")
      ensures Brought(t, e, y)
    {
      if !Active(t1, y) {
        BroughtGrows(t1, w, e, y);
        BroughtBase(t1, t, e, y);
      }
    }
  }

  /** The debug option activates `debug` and what its rule brings. */
  lemma DebugStart(v: Variant, c: seq<string>, t: Table, debug: bool)
    requires CatalogOk(c) && Listed(c, t)
    ensures var t1 := if debug then Activate(v, c, t, "debug") else t;
      Listed(c, t1) && Sub(t, t1) && (debug ==> Active(t1, "debug")) &&
      (forall y :: Active(t1, y) ==> Active(t, y) || (debug && (y == "debug" || y == "event-emitter"))) &&
      (HasCaptureMethod(t1) ==> HasCaptureMethod(t))
  {
    if debug {
      DebugAdds(v, c, t, "debug");
    }
  }

  /** `add_module('debug')`, with the name passed in so that the rules are not
      unfolded on the literal. */
  lemma DebugAdds(v: Variant, c: seq<string>, t: Table, n: string)
    requires CatalogOk(c) && Listed(c, t) && n == "debug"
    ensures var t1 := Activate(v, c, t, n);
      Listed(c, t1) && Sub(t, t1) && Active(t1, n) &&
      (forall y :: Active(t1, y) ==> Active(t, y) || y == n || y == "event-emitter") &&
      (HasCaptureMethod(t1) ==> HasCaptureMethod(t))
  {
    var t1 := Activate(v, c, t, n);
    ActivateFacts(v, c, t, n);
    forall y | Brings(v, t, n, y) ensures y == "event-emitter" {
      DebugBrings(v, t, n, y);
    }
    CaptureMethodsKept(t, t1, n, "event-emitter");
  }

  /** Adding two modules that are not `capture-*` modules adds no `capture-*`
      module. */
  lemma CaptureMethodsKept(t: Table, t1: Table, a: string, b: string)
    requires forall y :: Active(t1, y) ==> Active(t, y) || y == a || y == b
    requires a in {"debug", "event-emitter"} && b in {"debug", "event-emitter"}
    ensures HasCaptureMethod(t1) ==> HasCaptureMethod(t)
  {
    if HasCaptureMethod(t1) {
      var m :| StartsWith(m, "capture-") && Active(t1, m);
      assert m[0] == 'c' && m[7] == '-';
      assert Active(t, m);
    }
  }

  lemma DebugBrings(v: Variant, t: Table, n: string, y: string)
    requires n == "debug" && Brings(v, t, n, y)
    ensures y == "event-emitter"
  {
  }

  /** The walk adds only what the rules bring. */
  lemma WalkExplained(v: Variant, debug: bool, c: seq<string>, t1: Table)
    requires CatalogOk(c) && Listed(c, t1)
    ensures var w := WalkFrom(v, debug, c, t1, 0);
      Listed(c, w) && Sub(t1, w) && Explained(t1, w)
  {
    assert WalkInv(v, debug, c, t1, t1, 0);
    WalkFromInv(v, debug, c, t1, t1, 0);
  }

  /** A starting table with fewer `capture-*` modules gives fewer reasons. */
  lemma BroughtBase(t1: Table, t: Table, u: Table, y: string)
    requires Brought(t1, u, y) && (HasCaptureMethod(t1) ==> HasCaptureMethod(t))
    ensures Brought(t, u, y)
  {
  }

  /** The bootstrap module neither cascades nor loads. */
  lemma BootstrapInert()
    ensures BOOTSTRAP !in Triggers && !IsLoader(BOOTSTRAP)
  {
  }

  /** Forcing `async-core` into slot 0 after the walk. */
  lemma Bootstrap(v: Variant, debug: bool, c: seq<string>, t1: Table, w: Table)
    requires CatalogOk(c) && WalkInv(v, debug, c, t1, w, |c|)
    ensures var e := Store(w, 0, BOOTSTRAP);
      Listed(c, e) && Sub(w, e) && |e| > 0 && e[0] == Some(BOOTSTRAP) &&
      (forall n :: n in Triggers && Active(e, n) && !Exempt(v, debug, n) ==> Needs(v, e, n))
  {
    BootstrapInert();
    PositionOfListed(c, 0);
    StoreListed(c, w, BOOTSTRAP);
    var e := Store(w, 0, BOOTSTRAP);
    assert LoadersKept(w, e);
    forall n | n in Triggers && Active(e, n) && !Exempt(v, debug, n) ensures Needs(v, e, n) {
      assert Active(w, n);
      var j :| 0 <= j < |w| && w[j] == Some(n);
      assert n in c;
      Keeps(v, w, e, n);
    }
  }

  /** A resolved request is the reindexed expansion of its selection. */
  lemma ResolvedTable(v: Variant, c: seq<string>, tokens: seq<string>, debug: bool)
    requires Resolve(v, c, tokens, debug).Resolved?
    ensures Resolve(v, c, tokens, debug).modules == Compact(Expanded(v, c, Selection(v, c, tokens), debug))
  {
    GateOutcome(v, c, tokens, debug);
  }

  /** Membership in the resolved list is activity in the expanded table. */
  lemma ResolvedMembers(v: Variant, c: seq<string>, tokens: seq<string>, debug: bool)
    requires CatalogOk(c) && Resolve(v, c, tokens, debug).Resolved?
    ensures var e := Expanded(v, c, Selection(v, c, tokens), debug);
      forall x :: x != "" ==> (x in Resolve(v, c, tokens, debug).modules <==> Active(e, x))
  {
    ResolvedTable(v, c, tokens, debug);
    var e := Expanded(v, c, Selection(v, c, tokens), debug);
    forall x | x != "" ensures x in Compact(e) <==> Active(e, x) {
      CompactMembers(e, x);
    }
  }

  /** A resolved bundle starts with `async-core`. */
  lemma ResolvedHead(v: Variant, c: seq<string>, tokens: seq<string>, debug: bool)
    requires CatalogOk(c) && Resolve(v, c, tokens, debug).Resolved?
    ensures |Resolve(v, c, tokens, debug).modules| > 0 && Resolve(v, c, tokens, debug).modules[0] == BOOTSTRAP
  {
    var t := Selection(v, c, tokens);
    SelectionFacts(v, c, tokens);
    ExpandedFacts(v, c, t, debug);
    ResolvedTable(v, c, tokens, debug);
    CompactHead(Expanded(v, c, t, debug), BOOTSTRAP);
  }

  /** A resolved bundle lists catalog modules in ascending catalog order, so no
      module appears twice. */
  lemma ResolvedOrder(v: Variant, c: seq<string>, tokens: seq<string>, debug: bool)
    requires CatalogOk(c) && Resolve(v, c, tokens, debug).Resolved?
    ensures var r := Resolve(v, c, tokens, debug).modules;
      Ascending(c, r) && (forall k :: 0 <= k < |r| ==> r[k] in c) &&
      forall a, b :: 0 <= a < b < |r| ==> r[a] != r[b]
  {
    var t := Selection(v, c, tokens);
    SelectionFacts(v, c, tokens);
    ExpandedFacts(v, c, t, debug);
    ResolvedTable(v, c, tokens, debug);
    CompactAscending(c, Expanded(v, c, t, debug));
  }

  /** Reindexing a consistent table keeps each active name. */
  lemma CompactKeeps(c: seq<string>, t: Table, e: Table)
    requires CatalogOk(c) && Listed(c, t) && Sub(t, e)
    ensures forall x :: Active(t, x) ==> x in Compact(e)
  {
    forall x | Active(t, x) ensures x in Compact(e) {
      var j :| 0 <= j < |t| && t[j] == Some(x);
      assert x == c[j];
      CompactMembers(e, x);
    }
  }

  /** Everything selected is in the bundle, and so is `debug` under the debug
      option. */
  lemma ResolvedKeepsSelection(v: Variant, c: seq<string>, tokens: seq<string>, debug: bool)
    requires CatalogOk(c) && Resolve(v, c, tokens, debug).Resolved?
    ensures var r := Resolve(v, c, tokens, debug).modules;
      (forall x :: Active(Selection(v, c, tokens), x) ==> x in r) && (debug ==> "debug" in r)
  {
    var t := Selection(v, c, tokens);
    SelectionFacts(v, c, tokens);
    ExpandedFacts(v, c, t, debug);
    var e := Expanded(v, c, t, debug);
    ResolvedTable(v, c, tokens, debug);
    CompactKeeps(c, t, e);
    CompactMembers(e, "debug");
  }

  /** Nothing is in a resolved bundle without a reason: every module is the
      bootstrap module, a selected module, `debug` under the debug option, or
      one a rule brought because the modules that rule tests are in the bundle. */
  lemma ResolvedExplained(v: Variant, c: seq<string>, tokens: seq<string>, debug: bool)
    requires CatalogOk(c) && Resolve(v, c, tokens, debug).Resolved?
    ensures AllExplained(Selection(v, c, tokens), Resolve(v, c, tokens, debug).modules, debug)
  {
    var s := Selection(v, c, tokens);
    SelectionFacts(v, c, tokens);
    ExpandedFacts(v, c, s, debug);
    var e := Expanded(v, c, s, debug);
    ResolvedMembers(v, c, tokens, debug);
    var r := Resolve(v, c, tokens, debug).modules;
    forall x | x in r ensures x != "" {
      ResolvedNonEmpty(v, c, tokens, debug, x);
    }
    ListedNonEmpty(c, e);
    ExplainedCarries(s, e, r, debug);
  }

  /** A listed table of a catalog without empty names holds no empty name. */
  lemma ListedNonEmpty(c: seq<string>, e: Table)
    requires CatalogOk(c) && Listed(c, e)
    ensures forall x :: Active(e, x) ==> x != ""
  {
    forall x | Active(e, x) ensures x != "" {
      var j :| 0 <= j < |e| && e[j] == Some(x);
      assert x == c[j];
    }
  }

  /** The reasons of the expanded table carry over to its compacted list. */
  lemma ExplainedCarries(s: Table, e: Table, r: seq<string>, debug: bool)
    requires forall x :: x != "" ==> (x in r <==> Active(e, x))
    requires forall x :: x in r ==> x != ""
    requires forall x :: Active(e, x) ==> x != ""
    requires forall y :: Active(e, y) ==> y == BOOTSTRAP || Active(s, y) || (debug && y == "debug") || Brought(s, e, y)
    ensures AllExplained(s, r, debug)
  {
    assert Sub(e, Dense(r));
    forall x | x in r ensures x == BOOTSTRAP || Active(s, x) || (debug && x == "debug") || Brought(s, Dense(r), x) {
      if !(x == BOOTSTRAP || Active(s, x) || (debug && x == "debug")) {
        BroughtGrows(s, e, Dense(r), x);
      }
    }
  }

  /** Every module of `r` has a reason. */
  ghost predicate AllExplained(s: Table, r: seq<string>, debug: bool) {
    forall x :: x in r ==> x == BOOTSTRAP || Active(s, x) || (debug && x == "debug") || Brought(s, Dense(r), x)
  }

  /** The cascade targets of `add_module` come only with their conditions. */
  lemma CascadeTargetsOnlyIf(s: Table, r: seq<string>, debug: bool)
    requires AllExplained(s, r, debug)
    ensures "event-emitter" in r ==> Active(s, "event-emitter") || "api" in r || "debug" in r || "dependency" in r || "cache" in r
    ensures "cache-css" in r ==> Active(s, "cache-css") || ("cache" in r && "css-loader" in r)
    ensures "cache-js" in r ==> Active(s, "cache-js") || ("cache" in r && "js-loader" in r)
    ensures "capture-css" in r ==> Active(s, "capture-css") || ("capture" in r && "css-loader" in r)
    ensures "capture-js" in r ==> Active(s, "capture-js") || ("capture" in r && "js-loader" in r)
  {
  }

  /** The modules the walk adds come only with their conditions. */
  lemma WalkTargetsOnlyIf(s: Table, r: seq<string>, debug: bool)
    requires AllExplained(s, r, debug)
    ensures "timing" in r ==> Active(s, "timing") || "inview" in r || "responsive" in r
    ensures "cache" in r ==> Active(s, "cache") || "localstorage" in r || "cache-api" in r
    ensures "capture-insert" in r ==> Active(s, "capture-insert") || "capture" in r
    ensures "capture" in r ==> Active(s, "capture") || HasCaptureMethod(s)
    ensures "regex" in r ==> Active(s, "regex") || "dependency" in r || "capture" in r
    ensures "vendor" in r ==> Active(s, "vendor") || "timing" in r || "capture-observer" in r
  {
  }

  /** A resolved bundle holds catalog names only, so no empty name. */
  lemma ResolvedNonEmpty(v: Variant, c: seq<string>, tokens: seq<string>, debug: bool, x: string)
    requires CatalogOk(c) && Resolve(v, c, tokens, debug).Resolved? && x in Resolve(v, c, tokens, debug).modules
    ensures x != "" && x in c
  {
    ResolvedOrder(v, c, tokens, debug);
  }

  /** Two tables with the same active non-empty names satisfy the same rules. */
  lemma SameNeeds(v: Variant, t: Table, u: Table, n: string)
    requires forall x :: x != "" ==> (Active(t, x) <==> Active(u, x))
    ensures Needs(v, t, n) <==> Needs(v, u, n)
  {
    assert Active(t, "event-emitter") <==> Active(u, "event-emitter");
    assert Active(t, "css-loader") <==> Active(u, "css-loader");
    assert Active(t, "js-loader") <==> Active(u, "js-loader");
    assert Active(t, "cache-css") <==> Active(u, "cache-css");
    assert Active(t, "cache-js") <==> Active(u, "cache-js");
    assert Active(t, "capture-css") <==> Active(u, "capture-css");
    assert Active(t, "capture-js") <==> Active(u, "capture-js");
    assert Active(t, "vendor") <==> Active(u, "vendor");
    assert Active(t, "regex") <==> Active(u, "regex");
  }

  /** Reindexing keeps the cascade rules that held on the table. */
  lemma CompactCascades(v: Variant, debug: bool, e: Table)
    requires forall n :: n in Triggers && Active(e, n) && !Exempt(v, debug, n) ==> Needs(v, e, n)
    ensures forall n :: n in Triggers && n in Compact(e) && !Exempt(v, debug, n) ==> Needs(v, Dense(Compact(e)), n)
  {
    var r := Compact(e);
    forall x | x != "" ensures x in r <==> Active(e, x) {
      CompactMembers(e, x);
    }
    forall n | n in Triggers && n in r && !Exempt(v, debug, n) ensures Needs(v, Dense(r), n) {
      assert n != "";
      SameNeeds(v, e, Dense(r), n);
    }
  }

  /** The bundle is closed under the cascade rules: for every module in it that
      cascades, what the rule requires is in it too (the Node copy's ignored
      `debug` module excepted). */
  lemma ResolvedCascades(v: Variant, c: seq<string>, tokens: seq<string>, debug: bool)
    requires CatalogOk(c) && Resolve(v, c, tokens, debug).Resolved?
    ensures var r := Resolve(v, c, tokens, debug).modules;
      forall n :: n in Triggers && n in r && !Exempt(v, debug, n) ==> Needs(v, Dense(r), n)
    ensures var r := Resolve(v, c, tokens, debug).modules; var s := Selection(v, c, tokens);
      ("event-emitter" in r ==> Active(s, "event-emitter") || "api" in r || "debug" in r || "dependency" in r || "cache" in r) &&
      ("cache-css" in r ==> Active(s, "cache-css") || ("cache" in r && "css-loader" in r)) &&
      ("cache-js" in r ==> Active(s, "cache-js") || ("cache" in r && "js-loader" in r)) &&
      ("capture-css" in r ==> Active(s, "capture-css") || ("capture" in r && "css-loader" in r)) &&
      ("capture-js" in r ==> Active(s, "capture-js") || ("capture" in r && "js-loader" in r))
  {
    ResolvedExplained(v, c, tokens, debug);
    CascadeTargetsOnlyIf(Selection(v, c, tokens), Resolve(v, c, tokens, debug).modules, debug);
    var t := Selection(v, c, tokens);
    SelectionFacts(v, c, tokens);
    ExpandedFacts(v, c, t, debug);
    ResolvedTable(v, c, tokens, debug);
    CompactCascades(v, debug, Expanded(v, c, t, debug));
  }

  /** The walk's own rules hold on the bundle for every selected module. */
  lemma ResolvedWalkRules(v: Variant, c: seq<string>, tokens: seq<string>, debug: bool)
    requires CatalogOk(c) && Resolve(v, c, tokens, debug).Resolved?
    ensures WalkRulesHold(c, Selection(v, c, tokens), Resolve(v, c, tokens, debug).modules)
    ensures var r := Resolve(v, c, tokens, debug).modules; var s := Selection(v, c, tokens);
      ("timing" in r ==> Active(s, "timing") || "inview" in r || "responsive" in r) &&
      ("cache" in r ==> Active(s, "cache") || "localstorage" in r || "cache-api" in r) &&
      ("capture-insert" in r ==> Active(s, "capture-insert") || "capture" in r) &&
      ("capture" in r ==> Active(s, "capture") || HasCaptureMethod(s)) &&
      ("regex" in r ==> Active(s, "regex") || "dependency" in r || "capture" in r) &&
      ("vendor" in r ==> Active(s, "vendor") || "timing" in r || "capture-observer" in r)
  {
    ResolvedExplained(v, c, tokens, debug);
    WalkTargetsOnlyIf(Selection(v, c, tokens), Resolve(v, c, tokens, debug).modules, debug);
    var t := Selection(v, c, tokens);
    SelectionFacts(v, c, tokens);
    ExpandedFacts(v, c, t, debug);
    ResolvedMembers(v, c, tokens, debug);
    var e := Expanded(v, c, t, debug);
    assert WalkRulesDone(c, t, e, |c|);
    assert Position(c, "inview") < |c| && Position(c, "responsive") < |c|;
    assert Position(c, "localstorage") < |c| && Position(c, "cache-api") < |c|;
    assert Position(c, "capture") < |c| && Position(c, "regex") < |c| && Position(c, "vendor") < |c|;
  }

  /** A request that names a loader and no unknown module always resolves. */
  lemma LoaderRequestResolves(v: Variant, c: seq<string>, tokens: seq<string>, debug: bool)
    requires CatalogOk(c) && LoaderSelected(v, c, tokens) && Refused(v, c, tokens) == []
    ensures Resolve(v, c, tokens, debug).Resolved?
  {
    if !AnyAll(tokens) {
      assert |Taken(v, c, tokens)| > 0;
    }
    assert !NothingSelected(v, c, tokens);
    ResolveGate(v, c, tokens, debug);
  }
  /** `add_module` of a name the catalog does not list and no rule names:
      the name lands in slot 0, over whatever was there. */
  lemma UnlistedLandsInZero(v: Variant, c: seq<string>, t: Table, x: string)
    requires x !in c && x !in Triggers
    ensures Activate(v, c, t, x) == Store(t, 0, x)
  {
    ActivatePlain(v, c, t, x);
  }

  /** The requested names the parse takes are empty when every one of them
      is unknown to the catalog. */
  lemma {:induction false} TakenNone(v: Variant, c: seq<string>, tokens: seq<string>)
    requires forall k :: 0 <= k < |tokens| ==> Normalize(tokens[k]) !in c
    ensures Taken(v, c, tokens) == []
  {
    if tokens != [] {
      assert Normalize(tokens[0]) !in c;
      assert !Takes(v, c, tokens[0]);
      TakenNone(v, c, tokens[1..]);
    }
  }

  /** A request of unknown names only, without `all`, selects nothing and is
      rejected with `NoModules`, whatever the refused names are. */
  lemma OnlyUnknownRejects(v: Variant, c: seq<string>, tokens: seq<string>, debug: bool)
    requires Unique(c)
    requires forall k :: 0 <= k < |tokens| ==> !RequestsAll(tokens[k]) && Normalize(tokens[k]) !in c
    ensures Resolve(v, c, tokens, debug) == Rejected(NoModules)
  {
    TakenNone(v, c, tokens);
    ResolveGate(v, c, tokens, debug);
  }

  /** A refused name always rejects the request, even next to `all`. */
  lemma ErrorsReject(v: Variant, c: seq<string>, tokens: seq<string>, debug: bool)
    requires Unique(c) && Refused(v, c, tokens) != []
    ensures Resolve(v, c, tokens, debug).Rejected?
  {
    ResolveGate(v, c, tokens, debug);
  }
}
