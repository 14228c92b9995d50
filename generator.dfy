/** The generator object: the requested names, the options and the sparse
    `modules` array that `add_module` overwrites slot by slot.  Its methods are
    proved against the functions of module `Resolver`. */
module Generator {
  import opened Catalog
  import opened Text
  import opened Resolver
  import opened Bundle

  /** What `generate` settles with: the bundle, or one of the rejections. */
  datatype Generated = Generated(modules: seq<string>, text: string) | Failed(failure: Failure)

  class Generator {
    const variant: Variant
    /** The names of `pack._modules`, in catalog order. */
    const catalog: seq<string>
    /** The module names as the caller passed them. */
    const requested: seq<string>
    const debug: bool
    const format: Format
    /** The generator's `modules` array. */
    var modules: Table

    constructor (variant: Variant, catalog: seq<string>, requested: seq<string>, debugOption: bool, formatOption: string)
      ensures this.variant == variant && this.catalog == catalog && this.requested == requested
      ensures debug == debugOption && format == SelectFormat(formatOption)
      ensures modules == []
    {
      this.variant := variant;
      this.catalog := catalog;
      this.requested := requested;
      this.debug := debugOption;
      this.format := SelectFormat(formatOption);
      this.modules := [];
    }

    /** The `forEach` over the catalog that records every index whose name matches. */
    method Lookup(name: string) returns (found: Option<nat>)
      ensures found == Find(catalog, name)
    {
      found := None;
      for i := 0 to |catalog|
        invariant found == Find(catalog[..i], name)
      {
        assert catalog[..i + 1][..i] == catalog[..i];
        if catalog[i] == name {
          found := Some(i);
        }
      }
      assert catalog[..|catalog|] == catalog;
    }

    /** `is_active(name)`: a scan of the modules array. */
    method IsActive(name: string) returns (b: bool)
      ensures b <==> Active(modules, name)
    {
      b := false;
      var i := 0;
      while i < |modules|
        invariant 0 <= i <= |modules|
        invariant b <==> Some(name) in modules[..i]
      {
        assert modules[..i + 1] == modules[..i] + [modules[i]];
        if modules[i] == Some(name) {
          b := true;
        }
        i := i + 1;
      }
      assert modules[..i] == modules;
    }

    /** `add_module(name)`. */
    method AddModule(name: string)
      modifies this
      ensures modules == Activate(variant, catalog, old(modules), name)
      decreases Rank(name), 1
    {
      var found := Lookup(name);
      var index := if found.Some? then found.value else 0;
      modules := Store(modules, index, name);
      EmitterCascade(name);
      CacheCascade(name);
      CaptureCascade(name);
      VendorCascade(name);
      RegexCascade(name);
    }

    /** The `event-emitter` dependency of `add_module`. */
    method EmitterCascade(name: string)
      modifies this
      ensures modules == EmitterRule(variant, catalog, old(modules), name)
      decreases Rank(name), 0
    {
      if name in {"api", "debug", "dependency"} {
        AddModule("event-emitter");
      }
    }

    /** The `cache` branch of `add_module`. */
    method CacheCascade(name: string)
      modifies this
      ensures modules == CacheRule(variant, catalog, old(modules), name)
      decreases Rank(name), 0
    {
      if name == "cache" {
        var css := IsActive("css-loader");
        if css {
          AddModule("cache-css");
        }
        var js := IsActive("js-loader");
        if js {
          AddModule("cache-js");
        }
        AddModule("event-emitter");
      }
    }

    /** The `capture` branch of `add_module`. */
    method CaptureCascade(name: string)
      modifies this
      ensures modules == CaptureRule(variant, catalog, old(modules), name)
      decreases Rank(name), 0
    {
      if name == "capture" {
        var css := IsActive("css-loader");
        if css {
          AddModule("capture-css");
        }
        var js := IsActive("js-loader");
        if js {
          AddModule("capture-js");
        }
      }
    }

    /** Browser copy: `timing` and `capture-observer` pull in `vendor`. */
    method VendorCascade(name: string)
      modifies this
      ensures modules == VendorRule(variant, catalog, old(modules), name)
      decreases Rank(name), 0
    {
      if variant == Browser && (name == "timing" || name == "capture-observer") {
        AddModule("vendor");
      }
    }

    /** Browser copy: `dependency` and `capture` pull in `regex`. */
    method RegexCascade(name: string)
      modifies this
      ensures modules == RegexRule(variant, catalog, old(modules), name)
      decreases Rank(name), 0
    {
      if variant == Browser && (name == "dependency" || name == "capture") {
        AddModule("regex");
      }
    }

    /** One iteration of the walk over the catalog, for the module `name`. */
    /** The tests of one walk step, made on the table as the step finds it. */
    method StepPlan(name: string) returns (calls: Calls)
      ensures calls == StepCalls(variant, debug, modules, name)
    {
      if name == "css-loader" || name == "js-loader" {
        var active := IsActive(name);
        calls := if active then Call(name) else NoCall;
      } else if name == "regex" {
        var dependency := IsActive("dependency");
        var capture := IsActive("capture");
        calls := if dependency || capture then Call(name) else NoCall;
      } else if name == "vendor" {
        var timing := IsActive("timing");
        var observer := IsActive("capture-observer");
        calls := if timing || observer then Call(name) else NoCall;
      } else {
        var active := IsActive(name);
        if !active {
          calls := NoCall;
        } else if variant == Node && name == "debug" && !debug {
          // a requested debug module is ignored without the debug option
          calls := NoCall;
        } else if name == "inview" || name == "responsive" {
          calls := CallTwo("timing", name);
        } else if name == "localstorage" || name == "cache-api" {
          calls := CallTwo("cache", name);
        } else if name == "capture" {
          var insert := IsActive("capture-insert");
          var observer := IsActive("capture-observer");
          calls := if !insert && !observer then CallTwo("capture-insert", name) else Call(name);
        } else {
          var capture := IsActive("capture");
          calls := if StartsWith(name, "capture-") && !capture then CallTwo("capture", name) else Call(name);
        }
      }
    }

    /** One iteration of the walk: the `add_module` calls the step's tests chose. */
    method VisitModule(name: string)
      modifies this
      ensures modules == WalkStep(variant, debug, catalog, old(modules), name)
    {
      var calls := StepPlan(name);
      match calls
      case NoCall =>
      case Call(x) =>
        AddModule(x);
      case CallTwo(x, y) =>
        AddModule(x);
        AddModule(y);
    }

    /** The parse loop: fills a fresh sparse array with the listed names. */
    method ParseRequested() returns (p: Parsed)
      ensures p == Parse(variant, catalog, requested)
    {
      p := Parsed([], false, []);
      for k := 0 to |requested|
        invariant ParseFrom(variant, catalog, requested[k..], p) == Parse(variant, catalog, requested)
      {
        assert requested[k..][1..] == requested[k + 1..];
        var m := Trim(requested[k]);
        if m != "" {
          m := Lower(m);
          if m == "all" {
            p := p.(all := true);
          } else {
            var found := Lookup(m);
            if Accepts(variant, found) {
              p := p.(table := Store(p.table, found.value, m));
            } else {
              p := p.(errors := p.errors + [InvalidModule(m)]);
            }
          }
        }
      }
    }

    /** The `all` selection: the modules array becomes the whole catalog. */
    method SelectAll()
      modifies this
      ensures modules == WholeCatalog(catalog)
    {
      modules := [];
      for i := 0 to |catalog|
        invariant modules == WholeCatalog(catalog[..i])
      {
        modules := modules + [Some(catalog[i])];
      }
      assert catalog[..|catalog|] == catalog;
    }

    /** The `forEach` over the catalog that folds in conditional modules. */
    method Walk()
      modifies this
      ensures modules == WalkFrom(variant, debug, catalog, old(modules), 0)
    {
      for i := 0 to |catalog|
        invariant WalkFrom(variant, debug, catalog, modules, i) == WalkFrom(variant, debug, catalog, old(modules), 0)
      {
        VisitModule(catalog[i]);
      }
    }

    /** The reindexing loop that drops the holes. */
    method Reindex() returns (compacted: seq<string>)
      ensures compacted == Compact(modules)
    {
      compacted := [];
      for j := 0 to |modules|
        invariant compacted == Compact(modules[..j])
      {
        assert modules[..j + 1][..j] == modules[..j];
        if modules[j].Some? && modules[j].value != "" {
          compacted := compacted + [modules[j].value];
        }
      }
      assert modules[..|modules|] == modules;
    }

    /** The parse and the `all` replacement: the modules array becomes the
        selection. */
    method Select() returns (p: Parsed)
      modifies this
      ensures p == Parse(variant, catalog, requested)
      ensures modules == Selection(variant, catalog, requested)
    {
      p := ParseRequested();
      modules := p.table;
      if p.all {
        SelectAll();
      }
    }

    /** Past the gate: the debug module, the walk and the bootstrap module in
        slot 0. */
    method Expand()
      modifies this
      ensures modules == Expanded(variant, catalog, old(modules), debug)
    {
      if debug {
        AddModule("debug");
      }
      Walk();
      modules := Store(modules, 0, BOOTSTRAP);
    }

    /** `generate()` up to the bundle text: parse, validate, walk, force the
        bootstrap module into slot 0, reindex and join the sources (the debug
        sources when the debug option is set). */
    method Generate(dist: map<string, string>, debugDist: map<string, string>) returns (r: Generated)
      modifies this
      ensures Resolve(variant, catalog, requested, debug).Rejected? ==> r == Failed(Resolve(variant, catalog, requested, debug).failure)
      ensures Resolve(variant, catalog, requested, debug).Resolved? ==>
        var ms := Resolve(variant, catalog, requested, debug).modules;
        r == Generated(ms, Iife(format, ms, if debug then debugDist else dist)) &&
        modules == seq(|ms|, i requires 0 <= i < |ms| => Some(ms[i]))
    {
      var p := Select();
      ghost var selected := modules;
      var css := IsActive("css-loader");
      var js := IsActive("js-loader");
      if |modules| == 0 || (!css && !js) || |p.errors| > 0 {
        var failure := if |modules| == 0 then NoModules
          else if !css && !js then MissingLoaderModule
          else InvalidModules(p.errors);
        Rejects(variant, catalog, requested, debug, failure);
        return Failed(failure);
      }
      Expand();
      Passes(variant, catalog, requested, debug, modules);
      var compacted := Reindex();
      modules := seq(|compacted|, i requires 0 <= i < |compacted| => Some(compacted[i]));
      var text := Assemble(format, compacted, if debug then debugDist else dist);
      r := Generated(compacted, text);
    }
  }

  /** The request is rejected with the failure the gate finds. */
  lemma Rejects(v: Variant, c: seq<string>, tokens: seq<string>, debug: bool, f: Failure)
    requires Gate(Selection(v, c, tokens), Parse(v, c, tokens).errors) == Some(f)
    ensures Resolve(v, c, tokens, debug) == Rejected(f)
  {
  }

  /** Once the gate passes, the result is the compacted expansion. */
  lemma Passes(v: Variant, c: seq<string>, tokens: seq<string>, debug: bool, e: Table)
    requires Gate(Selection(v, c, tokens), Parse(v, c, tokens).errors) == None
    requires e == Expanded(v, c, Selection(v, c, tokens), debug)
    ensures Resolve(v, c, tokens, debug) == Resolved(Compact(e))
  {
  }
}
