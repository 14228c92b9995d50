/** The module dependency resolver as functions of its inputs: the activation
    table, `add_module` with its cascades, the parse of the requested names, the
    validation gate, the catalog walk and the final compaction.  Both copies of
    the generator are described at once; `Variant` tells them apart. */
module Resolver {
  import opened Catalog
  import opened Text

  /** `iife.js` (the class-based Node generator) or `iife-browser.js`. */
  datatype Variant = Node | Browser

  /** A sparse JavaScript array of module names: slot i is catalog position i,
      `None` is a hole, and `|t|` is the array's `length`. */
  type Table = seq<Option<string>>

  /** `t[i] = name` on a JavaScript array: the array grows to `i + 1` slots when
      needed, and the new slots in between are holes. */
  function Store(t: Table, i: nat, name: string): (r: Table)
    ensures |r| == if i < |t| then |t| else i + 1
    ensures r[i] == Some(name)
    ensures forall j :: 0 <= j < |r| && j != i ==> r[j] == if j < |t| then t[j] else None
  {
    if i < |t| then t[i := Some(name)] else t + seq(i - |t|, _ => None) + [Some(name)]
  }

  /** `modules.indexOf(name) !== -1`: some slot holds the name. */
  predicate Active(t: Table, name: string) {
    Some(name) in t
  }

  /** Names whose activation cascades; every cascade target is outside this set,
      which is why the cascade terminates. */
  const Triggers: set<string> := {"api", "debug", "dependency", "cache", "capture", "timing", "capture-observer"}

  function Rank(name: string): nat {
    if name in Triggers then 1 else 0
  }

  /** `add_module(name)`: write the name to its slot, then apply the cascade
      rules in the order the source tests them. */
  function Activate(v: Variant, c: seq<string>, t: Table, name: string): Table
    decreases Rank(name), 1
  {
    var t0 := Store(t, Position(c, name), name);
    RegexRule(v, c, VendorRule(v, c, CaptureRule(v, c, CacheRule(v, c, EmitterRule(v, c, t0, name), name), name), name), name)
  }

  /** `api`, `debug` and `dependency` need `event-emitter`. */
  function EmitterRule(v: Variant, c: seq<string>, t: Table, name: string): Table
    decreases Rank(name), 0
  {
    if name in {"api", "debug", "dependency"} then Activate(v, c, t, "event-emitter") else t
  }

  /** `cache` needs `cache-css` when the CSS loader is active, `cache-js` when
      the JS loader is active, and `event-emitter`. */
  function CacheRule(v: Variant, c: seq<string>, t: Table, name: string): Table
    decreases Rank(name), 0
  {
    if name == "cache" then
      var a := if Active(t, "css-loader") then Activate(v, c, t, "cache-css") else t;
      var b := if Active(a, "js-loader") then Activate(v, c, a, "cache-js") else a;
      Activate(v, c, b, "event-emitter")
    else t
  }

  /** `capture` needs `capture-css` / `capture-js` with the matching loader. */
  function CaptureRule(v: Variant, c: seq<string>, t: Table, name: string): Table
    decreases Rank(name), 0
  {
    if name == "capture" then
      var a := if Active(t, "css-loader") then Activate(v, c, t, "capture-css") else t;
      if Active(a, "js-loader") then Activate(v, c, a, "capture-js") else a
    else t
  }

  /** Browser copy only: `timing` and `capture-observer` need `vendor`. */
  function VendorRule(v: Variant, c: seq<string>, t: Table, name: string): Table
    decreases Rank(name), 0
  {
    if v == Browser && name in {"timing", "capture-observer"} then Activate(v, c, t, "vendor") else t
  }

  /** Browser copy only: `dependency` and `capture` need `regex`. */
  function RegexRule(v: Variant, c: seq<string>, t: Table, name: string): Table
    decreases Rank(name), 0
  {
    if v == Browser && name in {"dependency", "capture"} then Activate(v, c, t, "regex") else t
  }

  /** The message pushed for a requested name that is not in the catalog. */
  function InvalidModule(m: string): string {
    m + " is not a valid module. See package.json#_modules for a list of valid modules."
  }

  /** A requested name after `trim()` and `toLowerCase()`. */
  function Normalize(token: string): string {
    Lower(Trim(token))
  }

  /** What the parse loop accumulates: the sparse table of listed names, the
      `all` flag and the error messages. */
  datatype Parsed = Parsed(table: Table, all: bool, errors: seq<string>)

  /** Whether the parser takes a match at catalog index `found`: Node tests
      `found === false`, the browser copy tests `!found`, which also rejects 0. */
  predicate Accepts(v: Variant, found: Option<nat>) {
    match found
    case None => false
    case Some(i) => v == Node || i != 0
  }

  /** One iteration of the parse loop. */
  function ParseToken(v: Variant, c: seq<string>, p: Parsed, token: string): Parsed {
    var trimmed := Trim(token);
    if trimmed == "" then p
    else
      var m := Lower(trimmed);
      if m == "all" then p.(all := true)
      else
        var found := Find(c, m);
        if Accepts(v, found) then p.(table := Store(p.table, found.value, m))
        else p.(errors := p.errors + [InvalidModule(m)])
  }

  /** The parse loop over the requested names, left to right. */
  function ParseFrom(v: Variant, c: seq<string>, tokens: seq<string>, p: Parsed): Parsed
    decreases |tokens|
  {
    if tokens == [] then p else ParseFrom(v, c, tokens[1..], ParseToken(v, c, p, tokens[0]))
  }

  function Parse(v: Variant, c: seq<string>, tokens: seq<string>): Parsed {
    ParseFrom(v, c, tokens, Parsed([], false, []))
  }

  /** The dense array `all` selects: every catalog name in catalog order. */
  function WholeCatalog(c: seq<string>): Table {
    seq(|c|, i requires 0 <= i < |c| => Some(c[i]))
  }

  /** The table after the parse and the `all` replacement. */
  function Selection(v: Variant, c: seq<string>, tokens: seq<string>): Table {
    var p := Parse(v, c, tokens);
    if p.all then WholeCatalog(c) else p.table
  }

  /** The `add_module` calls one walk step makes: none, one, or two in a row.
      Every condition of the step reads the table as the step finds it. */
  datatype Calls = NoCall | Call(x: string) | CallTwo(x: string, y: string)

  /** Which calls the walk makes for the catalog module `name`: a loader is
      re-added when active, `regex` and `vendor` when a module that needs them
      is active, and any other active module is re-added after the module its
      walk rule brings (Node skips `debug` without the debug option). */
  function StepCalls(v: Variant, debug: bool, t: Table, name: string): Calls {
    if name == "css-loader" || name == "js-loader" then
      if Active(t, name) then Call(name) else NoCall
    else if name == "regex" then
      if Active(t, "dependency") || Active(t, "capture") then Call(name) else NoCall
    else if name == "vendor" then
      if Active(t, "timing") || Active(t, "capture-observer") then Call(name) else NoCall
    else if !Active(t, name) then NoCall
    else if v == Node && name == "debug" && !debug then NoCall
    else if name == "inview" || name == "responsive" then CallTwo("timing", name)
    else if name == "localstorage" || name == "cache-api" then CallTwo("cache", name)
    else if name == "capture" then
      if !Active(t, "capture-insert") && !Active(t, "capture-observer") then CallTwo("capture-insert", name)
      else Call(name)
    else if StartsWith(name, "capture-") && !Active(t, "capture") then CallTwo("capture", name)
    else Call(name)
  }

  /** The calls made in order. */
  function Apply(v: Variant, c: seq<string>, t: Table, calls: Calls): Table {
    match calls
    case NoCall => t
    case Call(x) => Activate(v, c, t, x)
    case CallTwo(x, y) => Activate(v, c, Activate(v, c, t, x), y)
  }

  /** The walk step for the catalog module `name`. */
  function WalkStep(v: Variant, debug: bool, c: seq<string>, t: Table, name: string): Table {
    Apply(v, c, t, StepCalls(v, debug, t, name))
  }

  /** The walk over catalog positions `i..`. */
  function WalkFrom(v: Variant, debug: bool, c: seq<string>, t: Table, i: nat): Table
    decreases |c| - i
  {
    if i >= |c| then t else WalkFrom(v, debug, c, WalkStep(v, debug, c, t, c[i]), i + 1)
  }

  /** The reindexing loop: every slot holding a (truthy) name, in slot order. */
  function Compact(t: Table): (r: seq<string>)
    ensures |r| <= |t|
  {
    if t == [] then []
    else
      var last := t[|t| - 1];
      Compact(t[..|t| - 1]) + if last.Some? && last.value != "" then [last.value] else []
  }

  /** The three ways `generate` rejects. */
  datatype Failure = NoModules | MissingLoaderModule | InvalidModules(messages: seq<string>)

  datatype Outcome = Resolved(modules: seq<string>) | Rejected(failure: Failure)

  /** The validation gate, first match wins. */
  function Gate(t: Table, errors: seq<string>): Option<Failure> {
    if |t| == 0 then Some(NoModules)
    else if !Active(t, "css-loader") && !Active(t, "js-loader") then Some(MissingLoaderModule)
    else if |errors| > 0 then Some(InvalidModules(errors))
    else None
  }

  /** The table once the gate has passed: debug activation, the walk and the
      bootstrap module forced into slot 0. */
  function Expanded(v: Variant, c: seq<string>, t: Table, debug: bool): Table {
    var t1 := if debug then Activate(v, c, t, "debug") else t;
    Store(WalkFrom(v, debug, c, t1, 0), 0, BOOTSTRAP)
  }

  /** The resolution half of `generate`. */
  function Resolve(v: Variant, c: seq<string>, tokens: seq<string>, debug: bool): Outcome {
    var t := Selection(v, c, tokens);
    match Gate(t, Parse(v, c, tokens).errors)
    case Some(f) => Rejected(f)
    case None => Resolved(Compact(Expanded(v, c, t, debug)))
  }
}
