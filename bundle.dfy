/** Format selection and the text of the bundle: the module sources joined in
    resolved order, optionally wrapped in a function taking `window`. */
module Bundle {
  import opened Text

  datatype Format = Unary | Wrap | NoWrap

  /** `options.format`, lower-cased, kept when it is `unary` or `wrap`; any
      other value, and a missing or empty option, select no wrapper. */
  function SelectFormat(option: string): (f: Format)
    ensures f == Unary <==> Lower(option) == "unary"
    ensures f == Wrap <==> Lower(option) == "wrap"
  {
    if option == "" then NoWrap
    else if Lower(option) == "unary" then Unary
    else if Lower(option) == "wrap" then Wrap
    else NoWrap
  }

  function Prefix(f: Format): string {
    match f
    case Wrap => "(function(window){"
    case Unary => "!function(window){"
    case NoWrap => ""
  }

  function Suffix(f: Format): string {
    match f
    case Wrap => "})(window);"
    case Unary => "}(window);"
    case NoWrap => ""
  }

  /** The source text pushed for one module; an absent source is `undefined`,
      which `Array.prototype.join` renders as the empty string. */
  function SourceOf(sources: map<string, string>, m: string): string {
    if m in sources then sources[m] else ""
  }

  /** The module sources concatenated in order. */
  function Joined(modules: seq<string>, sources: map<string, string>): string {
    if modules == [] then "" else Joined(modules[..|modules| - 1], sources) + SourceOf(sources, modules[|modules| - 1])
  }

  /** The bundle text: prefix, sources, suffix. */
  function Iife(f: Format, modules: seq<string>, sources: map<string, string>): string {
    Prefix(f) + Joined(modules, sources) + Suffix(f)
  }

  /** `pieces.join('')`. */
  function Concat(pieces: seq<string>): string {
    if pieces == [] then "" else Concat(pieces[..|pieces| - 1]) + pieces[|pieces| - 1]
  }

  /** The `iife` array of the source: the prefix, each module's source and the
      suffix are pushed in turn, then joined. */
  method Assemble(f: Format, modules: seq<string>, sources: map<string, string>) returns (text: string)
    ensures text == Iife(f, modules, sources)
  {
    var pieces: seq<string> := [];
    if f != NoWrap {
      pieces := [Prefix(f)];
    }
    for i := 0 to |modules|
      invariant Concat(pieces) == Prefix(f) + Joined(modules[..i], sources)
    {
      PushSource(f, modules, sources, pieces, i);
      pieces := pieces + [SourceOf(sources, modules[i])];
    }
    PushSuffix(f, modules, sources, pieces);
    if f != NoWrap {
      pieces := pieces + [Suffix(f)];
    }
    text := Concat(pieces);
  }

  /** One iteration of the loop over the modules. */
  lemma PushSource(f: Format, modules: seq<string>, sources: map<string, string>, pieces: seq<string>, i: nat)
    requires i < |modules| && Concat(pieces) == Prefix(f) + Joined(modules[..i], sources)
    ensures Concat(pieces + [SourceOf(sources, modules[i])]) == Prefix(f) + Joined(modules[..i + 1], sources)
  {
    ConcatPush(pieces, SourceOf(sources, modules[i]));
    JoinedPush(modules, i, sources);
    AppendAssoc(Prefix(f), Joined(modules[..i], sources), SourceOf(sources, modules[i]));
  }

  lemma AppendAssoc(a: string, b: string, c: string)
    ensures (a + b) + c == a + (b + c)
  {
  }

  /** The suffix closes the bundle. */
  lemma PushSuffix(f: Format, modules: seq<string>, sources: map<string, string>, pieces: seq<string>)
    requires Concat(pieces) == Prefix(f) + Joined(modules[..|modules|], sources)
    ensures Concat(if f != NoWrap then pieces + [Suffix(f)] else pieces) == Iife(f, modules, sources)
  {
    assert modules[..|modules|] == modules;
    ConcatPush(pieces, Suffix(f));
  }

  lemma ConcatPush(pieces: seq<string>, x: string)
    ensures Concat(pieces + [x]) == Concat(pieces) + x
  {
    assert (pieces + [x])[..|pieces|] == pieces;
  }

  lemma JoinedPush(modules: seq<string>, i: nat, sources: map<string, string>)
    requires i < |modules|
    ensures Joined(modules[..i + 1], sources) == Joined(modules[..i], sources) + SourceOf(sources, modules[i])
  {
    assert modules[..i + 1][..i] == modules[..i];
  }

  // ---------------------------------------------------------------------
  // Properties

  lemma LowerIdempotent(s: string)
    ensures Lower(Lower(s)) == Lower(s)
  {
  }

  /** The option is matched without regard to case: two spellings that agree
      once lower-cased select the same format. */
  lemma SelectFormatCase(option: string)
    ensures SelectFormat(Lower(option)) == SelectFormat(option)
  {
    LowerIdempotent(option);
  }

  /** Joining distributes over concatenating module lists. */
  lemma {:induction false} JoinedAppend(a: seq<string>, b: seq<string>, sources: map<string, string>)
    ensures Joined(a + b, sources) == Joined(a, sources) + Joined(b, sources)
    decreases |b|
  {
    if b == [] {
      assert a + b == a;
    } else {
      var n := |b| - 1;
      assert (a + b)[..|a + b| - 1] == a + b[..n];
      assert (a + b)[|a + b| - 1] == b[n];
      JoinedAppend(a, b[..n], sources);
    }
  }

  /** The joined sources are those of the modules before module `i`, module
      `i`'s own source and those of the modules after it. */
  lemma JoinedSplit(modules: seq<string>, sources: map<string, string>, i: nat)
    requires i < |modules|
    ensures Joined(modules, sources) ==
      Joined(modules[..i], sources) + SourceOf(sources, modules[i]) + Joined(modules[i + 1..], sources)
  {
    var upto, after := modules[..i + 1], modules[i + 1..];
    assert modules == upto + after;
    JoinedAppend(upto, after, sources);
    JoinedPush(modules, i, sources);
  }

  /** The bundle is the prefix, the sources of the modules before module `i`,
      module `i`'s own source, the sources of the modules after it, and the
      suffix, in this order. */
  lemma IifeLayout(f: Format, modules: seq<string>, sources: map<string, string>, i: nat)
    requires i < |modules|
    ensures Iife(f, modules, sources) ==
      Prefix(f) + Joined(modules[..i], sources) + SourceOf(sources, modules[i]) +
      Joined(modules[i + 1..], sources) + Suffix(f)
  {
    JoinedSplit(modules, sources, i);
  }
}
