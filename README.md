# async-iife: the module resolver, the bundle wrapper and the config compressor

This project models the core of the async-iife generator for the Async CSS
Loader. It has three parts.

- **The module resolver.** The caller names some loader modules. The resolver
  normalises the names and finds each one in the package's module catalog. It
  rejects a request that selects nothing, that has no loader, or that names an
  unknown module. Otherwise it activates `debug` when the debug option is set,
  walks the catalog applying the dependency rules, forces `async-core` into
  slot 0 and compacts the sparse table into the ordered module list.
- **The bundle wrapper.** It concatenates the module sources in that order and
  wraps them as `(function(window){…})(window);` or `!function(window){…}(window);`,
  or leaves them unwrapped.
- **The config compressor.** It rewrites a loader configuration with a
  vocabulary index that maps words to integers. URLs lose a global base,
  vocabulary values become integers, vocabulary keys become their integers'
  numerals, and the top-level array drops an empty capture slot.

There are two copies of the generator, the Node class in `iife.js` and the
browser closure in `iife-browser.js`. The resolver is modelled once, and a
`Variant` parameter (`Node` or `Browser`) selects where the copies differ:

- The browser copy also cascades: `timing` and `capture-observer` bring
  `vendor`, and `dependency` and `capture` bring `regex`.
- The browser parser tests `!found`, so it also rejects a name found at
  catalog index 0 (`async-core`). The Node parser tests `found === false`.
- When the debug option is off, the Node walk ignores a requested `debug`.
  Its slot stays filled, so `debug` is bundled without `event-emitter`.

## Layout

- **`text.dfy` (`Text`)**: `trim`, `toLowerCase` on A–Z, `indexOf(p) === 0`, and the decimal numeral of a number.
- **`catalog.dfy` (`Catalog`)**: the catalog lookup that a `forEach` leaves behind. It finds the last matching index.
- **`resolver.dfy` (`Resolver`)**: the sparse module table and `add_module` with its cascade rules. Also the parse, the gate, one walk step, the walk, the bootstrap slot, the reindex and the whole resolution. All are functions.
- **`resolver_properties.dfy` (`ResolverProperties`)**: the properties of resolution, proved for every catalog consistent with the package (see Left out).
- **`resolver_examples.dfy` (`ResolverExamples`)**: worked resolutions on a small catalog, and the generator tests' lone-loader and storage requests on every consistent catalog, for both copies.
- **`generator.dfy` (`Generator`)**: the generator object with its `modules` array. Its methods update the array in place and are proved against the `Resolver` functions.
- **`bundle.dfy` (`Bundle`)**: the format option and the `iife` array that is pushed and joined.
- **`value.dfy` (`ConfigValue`)**: the JSON-like value, its truthiness, and the key order used for objects.
- **`vocabulary.dfy` (`Vocabulary`)**: `load_index` flattening the groups into running numbers, and `index(key, exists)`.
- **`compressor.dfy` (`Compressor`)**: `compress` as functions, and the loops of the source as methods proved against them.
- **`compressor_properties.dfy` (`CompressorProperties`)** and **`renaming.dfy` (`Renaming`)**: what `compress` does to arrays, strings and members, and the key renaming of the object loop.
- **`compressor_examples.dfy` (`CompressorExamples`)**: the three compression cases asserted in `test/specs/tests.js`. They are taken as the intended outputs of the browser compressor: the test file loads `iife.js`, which exports no `compress`, and the browser `compress` resolves to a JSON string, so the test could not observe these values as written.

## Model

| member | source | states |
|---|---|---|
| Text.TrimStart | iife.js:161 | trimming the front removes exactly the leading white space: the rest is a suffix of the name that starts with a non-space character |
| Text.TrimEnd | iife.js:161 | trimming the back removes exactly the trailing white space: the rest is a prefix of the name that ends with a non-space character |
| Text.Trim | iife.js:161 | the trimmed name is empty or starts and ends with a non-space character |
| Text.TrimSlice | iife.js:161 | `trim()` returns the slice of the name that remains after removing white space only, in front and behind: every character before the slice and every character after it is white space |
| Text.Lower | iife.js:163 | lower-casing keeps the length and maps each Latin capital to its small letter, leaving every other character as it is |
| Text.Numeral | iife-browser.js:185 | the property name an integer key becomes is a non-empty string of decimal digits with no leading zero |
| Text.NumeralValue | iife-browser.js:185 | the property name reads back, digit by digit, as the integer it was made from |
| Renaming.NumeralInjective | iife-browser.js:184-188 | two different integers never produce the same property name |
| Catalog.Find | iife.js:169-174 | the lookup finds nothing exactly when the name is not in the catalog; otherwise it finds the last index that holds the name |
| Catalog.PositionOfListed | iife.js:79-84 | in a catalog without repeats, every listed name is found at its own index |
| Resolver.Store | iife.js:85 | writing slot `i` grows the sparse table to cover `i`, fills `i` with the name, keeps every other slot and leaves new gaps empty |
| ResolverProperties.StoreListed | iife.js:85 | writing a listed name at its catalog index keeps every slot at its own catalog name and adds exactly that name |
| ResolverProperties.ActivateTarget | iife.js:78-112 | activating a cascade target (`event-emitter`, `cache-css`, `cache-js`, `capture-css`, `capture-js`, `vendor`, `regex`) only stores it |
| ResolverProperties.ActivateTiming | iife-browser.js:297-299 | in the browser copy, activating `timing` stores it and then activates `vendor`; in the Node copy it only stores it |
| ResolverProperties.AddTarget | iife.js:78-112 | a cascade target adds exactly itself to the active names |
| ResolverProperties.EmitterFacts | iife.js:87-90 | after the first rule, `api`, `debug` and `dependency` have `event-emitter`; a name is active afterwards exactly when it was before or it is `event-emitter` added for one of those three |
| ResolverProperties.CacheFacts | iife.js:92-101 | after the cache rule, `cache` has `event-emitter`, `cache-css` with the CSS loader and `cache-js` with the JS loader; a name is active afterwards exactly when it was before or the rule is for `cache` and the name is `event-emitter`, or `cache-css`/`cache-js` with its loader active |
| ResolverProperties.CaptureFacts | iife.js:103-111 | after the capture rule, `capture` has `capture-css` with the CSS loader and `capture-js` with the JS loader; a name is active afterwards exactly when it was before or the rule is for `capture` and the name is `capture-css`/`capture-js` with its loader active |
| ResolverProperties.VendorFacts | iife-browser.js:296-299 | in the browser copy, `timing` and `capture-observer` have `vendor` after the vendor rule; a name is active afterwards exactly when it was before or it is `vendor` added, in the browser copy only, for one of those two |
| ResolverProperties.RegexFacts | iife-browser.js:301-303 | in the browser copy, `dependency` and `capture` have `regex` after the regex rule; a name is active afterwards exactly when it was before or it is `regex` added, in the browser copy only, for one of those two |
| ResolverProperties.ActivateFacts | iife.js:78-112 | `add_module(n)` makes `n` active, keeps everything active, leaves every rule for `n` satisfied, and a name is active afterwards exactly when it was before, is `n`, or is a target of a rule of `n` whose condition holds |
| ResolverProperties.ActivateExactly | iife.js:78-112 | the active names after `add_module(n)` are exactly the old ones, `n`, and the targets the rules of `n` bring: `event-emitter` for `api`/`debug`/`dependency`/`cache`, `cache-css`/`cache-js` for `cache` and `capture-css`/`capture-js` for `capture` with their loader, and in the browser copy `vendor` and `regex` |
| ResolverProperties.StoreAgain | iife.js:85 | storing a name that is already active changes nothing |
| ResolverProperties.ActivateSettled | iife.js:78-112 | adding a module that is active and whose rules already hold changes nothing |
| ResolverProperties.ActivateIdempotent | iife.js:78-112 | adding the same module twice gives the same table as adding it once |
| ResolverProperties.ActivatePlaces | iife-browser.js:261-268 | after `add_module(n)` the slot at `n`'s catalog index holds `n` |
| ResolverProperties.Once | iife.js:78-112 | one activation keeps the loaders unchanged, satisfies the rules of the module added, and adds no cascading module other than it |
| ResolverProperties.Twice | iife.js:234-236 | two activations in a row (a walk rule's module, then the visited one) satisfy the rules of both and add no other cascading module |
| ResolverProperties.CallsFacts | iife.js:207-268 | when a walk step makes no call, the visited name is inactive, exempt or not cascading; a single call re-adds the visited name; two calls add a non-loader first |
| ResolverProperties.ApplyFacts | iife.js:207-268 | the calls of a walk step keep the table listed, keep what was active, add no loader, and every cascading module they add has its rules satisfied |
| ResolverProperties.StepFacts | iife.js:207-268 | one walk step keeps the table listed, adds no loader, satisfies the rules of what it adds, and satisfies those of an active, non-exempt visited trigger |
| ResolverProperties.TimingStep | iife.js:232-241 | visiting an active `inview` or `responsive` activates `timing` |
| ResolverProperties.CacheStep | iife.js:242-251 | visiting an active `localstorage` or `cache-api` activates `cache` |
| ResolverProperties.CaptureStep | iife.js:252-258 | visiting an active `capture` leaves `capture-insert` or `capture-observer` active |
| ResolverProperties.CaptureFamilyStep | iife.js:259-266 | visiting an active `capture-…` module activates `capture` |
| ResolverProperties.RegexStep | iife.js:214-219 | visiting `regex` activates `regex` if and only if `dependency` or `capture` is active, and adds nothing else |
| ResolverProperties.VendorStep | iife.js:221-226 | visiting `vendor` activates `vendor` if and only if `timing` or `capture-observer` is active, and adds nothing else |
| ResolverProperties.StepCascades | iife.js:207-268 | one walk step keeps the rules of every cascading module visited so far satisfied |
| ResolverProperties.StepWalkRules | iife.js:207-268 | after visiting position `i`, every walk rule of a module at a position up to `i` holds for the table the walk started from |
| ResolverProperties.StepExplained | iife.js:207-268 | one walk step adds only names a rule brings: each name active afterwards was active at the start of the walk or has a reason among the active names |
| ResolverProperties.WalkStepInv | iife.js:207-268 | one walk step preserves the walk invariant: listed, monotone, no new loader, every added name brought by a rule, cascades and walk rules satisfied so far |
| ResolverProperties.WalkFromInv | iife.js:207-268 | the whole walk ends with every walk rule of a module of the starting table satisfied, and every cascade rule except that of a Node `debug` without the option; every name it added is brought by a rule whose condition holds in the final table. A module the walk adds itself can miss its walk rule: a Node `timing` added after `vendor` was passed gets no `vendor` (`ResolverExamples.NodeInview`) |
| ResolverProperties.Dense | iife.js:273-280 | a dense table built from a list holds exactly the names in the list |
| ResolverProperties.CompactMembers | iife.js:273-280 | reindexing keeps exactly the active non-empty names |
| ResolverProperties.CompactAscending | iife.js:273-280 | reindexing a listed table gives catalog names in strictly ascending catalog position |
| ResolverProperties.AscendingUnique | iife.js:270-280 | two lists in ascending catalog order with the same members are equal: the order of a resolved list is fixed by its members |
| ResolverProperties.CompactHead | iife.js:273-280 | a table whose slot 0 holds a non-empty name reindexes to a list that starts with it |
| ResolverProperties.TokenTable | iife.js:160-183 | one requested name is taken into the table exactly when it is non-blank, not `all` and accepted by the lookup, and the table stays listed |
| ResolverProperties.ParseTable | iife.js:160-184 | the parse loop adds exactly the names it takes to the table, keeps the table listed, and leaves it empty exactly when it was empty and nothing was taken |
| ResolverProperties.TokenFlags | iife.js:165-177 | one requested name appends its message exactly when it is refused and sets the `all` flag exactly when it is `all` |
| ResolverProperties.ParseErrors | iife-browser.js:311-334 | the parse reports the refused names' messages in request order |
| ResolverProperties.ParseAll | iife.js:160-183 | the parse sets `all` exactly when some requested name normalises to `all` |
| ResolverProperties.SelectionFacts | iife.js:184-192 | the selection is the whole catalog when `all` was requested and the taken names otherwise, and the errors are the refused names |
| ResolverProperties.WholeCatalogFacts | iife-browser.js:337-343 | `all` makes exactly the catalog names active, each at its own index |
| ResolverProperties.ResolveGate | iife.js:194-199 | rejects with `no_modules` exactly when nothing is selected, then `missing_loader_module` exactly when no loader is, then the refused names exactly when there are some; otherwise resolves |
| ResolverProperties.ExpandedExplained | iife.js:202-271 | every name active after debug activation, the walk and slot 0 is `async-core`, selected, `debug` under the option, or brought by a rule |
| ResolverProperties.ExpandedFacts | iife.js:202-271 | after debug activation, the walk and slot 0, the table keeps the selection, starts with `async-core`, holds `debug` when asked, satisfies every walk rule of a selected module and every cascade rule except that of a Node `debug` without the option, and holds nothing else without a reason |
| ResolverProperties.Bootstrap | iife.js:270-271 | forcing `async-core` into slot 0 keeps the table listed and every cascade rule satisfied except that of a Node `debug` without the option |
| ResolverProperties.ResolvedTable | iife.js:270-280 | a resolved request yields the reindexed expansion of its selection |
| ResolverProperties.ResolvedMembers | iife.js:273-280 | a module is in the resolved list exactly when it is active in the expansion |
| ResolverProperties.ResolvedHead | iife-browser.js:419-429 | every resolved list starts with `async-core` |
| ResolverProperties.ResolvedOrder | iife.js:273-280 | the resolved list holds catalog names in catalog order without duplicates |
| ResolverProperties.ResolvedKeepsSelection | iife.js:202-205 | every selected module is in the resolved list, and `debug` is when the debug option is set |
| ResolverProperties.ResolvedExplained | iife.js:202-280 | every module of a resolved list is `async-core`, selected, `debug` under the option, or brought by a rule whose triggering modules are in the list |
| ResolverProperties.ResolvedCascades | iife.js:78-112 | every cascading module in the resolved list, other than a Node `debug` without the option, has its dependencies in the list; and `event-emitter`, `cache-css`, `cache-js`, `capture-css` and `capture-js` are in it only when selected or when a module that brings them is (with the matching loader) |
| ResolverProperties.ResolvedWalkRules | iife.js:207-268 | the resolved list has `timing` for `inview`/`responsive`, `cache` for `localstorage`/`cache-api`, a capture method for `capture`, `regex`, `vendor` and `capture` where the walk requires them; and each of `timing`, `cache`, `capture-insert`, `regex` and `vendor` is in it only when selected or when a module that requires it is, `capture` only when selected or a `capture-…` module was selected |
| ResolverProperties.LoaderRequestResolves | iife.js:194-200 | a request that selects a loader and names no unknown module always resolves |
| ResolverProperties.UnlistedLandsInZero | iife.js:78-85 | `add_module` of a name the catalog does not list, and that no rule names, writes it to slot 0, over whatever slot 0 held |
| ResolverProperties.TakenNone | iife.js:161-180 | when every requested name is unknown to the catalog, the parse takes none of them |
| ResolverProperties.OnlyUnknownRejects | iife.js:194-195 | a request made only of unknown names, without `all`, is rejected with `no_modules`, ahead of the refused names |
| ResolverProperties.ErrorsReject | iife.js:186-199 | a request with a refused name is always rejected, even when `all` selects the whole catalog |
| ResolverExamples.LoaderAlone | test/specs/tests.js:75-133 | on every consistent catalog, a request of only `css-loader` (or only `js-loader`) resolves, in both copies, to exactly `async-core` and that loader |
| ResolverExamples.StorageMembers | test/specs/tests.js:137-147 | on every consistent catalog, `css-loader, localstorage, timing` resolves in both copies to a list in catalog order holding exactly `async-core`, `event-emitter`, `css-loader`, `vendor`, `cache`, `cache-css`, `localstorage` and `timing` |
| ResolverExamples.StorageAndTiming | test/specs/tests.js:137-147 | on a consistent catalog that orders those eight as the package does, the request resolves to exactly the list the test expects |
| ResolverExamples.GatePicked | iife.js:155-199 | requesting `css-loader, inview` on the small catalog selects those two and passes the gate |
| ResolverExamples.NodeInview | iife.js:155-280 | the Node copy resolves `css-loader, inview` to `async-core, css-loader, timing, inview`, without `vendor`, because the walk has passed `vendor` when `timing` arrives |
| ResolverExamples.BrowserInview | iife-browser.js:311-429 | the browser copy resolves the same request to `async-core, css-loader, vendor, timing, inview` |
| Generator.Generator.constructor | iife.js:62-68 | the generator keeps the variant, the catalog, the requested names and the debug option, selects the format, and starts with an empty table. The source stores the raw request in `this.modules`; the model keeps it in `requested`, which is harmless because the parse reads the request from there and then replaces it with the table (iife.js:160-184) |
| Generator.Generator.Lookup | iife.js:169-174 | the index loop returns the catalog lookup of the name |
| Generator.Generator.IsActive | iife.js:74-76 | `is_active` holds exactly when the name fills some slot |
| Generator.Generator.AddModule | iife.js:78-112 | the recursive `add_module` leaves the table that the cascade function gives for the old table |
| Generator.Generator.EmitterCascade | iife.js:87-90 | the `event-emitter` block leaves the table of the first rule |
| Generator.Generator.CacheCascade | iife.js:92-101 | the `cache` block leaves the table of the cache rule |
| Generator.Generator.CaptureCascade | iife.js:103-111 | the `capture` block leaves the table of the capture rule |
| Generator.Generator.VendorCascade | iife-browser.js:296-299 | the browser `vendor` block leaves the table of the vendor rule |
| Generator.Generator.RegexCascade | iife-browser.js:301-303 | the browser `regex` block leaves the table of the regex rule |
| Generator.Generator.StepPlan | iife.js:210-267 | the branches of one walk turn choose the calls the step function specifies |
| Generator.Generator.VisitModule | iife.js:207-268 | one turn of the walk leaves the table of one walk step |
| Generator.Generator.ParseRequested | iife.js:160-183 | the parse loop builds the table, the `all` flag and the errors of the parse function |
| Generator.Generator.SelectAll | iife.js:186-192 | the `all` branch leaves the whole catalog, densely |
| Generator.Generator.Walk | iife.js:207-268 | the catalog walk leaves the table of the walk function |
| Generator.Generator.Reindex | iife.js:273-280 | the reindex loop returns the compacted table |
| Generator.Generator.Select | iife.js:155-192 | parse then `all` leave the selection as the table, with the parse's errors |
| Generator.Generator.Expand | iife.js:202-271 | debug activation, the walk and slot 0 leave the expanded table |
| Generator.Generator.Generate | iife.js:155-321 | `generate` rejects with the resolution's failure, or settles with the resolved list, and the bundle of the chosen format over the release or debug sources in that order |
| Generator.Rejects | iife.js:194-199 | a failed gate is the request's rejection |
| Generator.Passes | iife.js:200-280 | a passed gate resolves to the compacted expansion |
| Bundle.SelectFormat | iife.js:68 | the format is `unary` or `wrap` exactly when the option lower-cases to it, and `none` otherwise |
| Bundle.SelectFormatCase | iife-browser.js:259 | the option's letter case does not matter |
| Bundle.Assemble | iife.js:299-321 | pushing the prefix, each module's source and the suffix, then joining, gives prefix, sources in order, suffix |
| Bundle.JoinedAppend | iife.js:306-313 | the sources of two module lists joined in turn are the sources of the concatenated list |
| Bundle.JoinedSplit | iife-browser.js:453-455 | each module's source sits between the sources of the modules before it and after it |
| Bundle.IifeLayout | iife-browser.js:446-463 | every module's source appears in the bundle after the prefix and the sources of the modules before it, and before the later ones and the suffix |
| Vocabulary.LoadIndex | iife-browser.js:46-68 | the group loops number the flattened tokens from 0, a later occurrence overwriting an earlier one |
| Vocabulary.NumberedKeys | iife-browser.js:54-61 | the index has exactly the tokens of the groups as keys |
| Vocabulary.NumberedLast | iife-browser.js:57-58 | a token's number is the position of its last occurrence in the flattened groups |
| Vocabulary.NumberedInjective | iife-browser.js:57-58 | distinct tokens get distinct numbers |
| Vocabulary.FlattenAt | iife-browser.js:54-61 | token `i` of group `g` sits at the running count of the earlier groups plus `i` |
| Vocabulary.RunningCount | iife-browser.js:53-58 | without repeated tokens, token `i` of group `g` is numbered the running count of the earlier groups plus `i` |
| Vocabulary.IndexLoaded | iife-browser.js:46-68 | for the loaded index, a grouped token's number is its last position in the groups, and any other token is `false` or itself |
| Renaming.LoadedInjective | iife-browser.js:54-61 | the loaded index never gives two tokens the same number |
| ConfigValue.Least | iife-browser.js:133 | the least key of a non-empty set precedes every other key |
| ConfigValue.Enumerate | iife-browser.js:133 | the visiting order lists every key of the object exactly once, in strictly ascending order |
| Compressor.NormalBase | iife-browser.js:92-99 | the base stays empty exactly when it is empty; otherwise the result starts with the base, ends with a slash and is at most one character longer (the two exact cases are stated by CompressorProperties.NormalBaseIdempotent) |
| Compressor.Compress | iife-browser.js:71-199 | `null` gives an empty array, a falsy value is returned, and arrays, objects and strings keep their kind, booleans and numbers their value |
| Compressor.SubstituteItems | iife-browser.js:150-161 | the `source` loop over an array replaces each source token by its index and nothing else |
| Compressor.SubstituteFields | iife-browser.js:150-161 | the `source` loop over an object replaces each source token value by its index and keeps its keys |
| Compressor.CompressValue | iife-browser.js:71-199 | the imperative `compress` returns the value of the compress function |
| Compressor.CompressArray | iife-browser.js:101-128 | the array branch keeps exactly the slots the element loop did not delete, in order |
| Compressor.ElementLoop | iife-browser.js:102-124 | the element loop with its `nocapture` flag, its `break` and the slot-1 check leaves the slots the function specifies |
| Compressor.CompressObject | iife-browser.js:131-190 | the `for…in` loop computes the object pass |
| Compressor.VisitKey | iife-browser.js:134-188 | one key's iteration applies the steps and moves a vocabulary key to its numeral |
| Compressor.MemberSteps | iife-browser.js:135-182 | the four blocks of one member store `config[key]` exactly when one of them assigns it, with the final value |
| Compressor.StripEntry | iife-browser.js:137-143 | the `href`/`src` block strips the base from a string that starts with it |
| Compressor.SourceEntry | iife-browser.js:145-162 | the `source` block assigns a token's index or the substituted object, and assigns nothing otherwise |
| Compressor.DeepEntry | iife-browser.js:164-167 | the deep block compresses an object-typed value outside `proxy` and `attributes`, without a base |
| Compressor.TokenEntry | iife-browser.js:169-182 | the data block replaces a vocabulary string outside the literal keys by its index |
| CompressorProperties.NormalBaseIdempotent | iife-browser.js:92-99 | normalising the base twice is normalising it once; a slash is appended exactly when it is missing |
| CompressorProperties.StripRestores | iife-browser.js:140-142 | putting the base back in front of a stripped string restores it; a string not starting with the base is unchanged |
| CompressorProperties.StripPrefix | iife-browser.js:191-195 | the base followed by a path strips to the path |
| CompressorProperties.CompressString | iife-browser.js:191-195 | a string node loses the normalised base exactly when it starts with it, and is otherwise unchanged |
| CompressorProperties.SubstitutePlain | iife-browser.js:150-161 | substitution leaves a value without vocabulary words unchanged |
| CompressorProperties.CompressPlain | iife-browser.js:71-199 | without a base, a value that mentions no vocabulary word and has no empty capture slot compresses to itself at any depth |
| CompressorProperties.ArrayKept | iife-browser.js:101-119 | an array with a capture slot, or one compressed with the `deep` flag set, compresses element by element |
| CompressorProperties.ArrayPruned | iife-browser.js:105-128 | a top-level array with an empty capture slot keeps element 0, element 1 only when it compresses to something with keys, drops elements 2 and 3, and keeps elements 4.. uncompressed |
| CompressorProperties.FieldString | iife-browser.js:137-182 | a string member is stripped under `href`/`src`, and becomes its index when it is a vocabulary word outside the literal keys |
| CompressorProperties.FieldScalar | iife-browser.js:135-182 | booleans and numbers are never assigned |
| CompressorProperties.FieldSourceToken | iife-browser.js:146-149 | a `source` token is replaced by its index |
| CompressorProperties.FieldNested | iife-browser.js:145-167 | a nested member is substituted under `source`, then compressed without a base unless the key is `proxy` or `attributes` |
| CompressorProperties.ReadsDeep | iife-browser.js:71-128 | which values make `compress`, as declared, read the undeclared name `deep` (see Findings) |
| Renaming.Step | iife-browser.js:133-190 | for a vocabulary of words, one key of the object loop, visited in order, preserves the loop state: moved, removed, pending, settled and no stray keys |
| Renaming.PassState | iife-browser.js:133-190 | for a vocabulary of words, the loop state holds after every key has been visited |
| Renaming.ObjectRenames | iife-browser.js:184-188 | when every token is a word (its first character is above `9`) and tokens have distinct integers, the object pass moves the processed value of each vocabulary key to its numeral, leaves no vocabulary key, keeps other unshadowed keys with their kept value, and adds no other key |
| Renaming.CompressObjectRenames | iife-browser.js:131-190 | for a vocabulary of words, `compress` of an object performs exactly that renaming, with the normalised base |
| Renaming.Renamed | iife-browser.js:184-188 | for a vocabulary of words, an object of vocabulary keys compresses to the map with each key's numeral and processed value |
| Renaming.NoneRenamed | iife-browser.js:184-188 | for a vocabulary of words, an object without vocabulary keys keeps its keys, each with its kept value |
| Renaming.RenameOne | iife-browser.js:184-188 | for a vocabulary of words, one more vocabulary key adds one more numeral entry and changes nothing else |
| Renaming.KeepOne | iife-browser.js:184-188 | for a vocabulary of words, one more non-vocabulary key adds itself with its kept value and changes nothing else |
| Renaming.KeysStable | iife-browser.js:184-188 | for a vocabulary of words, a compressed object has no vocabulary key, so a second pass keeps its keys |
| CompressorExamples.SimpleHref | test/specs/tests.js:245-253 | `{href: "test.css"}` compresses to `{"4": "test.css"}` |
| CompressorExamples.ArrayWithBase | test/specs/tests.js:255-268 | the array of a CSS URL and a stylesheet compresses, with the base, to `["test1.css", {"4": "test2.css", "48": 54, "60": {"2": 62, "89": ".element-in-view"}}]` |
| CompressorExamples.LoaderConfig | test/specs/tests.js:270-299 | the five-element loader config compresses to the expected array, with `attributes` copied verbatim and `dependencies` not replaced |
| CompressorExamples.FiveElements | iife-browser.js:101-119 | a five-element array with a capture slot compresses element by element |
| CompressorExamples.RecompressChanges | iife-browser.js:169-188 | compressing `{href: "lazy"}` again changes the value: `"4"` is no literal key, so `"lazy"` becomes 62 |
| CompressorExamples.DeclaredArrayThrows | iife-browser.js:71-128 | as declared, both array cases of the tests read `deep`, and the plain object case does not |

## Left out

- I/O is replaced by parameters. This covers fetching and reading module sources, `package.json` and the compression index, the md5 result cache, writing the output file and its statistics, and the Closure Compiler request. The sources are maps from module name to text, and the catalog and vocabulary are values. Promises are not modelled: a rejection is a `Failed` result.
- The command-line tools `iife-cli.js` and `compress-cli.js` are not part of this model.
- The package's own catalog is a parameter. The resolver's properties are proved for every catalog that is consistent with the package: names unique and non-empty, `async-core` first, and every module that a rule names listed. The generator tests at `test/specs/tests.js:75-133` (a lone loader) and `test/specs/tests.js:137-147` are proved for all such catalogs (`ResolverExamples.LoaderAlone`, `ResolverExamples.StorageAndTiming`; the latter also needs the eight expected modules in the package's order). The other generator tests in `test/specs/tests.js:75-181` are not restated.
- JSON parsing and serialising are left out. A string node is never parsed as JSON (iife-browser.js:77-84), so a string that holds JSON is compressed as a string. The result is a value, not its `JSON.stringify` text.
- `for…in` order is modelled as ascending code-point order of the keys. JavaScript visits integer-like keys first, then keys in insertion order. Each key is read with the value it had when the loop began. Keys that the loop itself adds or moves are not visited again.
- Compressor.Compress: the source rewrites the caller's `config` in place (`delete config[i]`, `config[i] = …`, `data[_key] = …`, `config[key] = …`, `delete config[key]`, iife-browser.js:108-187), and the public `compress` hands it the caller's own object (iife-browser.js:518). The model computes a new value and leaves the argument unchanged, so it does not capture that the caller's object is rewritten, nor aliasing: a sub-object reachable twice (`[x, {a: o, b: o}]`) is compressed twice by the source and once per occurrence, from the original, by the model.
- Compressor.Compress: numbers are integers. Floating point, and any value that JSON cannot hold, are not modelled.
- The prototype chain is left out: `key in _index` sees only the loaded tokens, not names such as `constructor`.
- Text.Lower maps only A–Z. Other scripts are not case-mapped, and Text.Trim uses the ECMAScript white-space set.
- Catalog entries are modelled by their names (`mod[0]`), and `js_config` is a string.
- Requested names and the format option are strings. A non-string entry would throw at `module.trim()` (iife.js:161, iife-browser.js:312) and a non-string truthy `format` at `toLowerCase()` (iife.js:68, iife-browser.js:259); neither is modelled. The coercions before the generator, a non-array `modules` becoming `[]` (iife.js:54-56, iife-browser.js:237, 248-250) and a single string becoming a one-name list (iife.js:398-400), are taken as already done: the model receives a list of names.
- Generator.Generator.Generate ends with the bundle text. The cache lookup, the Closure Compiler step and the output file after it are I/O (see above).
- The `_index` memo of `load_index` is the `LoadIndex` result passed explicitly.
- Renaming.ObjectRenames and the other key-renaming results assume `Words`: every vocabulary token begins with a character above `9`, so no token is a numeral. This is an assumption about the compression index; `load_index` does not check it. Without it a numeral written by the loop could collide with a token key.
- `compress(config, js_config, global_base)` passes `js_config` in the base position and `global_base` in the `deep` position (iife-browser.js:518). The model follows the call. No second config is merged into the array.

## Notes on behaviour

- A second compression pass is not stable in general. It keeps the keys (`Renaming.KeysStable`), but a renamed key such as `"4"` is no longer a literal key. So a vocabulary word under it is replaced on the second pass (`CompressorExamples.RecompressChanges`).
- When a token appears in two vocabulary groups, the later occurrence wins (`Vocabulary.NumberedLast`).
- A nested object is compressed without the base, and the presence of the base becomes its `deep` flag (iife-browser.js:166). `href`/`src` inside nested objects therefore keep the base. An array nested in an object is treated as deep, so it keeps its capture slot, when a base is given; without one, a nested array is pruned like a top-level one.
- After the `break` at element 3 of a top-level array with an empty capture slot, elements 4 and later are kept uncompressed (`CompressorProperties.ArrayPruned`).

## Findings

| source | as written | input that shows it | evidently intended | confidence | as-written member | corrected member |
|---|---|---|---|---|---|---|
| iife-browser.js:71 | `compress` is declared with `(config, global_base)` but reads `deep` at lines 105 and 120, a name that no parameter or variable declares, so the read throws `ReferenceError` | `compress(["https://domain.com/test1.css", {…}], "https://domain.com/")` from test/specs/tests.js:255-268, or any array or `null` | a third parameter `deep`, which every call site passes (lines 118, 166, 518) | not executed | CompressorProperties.ReadsDeep, CompressorExamples.DeclaredArrayThrows | Compressor.Compress, CompressorProperties.ArrayPruned, CompressorExamples.ArrayWithBase |
