# Verified models of the Osty toolchain's hard passes

This project models four groups of algorithms of the Osty compiler toolchain in Dafny and proves what
they are for.

1. **Pulling standard-library code into a user module** (`Wrappers`, `Ir`, `Mangle`, `Link`,
   `Meaning`, `LinkMeaning`, `LinkLimits`, `Passes`, `Reachability`, `Inject`, `Injected`, `Emission`,
   `EmittedBodies`, `Stdlib`, `Places`, `Demands`, `SourceMeaning`, `ErrorSource`, `TrimSource`). A registry of stdlib
   functions, methods and globals and a user module give a program; a worklist lowers what the user's
   functions reach, rewriting one call site at a time in the body it is working on, first calls and then
   reads of globals. The end result: the output holds exactly the least set of items closed under what
   bodies name, told on the registry alone, each once and under its own symbol; every callee and global read in an emitted body
   is defined there, unknown to its scope, or where the passes do not reach; and every user function
   means in the output what it meant in the source, for an arbitrary compositional semantics, with calls
   through interfaces dispatched over values, and any call depth, wherever the rewriting is right; where it
   is not is stated by equivalences.
2. **Building a dependency as a library object** (`Mir`, `Occurrence`, `LibraryMode`, `CrossPkg`). Drop `main`,
   qualify exported symbols, keep what the consumer's required symbols reach. Pruning is the least
   set closed under the symbols that occur in code, renaming preserves resolution and meaning, and the three passes together satisfy the
   consumer.
3. **Repairing foreign source text** (`PythonBlocks`, `StableSort`, `Edits`, `Text`, `Tokens`,
   `LenCalls`, `Structural`, `Analyze`). Indentation blocks become brace blocks that nest the same way, in the one way there is;
   right-to-left edit application is simultaneous substitution and takes as many edits as possible; the
   token-level rewriters hand it edits that it applies in full; the pipeline that accepts and rejects
   proposals never makes the score worse outside the rewrite mode.
4. **Positions, identities and session state** (`LineIndex`, `Layout`, `Ids`, `Autoresearch`,
   `Learning`). Line lookup by bisection equals the linear scan; a package's files partition its bundle;
   numbering a shared graph in place; a keep-the-best git session; the ranking of residual cases.

Values are datatypes; what the source updates in place is a class (`LibraryMode.Entry`, `Ids.AstNode`,
`Autoresearch.Session`, `Learning.Group`). Every loop of the source that is modelled is a method proved
against a specification function or predicate, and the lemmas are about those specifications.

## What turned out false of the code

Each has a counterexample and the exact condition under which the code does what is promised.

- `cmd/osty-native-llvmgen/main.go:246-247` says function constants are renamed with their targets; the
  loop patches direct callees only (`ConstantLosesTarget`, `ConstantResolvesIff`).
- Initialisers of globals are functions of their own (`internal/mir/lower.go:820-844`) that neither the
  patch loop nor the pruner visits, so an initialiser that calls an ordinary export, or a function kept by
  nothing else, loses it (`InitialiserLosesCallee`, `InitResolvesIff`).
- The second prefix that `cmd/osty/cross_pkg_deps.go:181-197` collects, the dotted import path, is not
  used for naming: it names something only where some function ends up with that very name
  (`DottedPathNotProvided`, `RequiredDefinedIff`).
- The visitor that puts in the rewritten method calls does not visit string interpolations, closures and
  some other parents, and the walker skips `loop` bodies and `break` values, so calls there stay
  (`InterpolationMissed`, `MethodLeftIff`, `LeftIff`).
- The bare-call rewriter goes by spelling. A parameter or local with the name of a module function is
  redirected to the function, although the comment at `internal/backend/stdlib_inject.go:921-928` says
  that locals are kept out (`ParameterCallRedirected`, `SpellingMeansIff`).
- A method call on an interface becomes a call of the interface's default body, although interface values
  dispatch through their vtable (`LANG_SPEC_v0.5/02-type-system.md:402-413`). For the error interface of
  `std.error`, `err.source()` gives the default on every error (`ErrorSourceLost`, `DispatchMeansIff`,
  `OverridableIff`).
- The scans see callees only, so a stdlib function named as a value is neither pulled in nor renamed
  (`FunctionValueLeft`, `ValueMeansIff`, `LeftIff`).
- A method becomes a free function whose first generics are its owner's. Where the receiver's type does not
  carry the owner's arguments, the call's own type arguments are bound to them
  (`OwnerArgumentMissing`, `OwnerArgsFitIff`).
- The globals closure rewrites reads only, so a call in a global's initialiser keeps its source spelling
  (`InitialiserCallLeft`, `InitialiserCallsStay`). The comment at
  `internal/backend/stdlib_inject.go:1012-1018` says callee identifiers are excluded from the reads; the code does not exclude them, and the model follows the code.
- The scan of the user module takes a method call on any identifier for a qualified call
  (`internal/ir/reach.go:200-226`), so a method on a local named like a module pulls in that module's
  function (`LocalPullsIn`, `UserDemandIff`); the comment there says such a call is discarded.
- Mangled symbols of two modules collide exactly when one module is named like the other with an
  underscore added (`UnderscoreCollision`, `ModulesCollideIff`).
- A statement is taken to start behind a newline (`internal/airepair/structural.go:155-163`), but newlines
  are skipped before that is asked, so only the first statement of a file or block is seen
  (`SecondImportMissed`, `AtStartIff`).
- A learning group's stage is that of the case captured first, and with it the report depends on the
  order (`StageFollowsOrder`, `ReportOrderFreeIff`).
- Under an unknown mode a rejection may give no reason (`RejectionUnexplained`, `RejectionExplainedIff`), and
  the rewrite mode takes proposals that make the source worse (`AcceptanceProtectsIff`).
- IDs that run out wrap to 0, the sentinel for unnumbered (`LastNumberWraps`, `NumberedAboveIff`,
  `TreeNumberedIff`).

## Model

| member | source | states |
|---|---|---|
| LibraryMode.Entry.StripMain | cmd/osty-native-llvmgen/main.go:206-223 | leaves the functions other than `main`, in order |
| LibraryMode.Entry.QualifyExported | cmd/osty-native-llvmgen/main.go:253-307 | leaves the module in which every ordinary export is renamed and every direct callee patched by one renaming |
| LibraryMode.Entry.Prune | cmd/osty-native-llvmgen/main.go:313-355 | leaves the module cut to what the required symbols reach, or the whole module when nothing is required or reached |
| LibraryMode.Entry.BuildLibrary | cmd/osty-native-llvmgen/main.go:68-74 | leaves the composition of the three passes |
| LibraryMode.Reachable | cmd/osty-native-llvmgen/main.go:324-343 | the worklist ends with exactly the defined symbols that some chain of references leads to from a required symbol |
| LibraryMode.MarkRefs | cmd/osty-native-llvmgen/main.go:332-343 | visiting one function's references keeps the marked set inside the reachable one and owes nothing for scanned functions |
| LibraryMode.FilterKept | cmd/osty-native-llvmgen/main.go:344-354 | in-place filtering keeps exactly the marked functions, in order |
| LibraryMode.CollectRenames | cmd/osty-native-llvmgen/main.go:257-279 | the renaming maps exactly the names of the ordinary exports |
| LibraryMode.KeptIsLeast | cmd/osty-native-llvmgen/main.go:313-355 | the kept set holds the defined required symbols and every defined symbol that occurs anywhere in a kept function's code, and lies inside every other set that does |
| LibraryMode.PruneResolves | cmd/osty-native-llvmgen/main.go:313-355 | a symbol that occurs in a kept function is defined after pruning exactly when it was before, kept functions are the same, and nothing unreachable stays |
| LibraryMode.PruneKeepsMeaning | cmd/osty-native-llvmgen/main.go:309-355 | under every compositional semantics and to every call depth a kept symbol means after pruning what it meant before, reads of globals followed into their initialisers, when no initialiser loses a function |
| LibraryMode.PruneIgnoresOrder | cmd/osty-native-llvmgen/main.go:313-324 | only the set of required symbols matters, not their order or repetition |
| LibraryMode.QualifyKeepsDistinct | cmd/osty-native-llvmgen/main.go:253-307 | function names stay distinct if and only if no existing name is spelled like a qualified one |
| LibraryMode.QualifyResolves | cmd/osty-native-llvmgen/main.go:225-252 | a direct callee that named `f` names the renamed `f` afterwards; private functions, `main`, explicit export symbols and outside callees are untouched |
| LibraryMode.NamesAfter | cmd/osty-native-llvmgen/main.go:253-283 | exported functions but `main` get the package prefix unless they have an export symbol of their own; no other name changes |
| LibraryMode.ConstantResolvesIff | cmd/osty-native-llvmgen/main.go:246-307 | a function constant still names its target after renaming if and only if the target is not an ordinary export, against the comment |
| LibraryMode.ConstantLosesTarget | cmd/osty-native-llvmgen/main.go:246-307 | a two-function module in which a constant is left dangling |
| LibraryMode.PatchedRefs | cmd/osty-native-llvmgen/main.go:284-307 | every reference of a renamed function is the patched spelling of the original one, in place and number |
| LibraryMode.QualifyKeepsMeaning | cmd/osty-native-llvmgen/main.go:225-307 | every defined symbol means at its new spelling what it meant at its old one, when no constant and no initialiser names a renamed function |
| LibraryMode.LibraryHasNoMain | cmd/osty-native-llvmgen/main.go:200-223 | no function named `main` is in the library, whatever the package name and the requirements |
| LibraryMode.LibraryDefines | cmd/osty-native-llvmgen/main.go:68-74 | every required `pkg.f` whose `f` is an ordinary export is defined in the library, as the renamed `f` |
| LibraryMode.LibraryKeepsMeaning | cmd/osty-native-llvmgen/main.go:68-74 | and it means there what `f` meant in the dependency without its `main`, the globals it reads included |
| LibraryMode.AgreeOnMeaning | cmd/osty-native-llvmgen/main.go:309-355 | two modules that agree on a set of symbols closed under references, by code and by global reads, give the code in it the same meaning |
| LibraryMode.InitResolvesIff | cmd/osty-native-llvmgen/main.go:253-355 | a function that an initialiser names still stands for the same one in the library if and only if it is not an ordinary export and survives pruning |
| LibraryMode.InitialiserLosesCallee | cmd/osty-native-llvmgen/main.go:284-307 | a module whose global's initialiser calls an exported function, which the library does not define under that name |
| CrossPkg.RequiredSymbols | cmd/osty/cross_pkg_deps.go:153-179 | collects exactly the symbols that occur in the consumer's code and start with a package prefix and go on, each once, in byte order |
| CrossPkg.WantedIff | cmd/osty/cross_pkg_deps.go:181-197 | a symbol is wanted exactly if something follows the trimmed name or dotted path and a dot |
| CrossPkg.ConsumerSatisfied | cmd/osty/cross_pkg_deps.go:153-197 | strip, qualify and prune together define, with its meaning and that of the globals it reads, every `pkg.f` the consumer mentions whose `f` is an ordinary export |
| CrossPkg.RequiredDefinedIff | cmd/osty/cross_pkg_deps.go:153-197 | a required symbol is defined in the library if and only if some function of the package ends up with that name |
| Text.LexLessIff | cmd/osty/cross_pkg_deps.go:177 | the byte order goes by the first place where two strings differ |
| CrossPkg.DottedPathNotProvided | cmd/osty/cross_pkg_deps.go:181-197 | a symbol required by the dotted-path prefix that the library does not define |
| Occurrence.UnchangedIff | cmd/osty-native-llvmgen/main.go:357-496 | respelling the symbols of a function changes it exactly if it changes a symbol the collector visits or a global it reads: nothing is overlooked, nothing made up |
| Occurrence.OccursIff | cmd/osty-native-llvmgen/main.go:357-496 | a function symbol occurs in a function, respelling it changes the code, exactly if the collector visits it |
| Occurrence.ReadIff | internal/mir/mir.go:1330-1338 | a global is read exactly if respelling it changes the code |
| Occurrence.PatchRespells | cmd/osty-native-llvmgen/main.go:284-307 | patching respells the name and the direct callees and nothing else; what meaning hides is exactly these |
| Mir.RenameBlocksRefs | cmd/osty-native-llvmgen/main.go:357-496 | the references collected from renamed code are the renamed direct references and the unchanged constants of the original |
| Mir.EraseRenamedBlocks | cmd/osty-native-llvmgen/main.go:284-307 | renaming changes nothing in code but the spelling of direct callees |
| Mir.RenamedBlocksReads | cmd/osty-native-llvmgen/main.go:284-307 | and leaves the globals that the code reads |
| PythonBlocks.PrepareClosings | internal/airepair/diagnostic.go:160-180 | fails exactly when the innermost scope has no body yet and the line is not deeper than its header; else cuts the stack exactly where bodies get deeper than the line |
| PythonBlocks.WriteClosings | internal/airepair/diagnostic.go:182-196 | closes the innermost scopes in order, each with the brace its kind needs, leaving out the last on request |
| PythonBlocks.DecideHeader | internal/airepair/diagnostic.go:85-92 | the three tests on a header line decide what is stated on the lines alone: it is a header, an `else` closes a block, an arm sits in a match |
| PythonBlocks.RewriteLine | internal/airepair/diagnostic.go:71-122 | one line keeps the stack and the output in step with the indentation, or the input is not rewritable |
| PythonBlocks.CloseRemaining | internal/airepair/diagnostic.go:127-139 | closes what is open at the end, failing exactly on a header that never got a body |
| PythonBlocks.Rewrite | internal/airepair/diagnostic.go:58-145 | succeeds exactly on rewritable input; on success the braces match up, every line comes out once in order inside exactly its headers, and a closing brace is merged into the next header exactly if that is an `else` header |
| PythonBlocks.OutputUnique | internal/airepair/diagnostic.go:58-145 | there is only one output with these properties |
| PythonBlocks.ElseMerges | internal/airepair/diagnostic.go:93-106 | a rewritten header comes with `} ` before it if and only if it is an `else` header, and that brace closes the outermost block the line ends |
| PythonBlocks.BracesFollowIndentation | internal/airepair/diagnostic.go:58-145 | brace nesting is indentation nesting: header `i` encloses line `j` in the output if and only if it does by indentation |
| PythonBlocks.EveryHeaderClosed | internal/airepair/diagnostic.go:93-139 | every rewritten header is closed exactly once, on its own line or merged into the next header |
| PythonBlocks.BracesConserved | internal/airepair/diagnostic.go:182-196 | for any events whose braces match, opened headers are the closed ones plus those still open |
| Edits.SpliceLeft | internal/airepair/semantic.go:630-634 | splicing one more edit left of the others is substituting it together with them |
| Edits.SkippedIff | internal/airepair/semantic.go:624-629 | an edit is skipped if and only if it is out of bounds or overlaps one already applied |
| Edits.TakenPlaced | internal/airepair/semantic.go:609-641 | the applied edits lie in bounds, from left to right and apart |
| Edits.AppliedFacts | internal/airepair/semantic.go:609-641 | applied edits are in bounds, pairwise disjoint, and among those asked for |
| Edits.AppliesMost | internal/airepair/semantic.go:609-641 | no other choice of pairwise compatible edits is larger than the one applied |
| Edits.SubstituteLength | internal/airepair/semantic.go:609-641 | the output's length is the source's plus what the applied edits add less what they remove |
| Edits.ApplySemantic | internal/airepair/semantic.go:609-641 | the output is the simultaneous substitution of the applied edits; their changes are reported in source order |
| Edits.ApplyStructural | internal/airepair/structural.go:183-205 | the same output as the semantic applier's, and skipped plus applied is the number asked for |
| Edits.AscendingAllApplied | internal/airepair/semantic.go:609-641 | edits that ascend and lie apart are all applied and reported in order |
| LenCalls.MatchParen | internal/airepair/semantic.go:560-574 | finds the least position where the parenthesis is balanced, or that there is none |
| LenCalls.HasTopLevelComma | internal/airepair/semantic.go:576-607 | decides whether a comma sits where all the clamped depth counters are zero |
| LenCalls.CommaTestAgrees | internal/airepair/semantic.go:576-607 | where brackets and braces never go negative the test agrees with true bracket depths |
| LenCalls.FindCall | internal/airepair/semantic.go:475-499 | decides whether a token heads an unqualified one-argument `len` call, and where it closes |
| LenCalls.LenCallIff | internal/airepair/semantic.go:475-499 | a token heads a call, told on the tokens: `len` behind no dot, a parenthesis next, one argument up to its close that is not blank |
| LenCalls.SiteReplaces | internal/airepair/semantic.go:501-533 | the edit spans the call, and its text is the argument without outer white space, in parentheses exactly if a blank or operator is in it, and `.len()` |
| Text.TrimStrips | internal/airepair/semantic.go:520 | trimming gives the slice between the outer white space |
| LenCalls.FindSites | internal/airepair/semantic.go:471-517 | the calls found lie apart, and every call is found or lies inside one that is |
| LenCalls.SitesAscend | internal/airepair/semantic.go:501-514 | the edits of the sites are in bounds, ascending and disjoint, and so are their positions |
| LenCalls.SitesUnique | internal/airepair/semantic.go:471-517 | there is only one such choice of calls |
| LenCalls.RewriteLenCalls | internal/airepair/semantic.go:471-517 | exactly the outermost calls are replaced by method calls on their arguments, all at once, and reported in source order |
| Structural.NextSignificantIndex | internal/airepair/structural.go:174-181 | the first token from a position on that is not a newline |
| Structural.PrevSignificantKind | internal/airepair/structural.go:165-172 | the kind of the last token below a position that is not a newline, end of file when there is none |
| Structural.AtStartIff | internal/airepair/structural.go:155-163 | a statement starts only at the front of the file and behind a brace or file end; newlines are looked through |
| Structural.SecondImportMissed | internal/airepair/structural.go:155-163 | an import line below another one is left as it is |
| Structural.ConsumeDottedPath | internal/airepair/structural.go:130-153 | reads the dotted path that starts at a position on a line |
| Structural.PathSpelled | internal/airepair/structural.go:130-153 | a path read is spelled out in the tokens: names and dots in turn on one line, with no dot to follow |
| Structural.SpelledFound | internal/airepair/structural.go:130-153 | every path so spelled is read, with its names and its end |
| Structural.FromImportRewrite | internal/airepair/structural.go:88-128 | decides the rewrite of a `from` line |
| Structural.FromSiteIff | internal/airepair/structural.go:88-128 | there is one exactly on `from` path `import` path, with or without `as` name, with nothing else on the line; it spans the line and joins the paths |
| Structural.SiteIff | internal/airepair/structural.go:34-66 | what is rewritten, told on the tokens: an equality sign with an assignment sign right behind it, an `import` with a name next, and a `from` line, the last two where a statement starts |
| Structural.EditsBelowIff | internal/airepair/structural.go:18-66 | an edit is made exactly where a site is, over its tokens, with its text, kind and position |
| Structural.JoinConcat | internal/airepair/structural.go:130-153 | names are joined with dots |
| Structural.SitesApart | internal/airepair/structural.go:31-66 | no token inside a rewritten range starts another one |
| Structural.StructuralSource | internal/airepair/structural.go:18-73 | every site is rewritten, all at once, each is reported, and no edit is ever skipped |
| Analyze.CompareIsLex | internal/runner/airepair_decide_policy.go:33-111 | each comparison is the lexicographic order of the mode's counts, in both directions |
| Analyze.CompareChains | internal/runner/airepair_decide_policy.go:33-111 | no worse is a total preorder, and a chain of steps is strictly better exactly when one of them is |
| Analyze.RejectionNamesFirst | internal/runner/airepair_decide_policy.go:205-222 | a rejection names the first count that rose in the mode's order, or `no_improvement` if none did |
| Analyze.AcceptanceNamesFirst | internal/runner/airepair_decide_policy.go:173-198 | an acceptance that changed something names the first count that fell |
| Analyze.RejectionExplainedIff | internal/runner/airepair_decide_policy.go:205-222 | the reason for a rejection always names a count that rose if and only if the mode is a known one |
| Analyze.RejectionUnexplained | internal/runner/airepair_decide_policy.go:205-222 | a rejection in an unknown mode that is given no reason |
| Analyze.AcceptanceProtectsIff | internal/runner/airepair_decide_policy.go:147-166 | acceptance never takes a worse source if and only if the mode is not the rewrite mode |
| Analyze.TakenIff | internal/airepair/airepair.go:153-172 | for every phase of every run: its candidate extends what was taken if and only if it has changes or skips and the mode is the rewrite mode or the ladder of counts gets no worse; otherwise source, statistics and what was taken stay |
| Analyze.ChangesInOrder | internal/airepair/airepair.go:409-415 | changes are merged candidate by candidate in order, skips added up |
| Analyze.PipelineInvariant | internal/airepair/airepair.go:153-172 | for any phases and probe: the statistics are the probe of the current source, which is the last accepted candidate's, and every step was accepted |
| Analyze.NeverWorse | internal/airepair/airepair.go:153-172 | if acceptance never makes things worse in some preorder, the outcome is no worse than the original |
| Analyze.ImprovedIff | internal/airepair/airepair.go:174-175 | outside the rewrite mode the outcome is never worse, and better if and only if some accepted step was |
| Analyze.Analyze | internal/airepair/airepair.go:121-200 | the loop over at most the allowed phases reports exactly the pipeline's final state |
| Analyze.ResultLaws | internal/airepair/airepair.go:121-200 | After is the probe of Repaired, passes stay within the limit, an unaccepted result returns the original with no changes, and improved means some step improved |
| Mangle.FnSymbolsInjective | internal/backend/stdlib_mangle.go:10-21 | distinct functions get distinct symbols |
| Mangle.MethodSymbolsInjective | internal/backend/stdlib_mangle.go:30-43 | distinct methods get distinct symbols |
| Mangle.FnAndMethodSymbolsDiffer | internal/backend/stdlib_mangle.go:30-43 | a function and a method never share a symbol |
| Mangle.UnderscoreCollision | internal/backend/stdlib_mangle.go:10-21 | two modules, one with a trailing underscore, whose functions share a symbol |
| Mangle.ModulesCollideIff | internal/backend/stdlib_mangle.go:10-21 | two modules can share a symbol if and only if one is the other with an underscore added |
| Mangle.InjectedNotRuntime | internal/backend/stdlib_mangle.go:23-28 | an injected symbol is never a runtime symbol |
| Mangle.SymbolsSpelled | internal/backend/stdlib_mangle.go:19-43 | one symbol of each family, spelled out |
| Ir.NamedOwnerIff | internal/ir/reach.go:124-200 | a named receiver's methods are its package's, or those of a builtin's home module |
| Ir.OptionalIsOption | internal/backend/stdlib_mangle.go:334-348 | a receiver `T?` has the methods and type arguments of `Option<T>` |
| Ir.UncoveredShapes | internal/backend/stdlib_mangle.go:490-612 | the shapes the splice visitor passes over |
| LinkLimits.SpellingMeansIff | internal/backend/stdlib_inject.go:993-1087 | a call whose callee is spelled as the scope knows it keeps its meaning under every semantics if and only if neither the callee nor its qualifier is bound locally |
| LinkLimits.DispatchMeansIff | internal/backend/stdlib_mangle.go:223-292 | a method call that is rewritten keeps its meaning under every semantics if and only if no value may bring its own implementation of the method |
| Stdlib.OverridableIff | LANG_SPEC_v0.5/02-type-system.md:212-216 | which is so exactly for the methods of interfaces when some concrete type, of any module or of the user's, has a method of that name |
| ErrorSource.ErrorSourceLost | internal/backend/stdlib_inject.go:401-456 | with `std.error`, in every output of the injection `err.source()` runs the interface's default body and not the one of the wrapped error |
| LinkLimits.ValueMeansIff | internal/backend/stdlib_inject.go:929-971 | a function named as a value keeps its meaning under every semantics if and only if it is one of the user's own, named plainly |
| Passes.FunctionValueLeft | internal/backend/stdlib_inject.go:929-971 | a module function passed as a value is found by no scan and keeps its bare name |
| Link.ParameterCallRedirected | internal/backend/stdlib_inject.go:917-947 | a call of a parameter named like a module function comes to call the function |
| Link.RewriteKeepsType | internal/backend/stdlib_mangle.go:234-292 | rewriting keeps the type of every node, so receivers keep their owner |
| LinkMeaning.LinkKeepsMeaning | internal/backend/stdlib_mangle.go:102-292 | under every semantics, with interface calls dispatched over the receiver's value, and to every depth, a tree that fits means after all rewriting what it meant before: chained receivers, nested arguments, qualified, bare and method calls, global reads, functions named as values |
| LinkMeaning.ItemKeepsMeaning | internal/backend/stdlib_inject.go:401-616 | an emitted definition means what its source definition, a method as it was declared, meant |
| Meaning.MethodAsFree | internal/backend/stdlib_inject.go:1107-1142 | running a method on its receiver is running its free form with the receiver as first argument and the receiver's type arguments before the call's own |
| LinkLimits.OwnerArgsFitIff | internal/backend/stdlib_inject.go:1107-1142 | the free form binds the generics as the method does, for every type arguments, if and only if the receiver's arguments fill the owner's generics, or exceed them where the method has none |
| LinkLimits.OwnerArgumentMissing | internal/backend/stdlib_mangle.go:249-269 | on a receiver type without its argument the method's own type argument is bound to the owner's generic |
| LinkMeaning.GlobalsSuffice | internal/backend/stdlib_inject.go:575-613 | for a body that calls nothing the scope knows, rewriting global reads is all of the rewriting |
| Passes.MethodLeftIff | internal/backend/stdlib_mangle.go:490-612 | a method call that resolves is left if and only if one sat in a slot the splice visitor does not cover |
| Passes.InterpolationMissed | internal/backend/stdlib_mangle.go:490-612 | a method call interpolated into a string stays a method call |
| Passes.LeftIff | internal/backend/stdlib_inject.go:993-1087 | a callee, method call, global read or function named as a value is left in its source spelling if and only if it sat where the passes do not reach |
| Passes.InitialiserCallsStay | internal/backend/stdlib_inject.go:575-613 | an initialiser is free of calls in source spelling after the globals closure if and only if it was before |
| Passes.InitialiserCallLeft | internal/backend/stdlib_inject.go:575-613 | an initialiser that calls a function of its module and still does so in source spelling |
| Stdlib.StdAllFresh | internal/backend/stdlib_mangle.go:10-43 | in a clean registry no emitted symbol is a name or a qualifier of any stdlib scope, as `LeftIff` asks |
| Stdlib.StdGlobalsApart | internal/backend/stdlib_inject.go:575-613 | nor, if no global is named like a module, is any global a callee name or a qualifier, as `InitialiserCallsStay` asks |
| Passes.PassesCompose | internal/backend/stdlib_inject.go:471-562 | two in-place passes over a body, globals last, are one pass for both sets of sites |
| Passes.OnlySitesMatter | internal/backend/stdlib_inject.go:929-971 | rewriting only the sites a scan finds is rewriting all of them |
| Passes.ScanStable | internal/backend/stdlib_inject.go:471-562 | a scan after other sites were rewritten finds the same remaining sites |
| Reachability.ClosureIsLeast | internal/backend/stdlib_inject.go:458-471 | the closure holds its roots, is closed, and lies inside every set that does and is |
| Inject.DoSite | internal/backend/stdlib_inject.go:474-502 | one site: its target is demanded once, with its own body untouched, and the site rewritten |
| Inject.DoCalls | internal/backend/stdlib_inject.go:471-562 | bare, then qualified, then method sites, each scanned in the body as it then is, cover all call sites of the original body |
| Inject.DoLets | internal/backend/stdlib_inject.go:577-586 | one scan covers all global reads of a body |
| Inject.DrainedIsClosure | internal/backend/stdlib_inject.go:471-562 | an empty queue means the output is the least closed set over the roots |
| Inject.Drain | internal/backend/stdlib_inject.go:471-613 | the queue runs dry; then the output is the closure, each item once, each body rewritten at all its sites |
| Injected.TwoPhases | internal/backend/stdlib_inject.go:564-613 | calls first and globals after is the same as all at once |
| Injected.ItemEmitted | internal/backend/stdlib_inject.go:471-613 | what the two phases leave for an item is its body, linked |
| Injected.InjectReachable | internal/backend/stdlib_inject.go:401-616 | exactly the items that the scans demand, from the user's functions on, come out, each once, each linked |
| Injected.UserDemandIff | internal/ir/reach.go:200-226 | a user body demands what its calls resolve to and, besides, what its method calls on identifiers would name as qualified calls |
| Injected.LocalPullsIn | internal/ir/reach.go:200-226 | a method of a user type on a local named like a module pulls in that module's function, which nothing calls |
| Passes.ReceiverScanStable | internal/backend/stdlib_inject.go:42-58 | rewriting calls by name leaves that wider scan's findings as they are |
| Places.SitesIff | internal/backend/stdlib_inject.go:926-971 | a scan finds a name exactly if a node that shows it sits in the walked part of the body |
| Demands.CallDemandIff | internal/backend/stdlib_inject.go:471-562 | told on the registry: a body demands an item if and only if a call sits in its walked part that names a declaration with a body: of the same module by its bare name, of any module but `error` qualified, a method of the receiver's type, or behind an interface one of that name on a concrete type of the module |
| Demands.LetDemandIff | internal/backend/stdlib_inject.go:575-613 | and a global if and only if it is declared in the same module and read, other than as the callee or qualifier of a call that names a function |
| Demands.ItemsAreLeast | internal/backend/stdlib_inject.go:401-616 | what injection puts out is the least set with the user's functions that meets these demands |
| Demands.CallInjected | internal/backend/stdlib_inject.go:474-543 | a function that a call in an emitted item's source names is in the output, with its generics and parameters, and called under its symbol there; one without a body is called under its runtime symbol |
| Demands.MethodInjected | internal/backend/stdlib_inject.go:203-268 | every method with a body that a method call names is in the output, those of the concrete types behind an interface included; in a covered slot the call is made free, receiver and receiver's type arguments first |
| Demands.ReadInjected | internal/backend/stdlib_inject.go:575-613 | a declared global that an emitted item reads is in the output and read under its symbol |
| Demands.UserFnEmitted | internal/backend/stdlib_inject.go:377-400 | every user function is put out under its own name |
| SourceMeaning.CallMeans | internal/backend/stdlib_inject.go:471-543 | in the source program a call of a declared function runs its body on the arguments, or goes to the runtime |
| SourceMeaning.OwnCallMeans | internal/backend/stdlib_inject.go:377-400 | a call of one of the user's functions runs its body |
| SourceMeaning.MethodMeans | LANG_SPEC_v0.5/02-type-system.md:402-413 | a method call runs the method its receiver's value brings for the interface, or else the one declared on the receiver's type |
| SourceMeaning.ReadMeans | internal/backend/stdlib_inject.go:575-613 | a read of a global of the module means what its initialiser means |
| TrimSource.TrimInjected | internal/backend/stdlib_inject.go:460-502 | with `strings.trim`, every output of the injection defines `trim`, `trimStart` and `trimEnd`, and `trim` calls the others under their symbols |
| TrimSource.TrimMeans | internal/backend/stdlib_inject.go:460-502 | and the user function that calls it keeps its meaning, at every depth and under every semantics |
| Emission.RefsCovered | internal/backend/stdlib_inject.go:892-1046 | everything a body that fits refers to is found by the scan for calls or by the later scan for globals |
| Emission.RefsInjected | internal/backend/stdlib_inject.go:471-613 | everything an injected body that fits refers to, functions named as values included, is injected |
| Emission.SymbolsDiffer | internal/backend/stdlib_mangle.go:10-43 | different items, the user's functions and globals included, get different symbols |
| Emission.InjectModule | internal/backend/stdlib_inject.go:401-616 | the output holds one definition for each item reached, under its own symbol, and nothing else |
| Emission.InjectionLinks | internal/backend/stdlib_inject.go:401-616 | that output is closed: each body comes out rewritten under its symbol, and what its source refers to is in the output or at runtime |
| EmittedBodies.CalleesAfterCalls | internal/backend/stdlib_inject.go:471-562 | a callee that stands in a body after the call phase is the symbol of a site's target, or one that was found and is unknown |
| EmittedBodies.NamesAfterLets | internal/backend/stdlib_inject.go:575-613 | a read that stands in a body after the global phase is the symbol of a global it read, or one that was found and is unknown |
| EmittedBodies.BodiesLinked | internal/backend/stdlib_inject.go:401-616 | in every emitted body each callee is defined in the output and each global read is a global of it, unless the scope never knew the name; and something is left in source spelling if and only if it sat where the passes do not reach |
| Stdlib.OutputLinked | internal/backend/stdlib_inject.go:401-616 | so for every body that injection from a clean registry puts out |
| Emission.InjectionKeepsMeaning | internal/backend/stdlib_inject.go:401-616 | and every user function means what it meant in the source program, interface calls dispatched over the values of receivers |
| Stdlib.QualifiedTableIff | internal/backend/stdlib_inject.go:509-520 | the qualified calls rewritten in a stdlib body are exactly those of declared functions, with or without `std.`, outside the module `error` |
| Stdlib.ProgramWellFormed | internal/backend/stdlib_inject.go:36-60 | a registry with clean names gives tables that resolve to definitions, with symbols that are not names in them |
| Stdlib.InjectStdlib | internal/backend/stdlib_inject.go:401-616 | injection from a registry and a user module: one definition for each of the items that `ItemsAreLeast` determines, all bodies linked |
| Stdlib.UserFunctionsKeepMeaning | internal/backend/stdlib_inject.go:379-400 | for a clean registry every user function keeps its meaning, provided that what is reached fits, so calls no method that a value may override |
| Ids.Scan | internal/ast/ids.go:17-46 | the largest ID in the graph |
| Ids.VisitsInOrder | internal/ast/ids.go:48-78 | the walk comes by the nodes in document order, once per path: parents before children, children from left to right |
| Ids.Walk | internal/ast/ids.go:48-78 | numbers in place, in pre-order, over shared nodes |
| Ids.AssignIDs | internal/ast/ids.go:6-79 | if the 32-bit numbers do not run out, every node is numbered, old numbers stay, and fresh nodes get consecutive numbers above the largest by first visit |
| Ids.FreshInOrder | internal/ast/ids.go:6-9 | the k-th fresh node is first visited before the next one |
| Ids.AssignNumbers | internal/ast/ids.go:48-78 | the k-th fresh node gets the k-th number and nothing else changes |
| Ids.NumbersWell | internal/ast/ids.go:6-12 | no node is left unnumbered, and a number given out is no other node's |
| Ids.Idempotent | internal/ast/ids.go:8-9 | a second run changes nothing |
| Ids.NumberedAboveIff | internal/ast/ids.go:6-10 | on every graph, shared nodes included, fresh nodes get different numbers above all old ones if and only if the numbers do not run out |
| Ids.LastNumberWraps | internal/ast/ids.go:46-67 | a two-node graph whose fresh node ends at 0 |
| Ids.TreeNumberedIff | internal/ast/ids.go:48-78 | without sharing, every node ends up numbered if and only if the numbers do not run out |
| Autoresearch.Session.RunIter | cmd/osty-vs-go/main.go:778-826 | one experiment adds one entry to the session's log, and unless git fails the tree is HEAD with nothing staged or untracked |
| Autoresearch.Session.Judge | cmd/osty-vs-go/main.go:806-824 | keeps a score below the best and reverts any other; when git fails no counter, no best and no HEAD moves |
| Autoresearch.Session.CommitKept | cmd/osty-vs-go/main.go:858-874 | HEAD becomes the tree that was measured, or stays when git fails |
| Autoresearch.Session.Run | cmd/osty-vs-go/main.go:710-760 | over any experiments, limit and interrupt, attempted is kept plus reverted plus mutator failures plus errors |
| Autoresearch.TalliesAddUp | cmd/osty-vs-go/main.go:765-776 | every experiment ends in exactly one of four ways |
| Autoresearch.RunLawful | cmd/osty-vs-go/main.go:778-848 | in every run, with any git failures, exactly the record lows of the scores decided on are kept, and HEAD follows the keeps |
| Autoresearch.VerdictsTell | cmd/osty-vs-go/main.go:778-826 | how each experiment of a run ends: by its mutator, its benchmark, whether its score is below all decided on before, and the git commands it comes to |
| Autoresearch.KeptDecrease | cmd/osty-vs-go/main.go:828-848 | kept scores strictly decrease |
| Autoresearch.ChampionIsMin | cmd/osty-vs-go/main.go:803-814 | the last kept run is the minimum of all that were kept or reverted, and the first to reach it |
| Autoresearch.HeadStays | cmd/osty-vs-go/main.go:806-824 | between keeps HEAD stays at the tree the last keep measured |
| Autoresearch.HeadIsChampion | cmd/osty-vs-go/main.go:778-826 | at the end of every run HEAD is the tree the best score was measured on |
| Autoresearch.ResetThenClean | cmd/osty-vs-go/main.go:815-821 | hard reset and removal of untracked files together restore HEAD |
| Autoresearch.ResetSufficesIff | cmd/osty-vs-go/main.go:815-821 | a hard reset alone does if and only if nothing untracked lies about |
| Autoresearch.BestRun | cmd/osty-vs-go/main.go:1445-1461 | finds the first entry that reaches the minimum, if any has a score |
| Autoresearch.ChampionIsBestRun | cmd/osty-vs-go/main.go:1445-1461 | the session's champion is the run that search would find |
| Learning.DominantStageIff | cmd/osty/airepair_learning.go:297-314 | a stage is named exactly when it has strictly the most errors |
| Learning.FindCorpusMatch | cmd/osty/airepair_learning.go:316-323 | covered if and only if some fixture has the same input and expected output; the first such fixture is named |
| Learning.Group.Add | cmd/osty/airepair_learning.go:221-234 | adds one case to a group's counters and keeps its representative |
| Learning.PutCase | cmd/osty/airepair_learning.go:202-235 | a residual case goes to its key's group and no other group changes |
| Learning.RepresentativeIsBest | cmd/osty/airepair_learning.go:325-344 | with distinct names the representative is preferred to every other member |
| Learning.RepresentativePermutes | cmd/osty/airepair_learning.go:325-344 | any order of the same cases has the same representative |
| Learning.BuildReport | cmd/osty/airepair_learning.go:197-284 | a strict ranking of one summary for each group, cut to the first few |
| Learning.ReportShows | cmd/osty/airepair_learning.go:197-352 | what an entry shows: its group's cases and counts, the weighted score, and the case that is uncovered first, then has most errors, then most reductions, then the earlier name; entries go by score, cases, errors and key |
| Learning.CountsConserved | cmd/osty/airepair_learning.go:197-284 | before the cut, group counts, residual errors, reductions and uncovered cases add up to those of the residual cases |
| Learning.CoveredAndUncovered | cmd/osty/airepair_learning.go:224-229 | covered plus uncovered is a group's number of cases |
| Learning.ReportUnique | cmd/osty/airepair_learning.go:262-273 | the ranking is determined by the cases |
| Learning.ReportPermutes | cmd/osty/airepair_learning.go:197-284 | with distinct names and one stage per group, any order of the input gives the same report |
| Learning.ReportOrderFreeIff | cmd/osty/airepair_learning.go:197-284 | with distinct names, every order of the input gives the same report if and only if in each group all cases share the stage, and the habit and code their key spells |
| Learning.StageFollowsOrder | cmd/osty/airepair_learning.go:207-220 | two cases of one group whose order decides the stage |
| Layout.PackageCheckInput | cmd/osty/check_cmd.go:404-433 | lays the non-empty sources out one after another, one byte apart |
| Layout.BundledConcat | cmd/osty/check_cmd.go:415-422 | sources keep their order, missing and empty ones are passed over |
| Layout.FileInBundle | cmd/osty/check_cmd.go:414-431 | the bundle holds each file's text at its base |
| Layout.OwnerIff | cmd/osty/check_cmd.go:475-483 | an offset has an owner if and only if it is from 0 to the end of the last file, and then only one |
| Layout.FindOwningFile | cmd/osty/check_cmd.go:475-483 | finds the first owner |
| Layout.RelativeInverts | cmd/osty/check_cmd.go:452-461 | for an owned record the start is never clamped, lands in the file and leads back |
| Layout.PackageCheckDiags | cmd/osty/check_cmd.go:435-473 | delivers each file's records in file order and, within a file, in their own order |
| Layout.BucketConcat | cmd/osty/check_cmd.go:446-462 | a file's records keep their order |
| Layout.DeliveredByFile | cmd/osty/check_cmd.go:463-472 | and what is delivered to a file is its bucket |
| Layout.NothingLost | cmd/osty/check_cmd.go:435-473 | delivered records, led back to the bundle, are exactly the owned ones, each once |
| Layout.AllOwned | cmd/osty/check_cmd.go:435-473 | in a laid-out bundle no record between its ends is dropped |
| LineIndex.ByteOffsetLineCol | cmd/osty/check_cmd.go:555-573 | the linear scan gives line and column, for an offset moved into the source |
| LineIndex.ComputeLineStarts | cmd/osty/resolve_native.go:96-104 | the offsets just behind newlines, and 0 |
| LineIndex.SearchInts | cmd/osty/resolve_native.go:110 | bisection finds the first entry that is large enough |
| LineIndex.OffsetToLineCol | cmd/osty/resolve_native.go:106-117 | bisection gives the linear scan's line and column for exactly the offsets in range |
| LineIndex.OffsetsToSpan | cmd/osty/resolve_native.go:119-137 | a span exists exactly for a start in range; its end is the position of the end offset, or the start's when that is out of range or earlier |
| LineIndex.MapsBack | cmd/osty/resolve_native.go:106-117 | line and column lead back to the offset, which is before the next line |
| LineIndex.PositionsAscend | cmd/osty/check_cmd.go:555-573 | later offsets have later positions, so no two share one |

## Left out

- Aliasing in the IR: trees are values, so a node shared between two bodies, or between a global and the function that wraps its initialiser, is modelled by rewriting one tree per body.
- Inject.Drain: the worklist state is a value that the methods pass on, not an object; user functions are its first items and are processed by the same loop, while the source rewrites them in one go beforehand.
- Inject.DoSites: the sites of one scan are taken in any order; the source sorts them.
- Injection: lowering is taken to succeed, registry lookups and lowering are given as tables, and nil modules, registries and declarations do not occur.
- Emission.InjectionKeepsMeaning: asks that the bodies reached sit where the passes reach, name no function as a value but the user's own, and call methods that no value overrides on receivers that carry their owner's arguments (`ProgramFits`); what happens elsewhere is what `LeftIff`, `SpellingMeansIff`, `ValueMeansIff`, `DispatchMeansIff`, `OwnerArgsFitIff` and `InitialiserCallsStay` say.
- Meaning: what a value has for an interface's method (its key, the receiver inside and its type arguments) is given by the semantics, limited to the methods that may implement it; bodies of the user's own methods are not followed but stand for themselves.
- Emission.InjectionKeepsMeaning: the meaning of a program follows calls to a depth; statements hold for every depth, so an infinite run is covered by all its finite approximations.
- Calls through exported singleton values (`encoding.base64.encode(...)`) and the literals built for them.
- Type qualification of injected bodies and call sites, and types of rewritten callees beyond the function type the rewriter writes.
- Types, interfaces and enums that the injector pulls in beside functions.
- Go's walker over declarations other than functions and globals; parameter defaults count as walked but not spliced.
- LibraryMode: nil functions and blocks, and the lowered form that backends see.
- LibraryMode.PruneKeepsMeaning: meaning hides a function's own name and the spelling of its direct callees, which is all that the passes change; a global means what its initialiser does, read at any time.
- PythonBlocks: the recogniser of header lines is a parameter; the bytes of headers, of indentation and of a missing final newline, and the positions of changes, are not modelled.
- Text.TrimSpace: trims ASCII white space only.
- LenCalls, Structural: the lexer is a parameter that promises increasing, disjoint spans.
- Other semantic rewriters (`enumerate` loops, `append` lines, length properties) and the foreign-loop phases.
- Analyze: the front end and the seven phases are parameters; report rendering and the skip counts of single phases beyond their sum.
- Ids.AssignIDs: reflection over field kinds is modelled by a list of children and a flag for nodes that carry an ID; cyclic graphs, on which the source does not terminate, are excluded.
- Autoresearch: the mutator, the benchmark and git outcomes are a script; files git ignores, branch creation, intervals and output are left out, and a mutator does not move HEAD.
- Autoresearch: caching of Go benchmarks, medians, variation and the geometric mean behind a score.
- Learning: loading, the derivation of habit and code from a report, suggested names and next-step sentences.
- Layout: rendering of a file's records; LineIndex: columns are bytes, as in the source.
- Command-line handling, registries and credentials, subprocess bridges, LLVM dispatch, documentation and editor integration.
