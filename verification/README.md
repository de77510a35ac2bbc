# libpgf and libgu, modelled and proved

libpgf parses and linearizes sentences of PGF grammars; it stands on libgu, a
small C runtime with its own hash map, pool allocator, growing buffers,
backtracking enumerator, UTF-8 codec and layered streams. This project models
the cores of both and proves what they are for.

* **The parser** (`Grammar`, `Linearize`, `Chart`, `Parser`, `Orderliness`,
  `Closure`, `Completeness`, `Forward`, `ParseTheorems`).
  The chart procedures of `pgf/parser.c` are methods of one class that update it
  in place and call each other as in C. A ghost ledger gives every category the
  facts it is known to satisfy ("every tree linearizes at constituent r to this
  word") and the category it was completed from. All procedures keep one
  invariant; from it follow soundness against the linearizer for every sentence
  and narrowing. No production ever gets into a category's buffer twice. When a
  step ends, whatever the items it has met call for is in the chart; so nothing is
  missed either: the completed categories have exactly the trees that the sentence
  can mean, for runs in which no call exceeds the depth and no item set grows while
  it is walked, and in grammars without empty constituents no set does.
* **Persistence of parse states** (`Runs`, `Machine`, `Renaming`,
  `Persistence`). The same procedures are also a machine with a stack of pending
  calls, whose only freedom is the order in which hash sets are walked; every
  method is proved to be a run of it. The machine does not look at names, so a
  token fed to a state gives, up to the names of what is new, exactly the results
  it gives when nothing else has been fed before.
* **Reading expressions off a state** (`ParseResult`, `Extraction`,
  `ExtractionCount`, `ResultEnum`, `SharedArgument`): soundness with metavariables,
  termination, and an exact account of what the enumeration yields and how often,
  and of when it fails, with a parse that does.
* **Backtracking** (`Choice`, `Searching`) **and inference** (`LzrIndex`,
  `InferTree`, `Infer`, `InferCount`, `Concretize`, `Expr`). The replayed path
  of counters enumerates every finite decision tree exactly once, left to right.
  The linearizer's indices hold exactly the indexed rules; inference ends and
  finds the first attempt that succeeds, and enumerating its results yields
  exactly the concrete trees that the grammar has for the expression, one for
  every derivation.
* **The hash map stack** (`Primes`, `Probing`, `Memory`, `HashMap`, `MapRuns`,
  `Strings`, `Hashers`). Wheel sieve, twin primes, Padovan growth and double
  hashing add up to: any run of insertions and lookups answers every lookup
  from the history of insertions. The hasher of every type description is fit
  for such a map; values are equal exactly when they stand for the same contents,
  and the hash is a function of those.
* **Smaller cores**: the two-ended pool (`Pool`), layered output and input
  (`OutStream`, `InStream`), batched UTF-8 (`Utf8`) against the byte ranges of
  section 3 of RFC 3629, and the expression printer and reader (`ExprSyntax`,
  `ExprReader`).

Conventions. Objects in pool memory are named by indices into a store. Clocks,
I/O and the memory allocator are parameters or absent. An assertion or
precondition check of the C code that could fail is an explicit result
(`ok == false`) or is proved not to fail. Integers are unbounded except where
the C width matters: `size_t` wrap-around in the Padovan loop, 16-bit pool
edges, 8- and 16-bit item fields, 8-bit choice counters, 64-bit hashes and
packed words, and the 32-bit range in the prime test are explicit.

Where code and documentation differ, the model follows the code: a character
that starts no token is skipped by the expression reader but looks like the end
of the input once; a NUL right behind an identifier ends the input; the
documentation promises that result trees linearize to the tokens fed, and the
trees returned may contain metavariables, so the theorem speaks about every way
of filling them. An enumeration of concrete trees whose last attempts fail keeps
its expression, and asked again after its end it begins anew. An enumeration of
parse results uses its choice object once more after giving it up when its last
alternative has no expression.

## Model

| member | source | states |
|---|---|---|
| `Linearize.LinearizeTree` | pgf/linearize.c:475-532 | the loop emits exactly the tokens of the recursive meaning `Lin`, and fails exactly when an argument or constituent index is out of range |
| `Chart.NewSetValid` | pgf/parser.c:247-292 | a new agenda or continuation set keeps the chart invariant |
| `Chart.InsertValid` | pgf/parser.c:247-261 | an item that waits for what the set says may be added; everything else stays true |
| `Chart.NewCatValid` | pgf/parser.c:294-304 | a category completed from another, with one more fact and no productions yet, keeps the invariant |
| `Chart.PushValid` | pgf/parser.c:429-457 | pushing a production that satisfies all facts of its category keeps the invariant of every category and set |
| `Chart.RefinesShape` | pgf/parser.c:294-304 | a completed category keeps the concrete category and all facts of the one it was completed from |
| `Chart.CompletedProdOk` | pgf/parser.c:429-457 | a finished item becomes a production whose trees satisfy all old facts and the newly covered span |
| `Chart.CombinedOk` | pgf/parser.c:395-414 | an item moved past a category symbol, over the completed argument, still spells what stands before its dot |
| `Chart.ScannedSpells` | pgf/parser.c:647-664 | moving past one token, inside or at the end of a token symbol, spells exactly one token more; the counters still fit their fields |
| `Chart.ScannedOk` | pgf/parser.c:647-716 | the scanned item is a valid item of the longer word |
| `Chart.PredictedOk` | pgf/parser.c:416-427 | a freshly predicted item is valid and has covered nothing |
| `Chart.SpellsMonotone` | pgf/parser.c:395-414 | replacing arguments by completed ones never loses what was spelled |
| `Parser.Parsing.AddTransition` | pgf/parser.c:247-261 | the item ends up in the agenda of its token; the parsing invariant is kept |
| `Parser.Parsing.GetContss` | pgf/parser.c:263-276 | one continuation array per category, created on first use and never replaced |
| `Parser.Parsing.GetConts` | pgf/parser.c:279-292 | one continuation set per constituent at the current position |
| `Parser.Parsing.CreateCompleted` | pgf/parser.c:294-304 | the new category, its lineage and its facts, recorded for the set |
| `Parser.Parsing.Combine` | pgf/parser.c:395-414 | the null item completes the category, any other item is moved past it and processed |
| `Parser.Parsing.ProcessProduction` | pgf/parser.c:416-427 | the production is started at the current position |
| `Parser.Parsing.AddProduction` | pgf/parser.c:429-457 | the finished item's production, over its completed arguments, is in the completed category |
| `Parser.Parsing.Repredict` | pgf/parser.c:459-474 | a late production is started on every constituent that already has continuations here |
| `Parser.Parsing.CompleteAgain` | pgf/parser.c:459-474 | a later completion adds its production to the same category and starts it everywhere it is awaited |
| `Parser.Parsing.CompleteFirst` | pgf/parser.c:475-495 | the first completion creates the category and, over a non-empty span, serves every item that waits for it |
| `Parser.Parsing.CombineAll` | pgf/parser.c:488-492 | as long as the walked set does not grow under the walk, every member is served; the invariant holds whatever happens |
| `Parser.Parsing.Complete` | pgf/parser.c:429-495 | the production is in the category generated for the continuation set; over a non-empty span a first completion serves every waiting item |
| `Parser.Parsing.PredictAll` | pgf/parser.c:497-534 | every production of the category is started |
| `Parser.Parsing.Predict` | pgf/parser.c:497-534 | the item is among the continuations of the constituent at this position, and if it was not, every production of the category has been started there; a category without productions changes nothing in the invariant |
| `Parser.Parsing.PredictInto` | pgf/parser.c:511-532 | a new continuation starts every production of the category; if the constituent is completed here already, the item is served at once |
| `Parser.Parsing.ProcessSymbol` | pgf/parser.c:536-552 | an item before a token symbol enters the agenda of its next token; one before a category waits for it, and if it did not before, every production of the category has been started; the indices used are in range |
| `Parser.Parsing.GoOn` | pgf/parser.c:613-635 | either of these, or for a finished item its production is in the category completed for its continuations |
| `Parser.Parsing.ProcessNew` | pgf/parser.c:606-645 | an item met for the first time is recorded, and what it calls for is done |
| `Parser.Parsing.ProcessItem` | pgf/parser.c:600-645 | the item is recorded as seen; met for the first time, what it calls for is done: it is in its token's agenda, or waits for its category with all productions started, or its production is in the completed category; nothing found before is lost, and the invariant is kept |
| `Parser.SymbolInRange` | pgf/parser.c:312-345 | the symbol and argument indices an item uses are in range |
| `Parser.Parsing.Scan` | pgf/parser.c:647-716 | the item moved past the token has been processed |
| `Parser.Parsing.ScanAll` | pgf/parser.c:742-761 | every item of the agenda has been moved past the token and processed |
| `Parser.Parsing.NewParsing` | pgf/parser.c:719-740 | a step starts with empty tables on top of an unchanged store |
| `Parser.Parsing.Begin` | pgf/parser.c:879-903 | the initial state is a state of the empty word, reached by a run of the machine on the start categories; the null item waits for each of them, every production of theirs has been started, and every token that one of them begins with is expected; an unknown category gives the empty parse; no production gets into a buffer twice |
| `Parser.Parsing.Feed` | pgf/parser.c:742-761 | null exactly for an unexpected token, and then nothing has changed; otherwise a state of the longer word with every waiting item scanned, reached by a run of the machine, in which whatever any item met calls for is in the chart; categories, production buffers and item sets that existed before are exactly as before; no production gets into a buffer twice |
| `Parser.GrammarValid` | pgf/parser.c:905-921 | a well-formed grammar is a valid chart with no facts |
| `Parser.ParseOkGrows` | pgf/parser.h:53-55 | an old parse state stays a parse state of its word as the chart grows |
| `Orderliness.FinishedSame` | pgf/parser.c:429-495 | a finished item can be told from its continuations and the production it makes |
| `Orderliness.ProductionSound` | pgf/parser.c:429-495 | so the production of an item completed for the first time is new to its buffer |
| `Orderliness.CallGoes` | pgf/parser.c:395-692 | every procedure call keeps what this rests on: arguments completed as often as the dot has passed them, one category per continuation set, every production made by a seen item |
| `Orderliness.BeginOrderly` | pgf/parser.c:879-903 | beginning a parse leaves no production in a buffer twice |
| `Orderliness.ScanOrderly` | pgf/parser.c:742-761 | nor does feeding a token |
| `Closure.CloseStep` | pgf/parser.c:395-716 | what items call for is in the chart or still to be done by a call on the stack; a call keeps this when it settles, or leaves to its own calls, the items it meets, the continuations it makes and the productions it adds |
| `Closure.CallCloses` | pgf/parser.c:395-716 | every procedure call does |
| `Closure.RunCloses` | pgf/parser.c:395-716 | when the stack is empty nothing is left undone: items before tokens are in their agendas, items before categories wait for them, all productions of an awaited category are started, finished items have their productions in completed categories, and completed categories have been given to all who wait, unless a call ran out of depth or a set grew under its walk |
| `Closure.BeginCloses` | pgf/parser.c:879-903 | so it is when a parse has begun, and every start category is awaited with all its productions started |
| `Closure.RootFirst` | pgf/parser.c:879-903 | then the first token of every such production is expected |
| `Closure.ScanCloses` | pgf/parser.c:742-761 | so it is when a token has been fed, and every item of the agenda has been moved past the token and met |
| `Completeness.Advance` | pgf/parser.c:395-716 | an item whose arguments derive trees that spell the next tokens is moved on to its end over the following states, with arguments that derive the same trees; or the next token is still expected |
| `Completeness.Fulfil` | pgf/parser.c:395-534 | whoever waits for a constituent whose words come is given a category that derives its tree |
| `Completeness.Found` | pgf/parser.c:742-903 | every tree of a start category that linearizes to the tokens fed is one of a completed category |
| `Completeness.AllFound` | pgf/parser.c:742-903 | over a whole sentence, and as long as there is such a tree the next token is expected |
| `Forward.RunAhead` | pgf/parser.c:395-716 | without empty constituents a run completes only what earlier steps began |
| `Forward.BeginSettles` | pgf/parser.c:879-903 | so no item set is walked while it grows when a parse begins |
| `Forward.ScanSettles` | pgf/parser.c:742-761 | nor when a token is fed |
| `Forward.GrammarSolid` | pgf/parser.c:905-921 | a grammar as read, without empty constituents, is such a store |
| `ParseTheorems.FactsSound` | pgf/parser.c:395-664 | every tree of a category linearizes as all the category's facts say |
| `ParseTheorems.SpellsSound` | pgf/linearize.c:475-532 | what facts spell symbol by symbol is what the linearizer emits |
| `ParseTheorems.Narrows` | pgf/parser.c:429-495 | every derivation of a completed category is a derivation, with the same tree, of every category it was completed from, in the grammar itself for categories of the grammar |
| `ParseTheorems.ProdLifts` | pgf/parser.c:429-457 | a production of a completed category comes from one of the category it refines |
| `ParseTheorems.ParseSound` | pgf/parser.h:122-124 | every tree of a completed category linearizes at the start constituent to exactly the tokens fed and is a tree of a start category of the grammar |
| `ParseTheorems.ParseSentence` | pgf/parser.h:46-60 | for any sentence fed token by token: all trees of a completed category linearize to it and are trees of a start category; null exactly at the first token the state before it does not expect; and the parse is exact: a tree is a tree of a completed category if and only if it is one of a start category and linearizes to the sentence, and null only when there is none, for runs as in `Closure.RunCloses` with nothing passed over |
| `ParseTheorems.NothingMissed` | pgf/parser.h:46-60 | the half of this that finds everything, with the condition that holds in every grammar without empty constituents |
| `ParseTheorems.DerivesFrozen` | pgf/parser.h:53-55 | old categories derive exactly what they derived before, whatever was parsed since |
| `Machine.CallDone` | pgf/parser.c:395-716 | a procedure call whose own step is known and whose calls have been worked off is a run of the machine |
| `Runs.ReplayAppend` | pgf/parser.c:395-716 | runs of two stacks of calls, one after the other, are a run of both |
| `Renaming.NextRenamed` | pgf/parser.c:395-716 | one call on a store with foreign categories and sets does what it does without them, renamed; it is stuck exactly when the other is |
| `Renaming.RunForth` | pgf/parser.c:395-716 | every run has its counterpart on the larger store |
| `Renaming.RunBack` | pgf/parser.c:395-716 | and every run on the larger store is the counterpart of one |
| `Renaming.FreshRenamed` | pgf/parser.c:719-740 | a step on a grown store begins like one on the store as it was |
| `Persistence.ValidSelfContained` | pgf/parser.c:719-761 | everything a parse state can reach was there when the state was made |
| `Persistence.FeedIndependent` | pgf/parser.h:53-55 | what feeding a token may end in is the same, up to names, whether or not other tokens have been fed to the state before: both directions |
| `Persistence.SameTrees` | pgf/parser.h:53-55 | a renamed category has exactly the same trees |
| `Persistence.DerivesBack` | pgf/parser.h:53-55 | every derivation of a renamed category is a renamed derivation |
| `Persistence.FeedBoth` | pgf/parser.h:53-55 | two tokens fed to one state: both results are states of their own words, neither the old state nor the first result changes, and the second result is, up to names, one that its token gives alone, with the same trees |
| `Extraction.CatToExpr` | pgf/parser.c:804-827 | the expression is that of a derivation of the category with holes at untouched categories, beginning with the production the choice path picks; cycles give none; the visit goes through the decision tree as the path says; it terminates because unseen categories shrink |
| `Extraction.ProductionToExpr` | pgf/parser.c:766-801 | the same for one production |
| `Extraction.ArgsToExpr` | pgf/parser.c:771-790 | the arguments from first to last, each visited with the categories seen before it |
| `ParseResult.UnseenShrinks` | pgf/parser.c:804-827 | the termination measure of extraction |
| `ParseResult.NarrowsPartial` | pgf/parser.c:766-827 | a derivation with holes of a completed category is one, with the same expression, of the category of the grammar it was completed from |
| `ParseResult.FillsInstance` | pgf/parser.c:766-827 | filling the holes gives an instance of the expression |
| `ParseResult.FillsDerives` | pgf/parser.c:766-827 | filling the holes gives a derivation of the category |
| `ParseResult.ExtractionSound` | pgf/parser.h:122-124 | an expression read off a completed category is a well-typed expression of a start category of the grammar; and however its metavariables are filled, the tree is an instance of it, a tree of a start category, and linearizes to the tokens fed |
| `Extraction.ExtractFrom` | pgf/parser.c:830-855 | the same for whatever one visit to a completed category of a parse state returns |
| `Extraction.EnumerateExprs` | pgf/parser.c:804-827 | visiting, going back and advancing until there is nothing left yields the leaves of the category's decision tree, each once, left to right |
| `ExtractionCount.TimesCat` | pgf/parser.c:804-827 | the decision tree has leaves for a derivation exactly if it can be read without meeting a category twice, and then one for every way of choosing its productions from the buffers |
| `ExtractionCount.ReadableCopies` | pgf/parser.c:804-827 | there is such a way exactly for the derivations with holes at the categories the parse did not create |
| `ExtractionCount.EachChoice` | pgf/parser.c:804-827 | so the enumeration yields exactly those derivations, each once for every way |
| `ExtractionCount.EachOnce` | pgf/parser.c:804-827 | which is once, in every store that the parser has made |
| `ResultEnum.ResultState.ReadAt` | pgf/parser.c:844-852 | one alternative of a chosen category: the first that remains, and then it no longer does |
| `ResultEnum.ResultState.Next` | pgf/parser.c:830-855 | the first expression that remains; a null choice object is used exactly when alternatives remain and none of them has an expression |
| `ResultEnum.LastOfCat` | pgf/parser.c:804-827 | the last alternative of a category is read by the last production of every buffer, arguments from left to right |
| `ResultEnum.EndsWellExactly` | pgf/parser.c:830-855 | the last alternative of a state has an expression exactly when reading its last completed category so meets no category twice and no empty buffer |
| `ResultEnum.AllResults` | pgf/parser.c:857-876 | asking until there is none yields the expressions of all completed categories, in order; the last request fails exactly when the last alternative, read like that, has no expression |
| `ResultEnum.YieldsExactly` | pgf/parser.c:804-876 | an expression is among the results exactly when it is that of a derivation of a completed category that can be read without meeting a category twice |
| `ResultEnum.ResultsOf` | pgf/parser.h:122-124 | every result of a parse state is well typed, and its fillings linearize to the tokens fed; which they are, and when the enumeration fails |
| `SharedArgument.Reached` | pgf/parser.c:742-761 | the parser comes from a grammar with a rule `f A A`, spelled by one token, to a state with one completed category |
| `SharedArgument.SharedCategoryLost` | pgf/parser.c:806-810 | the only derivation of that category is never yielded, although nothing in it is cyclic |
| `SharedArgument.ResultFails` | pgf/parser.c:837-854 | so the first request for a result of that state fails |
| `Choice.GuChoice.Reset` | gu/choice.c:30-37 | goes back to a mark and keeps the path |
| `Choice.GuChoice.Next` | gu/choice.c:39-60 | replays the recorded counter or records a new one; -1 for no choices, failure when the counter does not fit |
| `Choice.GuChoice.Advance` | gu/choice.c:62-75 | drops exhausted counters above the mark, steps the last live one, and says whether there was one |
| `Choice.AdvancedCons` | gu/choice.c:62-75 | stepping from the end of the path is the same as stepping the innermost live choice first |
| `Choice.AdvanceDropsOne` | gu/choice.c:62-75 | advancing past a whole run drops exactly the leaf reached; nothing is left exactly after the last leaf |
| `Choice.ExtendCompletes` | gu/choice.c:39-60 | replaying a path and then taking first branches loses no leaf |
| `Choice.Run` | gu/choice.c:39-60 | a replaying run reaches the first remaining leaf and no check fails |
| `Choice.RunAndAdvance` | gu/choice.c:30-75 | run, go back, advance: the leaf and the next path |
| `Choice.Enumerate` | gu/choice.c:22-75 | from any mark the loop yields every leaf below it exactly once, left to right, and leaves the path cut back to the mark |
| `Choice.WalkBind` | gu/choice.c:39-60 | decisions followed by decisions replay one behind the other from one path |
| `Choice.TimesLeaves` | gu/choice.c:39-75 | how often a value is among the leaves |
| `Choice.WeightExtends` | gu/choice.c:39-60 | making another choice never puts a path back |
| `Choice.WeightSteps` | gu/choice.c:62-75 | stepping a counter is strict progress over every path that had it as it was |
| `LzrIndex.Lzr.constructor` | pgf/linearize.c:194-218 | empty indices hold no rules |
| `LzrIndex.Lzr.Index` | pgf/linearize.c:116-154 | the indices hold exactly the rules indexed so far, in order |
| `LzrIndex.Lzr.IndexCat` | pgf/linearize.c:156-168 | all productions of a category, in order |
| `LzrIndex.Lzr.IndexAll` | pgf/linearize.c:175-218 | all categories, in the order met |
| `LzrIndex.EntryIsRule` | pgf/linearize.c:80-113 | every entry found for a function and arguments is an indexed application of it |
| `LzrIndex.SuperIsRule` | pgf/linearize.c:116-154 | every supercategory found is that of an indexed coercion |
| `InferCount.EntryCount` | pgf/linearize.c:116-154 | every indexed application is found under its function and argument categories, as often as it has been indexed |
| `InferCount.SuperCount` | pgf/linearize.c:116-154 | the same for coercions |
| `Searching.RemainingAt` | gu/choice.c:39-75 | what remains behind a path is what remains in the subtree it leads into, then what is to the right of that |
| `Searching.RemainingBind` | gu/choice.c:39-60 | the same for decisions followed by decisions: what remains of the first, each with all that follows it |
| `Searching.LaterAdvanced` | gu/choice.c:62-75 | advancing past a subtree goes on with what is to its right |
| `Searching.AdvancedAppend` | gu/choice.c:62-75 | advancing from an earlier mark steps the same counter, if a later mark has one |
| `Searching.PassedOver` | gu/choice.c:30-75 | behind a subtree without results, going back and advancing passes no result |
| `Searching.FindsPart` | pgf/linearize.c:278-321 | a search in the first part of a decision either goes on into what follows its first remaining result, or may give the part up |
| `Searching.ReplaysPart` | pgf/linearize.c:278-321 | a search on the way through a recorded result repeats it |
| `Infer.RankedClimbs` | pgf/linearize.c:253-273 | indexed coercions climb a finite ladder when the grammar's are acyclic |
| `Infer.PickSupercat` | pgf/linearize.c:253-273 | the category picked is reached by a chain of coercions, over the same tree, as the path records; the climb ends when coercions are acyclic, after a bounded number of choices |
| `Infer.PickEntry` | pgf/linearize.c:303-321 | the entry is an indexed rule for exactly the argument categories, the one the path records or the first; none exactly when there is none |
| `Infer.InferArg` | pgf/linearize.c:288-300 | the first remaining pair of a tree of the argument and a category above its own |
| `InferTree.GoingArg` | pgf/linearize.c:285-302 | after one more argument the search stands at the attempts that begin with the arguments so far, or may go back, and no result has been passed |
| `InferTree.GoingRule` | pgf/linearize.c:303-321 | with all arguments there, it stands at a result, or may go back |
| `InferTree.GoingNext` | pgf/linearize.c:355-365 | after going back to some mark, it stands at the attempts that keep the arguments before that mark |
| `Infer.ApplyTry` | pgf/linearize.c:278-321 | every argument inferred so far is a tree of its expression that reaches the category used for it; the entry returned is for exactly these categories; the path only goes on |
| `Infer.Backtrack` | pgf/linearize.c:355-365 | some counter of the path is stepped and the rest dropped, and the arguments kept are those before it; or nothing is left |
| `Infer.ApplicationOk` | pgf/linearize.c:324-371 | an entry for the argument categories makes the application a tree of the expression |
| `Infer.TryNext` | pgf/linearize.c:355-365 | the next attempt begins strictly further on than the last one did, with no result passed; without one, all attempts have been made |
| `Infer.TryAll` | pgf/linearize.c:351-366 | the loop ends, at the first attempt that succeeds or when none is left |
| `Infer.InferApplication` | pgf/linearize.c:324-371 | the result is a concrete tree of the application that derives from the category returned, the first one from the recorded path on; none is returned exactly when none is left |
| `Infer.InferExpr` | pgf/linearize.c:373-403 | any tree returned erases to the expression (type and implicit-argument wrappers aside) and derives from the returned category; it is the first of all attempts from the recorded path on, a path that records a result repeats it, and without a result the path is back where it was |
| `Infer.InferWith` | pgf/linearize.c:373-403 | the same for any choice path |
| `InferCount.IndexedAll` | pgf/linearize.c:175-218 | indexing every category indexes every production |
| `InferCount.IndexedOnce` | pgf/linearize.c:175-218 | once, if no category is met twice and no production listed twice |
| `InferCount.WaysDerives` | pgf/linearize.c:116-154 | a derivation can be picked from the indices exactly if it is one of the grammar, when all of it is indexed |
| `InferCount.TimesSuper` | pgf/linearize.c:253-273 | every chain of coercions can be picked, in exactly as many ways as its coercions are indexed |
| `InferCount.StripApplied` | pgf/expr.c:53-72 | an expression that is that of a concrete tree, wrappers aside, comes apart into its function and arguments |
| `InferCount.ExprShown` | pgf/linearize.c:324-403 | every attempt of inference is a derivation, seen as its category and tree |
| `InferCount.TimesExpr` | pgf/linearize.c:324-403 | every derivation of the expression by a rule is among the attempts once for every way of picking its rules, and nothing else is |
| `InferCount.TimesArg` | pgf/linearize.c:288-300 | the same for every derivation of an argument, coercions included |
| `Searching.ResultDropped` | pgf/linearize.c:421-428 | advancing from where a result was found drops exactly that result |
| `Concretize.Lzn.constructor` | pgf/linearize.c:446-456 | an enumeration begins with all results before it |
| `Concretize.Lzn.FindNext` | pgf/linearize.c:414-419 | inferring and advancing until there is a result: the first that remains, after one inference; none exactly when none remains |
| `Concretize.Lzn.TreeAgain` | pgf/linearize.c:421-425 | the second inference of a tree repeats the first: same category, same path |
| `Concretize.Lzn.Next` | pgf/linearize.c:406-431 | returns the trees to come one by one, in order, each a concrete tree of the expression; no check fails; at the end the enumeration is over or begins anew |
| `Concretize.AllTrees` | pgf/linearize.c:433-456 | asking for trees until there is none yields one tree for every derivation of the expression by a rule and every way of picking its rules; if everything is indexed these are exactly the concrete trees that some category of the grammar derives |
| `Expr.Unwrap` | pgf/expr.c:9-29 | strips type annotations and implicit-argument marks |
| `Expr.Arity` | pgf/expr.c:31-51 | the number of arguments, -1 when the head is not a function |
| `Expr.Unapply` | pgf/expr.c:53-72 | function and arguments, although filled in from the last to the first |
| `Expr.ReapplyStrips` | pgf/expr.c:53-72 | re-application restores the expression up to wrappers |
| `Expr.Reapply` | pgf/expr.c:53-72 | re-application restores trees of applications and functions exactly |
| `Primes.WheelCoprime` | gu/prime.c:6-21 | the wheel mask is exactly the residues prime to 30 |
| `Primes.SmallPrimeIsPrime` | gu/prime.c:6-34 | the mask of primes below 32 is exact |
| `Primes.TryRound` | gu/prime.c:36-53 | one turn of the wheel skips no divisor that matters |
| `Primes.IsWheelPrime` | gu/prime.c:36-53 | true exactly for primes; for 32-bit arguments every intermediate value is a 32-bit int if and only if the argument is below 46320² or composite |
| `Primes.IsPrimeTest` | gu/prime.c:105-117 | true exactly for primes; no int overflows if and only if the argument is below 46320² or composite |
| `Primes.IsTwinPrime` | gu/prime.c:119-123 | true exactly for the upper member of a twin pair |
| `Primes.PrimeInf` | gu/prime.c:55-78 | the greatest prime at or below the argument, 0 when there is none |
| `Primes.WheelPrimeInf` | gu/prime.c:63-78 | the running residue is the candidate modulo 30 and no prime is stepped over |
| `Primes.PrimeSup` | gu/prime.c:80-103 | the least prime at or above the argument |
| `Primes.WheelPrimeSup` | gu/prime.c:88-103 | the same upwards; the search ends because there is always a prime above |
| `Primes.PrimeAbove` | gu/prime.c:80-103 | there is a prime at or above every number |
| `Primes.TwinPrimeInf` | gu/prime.c:125-138 | the greatest upper twin at or below the argument, 0 when there is none |
| `Primes.SkipFour` | gu/prime.c:125-138 | after a prime whose lower neighbour is composite, stepping down by four skips no upper twin |
| `Primes.TwinPrimeSup` | gu/prime.c:140-155 | the least upper twin at or above the argument, given that there is one |
| `Primes.SkipFourUp` | gu/prime.c:140-155 | stepping up by four skips no upper twin |
| `Probing.ProbeStep` | gu/map.c:78-100 | adding the step modulo the size follows the probe sequence |
| `Probing.NoZeroDivisors` | gu/map.c:81-100 | modulo a prime, a product of non-zero residues is not zero |
| `Probing.ProbeInjective` | gu/map.c:81-100 | the first n probes of a prime-sized table are n different slots |
| `Probing.ProbeCovers` | gu/map.c:81-100 | every slot of a prime-sized table is probed |
| `HashMap.FreeSlot` | gu/map.c:78-148 | a table with fewer entries than slots has a free slot, the zero key counted properly |
| `HashMap.StopMeansAbsent` | gu/map.c:78-148 | where probing stops at a free slot, no equal key is stored anywhere |
| `HashMap.FillOk` | gu/map.c:256-283 | filling that slot keeps every key reachable and no key stored twice |
| `HashMap.TableSize` | gu/map.c:151-172 | the size chosen is the upper of two twin primes, at least 13 and at least what was wanted |
| `HashMap.WantedEnough` | gu/map.c:151-224 | rehashing never makes the new table crowded, so it never resizes again |
| `HashMap.GuMap.Lookup` | gu/map.c:61-148 | terminates; found exactly when an equal key is in the mathematical map, else the slot where the key belongs |
| `HashMap.GuMap.Find` | gu/map.c:226-235 | the value of the equal key, or none |
| `HashMap.GuMap.FindDefault` | gu/map.c:237-242 | the value of the equal key, or the map's default |
| `HashMap.GuMap.constructor` | gu/map.c:359-393 | a new map is empty and has a table |
| `HashMap.GuMap.Resize` | gu/map.c:151-212 | same contents in a prime table of at least 13 slots with one to spare; the re-insertions cannot resize |
| `HashMap.GuMap.Insert` | gu/map.c:256-283 | the slot of the existing equal key, or of a new entry with the default value; the assertions on the way hold |
| `HashMap.GuMap.Fill` | gu/map.c:264-283 | the entry is added, the zero key through `zero_idx`, and nothing else changes |
| `HashMap.GuMap.SetAt` | gu/map.c:256-283 | storing through the slot updates exactly that key |
| `HashMap.GuMap.Put` | gu/map.c:256-283 | insert and store is one update of the mathematical map |
| `HashMap.MovedFewer` | gu/map.c:174-212 | while rehashing, the next key is not yet present and fewer keys are than before |
| `HashMap.MovedAll` | gu/map.c:174-212 | after rehashing the map is the old one |
| `MapRuns.PutAgrees` | gu/map.c:256-283 | after a put the map answers every key as the longer history does |
| `MapRuns.InsertAgrees` | gu/map.c:256-283 | a bare insertion does nothing to a key that is there, and otherwise what putting the default value does |
| `MapRuns.RunOps` | gu/map.c:78-283 | any run of puts, bare insertions, lookups and lookups with default on a new map: every lookup answers from the history of insertions before it |
| `Memory.Padovan` | gu/mem.c:68-89 | at least the argument, wrap-around included; without overflow the least block count that suffices, and at most 4/3 of an argument above 5 |
| `Memory.BufSize` | gu/mem.c:91-100 | the byte size covers the request and is that of a block count |
| `Memory.PadRatio` | gu/mem.c:68-89 | neighbouring sizes grow by a bounded ratio |
| `Memory.GrowthBounded` | gu/mem.c:68-100 | the sum of all block counts of a growing buffer is at most 5 times the last one |
| `Memory.GuBuf.Require` | gu/seq.c:112-122 | contents kept; reallocates only when needed, and then to a strictly larger block count |
| `Memory.GuBuf.PushN` | gu/seq.c:130-152 | appends exactly the elements, with at most one reallocation |
| `Memory.GuBuf.PopN` | gu/seq.c:154-174 | removes and returns exactly the last elements |
| `Pool.AlignForwardOk` | gu/mem.c:197-206 | the least aligned position at or behind a position |
| `Pool.AdvanceOk` | gu/mem.c:197-206 | the position leaves room for prefix and body, the body aligned and the prefix aligned when its size is a multiple of its alignment |
| `Pool.GuPool.constructor` | gu/mem.c:144-159 | a pool in a buffer aligned for the pool structure at least is usable if and only if what is left of its size in 16 bits holds its header |
| `Pool.AlignedExactly` | gu/mem.c:208-225 | an aligned offset is an aligned address wherever the chunk is, if and only if the alignment is at most the chunk's |
| `Pool.Misaligned` | gu/mem.h:106-112 | 32-byte alignment in a chunk at an odd multiple of 16 is not what was asked for |
| `Pool.ChunkFits` | gu/mem.c:180-195 | a chunk fits 16 bits if and only if the request is at most 53256 bytes |
| `Pool.GuPool.Expand` | gu/mem.c:180-195 | a new chunk of sufficient size; the assertion that it fits 16 bits fails exactly above 53256 bytes; old regions stay where they are |
| `Pool.GuPool.MallocAligned` | gu/mem.c:208-225 | a region from the left edge at an aligned offset, with its prefix, disjoint from all others and inside its chunk |
| `Pool.GuPool.MallocUnaligned` | gu/mem.c:233-244 | the same from the right edge, for every size; it fails exactly when a new chunk is needed and would be too large |
| `Pool.GuPool.MallocOwnChunk` | gu/mem.c:246-279 | a large request gets a chunk of its own |
| `Pool.GuPool.MallocPrefixed` | gu/mem.c:246-279 | whichever way is taken: sizes as requested, all regions pairwise disjoint, inside their chunks, clear of headers; addresses of object and prefix aligned as requested if and only if the alignment is at most that of the chunk |
| `Pool.LowestBit` | gu/mem.c:281-290 | the default alignment of an object is a power of two that divides its size |
| `Pool.GuPool.Malloc` | gu/mem.c:281-290 | the same for an object without prefix, by default aligned as its size calls for |
| `Pool.NewPool` | gu/mem.c:170-178 | a new pool is usable and its first chunk aligned for every type |
| `Pool.LocalPool` | gu/mem.h:71-74 | so is a local one |
| `Pool.MallocAll` | gu/mem.h:106-112 | whatever is asked of a pool of either kind: the objects are inside their chunks, do not overlap, and each has its size and, up to 16, the alignment asked for |
| `OutStream.OutStack.TryBuf` | gu/out.h:68-89 | takes the bytes exactly when they fit the buffer |
| `OutStream.OutStack.EndBuf` | gu/out.c:29-40 | hands pending bytes down; nothing is lost or moved |
| `OutStream.OutStack.BeginBuf` | gu/out.c:42-68 | success means free space; nothing is written |
| `OutStream.OutStack.Output` | gu/out.c:101-109 | pending bytes go down before the new ones |
| `OutStream.OutStack.OutBytes` | gu/out.h:83-91 | appends exactly the bytes to what the layer has been given |
| `OutStream.OutStack.OutBytesSlow` | gu/out.c:152-166 | the same when the buffer is full or missing |
| `OutStream.OutStack.OutU8` | gu/out.h:95-115 | appends exactly one byte |
| `OutStream.OutStack.BeginSpan` | gu/out.c:126-136 | a place of at least the fallback's size, the stream's own or the fallback |
| `OutStream.OutStack.EndSpan` | gu/out.c:138-150 | appends what was written to the span, wherever it was |
| `OutStream.OutStack.BeginStream` | gu/out.c:209-274 | a proxy takes the free space below, a buffered layer its own buffer |
| `OutStream.OutStack.Flush` | gu/out.c:114-124 | everything given to the layer is in the sink |
| `OutStream.OutStack.WriteSpans` | gu/out.c:126-150 | writing span by span appends exactly the bytes |
| `OutStream.OutStack.WriteAll` | gu/out.c:29-166 | any mix of operations at the top of any stack, then a flush: the sink has exactly the bytes written, in order |
| `OutStream.OutStack.constructor` | gu/out.c:9-20 | a fresh stack has nothing pending |
| `OutStream.WriteThrough` | gu/out.c:209-321 | through a fresh stack of any layers the sink gets exactly the bytes written |
| `InStream.InStack.constructor` | gu/in.c:274-293 | a fresh stack over data is at position 0 in every layer |
| `InStream.InStack.EndBuffering` | gu/in.c:16-28 | gives the buffer up without moving the position |
| `InStream.InStack.BeginBuffering` | gu/in.c:30-53 | success means bytes ahead; failure means the stream has nothing of its own left |
| `InStream.InStack.BeginStream` | gu/in.c:309-430 | data, proxy and buffered streams offer the bytes that come next |
| `InStream.InStack.BeginBuffered` | gu/in.c:361-373 | refills only an empty buffer |
| `InStream.InStack.Input` | gu/in.c:55-68 | called only when the layer's own buffer is used up; delivers the next bytes, none only at the end |
| `InStream.InStack.InputBelow` | gu/in.c:324-390 | the same through a proxy or past a buffer |
| `InStream.InStack.Some` | gu/in.c:70-88 | the next bytes, at least the minimum unless the input ends |
| `InStream.InStack.Bytes` | gu/in.c:90-98 | exactly the next n bytes, or an end-of-file error at the end |
| `InStream.InStack.U8` | gu/in.c:126-142 | the next byte, or an end-of-file error at the end |
| `InStream.InStack.Peek` | gu/in.h:70-77 | the next byte if the buffer has one |
| `InStream.InStack.BeginSpan` | gu/in.c:100-112 | the bytes that come next: looked at in the stream's buffer, or read into the caller's |
| `InStream.InStack.EndSpan` | gu/in.c:114-124 | moves by the bytes consumed of the stream's buffer, and not again for the caller's |
| `InStream.InStack.ReadMixed` | gu/in.c:16-142 | any mix of operations delivers the bytes between two positions, each once, in order |
| `InStream.InStack.ReadToEnd` | gu/in.c:70-88 | reading on delivers all the rest |
| `InStream.ReadThrough` | gu/in.c:295-299 | through any stack the data arrives whole and in order, and the position told is the number of bytes read |
| `Utf8.DecodesOne` | gu/utf8.c:7-53 | lead byte and continuation bytes of an encoding give the code point back, whatever follows |
| `Utf8.EncodedStands` | gu/utf8.c:84-108 | the first byte is in 00..7F, C2..DF, E0..EF or F0..F4 and the others in 80..BF, as the length says, and the code point is the sum of their payloads |
| `Utf8.StandsOnce` | gu/utf8.c:84-108 | no other bytes stand for it |
| `Utf8.EncodedStandForAll` | gu/utf8.c:110-140 | the same for sequences, both directions |
| `Utf8.EncodeOne` | gu/utf8.c:84-108 | writes bytes that stand for the code point by the ranges and payload sums of UTF-8, and nothing else |
| `Utf8.EncodeBatches` | gu/utf8.c:110-130 | whole batches stay inside the destination |
| `Utf8.Encode` | gu/utf8.c:110-140 | bytes that stand for the longest prefix that fits, one code point after the other, never past the end |
| `Utf8.LongerPrefix` | gu/utf8.c:110-140 | a longer prefix needs at least the next code point's bytes more |
| `Utf8.DecodeOne` | gu/utf8.c:7-25 | the code point and its length |
| `Utf8.EnoughLeft` | gu/utf8.c:56-82 | a quarter of the remaining bytes, rounded up, is at most the number of code points left |
| `Utf8.Decode` | gu/utf8.c:56-82 | decodes as many code points as fit, in order, and never reads past a well-formed source |
| `Utf8.RoundTrip` | gu/utf8.c:56-140 | decoding the encoding gives the sequence back |
| `ExprSyntax.SplitPrint` | pgf/expr.c:320-359 | the printed text splits into exactly the expected tokens |
| `ExprSyntax.PrintText` | pgf/expr.c:320-359 | the text itself: the names in order, one space for every application and never two together, a pair of parentheses for every argument that is one, and no other character |
| `ExprSyntax.TermToks` | pgf/expr.c:245-272 | the tokens of a printed term parse as that term |
| `ExprSyntax.WholeToks` | pgf/expr.c:274-292 | the tokens of a printed expression parse as it, left-associated |
| `ExprSyntax.ReadPrint` | pgf/expr.c:296-359 | reading a printed expression gives it back |
| `ExprSyntax.ReadSemicolon` | pgf/expr.c:308-315 | so does reading it with a semicolon behind, whatever comes then |
| `ExprSyntax.ReadParenthesis` | pgf/expr.c:308-315 | with a closing parenthesis behind it, the expression is returned and the error raised |
| `ExprReader.Reader.Next` | pgf/expr.c:156-173 | the pushed-back character first, then the input |
| `ExprReader.Reader.ReadId` | pgf/expr.c:175-223 | an identifier as long as possible, the character behind it pushed back |
| `ExprReader.Reader.Lookahead` | pgf/expr.c:175-223 | the reader's state stands for the same token list; the next token is looked at once |
| `ExprReader.Reader.Consume` | pgf/expr.c:235-240 | drops the token looked at |
| `ExprReader.Reader.ReadTerm` | pgf/expr.c:245-272 | parses a term as the grammar on tokens does, errors included |
| `ExprReader.Reader.ReadWhole` | pgf/expr.c:274-292 | parses an expression as the grammar on tokens does |
| `ExprReader.ReadExpr` | pgf/expr.c:296-318 | result and failure as the grammar says |
| `ExprReader.PrintAndRead` | pgf/expr.c:296-359 | through pushback and lookahead, a printed expression is read back |
| `Strings.UnpackPacked` | gu/string.c:46-119 | packing then unpacking a short string gives it back; packed words are odd |
| `Strings.PackedFits` | gu/string.c:46-71 | a packed string fits a machine word |
| `Strings.MakeString` | gu/string.c:46-71 | for fewer than 256 bytes, and only then, the word stands for exactly the bytes: packed when short, else behind a length byte in memory; nothing else in memory changes |
| `Strings.OpenString` | gu/string.c:89-119 | the bytes a word stands for: unpacked, or as many behind the address as the length byte says, or the length word when that is zero |
| `Strings.RepresentsStays` | gu/string.c:46-71 | making a string leaves the others what they are |
| `Strings.MakeAndOpen` | gu/string.c:46-119 | opening a string that has been made gives the bytes back, for every length below 256 and no other |
| `Strings.StringOkRepresents` | gu/string.c:46-119 | which words stand for strings |
| `Strings.HashBytes` | gu/hash.c:9-16 | the loop computes the fold over the bytes |
| `Strings.HashedNumber` | gu/hash.h:17-22 | the hash of some bytes is the number they are to the base 101, behind the seed, modulo 2 to the 64 |
| `Strings.StringEqualBytes` | gu/string.c:209-229 | strings are equal exactly when their bytes are, and equal strings hash equally |
| `Hashers.EqMeans` | gu/hash.c:52-332 | values are equal exactly when they stand for the same contents: sequences and structs element by element, pointers and variants by what they lead to, strings by their bytes, shared pointers and abstract values by address |
| `Hashers.EqAtMeans` | gu/hash.c:52-332 | so are the values at two addresses |
| `Hashers.HashMeans` | gu/hash.c:61-342 | the hash of a value is what its contents do to the seed: words byte by byte, sequences behind their lengths, variants behind their tags, nulls flipping all bits, strings replacing the seed |
| `Hashers.MarksTell` | gu/hash.c:61-290 | for types without pointers to follow and strings, what contents do to a hash tells them from all others of the type: everything that counts for equality counts for the hash |
| `Hashers.EqReflexive` | gu/hash.c:52-332 | equality by any type description is reflexive |
| `Hashers.EqSymmetric` | gu/hash.c:52-332 | and symmetric |
| `Hashers.EqTransitive` | gu/hash.c:52-332 | and transitive |
| `Hashers.EqHash` | gu/hash.c:52-342 | equal values hash equally from every seed |
| `Hashers.ElemsHash` | gu/hash.c:117-157 | element by element equal sequences hash equally |
| `Hashers.MembersHash` | gu/hash.c:257-290 | member by member equal structs hash equally |
| `Hashers.AtHash` | gu/hash.c:52-342 | equal values at two addresses hash equally |
| `Hashers.HasherLawful` | gu/hash.c:39-48 | the hasher of every type, over the key values a map copies and tests for zero, meets what the hash map requires |
| `Hashers.HasherAt` | gu/hash.c:39-48 | on the copied keys it decides what equality and hash decide at the addresses they were copied from |
| `Hashers.IsEqual` | gu/hash.c:52-332 | the comparison loops, with their shortcuts, say whether two addresses hold the same contents |
| `Hashers.HashValue` | gu/hash.c:61-342 | the hashing loops compute the hash, which is what the contents at the address do to the seed |

## Left out

- Termination of the parser: some grammars make it create categories for ever, so the depth of the mutual recursion is bounded by a `fuel` parameter; every contract holds for every bound, and the run records the items met when it is used up.
- ParseTheorems.ParseSentence: that nothing is missed is stated for runs in which no call ran out of depth and no item set grew while it was walked; with an empty constituent a set can grow under its walk, and rehashing may then move a member that has not been served behind the walk.
- Parser.Parsing.CombineAll: once nested calls enlarge the hash set being walked, which members are visited is left open, as rehashing may move them under the walk.
- Item memory: items are values, so sharing of memory between an item and its advanced copies is not modelled.
- Prefix-dependent, literal and variable symbols: the parser and the linearizer treat alternatives differently (pgf/parser.c:553-588, pgf/linearize.c:516-521), and literals and variables are unfinished in the source.
- ResultEnum.AllResults: stated for production buffers and completed lists of at most 255 entries, which is what the choice object demands.
- Duplicate entries in `completed`: the initial state can hold the same empty-span category twice; no uniqueness is claimed.
- Infer.InferExpr: literal expressions are not modelled. Which attempt is found is stated for indices whose lists the 8-bit counters of the choice object can hold; with longer lists the source's own check fails.
- Concretize.AllTrees: literal expressions, as for `Infer.InferExpr`; stated for indices whose lists the 8-bit counters can hold.
- HashMap.TableSize: requires a twin prime pair above the wanted size, as the search upwards would not end without one, and buffers for it within three quarters of the address space.
- HashMap.GuMap.constructor: the same for the first table.
- HashMap.GuMap.Resize: the same for the next table.
- HashMap.GuMap.Insert: the same when a new key makes the table grow.
- HashMap.GuMap.Put: the same when a new key makes the table grow.
- MapRuns.RunOps: the same for the largest table of the run.
- HashMap.GuMap.Lookup: the address, word and generic-key variants of the loop are one loop over a hash and an equality; narrowing of sizes to int is not modelled.
- Primes.IsWheelPrime: the bit masks are modelled as sets of residues.
- Map iteration, enumeration and finalization (gu/map.c:285-354): plumbing over the entries.
- Memory.BufSize: requests beyond three quarters of the address space, where the size computation may wrap around.
- Memory.GuBuf.Require: the same when the buffer has to grow.
- Memory.GuBuf.PushN: the same when the buffer has to grow.
- `gu_make_seq`, `gu_buf_freeze` and tagged sequence pointers (gu/seq.c:17-110, 176-185).
- Pool finalizers and raw malloc/free (gu/mem.c:39-66, 300-329).
- OutStream.OutStack.EndBuf: buffers are values, so a proxy's writing through the buffer below is modelled as pending bytes handed over at the end; errors raised by streams are not modelled.
- InStream.InStack.BeginStream: buffers are values, each tied to the bytes they stand for; errors raised by streams are not modelled.
- Exclusive use: each stream layer is used through the layer above it while that one is buffering.
- Multi-byte integer and float readers and writers (gu/in.c:144-261): they only combine single bytes.
- Utf8.Decode: malformed input is not modelled; the source does not check continuation bytes or overlong forms.
- Strings.MakeString: what happens from 256 bytes on, where the source writes through a pointer it never set (gu/string.c:57-69), beyond that no string results.
- Hashers.HasherOf: padding bytes between the members of a struct key. The builders that assemble hashers from type descriptions at run time are replaced by recursion on the description.
- Printing of expressions other than functions and applications, and of parser items.
- Locale readers and writers, files, logging, formatting, type reflection, the grammar file reader, the Python bindings and the command line tools.
