# The VDM code generator, modelled and verified

The repository holds the VDMTools code generator, which turns VDM-SL and VDM++
specifications into C++ and Java. This project models five parts of it in Dafny and proves
what they are for:

1. **The back-end printer** (`CGBackEnd`): expressions are printed with a precedence table
   and statements with their own brace rules. A reader that follows the target language is
   modelled beside the printer, with a grammar of its own, and the text is shown to mean the
   printed tree exactly when a syntactic condition on the tree holds.
2. **The keep-tag merge for Java files**: the generator reads hand-edited regions out of an
   existing file and writes them into the new one. Reading is modelled character by
   character, writing string by string; no kept code is lost, fresh code stands wherever none
   was kept, and a second regeneration changes nothing but the banner.
3. **The type normaliser**: expanding names, flattening unions, merging collection types and
   removing invariants, repeated until nothing changes. Types have a meaning as sets of
   values; the results of a pass are exactly the flat types, and the loop ends exactly where
   no type name leads to a cycle of definitions with a constructor on it.
4. **The lowering of VDM map operators to Java statements**: the emitted statements run on a
   heap with explicit copies and arbitrary iteration orders, and compute the operators.
5. **The class hierarchy and synchronisation tables**: the topological pass over classes,
   abstract methods, operation numbers, guard and mutex tables, the generated `evaluatePP`,
   and mutual exclusion over all runs of the generated operations.

Each part has pure specification functions with lemmas, and beside them methods in the
source's own form (loops over sets and lists, fields of `CGBackEnd` and `vdmcg` that are
updated in place) whose contracts tie the new state to those functions.

`dafny verify dfyconfig.toml` checks everything.

## Layout

| files | part |
|---|---|
| `ExprSyntax`, `ExprRoundTrip`, `ExprRegrouping`, `ExprPrinter` | printing expressions and reading them back |
| `StmtSyntax`, `StmtReading`, `StmtPrinter` | printing statements, else binding, indentation |
| `KeepTagText`, `KeepTagReader`, `KeepTagWriter`, `KeepTagMerge`, `KeepTagRegeneration`, `KeepTagLayout` | keep tags |
| `VdmValues`, `TypeReps`, `TypeNormaliser`, `TypeMeaning`, `TypeMerging`, `TypeNormalForm`, `TypeExpansion`, `TypeOccurrences`, `TypeLookup`, `TypeRecursion`, `TypeCycles`, `PatternTypes`, `TypeLoops` | types |
| `JavaStatements`, `MapLowering`, `MapOperators`, `MapBuilders` | map operators |
| `SyncTables`, `SyncScan`, `SyncGuards`, `SyncProtocol`, `ClassHierarchy`, `SyncObjects` | classes and synchronisation |

## Findings about the code

- A right operand of the same level, or a conditional as a condition, is printed without
  brackets and so changes its grouping unless the tree already holds a bracket node
  (`ExprRegrouping.ReadsBackIffFaithful`).
- An if with else whose first branch is a loop or label ending in an open if loses its else to
  that inner if; the printer only braces a branch that is itself an if without else
  (`StmtReading.ReadsBackIffFaithful`, with an example in `StmtReading.LoopLosesElse`). With
  blocks as loop and label bodies this cannot happen.
- `ReadJavaFile` throws on a start tag line that ends less than five characters behind the
  space after the name, because the keep word is taken with `substr` (`KeepTagText.ShortTagThrows`).
- Kept regions with empty code are kept only as left-over entities; for a generated entity the
  new file says KEEP=NO (`KeepTagRegeneration.NoKeptCodeIsLost`).
- The repeat-until-stable loop never ends on a type with a recursive name in it, that is, one
  that leads to a cycle of definitions with a set, sequence, map, product or function type on it;
  `IsCyclicTypeRep` looks only at types that are themselves names, so "set of T" with T = set of T
  or T = nat | set of T enters the loop (`TypeRecursion.NeverSettles`,
  `TypeRecursion.UnseenRecursion`). Without such names, and without cycles through unions and
  invariants only, it ends (`TypeRecursion.SettlesIffNothingRecurs`).
- With a cycle through unions only, T = T | nat, the outcome depends on where the name stands:
  "set of T" settles after one round, but below an empty-set type, which is expanded and not
  flattened, the union grows for ever (`TypeRecursion.UnionCycleSettles`,
  `TypeRecursion.UnionCycleMayGrow`).
- `FindSetElemType` reports too little when ALL stands beside set types none of which has ALL
  among its element types (`TypeNormalForm.FindSetElemTypeCoversIff`,
  `TypeNormalForm.CoversIffAllAmongElements`), as in ALL | set of nat
  (`TypeNormalForm.SetOfNatBesideAll`).
- Merging collection types gains values unless one of them already has all the elements
  (`TypeMerging.SetMergeExactIff` and the lemmas beside it); for maps with too few keys to choose
  from this need not be so (`TypeMerging.OneKeyMergesExactly`).
- A map restriction whose set operand is no set aborts only if the map is not empty
  (`MapOperators.RestrictComputes`).

## Assumptions

- Java `RunTime` exceptions are an abort state; iteration over a set visits every element once
  in an arbitrary order that may differ from loop to loop.
- Freshly generated text of a member holds no tag string, tag names have no spaces, a file has
  one top-level class, and field initialisers hold no anonymous classes.
- The Java class `Sentinel` is not part of this model: `entering(n)` is taken to wait for
  `evaluatePP(n)` and to count the call in one atomic step, `leaving(n)` to uncount it.
- For numbering and tables: single inheritance, all superclasses defined, no interfaces,
  unqualified operation names in synchronisation definitions, one permission predicate per
  operation and class. `SyncObjects.OrderSupers` shows that the lists of superclasses then have
  the shape the tables assume.

## Model

| member | source | states |
|---|---|---|
| ExprRoundTrip.FaithfulReadsBack | code/cg/backend.cc:2178-2257 | a tree without unbracketed equal-level right operands and conditional conditions is read back, up to brackets, by the levels of the C++ grammar |
| ExprRoundTrip.OperandsRead | code/cg/backend.cc:2185-2225 | the text of a binary operator reads as one left-associative application on its own level, whatever of no tighter level follows |
| ExprRoundTrip.BinSymRead | code/cg/backend.cc:4144-4202 | the printer's table gives every operator the level of the grammar production that lists its symbol, and no tighter production lists it |
| ExprRoundTrip.CallReads | code/cg/backend.cc:2560-2585 | an argument list prints so that a call reads back with the same arguments; a single argument may lose its brackets |
| ExprRoundTrip.ChoiceReads | code/cg/backend.cc:2229-2257 | the text of a conditional reads back as that conditional |
| ExprRegrouping.LeftRotationPrintsTheSame | code/cg/backend.cc:2185-2225 | for two operators of one level the right-nested tree and its left rotation print identically |
| ExprRegrouping.ChainedConditionPrintsTheSame | code/cg/backend.cc:2229-2257 | a conditional as a condition prints like the conditional nested in the last branch |
| ExprRegrouping.CanonPrints | code/cg/backend.cc:2178-2257 | regrouping a whole tree to the language's associativity leaves its text unchanged |
| ExprRegrouping.CanonLeans | code/cg/backend.cc:4121-4282 | regrouping raises a measure unless every right operand and condition was already safe |
| ExprRegrouping.PrintedMeansRegrouped | code/cg/backend.cc:2178-2257 | every printed tree parses, and parses to the regrouped tree |
| ExprRegrouping.ReadsBackIffFaithful | code/cg/backend.cc:4121-4282 | the text means the printed tree if and only if no right operand has its operator's level and no condition is a bare conditional |
| ExprPrinter.CGBackEnd.GenCode | code/cg/backend.cc:2178-2257 | the stream grows by exactly the tokens of the expression |
| ExprPrinter.CGBackEnd.GenActuals | code/cg/backend.cc:2575-2585 | a lone argument is printed without its outer brackets, several are separated by commas |
| ExprPrinter.CGBackEnd.GenCodeSeq | code/cg/backend.cc:4314-4323 | the elements are printed in order with delimiters between them |
| StmtReading.PrintedMeansNearestIf | code/cg/backend.cc:3294-3364 | every printed statement parses, and as the tree in which each else went to the nearest if that could take it |
| StmtReading.ReadsBackIffFaithful | code/cg/backend.cc:3330-3362 | up to braces the text means the printed tree if and only if no branch before an else is open and unbraced |
| StmtReading.LoopLosesElse | code/cg/backend.cc:3330-3362 | an else behind a loop over an if without else is read as that if's else |
| StmtReading.BlockBodiesReadBack | code/cg/backend.cc:3294-3490 | with blocks as loop and label bodies every statement tree reads back up to redundant or merged braces |
| StmtReading.Reads | code/cg/backend.cc:1755-1990 | the text of a modelled statement, followed by anything, reads as what it means, taking the elses behind it as long as it is open |
| StmtReading.AbsorbInElse | code/cg/backend.cc:3340-3362 | elses behind an else branch go into that branch first and then to the ifs around it |
| StmtReading.ReadIsGreedy | code/cg/backend.cc:3294-3364 | whatever the reader returns leaves no else that it could still have taken |
| StmtReading.FaithfulStrips | code/cg/backend.cc:3396-3490 | dropping and merging braces changes nothing but braces |
| StmtReading.MeantMeasure | code/cg/backend.cc:3330-3338 | reading moves elses only deeper into first branches, and moves none exactly if the tree is faithful |
| StmtReading.BracesBalanced | code/cg/backend.cc:641-652 | printed braces are balanced for every tree |
| StmtPrinter.CGBackEnd.GenCode | code/cg/backend.cc:1755-1990 | the tokens of the statement are appended and the indentation is restored |
| StmtPrinter.CGBackEnd.GenStmt | code/cg/backend.cc:4284-4312 | as above for a controlled statement; a scope is closed only if the caller opened one |
| StmtPrinter.CGBackEnd.GenIfStmt | code/cg/backend.cc:3294-3364 | as above for if, with braces around a branch that is an if without else |
| StmtPrinter.CGBackEnd.GenCompoundStmt | code/cg/backend.cc:3396-3490 | as above for blocks: nested single blocks collapse, in C++ a leading block is merged |
| KeepTagText.Find | code/cg/backend.cc:556-557 | leftmost occurrence at or after a position, or none at all |
| KeepTagText.StartTagReads | code/cg/backend.cc:239-262 | a printed start tag is recognised with its name and keep word |
| KeepTagText.EndTagReads | code/cg/backend.cc:269-285 | a printed end tag is recognised as an end tag of its name and not as a start tag |
| KeepTagText.NameIsGood | code/cg/backend.cc:503-531 | a name read from a start tag has no spaces |
| KeepTagText.ShortTagThrows | code/cg/backend.cc:571-573 | a start tag line too short for its keep word makes the reader throw |
| KeepTagReader.KeptIsFirstClosedRegion | code/cg/backend.cc:538-631 | a name is kept exactly if some closed region of it says YES, with the non-tag lines of the first such region; the reader throws exactly on a too short start tag outside regions |
| KeepTagReader.ReadTextOk | code/cg/backend.cc:538-631 | on any file: keeping implies being within a tag, and the sequence lists the map's keys once each |
| KeepTagReader.StepOk | code/cg/backend.cc:556-629 | every line keeps that invariant |
| KeepTagReader.ReadsRegions | code/cg/backend.cc:551-630 | the state machine collects exactly the regions of a declarative scan of the lines |
| KeepTagReader.FeedIsStepAll | code/cg/backend.cc:549-554 | splitting into lines while reading is reading the list of lines |
| KeepTagReader.ReadJavaFile | code/cg/backend.cc:538-631 | the loop over characters and lines returns what the specification of the reader says, or throws where it does |
| KeepTagWriter.CGBackEnd.GenFile | code/cg/backend.cc:654-795 | the new file is the text of the class tree merged with what the existing file kept; the nesting level is back at zero |
| KeepTagWriter.CGBackEnd.GenClassSpecifier | code/cg/backend.cc:3071-3129 | the class text, with left-over kept entities on top of the top-level class only; level, indentation and context are restored |
| KeepTagWriter.CGBackEnd.GenIdentDeclaration | code/cg/backend.cc:953-1061 | a field between its tags, fresh or kept, or an inner class |
| KeepTagWriter.CGBackEnd.GenFunctionDefinition | code/cg/backend.cc:1133-1217 | a method between its tags, fresh or kept |
| KeepTagWriter.CGBackEnd.GenLeftOver | code/cg/backend.cc:3099-3113 | the kept entities not generated any more, in their existing order |
| KeepTagWriter.Entities | code/cg/backend.cc:317-384 | exactly the names of the top-level class's members, an inner class counting as one |
| KeepTagMerge.ReadsRegionText | code/cg/backend.cc:239-285 | a written region read from outside is kept under its name exactly if it says YES, verbatim, and leaves the reader outside |
| KeepTagMerge.InnerTextClean | code/cg/backend.cc:3071-3129 | members of inner classes write no tags |
| KeepTagMerge.ReadsMembers | code/cg/backend.cc:1133-1217 | reading the members of the top-level class keeps exactly those with kept code, in order |
| KeepTagRegeneration.GeneratedFileReads | code/cg/backend.cc:654-795 | a generated file reads back as its kept regions in file order; no tag is nested, unmatched or ill-formed |
| KeepTagRegeneration.NoKeptCodeIsLost | code/cg/backend.cc:317-417 | whatever an existing file keeps with code is kept by the new file under the same code, left-over entities even without code, and nothing else |
| KeepTagRegeneration.SecondRegenerationIsIdentical | code/cg/backend.cc:997-1055 | generating from the new file gives the same text as generating from the old one, under every banner |
| KeepTagLayout.FileHolds | code/cg/backend.cc:1155-1212 | the regions of a generated file are, in order, the head entities, the left-over entities and one for every member, named after it and saying YES exactly if code was kept; between the tags stand the kept code or else the fresh text, for an inner class its head, its members and its brace in order; outside there are only the banner, the note and the class's head and brace |
| KeepTagLayout.RegeneratedFileHolds | code/cg/backend.cc:997-1055 | the same of a file generated over an existing one, in terms of the regions that ReadJavaFile sees |
| KeepTagLayout.LayoutIsRegions | code/cg/backend.cc:551-630 | reading a layout line by line finds exactly the closed regions of the file, with their non-tag lines |
| KeepTagLayout.LeftOverInOrder | code/cg/backend.cc:3099-3113 | left-over entities stand in their old order |
| TypeNormaliser.PassShrinks | code/cg/mod_cgaux.cc:839-860 | one pass returns its input or strictly lowers the weight |
| TypeNormaliser.CleanWeight | code/cg/mod_cgaux.cc:1076-1188 | clean-and-flatten never adds weight and keeps it only on types it does not change |
| TypeNormaliser.RemoveInvWeight | code/cg/mod_cgaux.cc:6837-6918 | the same for invariant removal |
| TypeMeaning.CleanCovers | code/cg/mod_cgaux.cc:1076-1234 | clean-and-flatten only widens, and is exact where no union merges two collections of a kind |
| TypeMeaning.RemoveInvCovers | code/cg/mod_cgaux.cc:6837-6918 | invariant removal only widens on types without function types |
| TypeMeaning.RemoveInvExact | code/cg/mod_cgaux.cc:6837-6918 | where all invariants hold, removing them changes no meaning, function types included |
| TypeMerging.OptimizeMeans | code/cg/mod_cgaux.cc:1195-1234 | after merging, the values are exactly those of the other alternatives and the collections whose elements the alternatives of that kind allow together |
| TypeMerging.SetMergeExactIff | code/cg/mod_cgaux.cc:1454-1475 | merging set types is exact if and only if one element type contains all the others |
| TypeMerging.SeqMergeExactIff | code/cg/mod_cgaux.cc:1478-1497 | merging sequence types is exact if and only if one element type contains all the others |
| TypeMerging.MapMergeExactIff | code/cg/mod_cgaux.cc:1502-1555 | given enough different keys (for injective maps also values), merging map types is exact if and only if one of them allows every key and every value that any of them allows |
| TypeMerging.OneKeyMergesExactly | code/cg/mod_cgaux.cc:1502-1526 | with a single possible key merging general map types is exact whatever their ranges |
| TypeNormalForm.StableIsNormalForm | code/cg/mod_cgaux.cc:839-860 | a type is stable if and only if it has no union in a union, no singleton union, no absorbed empty collection, at most one collection of each kind per union, and no invariant |
| TypeNormalForm.PassKeepsClass | code/cg/mod_cgaux.cc:2046-2285 | the set, sequence and map tests answer alike before and after a pass |
| TypeNormalForm.CollsOnly | code/cg/mod_cgaux.cc:2046-2285 | a type that passes the test for sets, sequences or maps has no other values |
| TypeNormalForm.PossibleCollsIff | code/cg/mod_cgaux.cc:2046-2285 | a type passes the test for possible sets, sequences or maps if the empty one is among its values, and, if it has no names, type variables or function types among its alternatives, only if some such collection is |
| TypeNormalForm.FindSetElemTypeCoversIff | code/cg/mod_cgaux.cc:5544-5594 | on a stable type the reported element type covers every element of every set value if and only if, where ALL stands beside set types, every value is an element that some of these allows |
| TypeNormalForm.CoversIffAllAmongElements | code/cg/mod_cgaux.cc:5544-5594 | where element types are no names, type variables or function types, that is so if and only if ALL is an alternative of some set type's element type |
| TypeNormalForm.SetOfNatBesideAll | code/cg/mod_cgaux.cc:5544-5594 | for ALL or set of nat, a stable type, the reported element type misses an element |
| TypeExpansion.ExpandRemovesNames | code/cg/mod_cgaux.cc:944-1071 | in a non-recursive environment no type name survives expansion outside composites |
| TypeExpansion.ExpandCovers | code/cg/mod_cgaux.cc:944-1071 | in every environment, recursive or not, expansion loses no value of a first-order type |
| TypeLookup.LOTIsDefinition | code/cg/mod_cgaux.cc:5936-5977 | a name whose chain of names ends in a definition stands for that definition |
| TypeLookup.LOTIsAllIff | code/cg/mod_cgaux.cc:5936-5977 | a name stands for ALL exactly if its chain of names leaves the environment, closes on itself, or ends in ALL |
| TypeLookup.ExpandExact | code/cg/mod_cgaux.cc:944-1071 | where every name used is defined and no chain of names closes, expansion loses no value and gains none, in recursive environments too |
| TypeExpansion.EnvPassCovers | code/cg/mod_cgaux.cc:900-935 | one round of the loop loses no value |
| PatternTypes.RepeatUntilStable | code/cg/mod_cgaux.cc:850-857 | wherever some number of rounds reaches a stable type, the loop ends in the first such type, which covers the original and is flat once it has no names |
| PatternTypes.FindPatIdMap | code/cg/mod_cgaux.cc:839-865 | an identifier whose type is no name that leads back to itself ends in a type that a further round leaves alone, flat and without invariants once it has no names; one that does lead back gets one round; the type covers the original |
| TypeExpansion.SetOfRecursiveNeverSettles | code/cg/mod_cgaux.cc:7702-7807 | with T = set of T the type "set of T" is not called cyclic and every round changes it |
| TypeRecursion.SettlesIffNothingRecurs | code/cg/mod_cgaux.cc:850-857 | where every cycle of definitions passes a constructor, the rounds reach a stable type if and only if no name in the type leads to a cycle |
| PatternTypes.FindPatIdMapEndsIff | code/cg/mod_cgaux.cc:839-865 | where every cycle passes a constructor, it all ends if and only if every identifier's type is a name that leads back to itself or has no name that leads to a cycle |
| PatternTypes.RoundsExact | code/cg/mod_cgaux.cc:850-857 | rounds in which no union merges collections of a kind change no meaning where invariants hold |
| TypeCycles.CyclicIffLeadsBack | code/cg/mod_cgaux.cc:7702-7807 | a name is called cyclic if and only if it leads back to itself, through definitions or into a field of a composite so reached |
| TypeCycles.CyclicLeadsBack | code/cg/mod_cgaux.cc:7702-7807 | in every environment, whatever is called cyclic leads back to itself |
| TypeCycles.ForeignInvariantHidesCycle | code/cg/mod_cgaux.cc:985-996 | an invariant type under a foreign name would block that name and hide a cycle |
| TypeRecursion.NeverSettles | code/cg/mod_cgaux.cc:850-857 | in every environment, a type with a name that leads to a cycle through a constructor changes in every round |
| TypeRecursion.StableHasNoRecursion | code/cg/mod_cgaux.cc:944-1071 | a type that a round leaves alone has no such name |
| TypeRecursion.Survivor | code/cg/mod_cgaux.cc:997-1004 | expanding a recursive name leaves a recursive name, whatever names are blocked |
| TypeOccurrences.CleanKeepsAt | code/cg/mod_cgaux.cc:1076-1188 | clean-and-flatten leaves every name below the same number of constructors, and adds and drops none |
| TypeOccurrences.RemoveInvKeepsAt | code/cg/mod_cgaux.cc:6837-6918 | the same for invariant removal |
| TypeRecursion.SettlesInNormalForm | code/cg/mod_cgaux.cc:850-857 | where every cycle passes a constructor, the round that changes nothing is the one that reached a flat type without names and invariants |
| TypeRecursion.UnseenRecursion | code/cg/mod_cgaux.cc:7702-7711 | a type that is no name and has a recursive name in it is not called cyclic, and its rounds reach no stable type |
| TypeRecursion.NatOrSetNeverSettles | code/cg/mod_cgaux.cc:7702-7711 | this is so for set of T with T = nat or set of T |
| TypeRecursion.UnionCycleSettles | code/cg/mod_cgaux.cc:1109-1119 | with T = T or nat, set of T reaches a stable type |
| TypeRecursion.UnionCycleMayGrow | code/cg/mod_cgaux.cc:969-971 | with T = T or nat, the empty-set type over T changes in every round |
| TypeLoops.OptimizeType | code/cg/mod_cgaux.cc:1195-1234 | the partitioning loop returns what the specification of merging says |
| TypeLoops.CleanAndFlattenTypeAux | code/cg/mod_cgaux.cc:1090-1188 | the recursive loops over members return what the specification of flattening says |
| TypeLoops.CombineSetTypes | code/cg/mod_cgaux.cc:1454-1475 | two or more set types become one over the union of their elements |
| TypeLoops.CombineGenMapTypes | code/cg/mod_cgaux.cc:1502-1528 | two or more map types become one over the unions of their domains and ranges |
| JavaStatements.ForEachEnters | code/cg/mod_ds.cc:3528-3561 | a loop whose body enters, skips or fails per element does so for the whole set, whatever the order |
| MapLowering.PowerAdds | code/cg/mod_ds.cc:5032-5080 | iterating i + j times is iterating i times and then j times |
| MapLowering.IterationComputes | code/cg/mod_ds.cc:4987-5080 | the statements for m ** n leave m composed n times with itself in the result for every order, abort exactly on a non-map, a non-nat, or n >= 2 with rng m not within dom m, and change nothing older |
| MapOperators.ComposeComputes | code/cg/mod_ds.cc:4915-4980 | the statements for composition compute it, and abort exactly on a non-map or if the inner range leaves the outer domain |
| MapOperators.MergeComputes | code/cg/mod_ds.cc:4761-4803 | the statements for merge compute the union, and abort exactly on a non-map or if the operands disagree on a shared key |
| MapOperators.RestrictComputes | code/cg/mod_ds.cc:4827-4908 | the statements for the four restrictions compute them, and abort on a non-map, and on a non-set if the map is not empty |
| MapBuilders.VdmCG.GenIterMap | code/cg/mod_ds.cc:5089-5137 | the builder returns the specified loop and draws its names from the counter |
| MapBuilders.VdmCG.GenMapIterIfPart | code/cg/mod_ds.cc:5032-5080 | the builder returns the specified case distinction on n |
| MapBuilders.VdmCG.GenMapIteration | code/cg/mod_ds.cc:4987-5025 | the builder returns the specified statements for iteration, and they compute it in every state and order, with the abort cases of IterationComputes |
| MapBuilders.VdmCG.GenComposeExpr | code/cg/mod_ds.cc:4915-4980 | the builder returns the specified statements for composition, and they compute it in every state and order, with the abort cases of ComposeComputes |
| MapBuilders.VdmCG.GenMapMerge | code/cg/mod_ds.cc:4761-4803 | the builder returns the specified statements for merge, and they compute it in every state and order, with the abort cases of MergeComputes |
| MapBuilders.VdmCG.GenMapRestToBy | code/cg/mod_ds.cc:4827-4852 | the builder returns the specified statements for a restriction, and they compute it in every state and order, with the abort cases of RestrictComputes |
| SyncTables.NumbersPartition | code/cg/mod_conc.cc:57-67 | the numbers of an object's operations are exactly 0 to nr_functions - 1, each the number of one operation |
| SyncTables.OperAtNumber | code/cg/mod_conc.cc:739-768 | an operation's number is a legal sentinel index of every class that has the operation |
| SyncTables.MutexIsUnionOfChain | code/cg/mod_conc.cc:317-390 | the accumulated table relates two operations exactly if a mutex clause written in the class or a superclass lists both, mutex(all) listing every operation of its class and superclasses |
| SyncTables.MutexIsSymmetric | code/cg/mod_conc.cc:317-366 | the accumulated table is reflexive and symmetric |
| SyncTables.QualifyResolves | code/cg/mod_conc.cc:395-452 | a name in a synchronisation definition means the operation of the nearest class that has one |
| SyncTables.PredsAreUnionOfChain | code/cg/mod_conc.cc:293-312 | the accumulated guards of an operation are exactly the permission predicates written for it in the class and its superclasses, base classes first |
| SyncTables.NewGuardsAreDeclared | code/cg/mod_conc.cc:188-189 | new guards are permission predicates or mutex clauses with operations written in the class itself |
| SyncTables.InheritedGuardIsRight | code/cg/mod_conc.cc:605-609 | the inherited evaluatePP was built from the very tables of the object's class |
| SyncScan.VdmCG.ScanSyncDefs | code/cg/mod_conc.cc:132-287 | the level loop ends, and leaves the specified tables and numbers for every class |
| SyncScan.VdmCG.ExtractGlobalInformation | code/cg/mod_conc.cc:79-104 | the whole scan from empty table entries does |
| SyncScan.VdmCG.ScanTables | code/cg/mod_conc.cc:153-212 | one class's tables are its own merged into its base class's, and its numbers start behind the base class's |
| SyncScan.VdmCG.AssignOperConstants | code/cg/mod_conc.cc:57-67 | the class's operations get consecutive numbers and no other operation's number changes |
| SyncScan.VdmCG.CreateMutexTable | code/cg/mod_conc.cc:317-366 | every operation mentioned is related to everything that shares a clause with it |
| SyncScan.MergeMutexTable | code/cg/mod_conc.cc:373-390 | the pointwise union of the tables |
| SyncScan.MergePermPreds | code/cg/mod_conc.cc:293-312 | the pointwise concatenation of the guards, base first |
| SyncScan.VdmCG.ClassDefiningOper | code/cg/mod_conc.cc:395-411 | the nearest class of the search list that has the operation, as the name resolves |
| SyncGuards.GenEvaluatePP | code/cg/mod_conc.cc:605-677 | a switch is emitted exactly for top classes and classes with new guards; it has one case with a distinct label for every operation with guards or exclusions |
| SyncGuards.EvaluatePPMeans | code/cg/mod_conc.cc:517-571 | the switch answers true exactly if every permission predicate written for the operation in the class or a superclass holds and no operation that a mutex clause there lists beside it is active |
| SyncGuards.TablesNameOpers | code/cg/mod_conc.cc:438-463 | the tables mention only operations of the object |
| SyncProtocol.StepBalances | code/cg/mod_conc.cc:481-513 | every step changes the counters exactly as it changes the number of unfinished calls, also while an exception or return unwinds |
| SyncProtocol.InheritedCases | code/cg/mod_conc.cc:605-609 | an evaluatePP that is right for the class that emits it is right for every class that inherits it |
| SyncProtocol.EnterKeepsExclusion | code/cg/mod_conc.cc:605-677 | an operation that evaluatePP lets in keeps mutual exclusion |
| SyncProtocol.MutualExclusion | code/cg/mod_conc.cc:481-513 | in every reachable state each counter is the number of unfinished calls, operations listed together in a mutex clause of the class or a superclass are never active together, and none of them twice |
| SyncProtocol.AllLeft | code/cg/mod_conc.cc:501-513 | when all threads are done every counter is zero, however the calls ended |
| SyncObjects.ListsAreWellFormed | code/cg/mod_cgaux.cc:6314-6333 | with single inheritance, the lists of the topological pass are each a direct superclass followed by its own list, as the tables assume |
| SyncObjects.OrderSupers | code/cg/mod_cgaux.cc:6303-6357 | running the pass leaves such lists, of exactly the strict ancestors |
| SyncObjects.GenObject | code/cg/mod_conc.cc:79-104 | the scan, the numbering and the emitted evaluatePP, own or inherited, together give an object to which MutualExclusion and AllLeft apply |
| ClassHierarchy.VdmCG.GenerateOrderedSupers | code/cg/mod_cgaux.cc:6303-6357 | the pass ends; it visits exactly the classes whose ancestry is defined and acyclic, superclasses first, and lists exactly their strict ancestors |
| ClassHierarchy.VisitsSound | code/cg/mod_cgaux.cc:6308-6334 | when nothing more can be visited, the classes left over are exactly those with an undefined or cyclic ancestry |
| ClassHierarchy.AncestorsBefore | code/cg/mod_cgaux.cc:6314-6333 | in the visit order every ancestor stands before its descendants |
| ClassHierarchy.VdmCG.ProcessAbstractMethods | code/cg/mod_cgaux.cc:6273-6299 | a visited class's abstract methods are those declared abstract by it or an ancestor minus those given a body by it or an ancestor; every lookup is defined |
| ClassHierarchy.SomewhereStep | code/cg/mod_cgaux.cc:6280-6297 | what holds somewhere in an ancestry holds in the class or in the ancestry of a direct superclass |

## Left out

- Expressions: unary plus and minus (they share a level with the binary operators), `instanceof`, assignment, casts, increments, allocation, qualified names and negative literals; tokens are taken as given, so how adjacent characters form tokens is not modelled.
- ExprRoundTrip.FaithfulReadsBack: brackets are ignored in the comparison, because the printer drops doubled ones.
- Statements: `switch`, declarations and the statements inside a `for` head; conditions and heads are taken whole.
- StmtReading.Reads: covers the statements modelled, without `switch`, case labels and declarations.
- SyncScan.VdmCG.ScanSyncDefs: leaves out interfaces and the thread flags that the same loop sets.
- StmtPrinter.CGBackEnd.GenCode: `switch`, case labels and declarations are not modelled; line breaks and indentation are printed as the source does, but only the tokens are specified.
- Keep tags: interfaces (they have no left-over loop), log messages with their line numbers, character-set conversion, backups and directories; fresh text of members is a parameter.
- KeepTagReader.ReadJavaFile: line numbers are used only in messages and are not kept.
- KeepTagRegeneration.SecondRegenerationIsIdentical: stated for fresh text that does not change between the generations.
- Types: the Java branch of `CleanFlatType` (class names and composites it keeps), imported composites, field selectors, and the meaning of function types; `IsStringType` and the other tests that are not about sets, sequences and maps.
- TypeMeaning.RemoveInvCovers: not stated for function types, where widening a parameter narrows the type; RemoveInvExact covers them.
- TypeNormalForm.FindSetElemTypeCoversIff: stated for unions whose alternatives are no type variables, names or function types, and atomic types whose values are no collections.
- PatternTypes.FindPatIdMap: asks that the rounds of every identifier not called cyclic reach a stable type, since on the others the source's loop does not end.
- TypeCycles.CyclicIffLeadsBack: stated for environments in which an invariant type is the definition of its own name, as the type checker builds it; ForeignInvariantHidesCycle shows why.
- TypeLookup.ExpandExact: for function types it asks that their meaning depend only on that of their parts.
- TypeRecursion.SettlesIffNothingRecurs: where a name leads to a cycle through unions and invariants only, one direction is stated (NeverSettles) and not the other: there both outcomes occur, depending on whether the name stands below an empty-collection or function type and on which alternatives coincide.
- TypeMerging.MapMergeExactIff: stated where there are as many different keys as map types; with fewer, exactness depends on how keys and ranges can be paired.
- Map operators: the C++ branches, which call library methods, and the casts of `GenExplicitCast`, which are taken as the identity.
- Synchronisation: periodic and procedural threads, the sentinel's boilerplate, history counters other than `active`, multiple inheritance and interfaces; a guard's own value is a parameter of every step.
- SyncGuards.GenEvaluatePP: adds exclusions and emits cases in one loop where the source has one after the other.
- SyncProtocol.MutualExclusion: nothing is said about progress; a call may wait forever.
- Classes: `ProcessMethodNames` and the other passes over the visit order, which follow the same pattern.
- Code not about these five parts: parsing, type checking, patterns, state and value definitions, quote and tag enumerations, and the runtime libraries.
