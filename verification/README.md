# Verification of rubydex's resolver and its concurrent file discovery

A Dafny model of the parts of rubydex in which correctness rests on invariants rather than on a
single function body, with proofs about it. `dafny verify dfyconfig.toml` checks everything.

## What is modelled

**Ancestor linearization** (`Declarations`, `Aliases`, `Graphs`, `Links`, `Hierarchy`, `Linearization`, `Steps`,
`Resolvers`). `Linearization` gives `linearize_ancestors` and its companions as functions from
state to state: the stored chains, the context shared by the whole traversal with its sticky flags,
estimates for cycles, descendants, and singleton classes made on the way. `Resolvers` is the
same code in its own form, a class whose methods update the graph, the queue and the context in
place; each method is proved to compute the function. On top of that:

* `PlainChains`, `OpenChains`, `Correctness`, `Completeness`, `Descendants`, `ChainContents`,
  `ChainOrder`, `Runs`: an uncached recursion as reference definition, with and without unresolved names,
  and what every call and every run keeps. The condition under which a chain counts as complete is exact.
  It includes that no declaration below is marked as cyclic, because the shared flag can mark a
  declaration that has no cycle below it (`CyclicMarks`).
* `AppliedMixins`, `MissingNames`: which mixins and superclasses shape a chain and in which order, told
  by their places in the definitions, and where names stand that are not resolved.
* `SelfListing`, `Creations`: which entries and which new namespaces a traversal may leave behind.
* `AliasWalks`, `PrimaryTargets`: following constant aliases, breadth first in the resolver and along
  first targets in the queries, and exactly when the two agree.

**The resolution loop** (`Names`, `NameDepths`, `Programs`, `LiveLookups`, `NameResolutions`,
`FoundConstants`, `DefinitionUnits`, `Owners`, `ResolutionLoops`, `Handlings`, `Resolutions`,
`SingletonRuns`). `Programs` is the program to resolve and the store that is built from it. `LiveLookups`
and `NameResolutions` resolve names; chains are linearized when they are searched, so a lookup changes
the graph it runs on. `DefinitionUnits` finds the owner of a definition, makes placeholders for owners
that are unknown, promotes constants and placeholders, and declares. `FoundConstants` and `Owners` say
what comes out: which declaration every form of a name resolves to, and where every form of definition
goes. `ResolutionLoops` is the loop over any legal way of handling units, `Handlings` proves that the
resolver's own way is legal and what a whole run keeps, and `Resolutions` is the same in the source's
form, a class whose fields change in place.

A singleton class can exist without being linked: when a placeholder that has one is promoted, the
new declaration starts without link (`DefinitionUnits.PromotionLoses`). Asking for such a class
overwrites it, in the middle of a traversal if it so happens, and throws its chain, its definitions
and its members away. So finished chains do not stay finished on every run; but each time this
happens less can be lost (`Links`), and that is what makes both the traversal and the loop end.
What is said of chains (`Correctness` to `SelfListing`) is about graphs on which nothing can be
overwritten, `Ready` for short; `SingletonRuns` shows a run on which something can.

An object can also have two singleton classes: one that is written out gets its own name, which is
not the one made on the fly for `Object` and for objects reached by an alias. The link moves to it;
nothing is lost (`DefinitionUnits.SecondClassExactly`, `LinkingLosesNothing`).

**Queries** (`Lookups`, `ConstantLookups`, `MethodAliases`, `Completions`): member lookup, constant lookup
in what is stored, following method aliases, and completion, which enumerates what the lookups would
find. `LiveLookups.LookupReadsFinishedChains` ties the stored form of constant lookup to the resolver's.

**The work-stealing queue and its client** (`JobQueues`, `JobTrees`, `JobRuns`, `JobCycles`,
`JobFairness`, `WorkQueues`, `Listings`, `ListedPaths`). A state machine over any number of workers in
which every queue operation, both halves of a push and each look at the counter is a step of its own, so
theorems hold for every interleaving. `WorkQueues` is the programmed form of the operations.

**Indexing** (`LocalGraphs`, `Comments`): the dependents index and reference counts of one file, and the
byte ranges of RBS comments.

Declaration ids are hashes of qualified names in the program and terms here: a key, or a singleton
class of a declaration, with a tag if its last segment is not the one made on the fly. Hashing is
taken to be injective.

Where the code and its comments differ, the code is modelled. A comment in `linearize_ancestors`
(`resolution.rs:967`) says that descendants are tracked before the cache is checked; the code checks
the cache first and makes up for it by `propagate_descendants`, which `Descendants` proves sufficient.
A comment in `collect_comments` (`rbs_indexer.rs:196`) speaks of one carriage return at a line end; the
code drops all of them and counts one, and `Comments.RangesSliceBack` says when that matters.

## Model

| member | source | states |
|---|---|---|
| `Linearization.Linearize` | rust/rubydex/src/resolution.rs:931-1049 | The traversal ends on every graph, cyclic or not, whichever singleton classes are linked: each nested call returns at once, or uses up a declaration neither seen nor finished, or there is less left to be overwritten. Unless something is overwritten, every call keeps the graph valid, unsettles nothing, keeps finished chains as they are, and does not complete a declaration that was settled without being complete. |
| `Links.ResetLightens` | rust/rubydex/src/resolution.rs:886-907 | Overwriting a singleton class makes the weight of what can still be overwritten smaller, although it may unlink the class above. |
| `Links.MakingLosesNothing` | rust/rubydex/src/resolution.rs:886-907 | Making a singleton class that did not exist leaves that weight alone. |
| `Linearization.LinearizeParent` | rust/rubydex/src/resolution.rs:1051-1100 | The same for the parent chain, with singleton parents created on the way. |
| `Linearization.LinearizeParentClass` | rust/rubydex/src/resolution.rs:2033-2055 | The same for the chain of the picked superclass. |
| `Linearization.LinearizeMixins` | rust/rubydex/src/resolution.rs:1104-1207 | The same for a run of mixins; what it collects lists existing namespaces only. |
| `Linearization.ForExtendsKeeps` | rust/rubydex/src/resolution.rs:1000-1017 | Where nothing can be overwritten, making the singleton class of a declaration that extends something disturbs no chain and no descendant set. |
| `Correctness.LinearizeCorrect` | rust/rubydex/src/resolution.rs:931-1049 | On any graph on which nothing can be overwritten, and in any context, a declaration below which there is no cycle gets exactly the chain of the uncached recursion, names that are not resolved included, unless it is only the estimate for a declaration met again; correct caches stay correct. |
| `Correctness.MixinsCorrect` | rust/rubydex/src/resolution.rs:1104-1207 | The same for a run of mixins, given correct parent entries. |
| `OpenChains.OpenIsPlain` | rust/rubydex/src/resolution.rs:931-1207 | Once all names below are resolved, the chain with missing names is the plain one. |
| `MissingNames.OpenChainLists` | rust/rubydex/src/resolution.rs:1116-1204 | A chain lists exactly the declarations that resolved superclass and mixin edges lead to, and the unresolved names that the definitions of one of these are written with. |
| `MissingNames.MissingComesFirst` | rust/rubydex/src/resolution.rs:1155-1204 | An include or extend that is not resolved stands behind the declaration and before everything brought in sooner and by the parent. |
| `MissingNames.MissingPrependLeads` | rust/rubydex/src/resolution.rs:1116-1153 | A prepend that is not resolved stands in front of the whole chain, if nothing is prepended after it. |
| `MissingNames.MissingSuperclassStands` | rust/rubydex/src/resolution.rs:2033-2055 | The chain of a class ends in the name of its last unresolved superclass, if there is one, and the chain of its first resolved superclass, or of `Object`. |
| `AppliedMixins.AppliedMixins` | rust/rubydex/src/resolution.rs:983-1017 | What is applied to a declaration is every include and prepend of every definition, place by place, and for a singleton class before these every extend of every definition of its attached object; each once and in that order. |
| `AppliedMixins.ChainIsApplied` | rust/rubydex/src/resolution.rs:983-1029 | Any list that names all these places in order gives the chain. |
| `AppliedMixins.ChainHolds` | rust/rubydex/src/resolution.rs:983-1029 | A chain holds the declaration, its parent chain, and the chains of the modules written at these places, and nothing else. |
| `AppliedMixins.IncludedIsInChain` | rust/rubydex/src/resolution.rs:1002-1012 | If the j-th mixin of the i-th definition of a class, module or singleton class is an include or prepend that leads to a module, that module and all its ancestors are in the chain. |
| `AppliedMixins.ExtendedIsInSingletonChain` | rust/rubydex/src/resolution.rs:987-998 | If it is an extend, they are in the chain of the singleton class. |
| `AppliedMixins.LaterIncludeComesFirst` | rust/rubydex/src/resolution.rs:1155-1193 | Where nothing is prepended, what an include brings in new stands before all that was brought in sooner: by earlier mixins of the same definition, by earlier definitions, by extends of the attached object, and by the parent. |
| `AppliedMixins.ExtendMakesSingleton` | rust/rubydex/src/resolution.rs:1000-1017 | After a declaration that extends something has been linearized, its singleton class exists and is linked. |
| `AppliedMixins.SuperclassIs` | rust/rubydex/src/resolution.rs:1999-2031 | The superclass taken is that of the first definition, by position, that is written with one that leads to a namespace, else `Object`; the missing name reported is the last, by position, that is not resolved. |
| `AppliedMixins.ClassInherits` | rust/rubydex/src/resolution.rs:1051-1071 | The chain of a class ends in the chain of that superclass. |
| `Steps.MetAgain` | rust/rubydex/src/resolution.rs:948-965 | A declaration met again in its own traversal stands for `Object` alone if it is a class and for nothing otherwise, and is stored so as cyclic. |
| `Programs.ReadsWhatIsLeft` | rust/rubydex/src/resolution.rs:886-907 | After a singleton class has been overwritten, the traversal goes on with the mixins and labels that are left of the definitions. |
| `Completeness.LinearizeAnchored` | rust/rubydex/src/resolution.rs:948-965 | In every call the set of complete declarations stays resolved, acyclic and closed under superclass and mixin edges, although flags are shared and `finalize` drops declarations that are still on the stack. |
| `Completeness.LinearizeSucceeds` | rust/rubydex/src/resolution.rs:1031-1048 | Below a resolved acyclic hierarchy without cyclic marks, a calm traversal leaves a complete chain and no new flag. |
| `Completeness.FreshCallOutcome` | rust/rubydex/src/resolution.rs:920-1049 | The exact outcome of `ancestors_of` on any sound graph: the result is complete if and only if the hierarchy below is resolved and acyclic and holds no declaration marked as cyclic; wherever there is no cycle below, exactly the chain of the uncached recursion is listed, with its missing names. |
| `CyclicMarks.InnocentMarked` | rust/rubydex/src/resolution.rs:948-965 | A concrete graph on which a module without superclass and mixins is stored as cyclic for good, because a module that includes itself was linearized first: the sticky flag makes completeness depend on the marks. |
| `CyclicMarks.FlagMarks` | rust/rubydex/src/resolution.rs:1031-1037 | Once the shared flag is up, every declaration linearized afresh, whatever it inherits from and includes, is stored as cyclic, and the flag stays up. |
| `Runs.RunSound` | rust/rubydex/src/resolution.rs:920-1049 | Over every run of calls on a graph on which nothing can be overwritten: chains that are complete are the plain ones, complete declarations stay closed under their edges, and finished chains never change. |
| `Runs.CompleteChain` | rust/rubydex/src/resolution.rs:1031-1048 | A complete chain is the plain chain, has no unresolved entry, lists only declarations that are complete themselves, and no path of superclass and mixin edges leads back. |
| `Runs.RunSucceeds` | rust/rubydex/src/resolution.rs:931-1230 | On resolved acyclic hierarchies a run of any declarations in any order, from any sound caches, completes each of them and keeps the descendants index exact. |
| `Runs.OrderDoesNotMatter` | rust/rubydex/src/resolution.rs:920-1049 | Two runs in any orders, from any sound caches, that both complete a declaration give it the same chain. |
| `Descendants.LinearizeTracks` | rust/rubydex/src/resolution.rs:935-978 | For every pair: after a call `x` is a descendant of `a` exactly if it was before, or `a` is in the chain returned and `x` is a pending descendant, or `x` was finished in this call with `a` in its chain; cache hits included. |
| `Descendants.AncestorsOfMirrors` | rust/rubydex/src/resolution.rs:1210-1230 | `x` is a descendant of `a` if and only if `a` is in the finished chain of `x`; a call on a resolved acyclic hierarchy keeps this for all pairs. |
| `ChainContents.ChainIsReachable` | rust/rubydex/src/resolution.rs:1022-1029 | Deduplication never loses an ancestor: a chain lists exactly the declarations that paths of superclass and mixin edges lead to. |
| `ChainContents.ChainShape` | rust/rubydex/src/resolution.rs:1022-1029 | A declaration stands in its chain exactly once, behind its prepends, and the chain ends with the unchanged chain of its parent. |
| `ChainContents.MixinWithoutEffect` | rust/rubydex/src/resolution.rs:1143-1193 | A further mixin changes nothing if and only if all it brings in has been brought in before: for a prepend by prepends, for an include or extend by anything collected or by the parent. |
| `ChainContents.RepeatedMixin` | rust/rubydex/src/resolution.rs:1143-1193 | So repeating a mixin that has been applied already changes nothing. |
| `ChainContents.NoDuplicates` | rust/rubydex/src/resolution.rs:1104-1207 | If no declaration that the chain is built from prepends anything, the chain has no duplicate entry; prepends elsewhere in the source do not matter. |
| `ChainContents.SingletonChainOfClass` | rust/rubydex/src/resolution.rs:1958-1997 | For every k > 0 the chain of the k-th singleton class of a class is the k-th singletons of its superclasses down to `BasicObject`, then the chain of the (k-1)-th singleton of `Class`. |
| `ChainContents.SingletonChainOfModule` | rust/rubydex/src/resolution.rs:1958-1997 | For a module it is the k-th singleton, then the chain of the (k-1)-th singleton of `Module`. |
| `ChainContents.SingletonParentOfPlaceholder` | rust/rubydex/src/resolution.rs:1958-1997 | The singleton class of a placeholder inherits from `Class`. |
| `ChainOrder.LastIncludeComesFirst` | rust/rubydex/src/resolution.rs:1182-1193 | What the last include brings in new stands behind the declaration, before everything included earlier and before the chain of the parent, in the order of its own chain. |
| `ChainOrder.LastPrependComesFirst` | rust/rubydex/src/resolution.rs:1143-1153 | A prepend that brings in anything new puts its whole chain in front, before what was prepended earlier and before the declaration. |
| `PlainChains.PlainUnique` | rust/rubydex/src/resolution.rs:931-1207 | The plain chain does not depend on the depth bound it is computed with. |
| `SelfListing.RunLists` | rust/rubydex/src/resolution.rs:948-1048 | In every run every finished chain lists its own declaration, although estimates stored in between do not. |
| `Creations.LinearizeCreates` | rust/rubydex/src/resolution.rs:852-912 | On every graph the namespaces a traversal adds are among those it queues, and none lies deeper than the traversal started from or could be led by names, or than level one; unless something is overwritten, each is new and queued once. |
| `Resolvers.Resolver.Ancestors` | rust/rubydex/src/resolution.rs:920-923 | The method on the mutable graph computes the specification function with a fresh context. |
| `Resolvers.Resolver.LinearizeAncestors` | rust/rubydex/src/resolution.rs:931-1049 | The whole new graph, context and chain are those of `Linearize`. |
| `Resolvers.Resolver.LinearizeParentAncestors` | rust/rubydex/src/resolution.rs:1051-1100 | The whole new state is that of `LinearizeParent`. |
| `Resolvers.Resolver.LinearizeSuperclass` | rust/rubydex/src/resolution.rs:2033-2055 | The whole new state is that of `LinearizeParentClass`. |
| `Resolvers.Resolver.LinearizeMixinList` | rust/rubydex/src/resolution.rs:1104-1207 | The loop over the mixins with its two deques ends in the state of `LinearizeMixins`. |
| `Resolvers.Resolver.LinearizeMixin` | rust/rubydex/src/resolution.rs:1116-1204 | One mixin: the deque updates are `AddPrepend` and `AddInclude`. |
| `Resolvers.Resolver.PropagateDescendants` | rust/rubydex/src/resolution.rs:1210-1230 | The nested loops add all descendants to every declaration of the cached chain and change nothing else. |
| `Resolvers.Resolver.AddDescendantsTo` | rust/rubydex/src/resolution.rs:967-978 | All pending descendants are added to one declaration, and nothing else changes. |
| `Resolvers.Resolver.GetOrCreateSingletonClass` | rust/rubydex/src/resolution.rs:886-911 | For a namespace: the linked class is returned unchanged; without link the one made on the fly is linked, stored without chain and queued, and one of that name is overwritten. |
| `Resolvers.Resolver.SingletonParentOf` | rust/rubydex/src/resolution.rs:1958-1997 | The recursion that wraps the parent of the innermost attached object, creating what is missing. |
| `Resolvers.Resolver.GetParentClass` | rust/rubydex/src/resolution.rs:1999-2031 | The first resolved superclass or `Object`, and the last unresolved name. |
| `Resolvers.LinearizationContext.Finish` | rust/rubydex/src/resolution.rs:62-65 | Finalizing drops the declaration from both sets and keeps the flags. |
| `AliasWalks.AliasChainsAreReachableEnds` | rust/rubydex/src/resolution.rs:1584-1618 | On any alias graph the result holds exactly the reachable declarations that are no aliases or aliases without target, each once; so it is empty exactly if no such end is reachable. |
| `AliasWalks.BreadthFirst` | rust/rubydex/src/resolution.rs:1584-1618 | The result lists the ends layer by layer, and the k-th layer holds exactly the ends at distance k. |
| `AliasWalks.ResolveAliasChains` | rust/rubydex/src/resolution.rs:1584-1618 | The queue loop halts on every graph, self-references included, and returns that list. |
| `AliasWalks.CollectTargets` | rust/rubydex/src/model/graph.rs:572-599 | The distinct resolved targets of an alias in definition order. |
| `AliasWalks.TargetsAreWritten` | rust/rubydex/src/model/graph.rs:572-599 | These are exactly the resolved names some definition of the alias is written with, each once, in the order of the first definition that names it. |
| `PrimaryTargets.ResolveAlias` | rust/rubydex/src/model/graph.rs:606-631 | Following first targets halts on every alias graph and computes the specification function, also on circular aliases. |
| `PrimaryTargets.QueryNamespace` | rust/rubydex/src/query.rs:332-347 | The three answers of a query: missing, a namespace, or an error. |
| `PrimaryTargets.PrimaryAmongEnds` | rust/rubydex/src/model/graph.rs:606-631 | Whatever first targets lead to is among the ends the resolver knows. |
| `PrimaryTargets.AgreeExactlyIfNearest` | rust/rubydex/src/query.rs:332-347 | For an alias whose first targets lead to a namespace: queries and resolver agree if and only if no namespace is nearer and none comes earlier in the same layer. |
| `PrimaryTargets.AgreeExactlyIfNoneReachable` | rust/rubydex/src/query.rs:332-347 | For an alias whose first targets lead to no namespace: they agree if and only if no end that can be reached is a namespace. |
| `PrimaryTargets.NoAliasAgrees` | rust/rubydex/src/query.rs:332-347 | For a declaration that is no alias they always agree. |
| `PrimaryTargets.SeveralTargetsDisagree` | rust/rubydex/src/query.rs:332-347 | A concrete alias with two targets that the resolver and the queries take to different modules. |
| `ResolutionLoops.ProgressShrinks` | rust/rubydex/src/resolution.rs:98-127 | For every legal way of handling units: a pass that makes progress uses up a definition or reference unit, or something that could be lost, or finishes a chain, or clears the ancestor units of finished chains; the four counts shrink lexicographically, and references are conserved. |
| `ResolutionLoops.AdvanceSteps` | rust/rubydex/src/resolution.rs:149-271 | One unit never adds a definition or reference unit; if it uses none up and loses nothing, it only lets chains finish, queues no unit of a finished chain, and progress without a newly finished chain takes such a unit away. |
| `ResolutionLoops.ConvergeKeepsReferences` | rust/rubydex/src/resolution.rs:232-256 | At the end every live reference is recorded as resolved or handed back, exactly as often as it was queued. |
| `ResolutionLoops.PushedExactly` | rust/rubydex/src/resolution.rs:149-271 | What one unit leaves in the queue: itself exactly if it is not done, every declaration made or asked for on the way, the namespace it has made if nothing was asked for, and nothing else. |
| `ResolutionLoops.PassTurns` | rust/rubydex/src/resolution.rs:98-127 | A pass hands every unit to its handler once and in order, makes progress exactly if one comes out found, and leaves exactly what its units push. |
| `ResolutionLoops.ConvergeEndsStuck` | rust/rubydex/src/resolution.rs:98-127 | The loop ends only when nothing is left or a whole pass has found nothing. |
| `Handlings.HandlingIsLegal` | rust/rubydex/src/resolution.rs:149-271 | The resolver's own handlers are legal, on every program and in every store a run can reach: a definition, reference or ancestor unit that is not used up either loses a chain and leaves less to be lost, or makes no room for declarations, unfinishes no chain, and asks only for declarations whose chain is not finished; an ancestor unit is done exactly if its chain comes out finished. |
| `Handlings.DefinitionIsLegal` | rust/rubydex/src/resolution.rs:149-229 | The same for definition units alone: classes, modules, constants, aliases, singleton classes and methods with a `self` receiver, with placeholders and promotion. |
| `Handlings.ReferenceIsLegal` | rust/rubydex/src/resolution.rs:232-256 | The same for reference units. |
| `Handlings.AncestorIsLegal` | rust/rubydex/src/resolution.rs:259-271 | The same for ancestor units: handling one stays in one finite universe, and unless something is overwritten it finishes chains for good and queues only new declarations. |
| `Handlings.AncestorQueuesMade` | rust/rubydex/src/resolution.rs:259-271 | An ancestor unit stores the chain it computes, and every singleton class that comes into being for it is queued. |
| `Handlings.DefinitionQueuesMade` | rust/rubydex/src/resolution.rs:203-229 | A definition unit queues whatever its handler has queued, and the namespace it has made if nothing else was asked for. |
| `Handlings.ReferenceQueuesMade` | rust/rubydex/src/resolution.rs:232-256 | So is every namespace that comes into being for a reference, as long as nothing can be overwritten. |
| `Handlings.ResolveKeeps` | rust/rubydex/src/resolution.rs:95-137 | Over every run: no live reference is lost or doubled, nothing declared is taken away, no resolved name ever changes, the graph stays valid, and every reference recorded as resolved still is at the end. |
| `Handlings.NoPanic` | rust/rubydex/src/resolution.rs:259-271 | If every ancestor unit in the queue exists or stands behind the top-level class or module it is the unit of, and that name is used for nothing else, every ancestor unit exists when its turn comes. |
| `Handlings.ProvidedExists` | rust/rubydex/src/resolution.rs:1332-1369 | Such a definition finds `Object` as its owner, is used up, and its declaration is a namespace afterwards. |
| `Handlings.FirstQueue` | rust/rubydex/src/resolution.rs:1849-1857 | So the first queue of a program, which ends with the units of the five built-in declarations, never comes to one that does not exist, although `Kernel` is not declared at the start. |
| `DefinitionUnits.DefinedIsNamespace` | rust/rubydex/src/model/graph.rs:136-187 | A class or module that is defined is a namespace afterwards if and only if nothing that cannot be promoted stands under its name. |
| `Handlings.BuiltInAtRest` | rust/rubydex/src/model/built_in.rs:51-83 | The built-in declarations are a state the theorems start from, with nothing to lose. |
| `SingletonRuns.PlaceholderLosesSingleton` | rust/rubydex/src/model/declaration.rs:133-155 | A program and a queue, sorted by the depths of its names, whose first pass from the built-in declarations comes to a class whose singleton class exists and is not linked. |
| `SingletonRuns.LostIsOverwritten` | rust/rubydex/src/resolution.rs:886-911 | Asking for such a class throws its chain and definitions away and links it again. |
| `SingletonRuns.TwoSingletonClasses` | rust/rubydex/src/resolution.rs:1304-1312 | A program and a queue whose run from the built-in declarations ends with two singleton classes of one object. |
| `DefinitionUnits.PromotionLoses` | rust/rubydex/src/model/graph.rs:136-187 | Promoting a constant or placeholder loses its singleton class if and only if one with the name made on the fly exists; nothing else is lost. |
| `DefinitionUnits.SecondClassExactly` | rust/rubydex/src/resolution.rs:1304-1312 | If an object has no other singleton class than the one it is linked to, writing one out makes a second one if and only if it is linked to one under another name. |
| `DefinitionUnits.LinkingLosesNothing` | rust/rubydex/src/resolution.rs:1304-1312 | Writing out a singleton class touches no chain, descendant or definition, and only lessens what can be lost. |
| `Programs.TagExactly` | rust/rubydex/src/resolution.rs:1276-1312 | A singleton class that is written out is the next one made on the fly exactly if it is written as the name of the innermost object in as many brackets, and never for `Object`. |
| `DefinitionUnits.HandleConstantCloses` | rust/rubydex/src/resolution.rs:1233-1323 | Declaring a constant, class, module, alias or singleton class keeps the graph valid, takes no declaration, namespace or resolved name away; without a result it was a quiet lookup, and with one every declaration it asks for exists. Promotion can take a link away. |
| `DefinitionUnits.HandleSelfMethodCloses` | rust/rubydex/src/resolution.rs:181-201 | The same for a method with a `self` receiver. |
| `DefinitionUnits.NameOwnerOwned` | rust/rubydex/src/resolution.rs:1332-1369 | Looking for an owner finds one that exists or was a quiet lookup; which one is said by the rows of `Owners`. |
| `Owners.NestedDefinition` | rust/rubydex/src/resolution.rs:1346-1361 | A name without scope is declared in what its nesting has been resolved to, or in the first end of that if it is an alias: under the key of that owner and the name, as its member and with the definition added, and no other member of any namespace changes. |
| `Owners.DirectlyNested` | rust/rubydex/src/resolution.rs:1346-1361 | In particular what stands inside a resolved namespace is declared in it. |
| `Owners.UnresolvedNestingWaits` | rust/rubydex/src/resolution.rs:1354-1358 | While the nesting is not resolved, or only to an unresolved alias, the definition waits and nothing changes. |
| `Owners.TopLevelDefinition` | rust/rubydex/src/resolution.rs:1346-1364 | What is written at the top level or with leading colons is declared in `Object`. |
| `Owners.ScopedDefinition` | rust/rubydex/src/resolution.rs:1335-1345 | `A::B` is declared in the first end of what `A` is found to be. |
| `Owners.QualifiedDefinition` | rust/rubydex/src/resolution.rs:1335-1345 | In particular in `A` if that has been resolved to a namespace. |
| `Owners.SingletonDefinition` | rust/rubydex/src/resolution.rs:1298-1317 | A singleton class that is written out is that of what its attached name stands for, and this is linked to it. |
| `Owners.PlaceholderPath` | rust/rubydex/src/resolution.rs:1371-1420 | For a path of scopes that cannot be found, of any length, every scope gets a placeholder that is a member of the one before; the first belongs to the namespace that is known in front of it or to `Object`. What is declared already stays. |
| `Owners.UnknownScopeDefinition` | rust/rubydex/src/resolution.rs:1245-1270 | A definition behind such a path is declared in the placeholder of its nearest scope. |
| `Owners.DeclaringInConstant` | rust/rubydex/src/resolution.rs:1272-1296 | A promotable constant that something is defined in becomes a module, is queued, and owns the definition. |
| `Owners.DeclaredKind` | rust/rubydex/src/model/graph.rs:136-187 | A new declaration has the kind of its definition, and so has one that replaces a placeholder or a promotable constant; every other declaration keeps its kind. A namespace made so starts without chain, descendants and link, and no other namespace is touched. |
| `Owners.SelfMethodIs` | rust/rubydex/src/resolution.rs:181-201 | A method with a `self` receiver is a member of the singleton class the enclosing namespace is linked to afterwards. |
| `DefinitionUnits.CreateTodo` | rust/rubydex/src/resolution.rs:1371-1420 | Making placeholders for unknown scopes ends, adds declarations only, and comes back with one that exists. |
| `DefinitionUnits.DeclaredIsFound` | rust/rubydex/src/resolution.rs:1298-1317 | A constant that has been declared in a namespace is what a lookup from inside that namespace finds, whatever the outer scopes are. |
| `DefinitionUnits.DeclaredIsMember` | rust/rubydex/src/resolution.rs:1298-1317 | The definition stands on the declaration, the owner has it as member, and an unresolved name resolves to it. |
| `NameResolutions.ResolveConstantSettles` | rust/rubydex/src/resolution.rs:1449-1563 | A name resolves for good or the lookup was quiet; what it resolves to is said by the rows of `FoundConstants`. |
| `FoundConstants.QualifiedNameIs` | rust/rubydex/src/resolution.rs:1510-1556 | `A::B` with `A` resolved to a namespace whose chain is finished: the result is the member `B` of the first entry of that chain that has one, and if none has, the name waits. |
| `FoundConstants.QualifiedNameAnswers` | rust/rubydex/src/resolution.rs:1510-1556 | With the chain in any state: the answer of that chain, computed on the spot; an unfinished one is asked for. |
| `FoundConstants.ScopedNameIs` | rust/rubydex/src/resolution.rs:1510-1556 | Through an alias: the first target in breadth-first order whose chain has the member decides; an unresolved alias before it stops the search; without a hit the name waits if some target is a namespace, and is unknown otherwise. |
| `FoundConstants.FirstTargetAsked` | rust/rubydex/src/resolution.rs:1521-1545 | If the chain of the first target is unfinished and does not give the member, no other chain is asked for. |
| `FoundConstants.UnknownScopeWaits` | rust/rubydex/src/resolution.rs:1511-1513 | `A::B` waits while `A` is not resolved. |
| `FoundConstants.TopLevelNameIs` | rust/rubydex/src/resolution.rs:1454-1462 | `::B` is the member of the first entry of the chain of `Object` that has it. |
| `FoundConstants.UnnestedNameIs` | rust/rubydex/src/resolution.rs:1684-1688 | So is a name outside of all scopes. |
| `FoundConstants.LexicalNameIs` | rust/rubydex/src/resolution.rs:1744-1765 | An unqualified name is the direct member of the innermost enclosing scope that has it, whatever the chains are; an unresolved scope before it makes it wait. |
| `FoundConstants.NestedNameIs` | rust/rubydex/src/resolution.rs:1620-1682 | If no scope has it: the answer of the chain of the innermost scope; where that finds nothing, the first entry of the chain of `Object` with the member, in modules, placeholders and where the chain is unfinished, which then stays to be seen again. |
| `FoundConstants.NoInnermost` | rust/rubydex/src/resolution.rs:1632-1655 | If the innermost scope leads to an unresolved alias the name waits, if it leads to no namespace nothing is found. |
| `FoundConstants.AttachedNameIs` | rust/rubydex/src/resolution.rs:1463-1499 | A name attached to an object stands for the singleton class that object, or the first namespace behind an alias, is linked to afterwards: the one it was linked to, or one made on the fly. |
| `FoundConstants.NamespaceBehind` | rust/rubydex/src/resolution.rs:1564-1580 | A namespace stands for itself, an alias for the first namespace among its ends, anything else for nothing. |
| `NameResolutions.GetOrCreateMade` | rust/rubydex/src/resolution.rs:852-912 | Asking for a singleton class, through aliases and with promotion of constants, changes nothing if it fails, and otherwise adds declarations only and comes back with an existing singleton class. |
| `NameResolutions.OverwritingForgets` | rust/rubydex/src/resolution.rs:886-907 | Asking for a singleton class that exists without being linked drops its definitions, its members and its own link, queues it again, and touches nothing else. |
| `LiveLookups.RunResolution` | rust/rubydex/src/resolution.rs:1620-1691 | A lookup on the graph it changes is quiet: chains are linearized on the way, and new singleton classes are queued and no deeper than before. If it overwrites one, less can be lost; otherwise finished chains stay, and it asks only for a chain that was not finished. |
| `LiveLookups.SearchAncestors` | rust/rubydex/src/resolution.rs:1694-1741 | Searching a chain linearizes it first, is quiet, finds constants, and asks only for a chain that is not finished; what it answers is said by the next row. |
| `FoundConstants.SearchAnswers` | rust/rubydex/src/resolution.rs:1694-1741 | The answer is that of the chain just computed, entry by entry, on the members left after that. |
| `LiveLookups.LookupReadsFinishedChains` | rust/rubydex/src/resolution.rs:1620-1741 | Where the chains searched are finished, linearizing during the lookup makes no difference: the result is read off the stored chains. |
| `Programs.PlainMeansOrdinary` | rust/rubydex/src/resolution.rs:1999-2031 | Superclasses and alias targets written as constant paths never lead to singleton classes, in any state of any run; this is what linearization needs to end. |
| `Resolutions.ResolutionRun.Resolve` | rust/rubydex/src/resolution.rs:95-137 | The loop on the mutable resolver ends on every queue of known units, in every coherent store, with the outcome of the specification: it leaves the queue empty and hands what is left over back as pending work. |
| `Resolutions.ResolutionRun.RunQueue` | rust/rubydex/src/resolution.rs:102-122 | One pass handles the units that were queued when it began and none of those pushed meanwhile. |
| `Resolutions.ResolutionRun.HandleDefinitionUnit` | rust/rubydex/src/resolution.rs:149-229 | The whole new state: the definition is handled, and each outcome pushes its units and counts as progress as it should. |
| `Resolutions.ResolutionRun.HandleReferenceUnit` | rust/rubydex/src/resolution.rs:232-256 | The name is resolved; the reference is recorded if and only if it is found, otherwise it is queued again. |
| `Resolutions.ResolutionRun.HandleAncestorUnit` | rust/rubydex/src/resolution.rs:259-271 | The declaration is linearized; the unit is dropped as progress exactly if its chain came out finished. |
| `Resolutions.ResolutionRun.HandleConstantDeclaration` | rust/rubydex/src/resolution.rs:1233-1323 | The whole new store and outcome are those of `DefinitionUnits.HandleConstant`. |
| `Resolutions.ResolutionRun.NameOwnerId` | rust/rubydex/src/resolution.rs:1332-1369 | The same for the owner of a name. |
| `Resolutions.ResolutionRun.CreateTodoForParent` | rust/rubydex/src/resolution.rs:1371-1420 | The same for placeholders. |
| `Resolutions.ResolutionRun.AddDeclaration` | rust/rubydex/src/model/graph.rs:136-187 | A new declaration, or one in place of a constant or placeholder, or none; which of them. |
| `Resolutions.ResolutionRun.DeclareSingletonOf` | rust/rubydex/src/resolution.rs:1304-1312 | The written-out class is made if its name is new, and the link of its object moves to it. |
| `Resolutions.ResolutionRun.GetOrCreateSingletonClass` | rust/rubydex/src/resolution.rs:852-912 | Aliases followed, constants promoted and queued, the class linked and queued once or overwritten: the whole new store. |
| `Resolutions.ResolutionRun.ResolveConstant` | rust/rubydex/src/resolution.rs:1449-1563 | The four forms of names, with the names recorded. |
| `Resolutions.ResolutionRun.SearchTargets` | rust/rubydex/src/resolution.rs:1510-1556 | The loop over the targets of a scope, up to the first that has the member, remembering the first unfinished chain. |
| `Resolutions.ResolutionRun.RunResolution` | rust/rubydex/src/resolution.rs:1620-1691 | Lexical scopes, then the chain of the innermost scope linearized on the spot, then `Object` for modules, placeholders and unfinished chains, with all retry outcomes. |
| `Resolutions.ResolutionRun.SearchAncestors` | rust/rubydex/src/resolution.rs:1694-1741 | The chain is linearized first; the first member along it counts, and a partial chain is searched only up to the first name that may still provide it. |
| `ConstantLookups.SearchChainLoop` | rust/rubydex/src/resolution.rs:1696-1739 | The two loops over a chain compute the search that the next row pins. |
| `ConstantLookups.PartialSearchIs` | rust/rubydex/src/resolution.rs:1711-1739 | In an unfinished chain the first entry that has the member or may have it decides, and only it: a declaration that has it is found, a missing name written otherwise than the constant stops the search, and if there is no such entry nothing is found. In both directions. |
| `ConstantLookups.ChainAnswerIs` | rust/rubydex/src/resolution.rs:1694-1741 | In a finished chain the first entry with the member decides, in both directions. |
| `ConstantLookups.LexicalSearchIs` | rust/rubydex/src/resolution.rs:1744-1765 | Among enclosing scopes the innermost with the member decides, unless one before it is unresolved, in both directions. |
| `ConstantLookups.SearchLexicalScopes` | rust/rubydex/src/resolution.rs:1744-1765 | The first direct member from the innermost scope outward; an unresolved scope stops the search. |
| `ConstantLookups.AgainMeansPartial` | rust/rubydex/src/resolution.rs:1694-1741 | Over stored chains: a declaration is asked for only if its chain is partial. `LiveLookups.RunResolution` says it of the graph the lookup runs on. |
| `Lookups.FirstMemberIsFirst` | rust/rubydex/src/query.rs:712-736 | The member found belongs to the first entry that has it, and nothing is found exactly if no entry has it. |
| `Lookups.AfterMainSplits` | rust/rubydex/src/query.rs:717-722 | An inherited lookup starts strictly behind the first occurrence of the namespace in its chain. |
| `MethodAliases.FindMemberInAncestors` | rust/rubydex/src/query.rs:699-737 | Both error cases exactly, and otherwise the first member along the chain or behind the namespace itself. |
| `MethodAliases.FollowMethodAlias` | rust/rubydex/src/query.rs:767-822 | Always halts; reports a cycle if and only if the target-then-smallest-alias step followed for ever would never end, and any other outcome only if the steps end with it. |
| `MethodAliases.NextAlias` | rust/rubydex/src/query.rs:802-820 | Stops exactly at a method with a definition that is no alias, and otherwise finds the smallest alias. |
| `MethodAliases.ReachedHasRealDefinition` | rust/rubydex/src/query.rs:779-815 | A method is returned if and only if a way along aliases comes to one that names it, that is, it is the member of the first entry of the chain of the owner of the alias, the owner included, and it has a definition that is no alias. |
| `MethodAliases.OutcomeIs` | rust/rubydex/src/query.rs:767-822 | Every outcome if and only if a way along aliases comes to an alias at which it is due: no entry of the chain of its owner has the name or the target has no definitions, the target is no method, it is no alias, or its owner is unknown. |
| `MethodAliases.EndlessIs` | rust/rubydex/src/query.rs:767-822 | The search never ends if and only if there are such ways of every length. |
| `MethodAliases.OneOutcome` | rust/rubydex/src/query.rs:767-822 | The steps cannot end with two different outcomes, so the outcome reported is the only one. |
| `Completions.CollectMembers` | rust/rubydex/src/query.rs:252-279 | In whatever order members come, one more namespace turns the visible first hits of the namespaces before into those including it. |
| `Completions.MethodCallCompletion` | rust/rubydex/src/query.rs:409-437 | The candidates are exactly the visible first hits along the chain of the receiver, one for each name. |
| `Completions.MethodCandidatesAreLookups` | rust/rubydex/src/query.rs:409-437 | Every candidate is what member lookup returns for its name, there is at most one for each name, and a first hit that is not visible hides the name altogether. |
| `Completions.VisibleExactly` | rust/rubydex/src/query.rs:228-250 | A protected method is offered exactly where caller and receiver inherit from the namespace it is defined in according to their chains, a private one on the caller itself, any other everywhere. |
| `Completions.ConstantCompletion` | rust/rubydex/src/query.rs:451-543 | An error exactly if the innermost scope is unknown or unresolved; otherwise the constants offered are the first hits along the innermost chain, the chain of `Object` for modules, and the outer scopes up to the first unresolved one. |
| `Completions.ResolvableNames` | rust/rubydex/src/resolution.rs:1620-1691 | Exactly which names resolve in a resolved alias-free nesting with a finished innermost chain. |
| `Completions.CompletionOffersWhatResolves` | rust/rubydex/src/query.rs:508-543 | The names offered are exactly the names that resolve; inside a placeholder the two differ exactly by the constants found through `Object`. |
| `Completions.OfferedIs` | rust/rubydex/src/query.rs:451-543 | The constant offered under a name: the first along the chain of the innermost scope, else, in a module, along that of `Object`, else the direct member of the nearest outer scope. |
| `Completions.OfferedIsResolvedExactly` | rust/rubydex/src/query.rs:451-543 | It is what the name resolves to if and only if no enclosing scope has another direct member of that name: the resolver asks the scopes before the chain. |
| `Completions.UnresolvedScopeStopsLookup` | rust/rubydex/src/query.rs:596-620 | With an unresolved outer scope only direct members inside it resolve, all of them are offered, and what is offered beyond is inherited. |
| `Completions.PlaceholdersDisagree` | rust/rubydex/src/query.rs:527-543 | A concrete placeholder scope in which a constant of `Object` resolves and is not offered. |
| `NameDepths.NameDepth` | rust/rubydex/src/resolution.rs:1807-1830 | With any right cache, the memoized depth is the plain recursive depth, and the cache stays right. |
| `NameDepths.ComputeNameDepths` | rust/rubydex/src/resolution.rs:1835-1843 | In whatever order the names are walked, each gets its plain recursive depth. |
| `NameDepths.DeeperThanDependencies` | rust/rubydex/src/resolution.rs:1818-1826 | A name without top-level prefix is strictly deeper than its parent scope and its nesting. |
| `NameDepths.DepthOneExactly` | rust/rubydex/src/resolution.rs:1807-1826 | The depth is one exactly for names that wait for nothing. |
| `NameDepths.SortedByDepthIsTopological` | rust/rubydex/src/resolution.rs:1931-1939 | In a queue sorted by depth everything a name builds on, directly or not, stands before it. |
| `NameDepths.DepthBound` | rust/rubydex/src/resolution.rs:1818-1826 | A name of height h has a depth between 1 and 2^h - 1. |
| `NameDepths.DoublingReachesBound` | rust/rubydex/src/resolution.rs:1818-1826 | The bound is reached: names that use their predecessor as scope and as nesting. |
| `NameDepths.DepthsFit` | rust/rubydex/src/resolution.rs:1807-1811 | Depths of names of height up to 32 fit into 32 bits. |
| `JobQueues.ExitMeansDone` | rust/rubydex/src/job_queue.rs:104-139 | Under every interleaving the counter equals the jobs in the injector, in local queues and running plus those counted and not yet pushed; once a worker has left no job is anywhere, every pushed job has run exactly once, and there were as many successful steals as jobs. |
| `JobQueues.RunInvariant` | rust/rubydex/src/job_queue.rs:36-41 | Every run keeps the counter exact, loses and doubles no job, and lets nobody leave early. |
| `JobQueues.StepBalanced` | rust/rubydex/src/job_queue.rs:104-174 | Each single operation keeps the books: batches stolen from the injector or from a peer, the two halves of a push, finishing and panicking. |
| `JobQueues.NoDeadlock` | rust/rubydex/src/job_queue.rs:112-123 | While a job is outstanding, any worker that has not crashed, or a busy one, can get on with a job, at once or after looking at the counter; queues of crashed workers stay open. |
| `JobRuns.BoundedWork` | rust/rubydex/src/job_queue.rs:104-139 | Over a finite tree of jobs the steps that get on with a job are at most four for each job, however long workers wait. |
| `JobFairness.FairRunsEnd` | rust/rubydex/src/job_queue.rs:104-139 | Over a finite tree of jobs, if every worker gets its turn again and again and from some point on a steal fails only when there is nothing to steal, all workers have left or crashed after finitely many turns. |
| `JobRuns.EveryScheduleMatchesWalk` | rust/rubydex/src/job_queue.rs:104-174 | What all jobs put out together is the same for every schedule and number of workers: that of a sequential walk. |
| `JobRuns.OnlyFiniteTreesEnd` | rust/rubydex/src/job_queue.rs:115-119 | Without a crash a worker leaves only if every job started with has a finite tree. |
| `JobRuns.RunsEndAsWalks` | rust/rubydex/src/job_queue.rs:104-174 | So every run that ends without a crash has the outcome of a sequential walk. |
| `JobTrees.RunAdds` | rust/rubydex/src/job_queue.rs:104-139 | What has been put out and what is still owed by queues, running jobs and crashed jobs always add up to the same. |
| `WorkQueues.WorkQueue.StealJob` | rust/rubydex/src/job_queue.rs:146-174 | The own queue comes first, then the injector, then the peers in order; success is one step of the state machine, and without contention failure means that all queues are empty. |
| `WorkQueues.WorkQueue.PushFirst` | rust/rubydex/src/job_queue.rs:36-41 | A push before the run gives the start state with one more job. |
| `WorkQueues.WorkQueue.PushNext` | rust/rubydex/src/job_queue.rs:36-41 | A push from a running job is two steps of the state machine, the counter first. |
| `WorkQueues.WorkQueue.RunJob` | rust/rubydex/src/job_queue.rs:128-132 | Running a job is a run of the state machine that ends with the decrement. |
| `WorkQueues.WorkQueue.Turn` | rust/rubydex/src/job_queue.rs:113-138 | One turn of the loop; it ends the loop only with the counter at zero. |
| `WorkQueues.WorkQueue.WorkerLoop` | rust/rubydex/src/job_queue.rs:104-139 | A worker left alone leaves after finitely many turns, in a state of the state machine to which the theorems above apply. |
| `Listings.VisitIsWalk` | rust/rubydex/src/listing.rs:80-138 | Visiting directories and links in place finds the same things as pushing them as jobs. |
| `Listings.ListingMatchesWalk` | rust/rubydex/src/listing.rs:150-189 | Whatever the schedule, a listing that ends without a panic has sent exactly the files and errors of the complete sequential walk that skips excluded directories and link targets: some depth covers all of it, at every such depth the messages are the same, and there was one steal for each job. |
| `ListedPaths.NothingLeftOutIsListed` | rust/rubydex/src/listing.rs:150-189 | A listing that ends without a panic has visited exactly the paths that ways from the given ones lead to without entering anything whose canonical path is that of an exclusion; no exclusion is visited, and every message comes from a path that is. |
| `ListedPaths.MessagesExactly` | rust/rubydex/src/listing.rs:42-138 | Which messages the visit of a path sends: every file with the right extension it is or holds, and everything that cannot be read, followed or classified. |
| `Listings.FiniteExactlyWithoutCircles` | rust/rubydex/src/listing.rs:50-138 | The jobs below a path form a finite tree if and only if no circle of directories and links that no exclusion cuts can be reached from it; then the tree is no deeper than there are paths. |
| `Listings.CirclesNeverEnd` | rust/rubydex/src/listing.rs:50-71 | If such a circle can be reached from a path given, listing never ends without a panic, whatever the schedule. |
| `Listings.CircleFreeListings` | rust/rubydex/src/listing.rs:150-189 | Otherwise, on every schedule, the work is bounded and an exit without a panic has the outcome of the complete walk. |
| `JobCycles.FiniteWithoutCycles` | rust/rubydex/src/job_queue.rs:104-139 | A job from which no cycle of jobs can be reached has a finite tree, no deeper than there are jobs. |
| `JobCycles.CyclesAreInfinite` | rust/rubydex/src/job_queue.rs:104-139 | A job from which a cycle can be reached has no finite tree. |
| `Listings.FileDiscovery.constructor` | rust/rubydex/src/listing.rs:150-182 | Excluded paths are canonicalized; each given path is pushed, skipped as excluded, or reported as missing. |
| `Listings.FileDiscovery.Run` | rust/rubydex/src/listing.rs:80-138 | Exactly which jobs a run pushes and which messages it sends, in every case of the path. |
| `Listings.FileDiscovery.RunEntry` | rust/rubydex/src/listing.rs:92-126 | The same for one directory entry. |
| `Listings.FileDiscovery.HandleSymlink` | rust/rubydex/src/listing.rs:50-71 | A link is reported, skipped as excluded, or pushed with its canonical path. |
| `Listings.FileDiscovery.HandleFile` | rust/rubydex/src/listing.rs:42-48 | Only files with extension `rb` or `rbs` are sent. |
| `LocalGraphs.DependentsAreInverse` | rust/rubydex/src/indexing/local_graph.rs:74-170 | After any sequence of adds with distinct ids the dependents index is the exact inverse of the stored edges: one entry for each, none besides. |
| `LocalGraphs.InverseExactlyWhenFresh` | rust/rubydex/src/indexing/local_graph.rs:74-170 | Over every sequence of adds the index is the inverse of the stored edges if and only if no add repeats an id that is taken; no later add repairs what one repetition spoils. |
| `LocalGraphs.NameRefCounts` | rust/rubydex/src/indexing/local_graph.rs:122-148 | The count of a name is the number of times it was added; a name never added is not stored. |
| `LocalGraphs.StringRefCounts` | rust/rubydex/src/indexing/local_graph.rs:99-113 | The same for interned strings. |
| `LocalGraphs.LocalGraph.AddName` | rust/rubydex/src/indexing/local_graph.rs:122-148 | A known name only counts up; a new one is entered under its scope and its nesting. |
| `LocalGraphs.LocalGraph.AddDefinition` | rust/rubydex/src/indexing/local_graph.rs:74-90 | The whole new contents. |
| `LocalGraphs.LocalGraph.AddConstantReference` | rust/rubydex/src/indexing/local_graph.rs:157-170 | The whole new contents. |
| `LocalGraphs.LocalGraph.InternString` | rust/rubydex/src/indexing/local_graph.rs:99-113 | The whole new contents. |
| `Comments.CollectComments` | rust/rubydex/src/indexing/rbs_indexer.rs:158-203 | The loop records for every line the comment of the specification. |
| `Comments.RangesSliceBack` | rust/rubydex/src/indexing/rbs_indexer.rs:167-200 | A range starts where its text does if and only if no line before it ends in more than one CR; then it slices the source back to exactly the text, across indentation and mixed line ends. |
| `Comments.TextsAreTrimmed` | rust/rubydex/src/indexing/rbs_indexer.rs:167-200 | The text of every comment is its line without the carriage returns at its end and, except on the first line of a block, without the white space at its start. |
| `Comments.StartsDrift` | rust/rubydex/src/indexing/rbs_indexer.rs:173-200 | By how much the recorded starts fall behind in general: one byte for every further CR. |
| `Comments.TwoCRsMiss` | rust/rubydex/src/indexing/rbs_indexer.rs:177-180 | A concrete block whose second range misses its text. |
| `Comments.LinesJoin` | rust/rubydex/src/indexing/rbs_indexer.rs:167-168 | Splitting at line feeds and joining again gives the block back. |

## Left out

- Superclass references to singleton classes: the linearization theorems take `OrdinarySuperclasses`, because the program itself would recurse without end on a class below its own singleton class; for programs whose superclasses and alias targets are constant paths, as the indexer records them, `Programs.PlainMeansOrdinary` proves it of every state.
- WorkQueues.WorkQueue.WorkerLoop: is about a worker nobody interferes with; interference is covered by the state machine, whose events the methods are proved to perform.
- Completions.CompletionOffersWhatResolves: is about nestings of resolved namespaces whose innermost chain is finished, for names that always stand for the same kind of member; that a finished chain lists its own declaration is proved by `SelfListing.RunLists`.
- Handlings.NoPanic: a name that is used for a constant or alias as well is excluded, because the program panics there: the ancestor unit of `Kernel` is always queued, and a constant of that name that cannot be promoted leaves no namespace under it (`DefinitionUnits.DefinedIsNamespace`). In the model a unit without namespace stays in the queue.
- FoundConstants.ScopedNameIs: takes the chains of the targets to be finished; where one is not, the chains of later targets depend on what linearizing it does, and only `FirstTargetAsked` is claimed.
- FoundConstants.NestedNameIs: takes the chain of `Object` to be finished, and that of the innermost scope to be finished or nothing to be overwritten.
- Owners.PlaceholderPath: takes the scopes of the path to have different names, and what is declared under one of these names already to be a namespace; an alias or constant there changes the owner of the next one, which `DefinitionUnits.CreateTodo` follows.
- AppliedMixins.LaterIncludeComesFirst: is about declarations that prepend nothing; with prepends the chain is the one `AppliedMixins.ChainIsApplied` gives, whose order `ChainOrder` describes.
- Handlings.ReferenceQueuesMade: claims nothing for stores in which a singleton class can be overwritten.
- Correctness.LinearizeCorrect: like everything from `Correctness` to `SelfListing` it is about graphs on which nothing can be overwritten; for the others only that the traversal ends, keeps the graph valid and stays within its level is claimed.
- Resolutions.ResolutionRun.GetOrCreateSingletonClass: gives nothing for a declaration that is neither namespace, constant nor alias, where the program panics; members added to such an owner are dropped likewise.
- A namespace made by a definition whose owner was found through an unfinished chain is not queued for linearization by the program; the model does the same (`ResolutionLoops.NewNamespaceQueued`), and nothing is claimed about when such a namespace gets its chain.
- Declaration names are hashed without regard to collisions; the theorems about the loop hold for any assignment of keys to owner and name.
- References and diagnostics of declarations, which promotion keeps and overwriting drops.
- MethodAliases.FollowMethodAlias: takes the graph to be consistent where the program panics otherwise (members, definitions and owners that exist).
- NameDepths.ComputeNameDepths: takes the names to form an acyclic structure of some height; the program would recurse without end otherwise.
- Namespaces are values in a map field of the resolver rather than objects of their own: aliasing between references to one declaration is not captured.
- Constant references are collapsed to the names they carry; `as_ref` on a missing parent chain is the empty chain.
- The order of members in hash maps: every order is covered where the order can matter.
- `prepare_units`: deduplication and the classification of pending work; only that sorting by depth is topological. The loop is proved for every order of the queue.
- `handle_remaining_definitions`, method and constant visibility directives, diagnostics.
- Invalidation, deletion of documents and chains that become stale after edits in `model/graph.rs`.
- Fuzzy declaration search, require paths, class variables, globals, instance variables, keyword and argument completion.
- Method references, decreasing reference counts, and the document's own lists in the local graph.
- Completions.MethodCallCompletion: starts from a receiver that is a namespace already; `PrimaryTargets` is about getting there.
- 32-bit overflow of reference counts and offsets, where the program panics or is given files below 4 GiB; text is taken to be valid UTF-8, and only white space at line starts is decoded.
- Weak memory ordering and the internals of the deques: operations are sequentially consistent, a batch steal moves any non-empty prefix at once.
- A panic inside `push`, and a panic of `file_type` for an entry that vanishes, except as the panic step of a running job.
- The Ruby parser, the RBS visitors, the C extension, the MCP server and the command line.
