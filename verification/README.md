# Verified models of hetida designer

A Dafny model of the graph, tree and string logic around transformation revisions in the hetida
designer runtime, and of a few small stateful machines, with proofs of what they are relied on for.
A revision is a component or a workflow; a workflow contains operators, which are instances of other
revisions, and links between them.

| file | what it models |
|---|---|
| `InterfaceReconciliation`, `InputOrdering`, `WorkflowEntries`, `LinkPaths`, `OperatorUpgrade`, `UpgradeEffects`, `WorkflowUpgrade` | upgrading the operators of a workflow in place: interfaces, content entries, constants, io interface, test wirings, links and their paths, and the loop over all operators |
| `Nesting`, `ImportOrder`, `Unfolding` | nesting levels, ordered import and deletion, and the execution tree of a workflow |
| `ComponentImport` | re-entrant import of component code with cycle detection |
| `BlobHierarchy`, `HierarchyLayout`, `ObjectKeys`, `ObjectSources` | the hierarchy of the blob storage adapter, its ids, and the strings of object keys |
| `UpdateCode`, `ModuleVariables` | rewriting the header of component code and its module-level variables |
| `StructureValidation` | the validators of a thing node structure |
| `WorkflowConstructor`, `ConstructionRuns`, `ConstructionRecords` | building workflows by code, call by call and as a whole |
| `DictCache`, `Versioning`, `AdapterBatching` | a conditional cache, selection of the newest revision, loading inputs adapter by adapter |
| `Wrappers`, `IOTypes`, `Sequences`, `OrderedDict`, `StringSplitting` | optional values, shared types, lists and comprehensions, dictionaries built from lists, string splitting |

Code that changes objects or lists step by step is a class or a method with loops, proved equal to a
function of the old state; the properties are lemmas about that function. The operator upgrade, for
example, changes operator and link objects on the heap, is proved equal to `OperatorUpgrade.RunAll` on
values, and the results about whole runs are lemmas about it and `Run`, which goes over any part of the
operators in any order.

## Where the code and its documentation differ

* The filters for links compare the id of the operator with ids of connectors. Links are thus
  practically never dropped, although the documentation says that only fitting ones are kept
  (`DanglingLinkSurvives`; it holds exactly under the condition of `LinkPromiseExact`).
* The nesting level follows operators of type WORKFLOW only, although the documentation speaks of all
  operators. A wrongly typed operator is not seen (`MistypedOperatorIsIgnored`; all references lead to
  lower levels exactly under the condition of `ReferencesLowerExactly`).
* The flag of a module that is being imported is not reset when an exception passes
  (`FailureLeavesFlag`). This is harmless (`ImportsExact`) except after `raise_if_not_found`
  (`NotFoundBlocksLaterImport`; `SessionExact` says exactly when).
* The stakeholder key check accepts wrong keys if an external id repeats inside a hierarchy
  (`SharedExternalIdHidesWrongKey`; `KeysMatchExactly` says exactly when it can be relied on).
* A cacheable key can be asked for more than once if calls overlap or raise
  (`OverlappingCallsAskTwice`; exactly when is `AskedAgainExactly`).

## Conventions and assumptions

* Ids, and names that are only compared, are integers. `uuid4()` is a counter: ids are never issued
  twice. Positions are reals.
* Inputs and outputs of operators are reconciled by the same rules in the code, except that outputs are
  never optional; they are one type with a slot that tells them apart. An unnamed and an
  empty-named connector differ.
* Operator and link objects of a workflow are not shared. Results about single operators after whole
  runs assume that no two operators of a workflow have the same id, and the placing of paths that
  connectors never have the id of an operator.
* Dictionaries built from lists keep the last value at the first place of a key, so repeated names are
  treated as the code treats them.
* A cached function answers for each key by itself, and any call of it can raise.
* A module path is a hash of the code and taken to be injective. A module body imports other components
  in order and then completes or raises.
* The recursion limit of the interpreter is a parameter of the expansion into nodes: how many nested calls
  for workflows are left.
* The beginning of a new component module contains no start marker. The generated header contains it only
  at its beginning and the end marker only at its end, and a main function of the requested kind; black is
  part of the generator.
* Printing of times and job ids is inverted by parsing and uses only letters, digits, `:`, `+` and `-`;
  times are UTC with whole seconds.
* Names and ids do not end in a line break, which the patterns for them let pass at the end of a text.
* Values written as literals are read back as they were.
* Semantic version tags are parsed by a given function. The answer of an adapter is any function of all
  that is requested from it at once.

## Model

| member | source | states |
|---|---|---|
| `WorkflowUpgrade.HandleOldOperatorConnectors` | runtime/hetdesrun/trafoutils/upgrade_operators.py:377-423 | the loop keeps exactly the connectors `Kept` describes: those whose name is still there with the same type or with type Any, adapted; `handle_old_operator_outputs` (479-515) is the same loop |
| `WorkflowUpgrade.HandleNewOperatorConnectors` | runtime/hetdesrun/trafoutils/upgrade_operators.py:426-476 | the loop adds exactly what `Add` describes, with fresh ids in order; `handle_new_operator_outputs` (518-557) is the same loop with nothing optional |
| `InterfaceReconciliation.KeptElements` | runtime/hetdesrun/trafoutils/upgrade_operators.py:377-423 | kept connectors conform to the new interface, are old ones adapted, no two share a name, and every old connector that fits keeps its name |
| `InterfaceReconciliation.AddConnectors` | runtime/hetdesrun/trafoutils/upgrade_operators.py:426-476 | new connectors have ids from the given range, are not kept ones, carry type, kind and default of the interface, are exposed exactly if required, and cover every name that was not kept |
| `InterfaceReconciliation.ReconciledInstantiates` | runtime/hetdesrun/trafoutils/upgrade_operators.py:592-609 | kept and new connectors together have exactly the names of the new interface, each once, with the data type and kind stated there |
| `InterfaceReconciliation.ReconciledExactly` | runtime/hetdesrun/trafoutils/upgrade_operators.py:377-476 | connector by connector, where the reconciled interface comes from: id, type, kind, default and exposure of every kept and every new one |
| `InterfaceReconciliation.UpgradedIsInstance` | runtime/hetdesrun/trafoutils/upgrade_operators.py:582-609 | an upgraded operator is an exact instance of the new revision: same names, equal data types and kinds on both sides, required inputs first, revision data copied |
| `InterfaceReconciliation.UpgradedInherits` | runtime/hetdesrun/trafoutils/upgrade_operators.py:397-415 | a connector of the upgraded operator has the id of an old connector of its name exactly if there is one whose type is that of the last endpoint of the revision with the name, or that endpoint is of type Any, and then it is the last such; otherwise its id is fresh |
| `WorkflowEntries.AddContents` | runtime/hetdesrun/trafoutils/upgrade_operators.py:459-474 | added workflow inputs and outputs are unnamed, belong to the operator and have distinct fresh ids |
| `WorkflowEntries.AddExposesAll` | runtime/hetdesrun/trafoutils/upgrade_operators.py:459-474 | every new connector that is not optional becomes an input or output of the workflow with its type and id, and nothing else does, exactly if no required endpoint that becomes a connector is followed by another of its name |
| `InputOrdering.OrderOperatorInputs` | runtime/hetdesrun/trafoutils/upgrade_operators.py:119-136 | the two-list loop computes `Order` |
| `InputOrdering.OrderCorrect` | runtime/hetdesrun/trafoutils/upgrade_operators.py:119-136 | the result is a permutation with required inputs first, the order inside each kind is kept, and ordering again changes nothing |
| `WorkflowEntries.UpgradedIoMatches` | runtime/hetdesrun/trafoutils/upgrade_operators.py:635-648 | after an upgrade every io interface entry names, by id, a content entry of identical data type, whether or not this held before |
| `WorkflowEntries.UpgradedEntries` | runtime/hetdesrun/trafoutils/upgrade_operators.py:615-625 | content entries of other operators are untouched; of the upgraded operator those on kept connectors remain in order, followed by the new ones |
| `WorkflowEntries.NamesWereThere` | runtime/hetdesrun/trafoutils/upgrade_operators.py:332-338 | looking up the previous data type of a wired name never raises a KeyError: every name in the new io interface was in the old one |
| `WorkflowEntries.UpgradedSideDone` | runtime/hetdesrun/trafoutils/upgrade_operators.py:319-362 | remaining test wirings are old ones whose input or output is still there with unchanged type |
| `OperatorUpgrade.FixedConstants` | runtime/hetdesrun/trafoutils/upgrade_operators.py:290-316 | constants of other operators are untouched; of the upgraded operator exactly those that name an input of their type remain |
| `LinkPaths.FitsUpgraded` | runtime/hetdesrun/trafoutils/upgrade_operators.py:218-287 | whether a link fits the operator after the upgrade can be read from the new revision before it |
| `LinkPaths.UpgradedLinksExact` | runtime/hetdesrun/trafoutils/upgrade_operators.py:218-287 | apart from their paths the links after an upgrade are exactly those both filters keep |
| `LinkPaths.LinkPromiseExact` | runtime/hetdesrun/trafoutils/upgrade_operators.py:218-287 | after an upgrade all links of the operator fit the new revision, as documented, exactly if before it every link of the operator that does not fit had the operator's id as the id of a connector; the condition is on the given links and the new revision |
| `LinkPaths.DanglingLinkSurvives` | runtime/hetdesrun/trafoutils/upgrade_operators.py:230-244 | counterexample to the documentation: a link into an input that the new revision lacks is kept |
| `LinkPaths.UpgradedLinksStay` | runtime/hetdesrun/trafoutils/upgrade_operators.py:218-287 | if connector ids differ from the operator id, no link is ever dropped |
| `LinkPaths.FixEndsHit` | runtime/hetdesrun/trafoutils/upgrade_operators.py:139-169 | the last link into the k-th shown input ends at the header offset plus 30 for each input above |
| `LinkPaths.FixEndsMiss` | runtime/hetdesrun/trafoutils/upgrade_operators.py:159-169 | no other link gets another end |
| `LinkPaths.FixStartsAt` | runtime/hetdesrun/trafoutils/upgrade_operators.py:175-212 | all links out of the k-th shown output start at its height, other links keep their starts |
| `LinkPaths.FixedLink` | runtime/hetdesrun/trafoutils/upgrade_operators.py:139-212 | an upgrade changes of each path at most the heights of its ends, and places the ends that meet the operator; x values and inner vertices stay |
| `WorkflowUpgrade.FixPathEndYPositions` | runtime/hetdesrun/trafoutils/upgrade_operators.py:139-169 | the loop over the links on the heap computes `FixEnds` |
| `WorkflowUpgrade.FixPathStartYPositions` | runtime/hetdesrun/trafoutils/upgrade_operators.py:175-212 | the nested loop over the links on the heap computes `FixStarts` |
| `WorkflowUpgrade.FixLinksIntoOperator` | runtime/hetdesrun/trafoutils/upgrade_operators.py:218-252 | the list of links is filtered, the links themselves stay the same objects |
| `WorkflowUpgrade.UpgradeInputs` | runtime/hetdesrun/trafoutils/upgrade_operators.py:599-652 | operator inputs, links, constants, workflow inputs, io interface, wirings and path ends after the first half of an upgrade |
| `WorkflowUpgrade.UpgradeOutputs` | runtime/hetdesrun/trafoutils/upgrade_operators.py:654-704 | the same for outputs |
| `WorkflowUpgrade.UpgradeWorkflowOperatorInPlace` | runtime/hetdesrun/trafoutils/upgrade_operators.py:560-707 | the in-place upgrade of one of many operator objects is the step `Upgrade` on the values; no other operator object changes |
| `WorkflowUpgrade.OperatorsToCheck` | runtime/hetdesrun/trafoutils/upgrade_operators.py:365-374 | the dictionary by id of disabled and draft operators, or of all |
| `OperatorUpgrade.TurnsExact` | runtime/hetdesrun/trafoutils/upgrade_operators.py:365-374 | of the checked operators with one id the last is upgraded, in the place of the first, and no other |
| `WorkflowUpgrade.FindReplacement` | runtime/hetdesrun/trafoutils/upgrade_operators.py:743-765 | the branches that choose a replacement, skip, or raise a KeyError |
| `WorkflowUpgrade.UpgradeOperatorsWithProvidedRevisions` | runtime/hetdesrun/trafoutils/upgrade_operators.py:710-776 | the loop over a deep copy is `RunAll` on the values; the given workflow is not changed, and on a KeyError there is no result |
| `OperatorUpgrade.RunFails` | runtime/hetdesrun/trafoutils/upgrade_operators.py:743-751 | the loop raises a KeyError exactly if some operator in it is no draft and its revision group is not in the given dictionary |
| `OperatorUpgrade.RunAllFails` | runtime/hetdesrun/trafoutils/upgrade_operators.py:737-751 | the whole upgrade raises exactly if the last checked operator of some id is no draft and its revision group is not in the given dictionary |
| `OperatorUpgrade.RunFollowsRequest` | runtime/hetdesrun/trafoutils/upgrade_operators.py:743-765 | what becomes of draft operators depends only on the current revisions, what becomes of others only on the newer ones |
| `OperatorUpgrade.RunKeepsIdentity` | runtime/hetdesrun/trafoutils/upgrade_operators.py:582-609 | every operator keeps its id, and a draft one its revision if the current revisions are listed under their ids |
| `OperatorUpgrade.RunPointwise` | runtime/hetdesrun/trafoutils/upgrade_operators.py:737-776 | every operator ends as if it were upgraded alone: upgraded to the revision chosen for its initial state with its entries and constants reconciled, or untouched with all its entries; no iteration disturbs another operator |
| `OperatorUpgrade.RunUpgradesExactly` | runtime/hetdesrun/trafoutils/upgrade_operators.py:710-776 | after the whole loop every operator with a replacement is an exact instance of it with fitting ids kept, every other one is unchanged |
| `OperatorUpgrade.RunSides` | runtime/hetdesrun/trafoutils/upgrade_operators.py:635-704 | after any number of upgrades the io interface matches the content by id and type, and remaining wirings name entries whose type is the one before the run |
| `OperatorUpgrade.RunPaths` | runtime/hetdesrun/trafoutils/upgrade_operators.py:652-704 | all along a run paths keep x values and inner vertices; in the end every path of at least two vertices meets upgraded operators at the heights of their final inputs and outputs |
| `UpgradeEffects.UpgradeChanges` | runtime/hetdesrun/trafoutils/upgrade_operators.py:560-707 | what one upgrade changes outside the operator, on the lists themselves: entries of others stay, those of the operator if an old connector of the name can stay, then come new unnamed ones, one for each new required connector; io entries stay that have a content entry of their id and type, wirings whose named entry has the type it had, constants that an input of their name and type is left for, links unless they carry the operator's id and fit no connector; no other operator changes |
| `UpgradeEffects.RunEntries` | runtime/hetdesrun/trafoutils/upgrade_operators.py:710-776 | the same of entries and constants after a whole run, operator by operator |
| `UpgradeEffects.RunHeights` | runtime/hetdesrun/trafoutils/upgrade_operators.py:139-212 | after a whole run the last path into each drawn input, and every path out of a drawn output, of an upgraded operator meets it 70 below its top and 30 lower for each connector drawn above |
| `UpgradeEffects.RunNewIds` | runtime/hetdesrun/trafoutils/upgrade_operators.py:426-557 | no id is issued to connectors of two operators |
| `UpgradeEffects.UpgradedOrder` | runtime/hetdesrun/trafoutils/upgrade_operators.py:582-609 | connectors that go on come first, where the old ones of their names that can stay stood, then new ones, with ids of their own, where the revision first mentions their names; required inputs before optional ones |
| `UpgradeEffects.UpgradedOutputOrder` | runtime/hetdesrun/trafoutils/upgrade_operators.py:654-665 | the same of outputs, without kinds |
| `Nesting.ComputeNestingLevel` | runtime/hetdesrun/trafoutils/nestings.py:26-113 | the recursive method with its loop computes `NestingLevel`; it terminates because ids not seen get fewer |
| `Nesting.NestingLevelExact` | runtime/hetdesrun/trafoutils/nestings.py:53-113 | a level results exactly if neither a cycle nor a missing workflow is reachable, and then it is the start level plus the longest chain of nested workflows; shared sub-workflows are no cycle |
| `Nesting.CycleErrorExact` | runtime/hetdesrun/trafoutils/nestings.py:53-60 | on a reference-closed set the cycle error is raised exactly on reachable cycles |
| `Nesting.LevelRecurrence` | runtime/hetdesrun/trafoutils/nestings.py:126-131 | components have level 0, a workflow has one more than the highest workflow it contains, or 1 |
| `Nesting.EdgeDescends` | runtime/hetdesrun/trafoutils/nestings.py:102-111 | a contained workflow has a strictly smaller level |
| `ImportOrder.StructureIdsByNestingLevel` | runtime/hetdesrun/trafoutils/nestings.py:140-153 | the loop partitions all ids by level in dictionary order, and fails exactly if some id has no level |
| `ImportOrder.DependencyIsLower` | runtime/hetdesrun/trafoutils/nestings.py:126-131 | every correctly typed dependency has a strictly smaller level |
| `ImportOrder.ReferencesLowerExactly` | runtime/hetdesrun/trafoutils/nestings.py:126-131 | every reference leads to a lower level, as documented for all operators, exactly if each workflow that only wrongly typed operators of another refer to starts shorter chains of correctly typed references than that other does |
| `ImportOrder.MistypedOperatorIsIgnored` | runtime/hetdesrun/trafoutils/nestings.py:82-84 | an input on which this fails: a workflow operator marked as component hides the dependency |
| `ImportOrder.GenerateImportOrderFile` | runtime/hetdesrun/exportimport/importing.py:355-363 | each revision with a path is written exactly once, after all its listed dependencies |
| `ImportOrder.AscendingPutsDependenciesFirst` | runtime/hetdesrun/exportimport/importing.py:358-363 | in a list ordered by level, dependencies come before what depends on them |
| `ImportOrder.Database.DeleteTransformationRevisions` | runtime/hetdesrun/exportimport/utils.py:231-246 | exactly the present members of the delete set are deleted, each after everything in the set that refers to it |
| `ImportOrder.DescendingPutsReferrersFirst` | runtime/hetdesrun/exportimport/utils.py:242-246 | deleting from the highest level down deletes referrers first |
| `ImportOrder.EveryPrefixIsSafe` | runtime/hetdesrun/exportimport/utils.py:242-246 | wherever a delete run stops, no remaining member of the delete set refers to a deleted revision |
| `Unfolding.GetDirectChildTrafosByOperatorId` | runtime/hetdesrun/backend/execution.py:132-161 | the loop maps every operator id to the revision of its last operator, and fails exactly if the revision of some operator is missing |
| `Unfolding.CollectChildNodes` | runtime/hetdesrun/backend/execution.py:164-207 | the recursive loop computes the node list `Collected`, on cyclic references until the recursion limit is reached |
| `Unfolding.ChildNode` | runtime/hetdesrun/backend/execution.py:177-205 | the node for one operator, or the error its revision leads to |
| `Unfolding.NestedNodes` | runtime/hetdesrun/backend/execution.py:210-228 | the expansion of any revision at any recursion limit |
| `Unfolding.ExpansionMirrors` | runtime/hetdesrun/backend/execution.py:164-228 | a successful expansion has exactly one node per operator, in operator order, on every level, and is less deep than the limit |
| `Unfolding.ExpansionSucceeds` | runtime/hetdesrun/backend/execution.py:164-228 | it succeeds exactly if every reachable operator is present, the revision looked up by its id is of its type, and no chain of nested workflows is longer than the limit |
| `Unfolding.ErrorsJustified` | runtime/hetdesrun/backend/execution.py:132-228 | a component cannot be expanded, and every other error has its cause at the end of a chain of nested workflows: a missing revision, an operator of the wrong type in a workflow whose revisions are all there, or a chain longer than the limit |
| `Unfolding.ExpandsSomewhere` | runtime/hetdesrun/backend/execution.py:164-228 | some limit suffices exactly if everything reachable is well typed and no cycle can be reached |
| `Unfolding.LookedUpUnique` | runtime/hetdesrun/backend/execution.py:145-149 | lookups by operator id lead where the operators point if no operator id repeats in a workflow |
| `Unfolding.MirrorUnique` | runtime/hetdesrun/backend/execution.py:210-228 | there is only one such tree |
| `Unfolding.MirrorHeight` | runtime/hetdesrun/backend/execution.py:210-228 | its height is the longest chain of nested workflows |
| `Unfolding.HeightIsNestingLevel` | runtime/hetdesrun/backend/execution.py:210-228 | two independent recursions agree: on what the lookups lead to, the nesting level is one plus the height of the tree |
| `ComponentImport.ExecutionContext.GetCodeHash` | runtime/hetdesrun/component/load.py:64-91 | module paths are computed once per code module and stay right |
| `ComponentImport.ExecutionContext.ImportFromCodeModule` | runtime/hetdesrun/component/load.py:132-228 | flag map, module registry and re-entrant execution follow `RunModule` step by step, with and without `raise_if_not_found` and with and without registering the module |
| `ComponentImport.UnregisteredExact` | runtime/hetdesrun/component/load.py:211-212 | importing without registering differs from importing in nothing but the registry entry of the module itself |
| `ComponentImport.ExecutionContext.ImportComp` | runtime/hetdesrun/component/load.py:99-129 | missing revisions and missing code modules fail, others are imported |
| `ComponentImport.UnknownFails` | runtime/hetdesrun/component/load.py:99-129 | an unknown revision is a failed import without any effect; a cycle is reported exactly if the module of a known one is flagged |
| `ComponentImport.RunModuleExact` | runtime/hetdesrun/component/load.py:151-228 | from any state an import succeeds exactly if everything reachable through unregistered modules is found, completes, and is neither flagged nor cyclic |
| `ComponentImport.ImportableTransfer` | runtime/hetdesrun/component/load.py:165-212 | registering further modules on the way does not change what can be imported |
| `ComponentImport.FreshImportExact` | runtime/hetdesrun/component/load.py:99-228 | from fresh flags an import succeeds exactly if nothing reachable is cyclic, missing or failing |
| `ComponentImport.RunModuleCloses` | runtime/hetdesrun/component/load.py:211-212 | if every module registered since some moment has its imports registered, this stays so on success and on failure |
| `ComponentImport.RunModuleLogs` | runtime/hetdesrun/component/load.py:142-144 | every module body completes at most once, and exactly the completed ones are registered |
| `ComponentImport.RunModuleReached` | runtime/hetdesrun/component/load.py:167-212 | only modules on an import chain from the imported one get registered |
| `ComponentImport.RunModuleRegisters` | runtime/hetdesrun/component/load.py:165-212 | exactly which modules are registered by an import, whether it succeeds or fails: those of the imports that complete one after the other before the first that does not, and their imports in turn |
| `ComponentImport.ImportsBeforeFailureStay` | runtime/hetdesrun/component/load.py:179-212 | the modules of the imports that completed before a failure stay registered |
| `ComponentImport.FailureLeavesFlag` | runtime/hetdesrun/component/load.py:165-226 | a failed import leaves its flag set, and asking again reports a cycle |
| `ComponentImport.FailureExact` | runtime/hetdesrun/component/load.py:151-228 | a cycle is reported exactly if the module asked for is flagged, every other failure as a failed import; the flags a failure leaves are those of the modules on one chain of imports that ends where the failure begins |
| `ComponentImport.RequestExact` | runtime/hetdesrun/component/load.py:155-172 | asking for a module with `raise_if_not_found` runs nothing: it is found exactly if it is registered and not flagged, a flagged one is reported as a cycle, and one that is not found is flagged from then on |
| `ComponentImport.StaleFlagsAreHopeless` | runtime/hetdesrun/component/load.py:165-226 | flags that stay set belong to modules that no fresh context could import either, even while given modules are blocked |
| `ComponentImport.SessionExact` | runtime/hetdesrun/component/load.py:99-228 | in a session of imports and requests with `raise_if_not_found` each import succeeds exactly if it would in a fresh context in which the modules not found before are blocked, and a request exactly if its module is registered and was not asked for in vain before |
| `ComponentImport.SessionRegisters` | runtime/hetdesrun/component/load.py:99-228 | what a whole session of imports and requests leaves registered |
| `ComponentImport.ImportsExact` | runtime/hetdesrun/component/load.py:99-228 | so in a sequence of ordinary imports in one context each succeeds exactly if it would in a fresh one |
| `ComponentImport.NotFoundBlocksLaterImport` | runtime/hetdesrun/component/load.py:170-172 | the exception: with `raise_if_not_found` an importable module is reported as a cycle afterwards |
| `BlobHierarchy.Accumulators.CreateStructure` | runtime/hetdesrun/adapters/blob_storage/models.py:707-765 | the traversal appends to the three lists exactly what `Create` describes, and fails exactly when that does |
| `BlobHierarchy.CreateAdapterStructure` | runtime/hetdesrun/adapters/blob_storage/models.py:779-802 | the whole creation succeeds exactly if the traversal does and siblings differ; then thing nodes, buckets and sinks are all distinct |
| `BlobHierarchy.IdsDistinctExactly` | runtime/hetdesrun/adapters/blob_storage/models.py:795-800 | generated ids are pairwise distinct if and only if in every sibling list names differ, lower-cased inside the bucket part |
| `BlobHierarchy.TokenDecoded` | runtime/hetdesrun/adapters/blob_storage/models.py:699-701 | the token after a parent id can be read back from any id below it |
| `BlobHierarchy.BucketsAndSinksPicked` | runtime/hetdesrun/adapters/blob_storage/models.py:742-765 | buckets and sinks are made from distinct thing nodes, so distinct node ids force distinct buckets and sinks |
| `BlobHierarchy.SameLengthIffDistinct` | runtime/hetdesrun/adapters/blob_storage/models.py:791-796 | comparing the length of a list with that of its set tests distinctness |
| `BlobHierarchy.CreatedIds` | runtime/hetdesrun/adapters/blob_storage/models.py:724-730 | a successful traversal emits one thing node id per tree node, in preorder |
| `HierarchyLayout.HierarchyLaid` | runtime/hetdesrun/adapters/blob_storage/models.py:687-765 | the emitted lists are the tree laid out in preorder: top-level thing nodes have no parent, every other one has the thing node of its tree parent, whose id, a separator and its own token make up its id; names and descriptions are those of the tree, buckets and sinks refer to the thing nodes of their tree nodes |
| `HierarchyLayout.EndsBucketExact` | runtime/hetdesrun/adapters/blob_storage/models.py:687-706 | the node that ends the bucket part of its path is the one the depth and the children say |
| `HierarchyLayout.LowerExact` | runtime/hetdesrun/adapters/blob_storage/models.py:699-701 | in the bucket part every capital letter becomes the small one and everything else stays |
| `HierarchyLayout.AcceptedExactly` | runtime/hetdesrun/adapters/blob_storage/models.py:707-765 | the traversal succeeds exactly if on every path from a root to a leaf the first node that is marked or above nothing but leaves is no leaf, the lower-cased names up to it make a bucket name, and no node behind it is marked |
| `BlobHierarchy.OnePerNode` | runtime/hetdesrun/adapters/blob_storage/models.py:730-765 | one thing node per tree node and one sink per leaf |
| `BlobHierarchy.CreateExactly` | runtime/hetdesrun/adapters/blob_storage/models.py:707-765 | the traversal succeeds exactly if no root-to-leaf path makes it fail |
| `BlobHierarchy.PathsEndInBuckets` | runtime/hetdesrun/adapters/blob_storage/models.py:72-94 | on every root-to-leaf path exactly one node is a bucket; splitting the sink's thing node id at its first slash gives back the path's bucket and the names below it |
| `BlobHierarchy.SinkSplits` | runtime/hetdesrun/adapters/blob_storage/models.py:655-664 | every sink splits into a created bucket and the key prefix of some path |
| `ObjectKeys.BuildExact` | runtime/hetdesrun/adapters/blob_storage/models.py:104-247 | a key passes validation exactly if its name is non-empty, of allowed characters and without underscore |
| `ObjectKeys.FromStringExact` | runtime/hetdesrun/adapters/blob_storage/models.py:249-271 | parsing succeeds exactly on the texts of keys with extension h5 or pkl, and gives back the key they were built from |
| `ObjectKeys.ParseInvertsBuild` | runtime/hetdesrun/adapters/blob_storage/models.py:231-271 | parsing the text of a key returns the key for h5 and pkl; keys with extension custom_objects_pkl are built but always rejected |
| `ObjectKeys.RebuildReturnsKey` | runtime/hetdesrun/adapters/blob_storage/models.py:273-308 | rebuilding from a source's thing node id and metadata key returns the same key, for every extension |
| `ObjectKeys.SourceExact` | runtime/hetdesrun/adapters/blob_storage/models.py:377-519 | a source can be made from a key exactly if the extension is not custom_objects_pkl and the name does not end in a slash |
| `ObjectKeys.FileOfSource` | runtime/hetdesrun/adapters/blob_storage/models.py:417-418 | the last part of a source id is the text of the key without the directories in its name |
| `ObjectSources.IdStringExact` | runtime/hetdesrun/adapters/blob_storage/models.py:54-64 | an id consists of letters, digits and `:+-/_`, or of some of these, any one character but a line break, and one of the three file extensions |
| `ObjectSources.ValidSourcesExactly` | runtime/hetdesrun/adapters/blob_storage/models.py:377-497 | a source is valid exactly if its id is that of a parseable key in a bucket whose name does not end in a slash, its thing node id, path, name and metadata key follow from the key, and only what stands behind the job id in the name is partly free |
| `ObjectSources.RebuiltOnly` | runtime/hetdesrun/adapters/blob_storage/models.py:273-308 | a key is rebuilt only from a thing node id that is a bucket and the key's name and ends with the name in the metadata key, whose other parts give time, job id and extension |
| `UpdateCode.UpdateExistingCode` | runtime/hetdesrun/component/code.py:312-356 | the four branches of the rewriting compute `Update` |
| `UpdateCode.ScanIsCoroutine` | runtime/hetdesrun/component/code.py:344-352 | the last line that starts a main function decides whether it is async |
| `UpdateCode.AsyncExactly` | runtime/hetdesrun/component/code.py:342-352 | in the text: async exactly if a line begins with `async def main(` and no later line with `def main(` |
| `UpdateCode.UpdateComposes` | runtime/hetdesrun/component/code.py:322-356 | every result is a complete module: text before, current header, text after |
| `UpdateCode.UpdateIdempotent` | runtime/hetdesrun/component/code.py:322-356 | updating twice is updating once, for every code string |
| `UpdateCode.UpdateKeepsSurroundings` | runtime/hetdesrun/component/code.py:340-356 | with both markers present the text before the first start marker and after the first end marker behind it, and the kind of main, are unchanged |
| `UpdateCode.LastUpdateWins` | runtime/hetdesrun/component/code.py:322-356 | an update leaves no trace of an earlier header |
| `ModuleVariables.GetGlobalFromCode` | runtime/hetdesrun/component/code_utils.py:95-120 | the first module-level single-target assignment to the name counts; one that is no literal is an error |
| `ModuleVariables.LookupExact` | runtime/hetdesrun/component/code_utils.py:95-120 | by index: the result is that of the assignment at the least index that assigns the name, an error if that is no literal, and not found exactly if there is none |
| `ModuleVariables.UpdateModuleLevelVariable` | runtime/hetdesrun/component/code_utils.py:241-261 | gathering, visiting and appending compute `Updated` |
| `ModuleVariables.GlobalAssignValueTransformer.VisitBody` | runtime/hetdesrun/component/code_utils.py:209-238 | state across the visit callbacks: the first gathered assignment is rewritten, later ones are removed, nested ones are visited and kept |
| `ModuleVariables.UpdateStores` | runtime/hetdesrun/component/code_utils.py:176-238 | the value goes to the place of the first assignment, or to the end; all other statements keep content and order, nested assignments included |
| `ModuleVariables.GetAfterUpdate` | runtime/hetdesrun/component/code_utils.py:95-261 | reading after an update gives the new value, and for other names what it gave before |
| `ModuleVariables.UpdateKeepsOthers` | runtime/hetdesrun/component/code_utils.py:176-238 | exactly one assignment to the name is left, and the other statements are the old ones in order |
| `ModuleVariables.UpdateIsLocal` | runtime/hetdesrun/component/code_utils.py:150-225 | statements before and after, in which the variable is not assigned, stay exactly as they are; only if it is assigned nowhere does a line come at the end |
| `ModuleVariables.UpdateTwice` | runtime/hetdesrun/component/code_utils.py:241-261 | a second update overrides the first without a trace in the tree |
| `StructureValidation.ValidateRootNodesParentIdsAreNone` | runtime/hetdesrun/structure/models.py:445-463 | accepts exactly if every parent id is an external id of a node |
| `StructureValidation.CheckForDuplicateKeyAndIdPairs` | runtime/hetdesrun/structure/models.py:465-482 | accepts exactly if no pair of stakeholder key and external id occurs twice |
| `StructureValidation.CheckStakeholderKeyConsistency` | runtime/hetdesrun/structure/models.py:505-565 | the stack search from every root; it terminates on cyclic input too |
| `StructureValidation.RootSearch` | runtime/hetdesrun/structure/models.py:505-565 | in a hierarchy without repeated external ids the search compares the root with exactly the nodes below it |
| `StructureValidation.KeysMatchExactly` | runtime/hetdesrun/structure/models.py:505-565 | every node below a root carries its stakeholder key exactly if the search accepts and no external id occurs twice in one hierarchy, provided that no pair of key and id repeats |
| `StructureValidation.VisitExact` | runtime/hetdesrun/structure/models.py:581-600 | the recursion accepts a node exactly if no chain of parents from it repeats an id or meets one being visited |
| `StructureValidation.ByIdLast` | runtime/hetdesrun/structure/models.py:576-576 | of several nodes with one id the chains go on at the last |
| `StructureValidation.CheckForCircularReference` | runtime/hetdesrun/structure/models.py:567-609 | accepts exactly if no parent chain repeats an id, for every list of nodes |
| `StructureValidation.AcceptedExactlyForests` | runtime/hetdesrun/structure/models.py:445-609 | a structure is accepted by all validators with no external id twice in a hierarchy exactly if it is a forest, in which every node reaches a root and carries its stakeholder key, without repeated pairs; ids may repeat across hierarchies |
| `StructureValidation.UniqueIdsForests` | runtime/hetdesrun/structure/models.py:445-609 | with unique external ids the validators together accept exactly the forests |
| `StructureValidation.RootPathUnique` | runtime/hetdesrun/structure/models.py:581-600 | in a forest a node has only one path up to a root |
| `StructureValidation.SharedExternalIdHidesWrongKey` | runtime/hetdesrun/structure/models.py:536-543 | an input that all validators accept although a node below a root carries another key |
| `WorkflowConstruction.WorkflowConstructor.Op` | runtime/hetdesrun/trafoutils/workflow_construction.py:231-240 | a new operator has the interface of the revision, fresh ids, new objects and unconnected inputs and outputs; everything built before stays, and all infos handed out stay known |
| `WorkflowConstruction.WorkflowConstructor.Link` | runtime/hetdesrun/trafoutils/workflow_construction.py:242-285 | refused exactly if the input is blocked, the output is a workflow output, or the link is invalid; otherwise links and flags change together and stay consistent |
| `WorkflowConstruction.WorkflowConstructor.Output` | runtime/hetdesrun/trafoutils/workflow_construction.py:287-353 | refused exactly if a link starts at the output or the name is invalid; otherwise content output with its place, io link and flag change together |
| `WorkflowConstruction.WorkflowConstructor.Input` | runtime/hetdesrun/trafoutils/workflow_construction.py:355-440 | refused exactly if the input is blocked or the name is invalid; the operator input is exposed |
| `WorkflowConstruction.WorkflowConstructor.SetConstant` | runtime/hetdesrun/trafoutils/workflow_construction.py:442-489 | refused exactly if the input is blocked; otherwise constant, io link and flag change together |
| `WorkflowConstruction.WithLinkConsistent` | runtime/hetdesrun/trafoutils/workflow_construction.py:242-285 | an accepted link keeps: blocked inputs have exactly one link end, other inputs none, no output is both link start and workflow output |
| `WorkflowConstruction.WithInputConsistent` | runtime/hetdesrun/trafoutils/workflow_construction.py:355-489 | so does a workflow input or a constant |
| `WorkflowConstruction.WithOutputConsistent` | runtime/hetdesrun/trafoutils/workflow_construction.py:287-353 | so does a workflow output |
| `WorkflowConstruction.ExtendsConsistent` | runtime/hetdesrun/trafoutils/workflow_construction.py:231-240 | so does a new operator |
| `WorkflowConstruction.IoLinksCorrespond` | runtime/hetdesrun/trafoutils/workflow_construction.py:314-487 | io links stand one to one, by id, for content inputs, content outputs and constants |
| `WorkflowConstruction.PositionIndex` | runtime/hetdesrun/trafoutils/workflow_construction.py:51-64 | the index of a name among the exposed inputs, or an error if it is not exposed |
| `WorkflowConstruction.ExposedPlaces` | runtime/hetdesrun/trafoutils/workflow_construction.py:51-64 | exposed inputs are counted in their order and no others are |
| `WorkflowConstruction.WorkflowConstructor.Finalize` | runtime/hetdesrun/trafoutils/workflow_construction.py:494-515 | every operator's inputs are ordered and every workflow input is placed beside its operator input; no lookup fails; it is an error exactly to have hidden the input again, so there is none if only the constructor changed operators |
| `WorkflowConstruction.RequiredAboveOptional` | runtime/hetdesrun/trafoutils/workflow_construction.py:494-515 | after finalization workflow inputs into required inputs are placed above those into optional ones |
| `ConstructionRuns.RunConsistent` | runtime/hetdesrun/trafoutils/workflow_construction.py:231-489 | after every sequence of calls, accepted or refused, blocked inputs have exactly one link end, other inputs none, and outputs the links their flags say |
| `ConstructionRuns.RunFlags` | runtime/hetdesrun/trafoutils/workflow_construction.py:242-489 | an input is blocked exactly if an earlier accepted call connected it; an output is a link start or a workflow output exactly if one made it so |
| `ConstructionRuns.AcceptedExactly` | runtime/hetdesrun/trafoutils/workflow_construction.py:242-489 | in a whole construction a call is refused exactly if what it asks for is invalid in itself or conflicts with an earlier accepted call |
| `ConstructionRuns.ConnectedOnce` | runtime/hetdesrun/trafoutils/workflow_construction.py:242-489 | no operator input is ever connected by two calls |
| `ConstructionRuns.StartOrDrawn` | runtime/hetdesrun/trafoutils/workflow_construction.py:248-294 | no output is ever both the start of a link and a workflow output |
| `ConstructionRuns.RunRecords` | runtime/hetdesrun/trafoutils/workflow_construction.py:242-489 | the recorded links and entries are those of the accepted calls, in order |
| `ConstructionRecords.ConstructionRecorded` | runtime/hetdesrun/trafoutils/workflow_construction.py:242-489 | read off the commands: after a construction there are exactly the links, content inputs, content outputs, constants and io links of the accepted calls, in order, each about the connector the call names; a workflow input is optional exactly if that was asked for and only then has the given default, in the content and in the io interface |
| `ConstructionRecords.CallAcceptedExactly` | runtime/hetdesrun/trafoutils/workflow_construction.py:231-489 | read off the commands alone: a call is accepted exactly if the operators and connectors it names are there, it is valid in itself, and no earlier accepted call connected the input or made of the output what excludes it |
| `ConstructionRecords.ConstructionOperators` | runtime/hetdesrun/trafoutils/workflow_construction.py:231-240 | there is one operator for each call for one, in order: with the inputs of its revision, all exposed, required ones first, and its outputs |
| `ConstructionRecords.ConstructionDrawn` | runtime/hetdesrun/trafoutils/workflow_construction.py:231-515 | the k-th operator stands at (700 k, 300 k) with automatic arrangement; every workflow input is drawn 270 left of the operator that its call names, 60 below its top and 30 lower for each exposed input above, every workflow output 450 right of it and as much lower for each output above |
| `ConstructionRuns.Construct` | runtime/hetdesrun/trafoutils/workflow_construction.py:222-515 | any list of calls, from an empty constructor to finalization: they are a run whose requests are about the connectors named in the calls, of operators that have the interfaces of their revisions; the answers and the final state are those of the run, and finalization never fails |
| `DictCache.StoreResult` | runtime/hetdesrun/utils.py:247-249 | the loop stores exactly the values that meet the condition |
| `DictCache.MissingInOrder` | runtime/hetdesrun/utils.py:238-240 | the keys that are not cached are asked for in their order and as often as they were requested |
| `DictCache.MergeIsAnswer` | runtime/hetdesrun/utils.py:238-251 | the fresh part merged with the cached part is the uncached answer |
| `DictCache.CachedFunction.Call` | runtime/hetdesrun/utils.py:235-251 | every call returns the uncached answer for its keys or raises because the underlying function does; only keys without a cached value are asked for, and a key whose value meets the condition is asked for in at most one completed underlying call in the life of the wrapper |
| `DictCache.InterleavingsAreTransparent` | runtime/hetdesrun/utils.py:212-227 | for every interleaving of async calls the cache holds only right values that meet the condition, never changes an entry, and every finished call has the uncached answer |
| `DictCache.AskedAgainExactly` | runtime/hetdesrun/utils.py:212-227 | in every interleaving a started call asks for a cacheable key exactly if no earlier call that asked for it has finished; all of these still wait or have raised |
| `DictCache.OverlappingCallsAskTwice` | runtime/hetdesrun/utils.py:212-227 | such an execution: two overlapping calls both ask |
| `Versioning.SafeComparePreorder` | runtime/hetdesrun/trafoutils/versioning.py:26-41 | comparing is a total preorder |
| `Versioning.SafeCompareExact` | runtime/hetdesrun/trafoutils/versioning.py:26-41 | one tag is less than another exactly by the clauses of section 11 of Semantic Versioning 2.0.0: by the first differing core number; a prerelease before its release; prereleases by the first differing identifier, numeric ones by value and before others, others by the first differing character, a proper prefix first; tags that do not parse come below all that do |
| `Versioning.SortLast` | runtime/hetdesrun/trafoutils/versioning.py:50-51 | the last element of a stable sort is the last among the greatest |
| `Versioning.SortSorts` | runtime/hetdesrun/trafoutils/versioning.py:50-50 | the sort is a sorted permutation |
| `Versioning.NewestIsGreatest` | runtime/hetdesrun/trafoutils/versioning.py:44-57 | of the dictionary of revisions by id one with a greatest version is selected, the last among ties; none is selected exactly if no tag parses |
| `Versioning.NothingPrecedesNewest` | runtime/hetdesrun/trafoutils/versioning.py:44-57 | the selected revision precedes no other in that sense; in particular no release is beaten by a prerelease of its core |
| `Versioning.NewestOfDistinct` | runtime/hetdesrun/trafoutils/versioning.py:44-57 | with one revision for each id the same holds of the list |
| `AdapterBatching.GroupByAdapter` | runtime/hetdesrun/wiring/__init__.py:41-45 | wirings that do not use their default are grouped by adapter, each in one group, in order; groups come in the order in which their adapters are first asked for |
| `AdapterBatching.AttachAttributes` | runtime/hetdesrun/wiring/__init__.py:65-71 | attributes of wirings are attached to the objects loaded for them, wiring by wiring, and no name is added or lost |
| `AdapterBatching.ResolveAndLoadData` | runtime/hetdesrun/wiring/__init__.py:34-76 | every adapter is called once with exactly its wirings, in the order in which adapters are first asked for, whatever it answers, and the answers are merged |
| `AdapterBatching.MergedLast` | runtime/hetdesrun/wiring/__init__.py:62-75 | a name gets what the last adapter to answer it says |
| `AdapterBatching.BatchingRefines` | runtime/hetdesrun/wiring/__init__.py:34-76 | if each adapter loads every source by itself, the merged result is what loading each wiring by itself gives, whatever the grouping |

## Left out

- Databases, HTTP, S3, Kafka, authentication, routers, logging, timing, error message texts: what they
  return is a parameter where it is needed.
- WorkflowUpgrade.UpgradeInputs: does not model that assigning the content validates the revision again
  (runtime/hetdesrun/persistence/models/transformation.py:485-521), which re-fits the io interface to the
  content, so that a new input is added before the code adds it; the contract is about the statements of
  the upgrade itself.
- WorkflowUpgrade.UpgradeOutputs: the same for outputs. A new output can end up twice in the io interface
  of the code, once in that of the model.
- WorkflowUpgrade.UpgradeWorkflowOperatorInPlace: the same; the validation also drops connectors of all
  operators that have no name or an empty one.
- WorkflowUpgrade.UpgradeOperatorsWithProvidedRevisions: the same; nor does it model workflows in which two
  operators are the same object.
- Validation of the upgraded workflow at the end of an upgrade, which can raise; its result is discarded.
- Connectors to drop, which the upgrade collects and never uses; operator names, which are only displayed.
- Finding newer revisions in the database before an upgrade.
- Import statements under conditions or in exception handlers, and reading a function from an imported
  module.
- WorkflowConstruction.WorkflowConstructor.Finalize: the final revision object, whose validators
  complete it, is not built.
- WorkflowConstruction.WorkflowConstructor.Input: does not model that the content stores default values as JSON
  texts, for an optional input without one the text `null`; the model stores no value there.
- The flags `replace_all` and `remove_repetitions` of the module variable transformer, which are never set.
- Headers of components: inputs, defaults, documentation strings and wiring dictionaries in code.
- Sources without a file extension in their name, and sinks beyond their thing node ids and names.
- References of sources and sinks, filters and element types of a structure.
- Choosing the newest revision by release date.
- An adapter that fails, that returns the same object for two inputs, or objects without attributes.
- Sending results to sinks adapter by adapter, and the status bookkeeping of imports.
