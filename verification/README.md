# Perl object layout, role composition, storage lifecycle and array buffer

This project models the core of Perl's `class` feature and of its arrays, and proves
what their code relies on:

* **Role composition and object layout** (`class.c`, `class.h`). Sealing flattens the
  role graph, gives every composed role one block of slots, numbers the own fields
  behind it, merges the method and field tables of all participants with sets of
  origins, judges what is missing or in conflict, and installs methods with a
  relocation of their field indices. At run time several walks recompute slot numbers.
* **Object storage lifecycle** (`class.c`, with the callers in `sv.c`). A marker, a scope
  guard and reference counts decide when the hidden storage of an object becomes usable,
  is torn down, freed, or handed to the code that frees the object; hooks, initialisers and
  field destructors may re-enter at any point.
* **The array buffer** (`av.c`, `av.h`). An allocation with a sliding window must behave
  like a sequence of optional values, conserve references and grow cheaply.
* **Kernels** (`builtin.c`, `diag_template_match.h`). Jump consistent hashing, decimal
  parsing, the in-place expansion of `indexed`, and packed wildcard matching.

Stashes, names and scalars are numbers. Code that updates records, buffers or counters in
place is written as methods with loops, on classes or arrays, proved against
specification functions; the laws are lemmas about those functions.

| file | contents |
|---|---|
| `RoleClosure.dfy`, `Flattening.dfy` | depth-first closure over any graph, and sequences of windows |
| `ObjectLayout.dfy`, `LayoutFacts.dfy`, `Sealing.dfy` | declarations, what sealing establishes, and sealing itself |
| `LayoutHistories.dfy`, `LayoutHazards.dfy`, `LayoutExamples.dfy` | runs of declarations, exactly which of them break a layout, and six that do |
| `InstanceLayout.dfy`, `Instances.dfy`, `FieldWalks.dfy`, `ObjectHash.dfy` | slots of an instance, shifts, the run-time walks, hash conversion |
| `OriginSets.dfy`, `SlotTables.dfy`, `SlotMerge.dfy`, `MergeAlgebra.dfy`, `AheadSlots.dfy` | slot tables, the laws of merging them, and what becomes of slots that are out of order |
| `Participants.dfy`, `Composition.dfy` | what the participants record, and what their composition says about a name |
| `Resolution.dfy`, `Verdicts.dfy`, `ClassComposition.dfy` | the verdict on a class, also when tables have grown by requirements that were passed on |
| `Propagation.dfy`, `RoleVerdicts.dfy` | passing requirements on, and the verdict over the whole graph of roles |
| `Installation.dfy`, `AdjustBlocks.dfy` | installed methods and ADJUST blocks |
| `StorageLifecycle.dfy`, `StorageSafety.dfy`, `StorageTheorems.dfy`, `StorageHooks.dfy`, `StorageReleases.dfy`, `Referents.dfy` | the state machine, its invariant, the theorems, what happens when nothing interferes, the fields updated in place |
| `ArrayOps.dfy`, `ArrayBuffer.dfy` | arrays as sequences, and the buffer |
| `JumpHash.dfy`, `DecimalParse.dfy`, `IndexedExpand.dfy`, `SelectorMatch.dfy` | the kernels |

## What the code does not keep

Nine properties that one would expect are false; each has its exact condition.

* Laying out a class assumes that the base of a role in the consumer is not below the base
  the role used itself, so that their unsigned difference is a relocation
  (`class.c:2552-2558`). The roles a declaration names need not be sealed, though: `:implements`
  asks only whether the stash is a role (`class.c:1558`), and that flag is set before the role's
  body is parsed. A comment says that role cycles are diagnosed when the attribute is applied
  (`class.c:1886-1888`); the code has no such check. Sealing gives a layout without wrap-around
  and with one slot for each field exactly when the roles that are named and still open have no
  fields (`LayoutHazards.SoundWhenSealed`); the inequality that a debugging build asserts fails in
  the same cases (`LayoutHazards.AssertedWhenSealed`). `LayoutExamples.SelfNaming` is
  `role R :implements(R) { field $x }` and a class that composes it;
  `LayoutExamples.OpenWhenNamed` is `role A; field $x; class B :implements(A) {}`.
* A sealed record is not final. A class declaration accepts a stash that is a role and starts
  its record afresh (`class.c:1260-1278`), while the run-time walks go on counting the fields of
  that record (`class.c:182-233`). The layout of an existing consumer survives exactly when the
  role has no fields (`LayoutHazards.SoundWhenTakenOver`, `LayoutExamples.TakenOver`). If the
  class is declared inside the role's own scope, the end of that scope seals the record once more
  and lists its roles twice (`LayoutExamples.TakenOverInside`). A field is accepted in any class
  or role, sealed or not (`class.c:116-122`, `3594-3620`), although subclasses and consumers may
  have been laid out (`LayoutExamples.LateInSuperclass`, `LayoutExamples.LateInRole`), and a
  sealed class accepts a superclass. These five are all the ways in which a program goes wrong:
  where every sealed record is in order, every open declaration names sealed roles only and no
  role's scope is open over a class, one more event keeps all layouts sound in every later state
  if and only if a field goes to a stash that is not sealed, an open declaration names a sealed
  role, a sealed class gets no superclass except a sealed one without slots, and a stash that is
  set up is no role in its own scope and nothing names it or is made of it
  (`LayoutHazards.SafeExactlyWhenDisciplined`). The theorems about the run-time walks are about
  tables in which the sealed records are in order, which programs of this kind always have
  (`LayoutHazards.DisciplinedProgramsAreSafe`, `Sealing.SymbolTable.SealClass`).
* A role that composes other roles appends the requirements it passes on behind its sorted
  method table and does not sort again (`class.c:2791-2830`;
  `Propagation.StaysSortedIff` says when the table is still sorted). Call a slot overtaken when a
  slot with a name that is not smaller stands in front of it. Merging any tables merges the
  sorted tables of the slots that are not overtaken (`AheadSlots.AheadOfMerge`), and a name is
  overtaken in a composition exactly when it is in some table (`AheadSlots.OvertakenCompose`). So
  a name is reported missing exactly when the class neither inherits nor wrote the method and
  either some table asks for it and none defines it, or the name is overtaken in some table, even
  if another one defines it (`Verdicts.MissingReported`); and the class is told of no method error
  exactly when, besides the usual conditions, every overtaken name is inherited or written by the
  class (`Verdicts.ClassResolves`). `Propagation.RequirementMisreported` is a class that is told
  a method is missing although one of its roles defines it.
* A role's table never gets the methods that the role composed (`class.c:2784-2790`), though they
  are installed in its symbol table. Over the whole graph of roles nothing that is missing is
  overlooked, but a name is reported although the class, or a role it is made of, has code for it
  exactly when the class neither inherits nor wrote it and either the name is overtaken in a table,
  or the class or a role that it names asks for it while only roles of those roles have written it
  (`RoleVerdicts.VerdictRightIff`, with `RoleVerdicts.TableAsks` for what a role asks for). If
  the roles of a class compose no roles themselves, all verdicts are right
  (`RoleVerdicts.FlatIsJudgedRight`). `RoleVerdicts.TransitiveMisreported` is
  `role Y { method foo {} } role Z :implements(Y) {} role X { method foo; }
  class C :implements(X, Z) {}`.
* What is recorded for a stash is a sorted table without duplicates, as merging and searching
  expect, exactly when no two accessors of it have the same name
  (`Composition.FinalizedIffDistinct`; `Composition.TwoReaders` is
  `field $x :reader; field @x :reader;`, which the original accepts).
* When the size of an array would wrap, `av_extend_guts` throws. That happens exactly for the
  keys of `ArrayOps.Overflows`, never up to half of the largest number of slots
  (`ArrayOps.OverflowBounds`). An array that was shifted, or that had no allocation yet, is then
  left with an `AvMAX` that its allocation does not have; any other array is unchanged
  (`ArrayBuffer.Av.Extend`). `ArrayBuffer.BreakShifted` and `ArrayBuffer.BreakEmpty` break an
  array of either kind.
* The storage guard says that nothing can attach fresh storage while field destructors run.
  `StorageTheorems.AttachesDuringRelease` shows that one thing can: finishing a restore into a
  payload whose blessing was removed meanwhile; `StorageTheorems.RestoreAttachesDuringRelease`
  is such a run. While TEARDOWN runs nothing can.
* The constructor tests for a storage before it reads its arguments (`class.c:786-807`), which can
  run code that constructs the same object. The object then gets a second storage that hides the
  first (`StorageTheorems.ConstructedTwice`). Only this and a restore into a payload without a
  blessing hide a storage, and never one that is being released (`StorageTheorems.HiddenStorage`).
* Converting an object to a hash and restoring it succeeds exactly when every array and hash
  field holds a container of its kind. Every slot then has its old value, except that a scalar
  field that was never initialised becomes undef (`ObjectHash.RoundTrip`).

## Model

| member | source | states |
|---|---|---|
| RoleClosure.ClosureIsReachableSet | class.c:1871-1897 | on any graph, cycles included, the search ends and emits each reachable role exactly once and nothing else |
| RoleClosure.ClosureOrderedIffAcyclic | class.c:1871-1897 | every role is emitted after all roles it composes exactly when no reachable role reaches itself |
| RoleClosure.CollectChain | class.c:537-552 | on a chain the search lists the elements from the far end, each following its only parent |
| RoleClosure.ClosureConcat | class.c:1871-1897 | naming more roles appends what they add, in the order in which they alone would be listed, and leaves out what is there |
| RoleClosure.NamedInOrder | class.c:1871-1897 | everything that the first roles named lead to stands in front of everything they do not lead to |
| RoleClosure.ClosureOfOne | class.c:1871-1897 | a role that is not on a cycle stands directly after what its own roles lead to |
| RoleClosure.BelowShrinks | class.c:2862-2878 | on an acyclic graph fewer nodes lie below a successor, so sealing on demand ends |
| ObjectLayout.SublistWidth | class.c:2552-2579 | a duplicate-free list of roles contained in another one needs no more slots |
| ObjectLayout.RoleBlockAt | class.c:2552-2579 | where in the role blocks the j-th own field of the k-th role lies |
| ObjectLayout.ClassSlotsDistinct | class.c:2552-2579 | no two slots that a class adds hold the same field: one block per role, diamonds included |
| ObjectLayout.NoWrapByWords | class.c:1917-1931 | comparing the words decides whether a relocation wraps, the sentinel of an unresolved index included |
| LayoutFacts.SealedOkFrame | class.c:2880-2930 | a sealed declaration stays right whatever happens to declarations it does not use |
| LayoutFacts.ClosureOrdered | class.c:1871-1897 | whatever roles are named, sealed or not, flattening gives what the roles' own lists already flatten to, in an order where a role follows its roles |
| LayoutFacts.NamedRolesInOrder | class.c:2552-2579 | the block of a role that the first names bring in ends before that of a role they do not bring in begins |
| LayoutFacts.RelocationNonNegative | class.c:2552-2558 | where the sealed records are in order the base in the consumer is never below the base the role used itself |
| LayoutFacts.RoleFieldSlot | class.c:2560-2579 | block base plus relative index is the slot that holds the role field |
| LayoutFacts.OwnFieldSlot | class.c:2914-2929 | the absolute index of an own field is the slot that holds it |
| LayoutFacts.LaidOutTiles | class.c:2880-2930 | whatever a declaration names, sealing gives it exactly the slots of its superclass, its roles and its own fields, and places the own fields last |
| LayoutFacts.SealingKeepsTableOk | class.c:2887-2930 | sealing a declaration whose roles are sealed keeps all sealed records right |
| LayoutFacts.BasesPlaced | class.c:2552-2559 | the bases recorded while allocating are the bases of the sealed layout |
| Sealing.SymbolTable.SetupStash | class.c:1260-1327 | which stashes a class and a role declaration accept, and the record that is started; a class may take over a role, whose record starts afresh |
| Sealing.SymbolTable.AddField | class.c:3594-3630 | a field takes the next relative index in any class or role; in a sealed one the counter is the size of its layout, and everywhere else the table stays right |
| Sealing.SymbolTable.ApplyImplements | class.c:1542-1605 | any role can be composed, sealed or not, the declaration itself included, and comes after those named before |
| Sealing.SymbolTable.ApplyIsa | class.c:1452-1540 | a parent that is a class becomes the superclass, one that is an ordinary package does not; roles neither inherit nor are inherited from |
| Sealing.SymbolTable.CollectRoleClosure | class.c:1871-1897 | the recursive loop computes the closure for any seen and emitted lists |
| Sealing.SymbolTable.OwnFieldCount | class.c:1903-1914 | counts the fields that own a slot |
| Sealing.SymbolTable.OwnFieldBase | class.c:1917-1931 | the difference of words that the first own field tells, which is the base of a sealed declaration and the sentinel of an open role |
| Sealing.SymbolTable.AllocateBlocks | class.c:2552-2579 | each role's base is the first free slot plus the widths of the roles in front of it, and whether the asserted inequality holds for all of them |
| Sealing.SymbolTable.ComposeLayout | class.c:2466-2580 | flattening and allocation together, for any pending roles |
| Sealing.SymbolTable.PlaceRoleFields | class.c:3264-3282 | a role's fields follow the role blocks at their relative index |
| Sealing.SymbolTable.PlaceClassFields | class.c:2914-2929 | a class's own fields are renumbered past inherited aliases and follow the role blocks |
| Sealing.SymbolTable.SealRole | class.c:3241-3282 | the one record that sealing changes, for any pending roles, the recorded bases, and when the table stays right |
| Sealing.SymbolTable.ResealRole | class.c:3241-3282 | the end of a role's scope on a record that a class took over and sealed: the roles are listed and the fields placed once more |
| Sealing.SymbolTable.LayOutClass | class.c:2880-2930 | the same for a class behind the slots of its superclass |
| Sealing.SymbolTable.ClassesAbove | class.c:537-552 | the classes above a stash, parents first |
| Sealing.SymbolTable.SealClass | class.c:2842-2930 | sealing a class seals its class ancestors first and only those, on any table, and keeps a table right whose declarations name sealed roles |
| LayoutHistories.StepKeepsShaped | class.c:1260-1605 | every event that the original carries out, disciplined or not, sealed or not, leaves a well-shaped table |
| LayoutHistories.RunKeepsClean | class.c:1260-2930 | a run in which every event is disciplined keeps every sealed record right |
| LayoutHazards.SoundWhenSealed | class.c:2552-2579 | sealing gives a layout without wrap-around and with one slot for each field exactly when the named open roles have no fields |
| LayoutHazards.AssertedWhenSealed | class.c:2552-2558 | the asserted inequality holds for every block exactly then |
| LayoutHazards.SoundWhenTakenOver | class.c:1260-1327 | when a class takes over a role, a consumer keeps a sound layout exactly when the role has no fields or is no part of it |
| LayoutHazards.LateFieldHarms | class.c:3594-3620 | a field for a sealed stash leaves that record unsound at once |
| LayoutHazards.LateParentHarms | class.c:1452-1540 | a superclass that has slots, or can still get some, for a sealed class leads to a wrong size |
| LayoutHazards.OpenNameHarms | class.c:1542-1605 | naming an open role, itself included, can be continued to an unsound layout |
| LayoutHazards.TakeOverHarms | class.c:1260-1327 | so can taking over a role that is named or in use |
| LayoutHazards.TakeOverInsideHarms | class.c:2586-2588 | and taking over a role inside its own scope, whose end composes the record again |
| LayoutHazards.SafeExactlyWhenDisciplined | class.c:1260-1605 | an event keeps all layouts sound in every later state exactly when it is disciplined: no field for a sealed stash, no open role for an open declaration, no superclass with slots for a sealed class, no take-over of a role in use or inside its scope |
| LayoutHazards.DisciplinedProgramsAreSafe | class.c:1260-2930 | programs of such events never have an unsound layout |
| LayoutExamples.SelfNaming | class.c:1542-1605 | the run in which a role names itself and takes two slots for one field, and a class gives it a base below its own |
| LayoutExamples.OpenWhenNamed | class.c:1917-1931 | the run in which a class is sealed over an open role, whose base is the sentinel |
| LayoutExamples.TakenOver | class.c:1260-1327 | the step in which a class takes over a role in use and a consumer gets a slot without field |
| LayoutExamples.LateInSuperclass | class.c:697-708 | the run in which a superclass gets a field after its subclass was laid out, whose size is then below its prefix |
| LayoutExamples.LateInRole | class.c:200-214 | the run in which a role gets a field after a class composed it, and the field is found at the slot of the class's own |
| LayoutExamples.TakenOverInside | class.c:2586-2588 | the run in which a class takes over a role inside its scope and lists a composed role twice |
| InstanceLayout.InstanceSlotsDistinct | class.c:685-716 | the windows of all classes in an instance hold every field once |
| InstanceLayout.ClassWindow | class.c:697-708 | the window of a class begins at its start and holds its own slots |
| InstanceLayout.SuperclassFits | class.c:702-705 | when a class is reached at least the prefix of its superclass is laid out, so the shift does not underflow |
| InstanceLayout.ClassesOfOrdered | class.c:537-552 | the collected classes have every superclass in front |
| Instances.ComputeShifts | class.c:697-708 | the shifts and the size; the first unsealed class stops it |
| Instances.NewLayout | class.c:685-710 | the layout of an instance, no class at all, or the first unsealed class |
| Instances.HoldsUnique | class.c:697-708 | a field lies in one slot of an instance |
| Instances.WalksAgreeOnRoleField | class.c:218-233 | local index, relocation and shift give the slot recomputed from the blocks, and it holds the field |
| Instances.OwnFieldInstanceSlot | class.c:1195-1213 | index plus shift is the slot of an own field |
| Instances.SingleInheritanceUnshifted | class.c:697-708 | along a chain of superclasses every shift is 0 |
| FieldWalks.RoleOffset | class.c:218-233 | the run-time offset of a role is the relocation written at composition |
| FieldWalks.BindFields | class.c:1195-1213 | entering a method binds each field to its slot, within bounds |
| FieldWalks.FieldName | class.c:182-215 | every slot has a name, that of the field the slot holds |
| ObjectHash.OwnerFields | class.c:890-952 | the enumeration of one owner visits its fields in layout order and knows the slot of each |
| ObjectHash.ValidateOwner | class.c:627-650 | accepts exactly when names are distinct and no parameter initialises two fields, and otherwise tells the first clash |
| ObjectHash.ValidateFields | class.c:653-682 | accepts exactly when names are distinct per owner and no parameter initialises two fields of the whole object, and otherwise tells the first clash of the walk |
| ObjectHash.NewStorage | class.c:685-716 | a fresh instance gets its layout exactly when all its classes are sealed and their fields do not clash, and otherwise the first error in the order of the checks |
| ObjectHash.ToHash | class.c:890-985 | with distinct names per owner there is one entry for each slot and no other: the value of a scalar or undef, a reference to the container of an array or hash field |
| ObjectHash.FromHash | class.c:988-1118 | by sigil: a scalar slot takes its entry or undef, an array or hash slot what its entry refers to; otherwise the first defect of the walk, which is a missing bucket, no reference, or a container of the wrong kind |
| ObjectHash.AllFieldsHeld | class.c:890-985 | the buckets hold every field under its owner and name, and nothing else |
| ObjectHash.RoundTrip | class.c:890-1118 | restoring what was converted succeeds exactly when every array and hash field holds its container, and gives every slot back; an empty scalar becomes undef |
| ObjectHash.CopyThroughHash | class.c:890-1134 | a fully initialised object comes back as a new one with equal slots |
| OriginSets.ComposeIsUnion | class.h:37-38 | combining two origin sets is the union of their members |
| OriginSets.StatusBySize | class.h:40-41 | required means no member, conflicted means more than one |
| OriginSets.SameMembers | class.h:32-38 | a set of origins is determined by its members |
| SlotTables.SortSlotsSorts | class.c:2010-2033 | the insertion sort sorts and permutes |
| SlotTables.SortSlotsStable | class.c:2010-2033 | slots of one name keep their order |
| SlotTables.SlotTable.Add | class.h:107-121 | a slot is appended, growing the table when it is full |
| SlotTables.SlotTable.Sort | class.c:2010-2033 | sorting in place is the insertion sort |
| SlotMerge.MergeSlots | class.c:2088-2160 | the merge with two cursors is the merge of the two tables, within the allocated bound |
| SlotMerge.MergeStrict | class.c:2088-2210 | merging sorted duplicate-free tables gives one |
| SlotMerge.MergeProviders | class.c:2088-2210 | the origins of a name are those of both tables |
| SlotMerge.MergeNames | class.c:2088-2210 | no name appears or disappears |
| SlotMerge.ComposeAllProviders | class.c:2239-2254 | folding over all participants unites the origins of a name |
| SlotMerge.ComposeAllStrict | class.c:2239-2254 | and keeps the table sorted and duplicate-free |
| MergeAlgebra.OutlineMerge | class.c:2088-2160 | what the slots carry has no influence on names and origins |
| MergeAlgebra.JoinCommutes | class.c:2088-2160 | names and origins of a merge do not depend on which table is left, sorted or not |
| MergeAlgebra.JoinAssociates | class.c:2088-2160 | nor on which two of three tables are merged first |
| MergeAlgebra.JoinIdempotent | class.c:2088-2160 | a table merged with itself is unchanged |
| MergeAlgebra.FoldOrderIrrelevant | class.c:2239-2254 | the order of participants does not change names, origins and places, whether their tables are sorted or not |
| AheadSlots.AheadOfMerge | class.c:2088-2160 | the slots of a merge that are not overtaken are the merge of those of both tables, for any tables |
| AheadSlots.AheadStrict | class.c:2088-2160 | they form a sorted table without duplicates |
| AheadSlots.BehindOfMerge | class.c:2088-2160 | a name is overtaken in a merge exactly when it is in one of the tables |
| AheadSlots.OvertakenCompose | class.c:2239-2254 | and in a fold exactly when it is in some table |
| AheadSlots.TwoSlotsIff | class.c:2088-2160 | a name that has a slot ahead has a second one exactly when it is overtaken |
| Participants.Finalize | class.c:1958-2036 | sorts both tables; accessors stay as they were, every other method of the stash gets one slot, with its code or, for a stub, as a requirement, and nothing else is recorded |
| Participants.SortedRecords | class.c:1958-2036 | what is recorded for each name, told from the accessors and the symbol table |
| Participants.WithEntriesDistinct | class.c:1966-2007 | collecting keeps names distinct |
| Composition.FinalizedIffDistinct | class.c:1958-2036 | the recorded table is sorted, without duplicates and with empty requirements exactly when the accessor names are distinct |
| Composition.TwoReaders | class.c:3788-3804 | two fields with readers of one name record it twice |
| Participants.AssignIds | class.c:2044-2080 | participant p carries bit p on what it defines, requirements carry none; more than 31 roles are refused |
| Composition.ProvidersAreDefiners | class.c:2044-2254 | the origins of a name are exactly the participants that define it |
| Composition.SlotOrigins | class.c:2044-2254 | a composed slot has as origins the participants that define its name, or none if it is overtaken, whatever requirements stand behind in the tables |
| Composition.RepresentativeIffDefined | class.c:2100-2150 | a composed slot carries code exactly when it is not overtaken and somebody defines the name |
| Composition.RepresentativeIffOrigin | class.c:2100-2150 | in any composition, sorted or not, a slot carries code exactly when it has an origin |
| Composition.MergeCarries | class.c:2115-2133 | the merged slot of a name keeps the code and the field of the left slot, and takes from the right one what the left one lacks |
| Composition.ComposeMethods | class.c:2215-2254 | the repeated pairwise merge is the fold |
| Resolution.ConsumerHasExplicit | class.c:2261-2278 | the binary search equals a scan for a method the consumer wrote |
| Resolution.PairsLength | class.c:2330-2360 | k named providers give k(k-1)/2 pair errors |
| Resolution.ConflictPairs | class.c:2330-2360 | k roles that define an unresolved name give k(k-1)/2 errors |
| Resolution.PairErrors | class.c:2350-2381 | the errors of a conflicted name are exactly the pairs of different participants named in it, each once, in the order of the first and then of the second |
| Resolution.Resolve | class.c:2314-2385 | the errors of both tables, in order |
| Verdicts.SlotsOfName | class.c:2044-2254 | the definers of a name fuse into exactly one slot with them as origins, a lost requirement has another slot without origin, and there are no others |
| Verdicts.ClassResolves | class.c:2314-2385 | no method error exactly when undefined names are inherited, names with two roles have an explicit method, and overtaken names are inherited or explicit |
| Verdicts.MissingReported | class.c:2314-2340 | exactly which names are reported missing |
| Resolution.FieldsResolve | class.c:2365-2385 | no field error exactly when no two participants declare one name, also if a participant declares it twice |
| ClassComposition.CheckClass | class.c:2527-2546 | assigning bits, folding and resolving, run one after the other, give that verdict and those missing names about the declared tables, any of which may have grown |
| Resolution.PropagateRequired | class.c:2791-2830 | a role records the open requirements of its composition behind its own slots |
| Propagation.StaysSortedIff | class.c:2791-2830 | whatever was composed, exactly when the table is still sorted afterwards |
| Propagation.PassingOnGrows | class.c:2791-2830 | whatever a role composed, only requirements are overtaken in its table, and exactly which: those for a name below its last stored one and those overtaken among the appended |
| Propagation.RequirementMisreported | class.c:2791-2830 | a class is told that a method is missing although a role defines it |
| RoleVerdicts.PassedOnExactly | class.c:2784-2830 | a role asks for a name exactly when it requires it itself, or does not mention it and its composition leaves it open |
| RoleVerdicts.RecordedDecl | class.c:1958-2036 | what is recorded for a stash provides exactly the methods with a body in its symbol table, asks for exactly the stubs, and is sorted without duplicates |
| RoleVerdicts.TableAsks | class.c:2784-2830 | over any graph of roles, the table of a role asks exactly for what follows from the declarations: its own requirements, and what a role it names asks for and none of these has written, or what is lost |
| RoleVerdicts.BodiesAreInstalled | class.c:2597-2717 | a stash can call a method exactly when it, or a role it is made of, wrote one, wherever in the graph |
| RoleVerdicts.VerdictRightIff | class.c:2314-2340 | over any graph of roles no missing method is overlooked, and the exact condition on the declarations under which one is reported that is there |
| RoleVerdicts.FlatIsJudgedRight | class.c:2314-2340 | if the roles compose no roles, a name is reported exactly when it is required, nobody has code for it and it is not inherited |
| RoleVerdicts.TransitiveMisreported | class.c:2784-2790 | a class is told that a method is missing although a role of its role has it installed |
| Installation.Consumer.InstallRole | class.c:2605-2716 | walking a role's symbols in any order decides every name once |
| Installation.Consumer.InstallRoles | class.c:2597-2717 | all direct roles, name by name; the first conflict stops it |
| Installation.SingleProvider | class.c:2632-2717 | a name ends with the consumer's method or the one provider of all bodies that count; different providers conflict, diamonds do not; an entry that is no method with a body, an alias included, keeps its place before bodies of its own stash |
| Installation.AllBodiesCount | class.c:2632-2717 | all bodies count when nothing from a stash that provides one holds the place without a body |
| Installation.NewIsLeftAlone | class.c:2608-2609 | the generated constructor of a role is never installed |
| Installation.StubsPassOn | class.c:2619-2643 | without a body anywhere a class is left as it is, and a role without an entry takes over the first requirement |
| Installation.ConflictNames | class.c:2645-2681 | a conflict names the provider of what is there and the different one of the first body that collides with it |
| Installation.KeptOrFromRole | class.c:2605-2717 | an entry ends as it was, or as one of the roles has it, relocated for its provider |
| Installation.RoleFieldBase | class.c:1935-1943 | finds the base of a role, or panics when it has none |
| Installation.Relocations | class.c:2688-2693 | every composed role is relocated by the difference of its bases |
| Installation.InstalledForMethodStart | class.c:2605-2717 | whatever entry the consumer had and however many roles are installed, a method that came from a role carries exactly the relocation that method start expects |
| AdjustBlocks.ComposeRole | class.c:2720-2779 | exactly the blocks whose root is not there yet are appended, in their order, each relocated for its provider |
| AdjustBlocks.ComposeAdjust | class.c:2597-2782 | the first occurrence of each ADJUST block runs once, role after role and in the order of each role, relocated for its provider |
| AdjustBlocks.AdjustForMethodStart | class.c:2742-2766 | a block that composition adds carries exactly the relocation that method start expects |
| StorageSafety.RunKeepsInv | class.c:466-522 | every run of any events keeps the lifecycle invariant |
| StorageTheorems.StorageFate | class.c:485-522 | in every run counts equal owners, and freeing, handing over and tearing down happen at most once |
| StorageTheorems.FreedReferentFate | class.c:758-770 | when the referent is gone each storage was freed or handed over, exactly once |
| StorageTheorems.NeverLeftBusy | class.c:485-522 | when nothing runs the marker is READY or FAILED |
| StorageTheorems.ReadyMeansComplete | class.c:772-865 | for READY storage exactly the calls were made that its classes ask for, each initialiser and every ADJUST block in class order, and it was not torn down |
| StorageTheorems.BecomesReady | class.c:859-862 | READY comes from a constructor with unchanged storage and blessing that was still initialising, or from a restore |
| StorageHooks.HookSeesStorage | class.c:730-747 | TEARDOWN runs with the storage it is about visible and blessed, and never inside another TEARDOWN |
| StorageHooks.HookKeepsBlessing | class.c:719-747 | nothing that runs under TEARDOWN changes the blessing |
| StorageTheorems.AttachesDuringRelease | class.c:485-522 | exactly what can attach storage during a release |
| StorageTheorems.RestoreAttachesDuringRelease | class.c:1069-1134 | the run in which a restore does |
| StorageTheorems.ConstructedTwice | class.c:786-816 | the run in which a constructor's arguments construct the object, which then has two storages |
| StorageTheorems.HiddenStorage | class.c:786-816 | exactly what can hide a storage behind a second one, and in which state the first one is |
| StorageTheorems.FailedInitialisation | class.c:499-515 | a failed construction by class name keeps partial storage, one on an existing object loses it |
| StorageTheorems.InitialisersFirst | class.c:818-849 | in every run the calls made for a storage are the first ones of that list: the initialisers of its classes, then all ADJUST blocks, each at its place |
| StorageTheorems.PlanCalls | class.c:818-849 | the calls of a constructor are one initialiser for each class and then block j of class i behind the blocks of the classes before, and no others |
| StorageTheorems.CallsDetermined | class.c:818-849 | there is only one such list |
| StorageTheorems.ConstructorStarts | class.c:786-816 | a constructor starts with this list to call and a new storage for which nothing was called |
| StorageReleases.Construction | class.c:786-864 | a constructor that nothing disturbs ends with a usable object, blessed as asked, for which exactly these calls were made |
| StorageReleases.Destruction | sv.c:7900-7930 | an object whose last reference goes, with or without TEARDOWN, is torn down once and its storage handed over unfreed, nothing else of it is torn down or handed over |
| StorageReleases.Resurrection | class.c:485-522 | an object that TEARDOWN keeps alive goes on without its storage, which was torn down once and freed, not handed over |
| StorageReleases.Reblessing | class.c:719-754 | a change of blessing tears the storage down once and frees it, and leaves an object of the new blessing without storage |
| StorageReleases.Restoration | class.c:1069-1134 | a restore that nothing disturbs leaves a usable object with one new storage, of the class asked for or the one the payload has |
| Referents.Referent.StorageGuard | class.c:485-510 | the guard, up to the field destructors, is the step of the model |
| Referents.Referent.AfterDestructors | class.c:511-522 | and so is the rest |
| Referents.Referent.ClassRelease | class.c:719-754 | releasing: nothing, an error during TEARDOWN, or a guarded release |
| Referents.Referent.ClassTakeStorage | class.c:758-770 | only retired storage is handed over |
| Referents.Referent.FinishClearing | sv.c:7915-7925 | when nothing refers to the referent a retired storage is handed over, all magic goes and the referent is dead |
| Referents.Referent.BeginConstruct | class.c:809-816 | the constructor attaches new storage under a guard with the list of calls for its classes ahead, and blesses only an object made from a class name |
| Referents.Referent.FinishConstructor | class.c:859-864 | and ends READY or with the blessing error |
| Referents.Referent.FinishRestoring | class.c:1123-1133 | a restore attaches only when no storage is visible |
| ArrayOps.NewMaxCovers | av.c:153-176 | the new maximum reaches the key, stays in range, and adds a fifth of the capacity |
| ArrayOps.NewMaxExact | av.c:153-176 | the exact growth: a fifth of the old maximum, eight slots at least for a small array, or the largest index |
| ArrayOps.OverflowBounds | av.c:153-201 | no key up to half of the largest number of slots overflows, every key beyond that number does |
| ArrayOps.StoredOwns | av.c:349-403 | storing exchanges one owned value for another |
| ArrayOps.DeletedOwns | av.c:1081-1141 | deleting gives up one owned value and trims holes only |
| ArrayOps.ApplyMeans | av.c:349-1141 | what each operation makes of the contents, slot by slot, negative indices and holes included |
| ArrayOps.ApplyAllMeans | av.c:349-1141 | a sequence of operations goes through contents each of which the next operation changes as it should |
| ArrayOps.PushStaysCheap | av.c:153-201 | one push keeps the copies within six per push |
| ArrayBuffer.Av.Extend | av.c:94-238 | room for the key with contents, window and NULL slots kept; for exactly which keys the size overflows, and which arrays the overflow leaves broken |
| ArrayBuffer.Av.Reify | av.c:23-48 | the array owns its elements afterwards, slots outside the window are NULL |
| ArrayBuffer.Av.Store | av.c:349-403 | storing at any index, with the caller's reference taken over; exactly when it overflows |
| ArrayBuffer.Av.Fetch | av.c:283-324 | an element, a new scalar for an lvalue fetch, or nothing |
| ArrayBuffer.Av.Push | av.c:799-815 | appends; exactly when it overflows |
| ArrayBuffer.Av.Pop | av.c:829-851 | removes at the end; holes give undef |
| ArrayBuffer.Av.Shift | av.c:953-981 | removes in front by sliding the window |
| ArrayBuffer.Av.Unshift | av.c:887-938 | adds elements in front, from slack first, and leaves slack; exactly when it overflows, for every count whose sum fits the signed type |
| ArrayBuffer.Av.Fill | av.c:1029-1065 | cuts or pads to the new highest index; exactly when it overflows |
| ArrayBuffer.Av.Delete | av.c:1081-1141 | deleting the last element leaves the elements below it up to the last one that is no hole, deleting any other leaves a hole and nothing else changes; the value released or handed over |
| ArrayBuffer.Av.Exists | av.c:1157-1210 | whether the slot of an index is filled |
| ArrayBuffer.Av.Clear | av.c:644-700 | empties the array and takes the window back |
| ArrayBuffer.Av.Undef | av.c:717-755 | empties it and gives up the allocation |
| ArrayBuffer.Av.Make | av.c:474-515 | an array of new scalars, copies of the arguments in order, whose own counts stay as they were |
| ArrayBuffer.Av.PerformAll | av.c:94-1141 | any sequence of operations refines the same operations on sequences of optional values (ArrayOps.ApplyAllMeans says slot by slot which these are) and conserves references, and succeeds when no operation reaches beyond half of the largest number of slots |
| ArrayBuffer.Av.PushAll | av.c:153-201 | n pushes onto an empty array copy at most 6n elements, and all succeed up to half of the largest number of slots |
| ArrayBuffer.BreakShifted | av.c:111-130 | a request that breaks an array that was shifted |
| ArrayBuffer.BreakEmpty | av.c:209-219 | a request that breaks an array without allocation |
| JumpHash.Hash | builtin.c:252-265 | the loop ends in 0..buckets-1 and equals the bucket function |
| JumpHash.BucketIsLastStop | builtin.c:252-265 | the bucket is the last existing one of the stops that the generator and the quotient, with their constants, lead to from 0 |
| JumpHash.JumpsForward | builtin.c:260-262 | under any monotone rounding that is exact on integers a jump goes forward and fits 64 bits |
| JumpHash.Consistent | builtin.c:252-265 | with more buckets a key stays or moves to a new one |
| DecimalParse.Parse | builtin.c:215-250 | accepts exactly the non-empty digit strings up to the limit, returns their value, and never exceeds the limit on the way |
| IndexedExpand.Expand | builtin.c:752-763 | the in-place loop yields the pairs of the original items |
| IndexedExpand.PairsAt | builtin.c:758-763 | slot 2i is i and slot 2i+1 is item i |
| SelectorMatch.PackedField | pp_ctl.c:872-915 | packing ids into disjoint fields keeps each of them |
| SelectorMatch.PatternMatches | diag_template_match.h:40-62 | the loop decides matching of the packed words |
| SelectorMatch.PackedMatch | diag_template_match.h:40-62 | matching packed words is matching selector by selector, with 0 as the wildcard |
| SelectorMatch.CaseFind | diag_template_match.h:65-86 | the first match in the diagnostic's run, or none in all of it |
| SelectorMatch.ValueId | diag_template_match.h:7-26 | the id of a value: wildcard, position, or unknown |
| SelectorMatch.NameThenId | diag_template_match.h:7-37 | the name of an id leads back to the id |
| SelectorMatch.IdThenName | diag_template_match.h:7-37 | the id of a value leads back to the value |

## Left out

- Op trees, attribute parsing, suspended compilation units, CV cloning, reader and writer accessors: a method is its provider, a body number, a method flag and a field offset.
- The errors of `:isa`, `:implements`, composition and field validation are not raised from inside sealing: the verdicts are proved beside it, and the layout methods model the path on which sealing goes on.
- The initialiser and ADJUST code of a role that is composed while open, which the original skips, is not part of the layout.
- Sealing.SymbolTable.SealClass: asks for an `@ISA` graph without cycles below the class; a cycle is refused elsewhere in Perl, by the method resolution code.
- FieldWalks.BindFields: a method that binds an `:inherited` alias, which the original binds through the storage owner, is not covered; the resolution of aliases is left out, and an alias owns no slot, as in the original.
- ObjectHash.NewStorage: the error about an alias whose storage owner is not among the classes is left out with the aliases; a name clash is told with the owner, once for both fields.
- Instances.WalksAgreeOnRoleField: for tables whose sealed records are in order, like the other theorems about the run-time walks.
- ClassComposition.CheckClass: like the lemmas of `Verdicts`, for participants without two accessors of one name; where a table has both, a requirement that is overtaken can meet the second accessor. Composition.FinalizedIffDistinct says exactly when that is.
- RoleVerdicts.VerdictRightIff: roles are sealed before they are named, as in LayoutHazards.SafeExactlyWhenDisciplined, and no composition below the class conflicts.
- The check of field names over all roles below a class, which the original runs beside the one over the direct participants, is left out: it would repeat Resolution.FieldsResolve on a flat list.
- Module loading, version checks, name-space lookup and thread cloning.
- All stashes live in one table that maps a stash to its record, instead of one heap object each; a record is replaced as a whole.
- ObjectHash.OwnerFields: the two conversions and the validation repeat one enumeration in the original; the model has it once.
- Resolution.Resolve: the names with a body up the superclass chain are an argument.
- Installation.SingleProvider: for the installed code of several providers the composed origins are not consulted, as in the original.
- AdjustBlocks.ComposeRole: the same holds for a block that binds no field; a block that a role takes over without cloning is a block with the same offset.
- Installation.Relocations: computed for all composed roles at once; a method that binds no field keeps the relocation of its provider, where the original writes 0 and never reads it.
- StorageSafety.RunKeepsInv: one referent; DESTROY is not a step of its own (it runs before the release and can only do what other steps do), and an exception pops one frame at a time and need not be followed by the others. A TEARDOWN hook that writes to its own argument list is not modelled. A pending change of blessing holds no reference to the referent, as in the original.
- Field destructors and element destructors of arrays: they may re-enter the object (modelled by further steps), but not the array operation that is running.
- ArrayBuffer.Av.PerformAll: for arrays that own their elements; it stops at the first size overflow.
- ArrayBuffer.Av.Clear: each element is released and then replaced by NULL; the original does it in the other order so that a destructor finds the slot empty.
- Tied, magical and read-only arrays, the argument stack as an array, allocation sizes reported by the allocator, and running out of memory.
- JumpHash.Hash: doubles are reals with a rounding function, any monotone one that is exact on the integers a double holds.
- SelectorMatch.PackedMatch: 64-bit words are sequences of 64 bits, so shifts and masks are slices of them; the fields of a template do not overlap, which the generator of the tables ensures.
- SipHash, random bytes, plural forms, text classification, diagnostics as text, the optree, debugging output and platform headers.
