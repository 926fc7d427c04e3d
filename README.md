# tidyclass: the class-member reorderer

tidyclass is a command-line tool that reorders the members of every
TypeScript class in a set of files. Its core, `src/sortClasses.ts`, sorts
each class into nine groups, joined in this fixed order:

1. public static properties;
2. private static properties;
3. public static methods;
4. private static methods;
5. public instance properties;
6. private instance properties;
7. constructors;
8. public instance methods;
9. private instance methods.

Within each group except the constructors, members are sorted by name.
A class is rewritten in place only when the names of its members, read in
order, differ from those of the reordered list. A file is reported only
when at least one of its classes was rewritten. A method with overload
signatures aborts the whole run.

This project models that core in Dafny. It has one module per concern:

- **Outcomes**: the two errors and the `Result`/`Option` wrappers. The
  errors are the overload error and a file missing from the file set.
- **Members**: a class member. It carries its kind, name, static flag,
  private flag and overload count. The module assigns each member one of
  the nine buckets, defines the name projection `getNameCustom`, and
  states facts about bucket filters.
- **Collation**: the per-bucket sort. `Array.prototype.sort` over
  `localeCompare` is modelled as a stable insertion sort under an
  arbitrary comparator. Proofs assume only that the comparator is
  consistent.
- **ClassSort**: the body of the class loop. The classification loop is a
  method that fills the nine arrays. `SortClassMembers` sorts and joins
  them. The specification functions `SortedMembers` and `ClassChanged`
  describe that result.
- **ClassProps**: what the reordering guarantees. It permutes the members,
  orders them by bucket and by name within a bucket, and keeps equal names
  and constructors in their input order. It is idempotent, its fixed
  points are exactly the canonical classes, and the change detector can
  miss a reorder.
- **FileSort**: `sortClasses(filePath)`. Its syntax tree is a class whose
  methods edit it in place: remove members, add members, rewrite one
  class, and run the class loop with its `modified` flag.
- **FileProps**: file-level guarantees. A second run over a rewritten file
  yields null, and a canonical file yields null.
- **Batch** and **BatchProps**: `sortClassesInFiles(filePaths)`. They cover
  the batch loop, the first error aborting it, and which paths are
  reported with which contents.
- **Scenarios**: the inputs of the repository's tests, with what the model
  says about them.

The change detector (lines 122-126) compares only the `getNameCustom`
names of the members, with every constructor named `"Constructor"`. It
therefore misses any reorder that leaves the list of names the same.
`ClassProps.EqualNamesHideReorder` proves this for any two members of
different buckets that share a name and are declared against bucket
order; an instance method `x` followed by a static property `x` is one
such class. `ClassProps.NameCollisionHidesReorder` is the constructor
case: a constructor followed by a property named `Constructor` is out of
canonical order, yet the class is not rewritten.

## Model

| member | source | states |
|---|---|---|
| Members.NameCustom | src/sortClasses.ts:165-170 | defined by its body: a constructor is named "Constructor", every other member by its own name; `Members.Names` and the change-detector lemmas use it |
| Members.Bucket | src/sortClasses.ts:53-88 | the bucket is 0 exactly for members no branch pushes (accessors and the like), 7 exactly for constructors, and never above 9 |
| Members.BucketIsLayoutPosition | src/sortClasses.ts:43-88 | a property, method or constructor is in exactly one bucket: the position in the joining order of lines 109-119 whose slot matches its kind, static flag and private flag |
| Members.Names | src/sortClasses.ts:122-126 | the projection has one entry per member, and entry i is `getNameCustom` of member i |
| Collation.SortByName | src/sortClasses.ts:92-106 | defined by its body (insertion sort by name); properties in `Collation.SortByNamePermutes`, `Collation.SortByNameSorted`, `Collation.SortByNameStable`, `Collation.SortByNameOfSorted` |
| Collation.InsertPermutes | src/sortClasses.ts:92-106 | inserting adds exactly the inserted member to the multiset |
| Collation.SortByNamePermutes | src/sortClasses.ts:92-106 | the sort of a bucket is a permutation of it |
| Collation.InsertSorted | src/sortClasses.ts:92-106 | inserting into a name-sorted sequence keeps it name-sorted, for a consistent comparator |
| Collation.SortByNameSorted | src/sortClasses.ts:92-106 | the sort's output never has a name compare after a later one, for a consistent comparator |
| Collation.SortByNameOfSorted | src/sortClasses.ts:92-106 | a name-sorted input comes out unchanged, for any comparator |
| Collation.InsertStable | src/sortClasses.ts:92-106 | inserting keeps the order among equal-comparing members and puts the new one after them |
| Collation.SortByNameStable | src/sortClasses.ts:92-106 | for every key, the members that compare equal to it keep their input order (stability of `Array.prototype.sort`) |
| ClassSort.ClassifyMembers | src/sortClasses.ts:43-89 | fails exactly when some method has overloads, with the overload error; otherwise each of the nine arrays holds exactly that bucket's members in input order |
| ClassSort.SortClassMembers | src/sortClasses.ts:43-119 | fails exactly when some method has overloads, with the overload error; otherwise returns `SortedMembers` of the class |
| ClassSort.SortedMembers | src/sortClasses.ts:109-119 | defined by its body (the sorted buckets joined in bucket order); properties in `ClassProps.SortedMembersPermutes`, `ClassProps.BucketPrecedence`, `ClassProps.NamesOrderedWithinBuckets`, `ClassProps.FixedPointIffCanonical` |
| ClassSort.ClassChanged | src/sortClasses.ts:122-126 | defined by its body (the two name lists differ); properties in `ClassProps.CanonicalNotRewritten`, `ClassProps.RerunNotRewritten`, `ClassProps.OtherForcesRewrite`, `ClassProps.EqualNamesHideReorder` |
| ClassSort.JoinIsSortedMembers | src/sortClasses.ts:109-119 | the spread of the nine sorted arrays, in source order, equals `SortedMembers` |
| ClassProps.SortedBucketPermutes | src/sortClasses.ts:92-106 | each sorted bucket is a permutation of that bucket of the class, and holds only members of that bucket |
| ClassProps.SortedMembersPermutes | src/sortClasses.ts:53-119 | `sortedMembers` is a permutation of the members with a bucket; a member is in it exactly when it is in the class and is not an accessor or other unhandled kind; with none of those it is a permutation of the whole class |
| ClassProps.BucketPrecedence | src/sortClasses.ts:109-119 | in `sortedMembers`, every member of a lower bucket has a lower index than every member of a higher one |
| ClassProps.NamesOrderedWithinBuckets | src/sortClasses.ts:92-106 | in `sortedMembers`, two members of one bucket other than the constructors' are in name order |
| ClassProps.BucketOfSortedMembers | src/sortClasses.ts:92-119 | the members of bucket b in `sortedMembers` are exactly bucket b after its sort |
| ClassProps.EqualNamesKeepOrder | src/sortClasses.ts:92-106 | within a sorted bucket, members with equal-comparing names keep their input order |
| ClassProps.ConstructorsKeepOrder | src/sortClasses.ts:49-119 | the constructors of `sortedMembers` are those of the class, in input order (that array is never sorted) |
| ClassProps.SortedMembersIdempotent | src/sortClasses.ts:53-119 | reordering a reordered class changes nothing |
| ClassProps.CanonicalIsFixedPoint | src/sortClasses.ts:53-119 | a class already in canonical order is its own reordering |
| ClassProps.SortedMembersCanonical | src/sortClasses.ts:53-119 | every reordering is in canonical order: no unhandled kinds, bucket order, name order within buckets |
| ClassProps.FixedPointIffCanonical | src/sortClasses.ts:53-119 | the reordering leaves a class unchanged if and only if it is canonical |
| ClassProps.MemberPrecedes | src/sortClasses.ts:109-119 | two members of different buckets come out in bucket order, whatever their order in the class |
| ClassProps.LowestBucketFirst | src/sortClasses.ts:109-119 | a member alone in the lowest occupied bucket is the first member of `sortedMembers` |
| ClassProps.OneBucketSortsByName | src/sortClasses.ts:92-119 | a class whose members all share one bucket other than the constructors' comes out sorted by name alone |
| ClassProps.CanonicalNotRewritten | src/sortClasses.ts:122-126 | a canonical class does not trigger the rewrite |
| ClassProps.RerunNotRewritten | src/sortClasses.ts:122-126 | the reordering of any class does not trigger the rewrite again |
| ClassProps.OtherForcesRewrite | src/sortClasses.ts:53-126 | a class with an accessor or other unhandled member is always rewritten, and that member is gone from the result |
| ClassProps.NameCollisionHidesReorder | src/sortClasses.ts:122-126 | a class of a constructor followed by a property named `Constructor` is not canonical and its reordering swaps the two, yet the change detector does not fire |
| ClassProps.EqualNamesHideReorder | src/sortClasses.ts:122-126 | two members of different buckets with equal `getNameCustom` names, declared against bucket order, form a class that is not canonical and whose reordering swaps them, yet the change detector does not fire |
| FileSort.SourceTree.constructor | src/sortClasses.ts:35-36 | the opened tree holds the classes of the file |
| FileSort.SourceTree.RemoveMembers | src/sortClasses.ts:138-140 | class i is left with no members; every other class is unchanged |
| FileSort.SourceTree.AddMember | src/sortClasses.ts:143-150 | the member is appended to class i; every other class is unchanged |
| FileSort.SourceTree.Rewrite | src/sortClasses.ts:132-154 | class i now holds exactly the given members, in order; its name and every other class are unchanged |
| FileSort.SourceTree.SortClass | src/sortClasses.ts:42-155 | fails exactly when class i has overloads, leaving the tree untouched; otherwise it reports whether the class changed and leaves the tree with class i rewritten as `RewriteClass` says |
| FileSort.SourceTree.SortNext | src/sortClasses.ts:42-155 | one turn of the class loop extends the rewritten prefix, the no-overloads prefix and the `modified` flag by one class, or fails with the overload error |
| FileSort.SourceTree.SortAll | src/sortClasses.ts:38-156 | fails exactly when some class has overloads, with the overload error; otherwise `modified` is true exactly when some class changed, and every class is rewritten as `RewriteAll` says |
| FileSort.RewriteAll | src/sortClasses.ts:42-156 | the rewritten file has as many classes as the original |
| FileSort.RewriteClass | src/sortClasses.ts:122-155 | defined by its body (a changed class gets its sorted members, any other class is kept); properties in `FileProps.RewrittenClasses`, `FileProps.RewriteClassSettles` |
| FileSort.FileOutcome | src/sortClasses.ts:38-162 | defined by its body (overload error, rewritten contents, or null); properties in `FileProps.FileRerunIsNull`, `FileProps.CanonicalFileIsNull`, `FileProps.OneClassFile`, and `FileSort.SourceTree.SortAll` computes it |
| FileSort.LoadAndSort | src/sortClasses.ts:34-163 | defined by its body (file-not-found for a missing path, otherwise `FileOutcome`); `FileSort.SortClasses` computes it |
| FileSort.SortClasses | src/sortClasses.ts:34-163 | a missing path gives the file-not-found error; otherwise the overload error if any class has one, the rewritten file if some class changed, and null otherwise |
| FileSort.ChangedBeforeAll | src/sortClasses.ts:38-130 | the loop's `modified` flag after i classes is true exactly when one of them changed |
| FileSort.OverloadsBeforeAll | src/sortClasses.ts:71-74 | no error after i classes means none of them has overloads |
| FileSort.RewriteStep | src/sortClasses.ts:42-155 | rewriting class i of a file whose first i classes are rewritten gives a file whose first i+1 classes are rewritten |
| FileProps.SortedMembersNoOverloads | src/sortClasses.ts:71-74 | a reordered class has no overloads if the class had none |
| FileProps.RewrittenClasses | src/sortClasses.ts:122-155 | every class keeps its name; an unchanged class is kept as is; a changed class holds exactly its members with a bucket, in canonical order |
| FileProps.RewriteClassSettles | src/sortClasses.ts:122-155 | a rewritten class does not trigger the rewrite again and gains no overloads |
| FileProps.FileRerunIsNull | src/sortClasses.ts:158-162 | running the file reorderer on the contents it returned yields null |
| FileProps.CanonicalFileIsNull | src/sortClasses.ts:158-162 | a file whose classes are all canonical and free of overloads yields null |
| FileProps.OtherMemberForcesFileRewrite | src/sortClasses.ts:122-162 | a file without overloads that has an accessor in some class always yields new contents |
| FileProps.OneClassFile | src/sortClasses.ts:38-162 | a one-class file without overloads yields the rewritten class exactly when that class changed, and null otherwise |
| Batch.BatchStepOk | src/sortClasses.ts:21-30 | one loop turn over a file that yields a result appends that file's entry to the collected prefix |
| Batch.BatchStepErr | src/sortClasses.ts:21-22 | a file that fails makes the whole batch fail with its error |
| Batch.CollectFile | src/sortClasses.ts:22-29 | a path that fails gives its error; a null result leaves the list unchanged; new contents append one entry with the path |
| Batch.SortClassesInFiles | src/sortClasses.ts:19-32 | the batch method yields `BatchOutcome`, the files processed in order |
| Batch.BatchOutcome | src/sortClasses.ts:19-32 | defined by its body (files in order, the first error ends the batch); properties in `BatchProps.BatchFailsIff`, `BatchProps.BatchFirstError`, `BatchProps.BatchEntries`, `BatchProps.BatchRerunIsNull` |
| BatchProps.PathsOf | src/sortClasses.ts:14-17 | the list of paths has one entry per result, the path of that result |
| BatchProps.BatchOfOne | src/sortClasses.ts:19-32 | a batch of one path reports that file alone, or fails with its error |
| BatchProps.BatchCons | src/sortClasses.ts:21-30 | the first file's error is the batch's; otherwise its entry comes before those of the remaining files |
| BatchProps.BatchFailsIff | src/sortClasses.ts:19-32 | the batch fails if and only if some file fails |
| BatchProps.BatchFirstError | src/sortClasses.ts:19-32 | a failing batch reports the error of its first failing file, all earlier files having succeeded |
| BatchProps.BatchEntries | src/sortClasses.ts:19-32 | a successful batch reports exactly the rewritten files' paths, in input order, each with the contents the file reorderer gave it |
| BatchProps.BatchRerunIsNull | src/sortClasses.ts:19-32 | every reported file, run through the file reorderer again, yields null |
| Scenarios.AlphaBetaSorted | tests/sortClassesInFiles.test.ts:15-29 | `alpha()` and `beta()` come out as `alpha, beta` from either declaration order |
| Scenarios.UnsortedReported | tests/sortClassesInFiles.test.ts:39-56 | the file with `beta()` before `alpha()` is the one file reported, with its path, and its class has `alpha()` first |
| Scenarios.SortedNotReported | tests/sortClassesInFiles.test.ts:58-66 | the file with `alpha()` first is not reported |
| Scenarios.OneClassBatch | tests/sortClassesInFiles.test.ts:39-66 | a one-class batch without overloads reports the file, with the class reordered, exactly when the class changed |
| Scenarios.ComplexStaticOrder | tests/sortClassesComplex.test.ts:52-68 | the four static orderings that test checks hold for every comparator |
| Scenarios.ComplexInstanceOrder | tests/sortClassesComplex.test.ts:70-86 | the four orderings around the constructor that test checks hold for every comparator |
| Scenarios.ComplexChanged | tests/sortClassesComplex.test.ts:15-29 | the class of that test is rewritten |
| Scenarios.ComplexReported | tests/sortClassesComplex.test.ts:45-47 | exactly one file is reported, with its path and the reordered class |
| Scenarios.SkipClassFails | tests/skipSortingClassesWithTag.test.ts:18-53 | the class with the overloaded `process` and `log` makes the batch fail with the overload error |

## Left out

- The syntax-tree library and the file system are modelled only as far as the reorderer reads them. A file is its list of top-level classes, and a class is its name and its ordered members. Reading a file is a lookup in a map from paths to contents. Comments, bodies, decorators, formatting and nested classes are not modelled.
- `getFullText` is not modelled. A result's `data` is the rewritten list of classes, not the printed text.
- `localeCompare` is not modelled. The comparator is a parameter. Results that depend on its order assume only that it is consistent, as a sort comparator must be.
- The in-place `Array.prototype.sort` of each bucket array is modelled as a function on values, `Collation.SortByName`. It is a stable sort, as the language has required since 2019. The model does not capture the in-place update of the arrays.
- `console.info` (lines 127-129) is output only and is not modelled.
- Errors are values. An exception thrown from `addSourceFileAtPath` for a missing file becomes `FileNotFound`. The overload throw becomes `OverloadsNotSupported` and propagates through the file and the batch, as an uncaught exception does.
- The second overload throw (line 152) is not modelled as a separate branch. Overloaded methods have already made the classification loop throw, and `getStructure` of a method or constructor produces no overload structure kind.
- Constructor overloads are not modelled. A constructor's overload count is ignored, as the classification loop ignores it.
- Protected members count as "not private", like public ones, because the code tests only for `Scope.Private`.
- Accessors, index signatures and the other member kinds no branch handles are one kind, `Other`. They are in no bucket and so vanish from `sortedMembers`; `ClassProps.OtherForcesRewrite` proves it.
- The `@internal_sort skip` tag has no support in `src/sortClasses.ts`. The skip test's class has overloaded methods, so the model gives the overload error where that test expects an empty result (`Scenarios.SkipClassFails`).
- The command-line entry, directory walking, Prettier formatting and file writing (`src/index.ts`, `src/fileSystem.ts`, `src/format.ts`, `src/prettier.ts`) are not part of this model.
