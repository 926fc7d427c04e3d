/** The batch: `sortClassesInFiles(filePaths)` of src/sortClasses.ts,
    lines 19-32. Each path is handed to `sortClasses` in turn; a file with
    new contents is collected with its path, a null result is skipped, and
    the first error ends the whole batch. */
module Batch {
  import opened Outcomes
  import opened Collation
  import opened FileSort

  /** Lines 14-17: the rewritten contents of one file and its path. */
  datatype SortedContentsAndPath = SortedContentsAndPath(data: FileContents, path: string)

  /** `acc` followed by the collected entries of an outcome, or its error. */
  function Prefixed(acc: seq<SortedContentsAndPath>, rest: Result<seq<SortedContentsAndPath>>): Result<seq<SortedContentsAndPath>> {
    match rest
    case Err(e) => Err(e)
    case Ok(tail) => Ok(acc + tail)
  }

  /** The entry a file contributes: one if it was rewritten, none if null. */
  function Entry(path: string, o: Option<FileContents>): seq<SortedContentsAndPath> {
    match o
    case None => []
    case Some(data) => [SortedContentsAndPath(data, path)]
  }

  /** What the batch yields for `paths`, processed from the first. */
  function BatchOutcome(paths: seq<string>, disk: Disk, cmp: Comparator): Result<seq<SortedContentsAndPath>> {
    if paths == [] then Ok([])
    else match LoadAndSort(disk, paths[0], cmp)
      case Err(e) => Err(e)
      case Ok(o) => Prefixed(Entry(paths[0], o), BatchOutcome(paths[1..], disk, cmp))
  }

  lemma PrefixedTwice(a: seq<SortedContentsAndPath>, b: seq<SortedContentsAndPath>, rest: Result<seq<SortedContentsAndPath>>)
    ensures Prefixed(a, Prefixed(b, rest)) == Prefixed(a + b, rest)
  {
    if rest.Ok? {
      assert a + (b + rest.value) == (a + b) + rest.value;
    }
  }

  lemma PrefixedEmpty(rest: Result<seq<SortedContentsAndPath>>)
    ensures Prefixed([], rest) == rest
  {
    if rest.Ok? {
      assert [] + rest.value == rest.value;
    }
  }

  /** One step of the batch from path `i`, when that file gives an error. */
  lemma BatchStepErr(paths: seq<string>, i: nat, disk: Disk, cmp: Comparator, acc: seq<SortedContentsAndPath>)
    requires i < |paths| && LoadAndSort(disk, paths[i], cmp).Err?
    requires BatchOutcome(paths, disk, cmp) == Prefixed(acc, BatchOutcome(paths[i..], disk, cmp))
    ensures BatchOutcome(paths, disk, cmp) == Err(LoadAndSort(disk, paths[i], cmp).error)
  {
  }

  /** One step of the batch from path `i`, when that file gives `o`. */
  lemma BatchStepOk(paths: seq<string>, i: nat, disk: Disk, cmp: Comparator,
                    acc: seq<SortedContentsAndPath>, o: Option<FileContents>)
    requires i < |paths| && LoadAndSort(disk, paths[i], cmp) == Ok(o)
    requires BatchOutcome(paths, disk, cmp) == Prefixed(acc, BatchOutcome(paths[i..], disk, cmp))
    ensures BatchOutcome(paths, disk, cmp) == Prefixed(acc + Entry(paths[i], o), BatchOutcome(paths[i + 1..], disk, cmp))
  {
    assert paths[i..][1..] == paths[i + 1..];
    PrefixedTwice(acc, Entry(paths[i], o), BatchOutcome(paths[i + 1..], disk, cmp));
  }

  /** Lines 22-29, one iteration of the loop: sorts the file at `path`
      and appends its entry, if any, to `acc`. */
  method CollectFile(acc: seq<SortedContentsAndPath>, path: string, disk: Disk, cmp: Comparator)
    returns (r: Result<seq<SortedContentsAndPath>>)
    ensures r == match LoadAndSort(disk, path, cmp)
      case Err(e) => Err(e)
      case Ok(o) => Ok(acc + Entry(path, o))
  {
    var sortedContent := SortClasses(disk, path, cmp);
    if sortedContent.Err? {
      return Err(sortedContent.error);
    }
    if sortedContent.value.Some? {
      return Ok(acc + [SortedContentsAndPath(sortedContent.value.value, path)]);
    }
    assert acc + [] == acc;
    return Ok(acc);
  }

  /** Lines 19-32. */
  method SortClassesInFiles(paths: seq<string>, disk: Disk, cmp: Comparator) returns (r: Result<seq<SortedContentsAndPath>>)
    ensures r == BatchOutcome(paths, disk, cmp)
  {
    var sortedContents: seq<SortedContentsAndPath> := [];
    var i := 0;
    assert paths[0..] == paths;
    PrefixedEmpty(BatchOutcome(paths, disk, cmp));
    while i < |paths|
      invariant 0 <= i <= |paths|
      invariant BatchOutcome(paths, disk, cmp) == Prefixed(sortedContents, BatchOutcome(paths[i..], disk, cmp))
    {
      var step := CollectFile(sortedContents, paths[i], disk, cmp);
      if step.Err? {
        BatchStepErr(paths, i, disk, cmp, sortedContents);
        return Err(step.error);
      }
      BatchStepOk(paths, i, disk, cmp, sortedContents, LoadAndSort(disk, paths[i], cmp).value);
      sortedContents := step.value;
      i := i + 1;
    }
    assert paths[i..] == [];
    assert sortedContents + [] == sortedContents;
    return Ok(sortedContents);
  }
}
