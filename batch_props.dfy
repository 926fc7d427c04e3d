/** What `sortClassesInFiles` guarantees for a list of paths. */
module BatchProps {
  import opened Outcomes
  import opened Collation
  import opened FileSort
  import opened FileProps
  import opened Batch

  /** The file at `path` is opened and rewritten. */
  predicate Rewritten(disk: Disk, path: string, cmp: Comparator) {
    LoadAndSort(disk, path, cmp).Ok? && LoadAndSort(disk, path, cmp).value.Some?
  }

  /** The paths of `paths` whose file is rewritten, in order. */
  function RewrittenPaths(paths: seq<string>, disk: Disk, cmp: Comparator): seq<string> {
    if paths == [] then []
    else (if Rewritten(disk, paths[0], cmp) then [paths[0]] else []) + RewrittenPaths(paths[1..], disk, cmp)
  }

  /** The `path` field of every entry. */
  function PathsOf(out: seq<SortedContentsAndPath>): (r: seq<string>)
    ensures |r| == |out| && forall k :: 0 <= k < |out| ==> r[k] == out[k].path
  {
    if out == [] then [] else [out[0].path] + PathsOf(out[1..])
  }

  /** A batch of one path reports that file alone. */
  lemma BatchOfOne(path: string, disk: Disk, cmp: Comparator)
    ensures BatchOutcome([path], disk, cmp) ==
      match LoadAndSort(disk, path, cmp)
      case Err(e) => Err(e)
      case Ok(o) => Ok(Entry(path, o))
  {
    assert [path][1..] == [];
    if LoadAndSort(disk, path, cmp).Ok? {
      assert Entry(path, LoadAndSort(disk, path, cmp).value) + [] == Entry(path, LoadAndSort(disk, path, cmp).value);
    }
  }

  /** A non-empty batch: the first file's outcome, then the rest. */
  lemma BatchCons(paths: seq<string>, disk: Disk, cmp: Comparator)
    requires paths != []
    ensures LoadAndSort(disk, paths[0], cmp).Err? ==>
      BatchOutcome(paths, disk, cmp) == Err(LoadAndSort(disk, paths[0], cmp).error)
    ensures LoadAndSort(disk, paths[0], cmp).Ok? ==>
      BatchOutcome(paths, disk, cmp) ==
        Prefixed(Entry(paths[0], LoadAndSort(disk, paths[0], cmp).value), BatchOutcome(paths[1..], disk, cmp))
  {
  }

  /** The batch fails exactly when some file fails. */
  lemma {:induction false} BatchFailsIff(paths: seq<string>, disk: Disk, cmp: Comparator)
    ensures BatchOutcome(paths, disk, cmp).Err? <==>
      exists i :: 0 <= i < |paths| && LoadAndSort(disk, paths[i], cmp).Err?
  {
    if paths != [] {
      var tail := paths[1..];
      BatchFailsIff(tail, disk, cmp);
      BatchCons(paths, disk, cmp);
      if LoadAndSort(disk, paths[0], cmp).Ok? {
        assert BatchOutcome(paths, disk, cmp).Err? == BatchOutcome(tail, disk, cmp).Err?;
        if BatchOutcome(tail, disk, cmp).Err? {
          var i :| 0 <= i < |tail| && LoadAndSort(disk, tail[i], cmp).Err?;
          assert paths[i + 1] == tail[i];
        }
        if exists i :: 0 <= i < |paths| && LoadAndSort(disk, paths[i], cmp).Err? {
          var i :| 0 <= i < |paths| && LoadAndSort(disk, paths[i], cmp).Err?;
          assert i != 0;
          assert tail[i - 1] == paths[i];
        }
      }
    }
  }

  /** A failed batch reports the error of the first file that fails, every
      earlier file having succeeded. */
  lemma {:induction false} BatchFirstError(paths: seq<string>, disk: Disk, cmp: Comparator)
    requires BatchOutcome(paths, disk, cmp).Err?
    ensures exists i ::
              && 0 <= i < |paths| && LoadAndSort(disk, paths[i], cmp).Err?
              && (forall j :: 0 <= j < i ==> LoadAndSort(disk, paths[j], cmp).Ok?)
              && BatchOutcome(paths, disk, cmp).error == LoadAndSort(disk, paths[i], cmp).error
  {
    BatchCons(paths, disk, cmp);
    if LoadAndSort(disk, paths[0], cmp).Err? {
      assert BatchOutcome(paths, disk, cmp).error == LoadAndSort(disk, paths[0], cmp).error;
    } else {
      var tail := paths[1..];
      assert BatchOutcome(tail, disk, cmp).Err?;
      assert BatchOutcome(paths, disk, cmp).error == BatchOutcome(tail, disk, cmp).error;
      BatchFirstError(tail, disk, cmp);
      var i :| 0 <= i < |tail| && LoadAndSort(disk, tail[i], cmp).Err?
        && (forall j :: 0 <= j < i ==> LoadAndSort(disk, tail[j], cmp).Ok?)
        && BatchOutcome(tail, disk, cmp).error == LoadAndSort(disk, tail[i], cmp).error;
      assert paths[i + 1] == tail[i];
      forall j | 0 <= j < i + 1 ensures LoadAndSort(disk, paths[j], cmp).Ok? {
        if j > 0 {
          assert paths[j] == tail[j - 1];
        }
      }
    }
  }

  /** On success the batch holds one entry per rewritten file, in the order
      of `paths`, each with that file's new contents. */
  lemma {:induction false} BatchEntries(paths: seq<string>, disk: Disk, cmp: Comparator)
    requires BatchOutcome(paths, disk, cmp).Ok?
    ensures PathsOf(BatchOutcome(paths, disk, cmp).value) == RewrittenPaths(paths, disk, cmp)
    ensures forall e :: e in BatchOutcome(paths, disk, cmp).value ==>
      LoadAndSort(disk, e.path, cmp) == Ok(Some(e.data))
  {
    if paths != [] {
      var o := LoadAndSort(disk, paths[0], cmp).value;
      var rest := BatchOutcome(paths[1..], disk, cmp).value;
      BatchEntries(paths[1..], disk, cmp);
      assert BatchOutcome(paths, disk, cmp).value == Entry(paths[0], o) + rest;
      PathsOfConcat(Entry(paths[0], o), rest);
    }
  }

  lemma {:induction false} PathsOfConcat(a: seq<SortedContentsAndPath>, b: seq<SortedContentsAndPath>)
    ensures PathsOf(a + b) == PathsOf(a) + PathsOf(b)
  {
    assert |PathsOf(a + b)| == |PathsOf(a) + PathsOf(b)|;
    forall k | 0 <= k < |a + b| ensures PathsOf(a + b)[k] == (PathsOf(a) + PathsOf(b))[k] {
      if k < |a| {
        assert (a + b)[k] == a[k];
      } else {
        assert (a + b)[k] == b[k - |a|];
      }
    }
  }

  /** Sorting the files the batch returned rewrites none of them again. */
  lemma BatchRerunIsNull(paths: seq<string>, disk: Disk, cmp: Comparator)
    requires Consistent(cmp)
    requires BatchOutcome(paths, disk, cmp).Ok?
    ensures forall e :: e in BatchOutcome(paths, disk, cmp).value ==> FileOutcome(e.data, cmp) == Ok(None)
  {
    BatchEntries(paths, disk, cmp);
    forall e | e in BatchOutcome(paths, disk, cmp).value ensures FileOutcome(e.data, cmp) == Ok(None) {
      FileRerunIsNull(disk[e.path], cmp);
    }
  }
}
