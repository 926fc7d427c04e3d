/** One file: `sortClasses(filePath)` of src/sortClasses.ts, lines 34-163.
    The file is opened into a syntax tree, every top-level class is
    reordered in turn, a class whose name projection changed is rewritten in
    place (all members removed, then the sorted ones added back), and the
    file's new contents are returned only if some class was rewritten. */
module FileSort {
  import opened Outcomes
  import opened Members
  import opened Collation
  import opened ClassSort

  /** A class declaration of the file: its name and its members in order. */
  datatype ClassDecl = ClassDecl(name: string, members: seq<Member>)

  /** The contents of a file, as far as the reorderer reads them: its
      top-level classes in order. */
  type FileContents = seq<ClassDecl>

  /** The files `project.addSourceFileAtPath` (line 36) can open, by path. */
  type Disk = map<string, FileContents>

  /** The syntax tree of one opened file, edited in place by the rewrite. */
  class SourceTree {
    var classes: FileContents

    constructor (contents: FileContents)
      ensures classes == contents
    {
      classes := contents;
    }

    /** Lines 138-140: removes the members of class `i` one at a time, in
        declaration order. */
    method RemoveMembers(i: nat)
      requires i < |classes|
      modifies this
      ensures classes == old(classes)[i := old(classes)[i].(members := [])]
    {
      ghost var start := classes;
      var k := 0;
      var n := |classes[i].members|;
      while k < n
        invariant 0 <= k <= n == |start[i].members|
        invariant classes == start[i := start[i].(members := start[i].members[k..])]
      {
        classes := classes[i := classes[i].(members := classes[i].members[1..])];
        k := k + 1;
      }
    }

    /** Lines 144-150: adds one member at the end of class `i`
        (`addConstructor` and `addMember` both append). */
    method AddMember(i: nat, m: Member)
      requires i < |classes|
      modifies this
      ensures classes == old(classes)[i := old(classes)[i].(members := old(classes)[i].members + [m])]
    {
      classes := classes[i := classes[i].(members := classes[i].members + [m])];
    }

    /** Lines 132-154: replaces the members of class `i` by `sorted`. */
    method Rewrite(i: nat, sorted: seq<Member>)
      requires i < |classes|
      modifies this
      ensures classes == old(classes)[i := old(classes)[i].(members := sorted)]
    {
      RemoveMembers(i);
      var k := 0;
      while k < |sorted|
        invariant 0 <= k <= |sorted|
        invariant |classes| == |old(classes)|
        invariant classes == old(classes)[i := old(classes)[i].(members := sorted[..k])]
      {
        AddMember(i, sorted[k]);
        assert sorted[..k] + [sorted[k]] == sorted[..k + 1];
        k := k + 1;
      }
      assert sorted[..k] == sorted;
    }

    /** Lines 42-155, one iteration of the class loop: reorders class `i`,
        and rewrites it when the names of its members changed order; the
        result says whether it was rewritten. */
    method SortClass(i: nat, cmp: Comparator) returns (r: Result<bool>)
      requires i < |classes|
      modifies this
      ensures r.Err? <==> HasOverloads(old(classes)[i].members)
      ensures r.Err? ==> r.error == OverloadsNotSupported && classes == old(classes)
      ensures r.Ok? ==> r.value == ClassChanged(old(classes)[i].members, cmp)
      ensures r.Ok? ==> classes == old(classes)[i := RewriteClass(old(classes)[i], cmp)]
    {
      var members := classes[i].members;
      var sorted := SortClassMembers(members, cmp);
      if sorted.Err? {
        return Err(sorted.error);
      }
      if Names(members) != Names(sorted.value) {
        Rewrite(i, sorted.value);
        return Ok(true);
      }
      return Ok(false);
    }

    /** One turn of the class loop at position `i`, after classes `..i` of
        the original contents `cs` went through it without an error. */
    method SortNext(ghost cs: FileContents, i: nat, modified: bool, cmp: Comparator) returns (r: Result<bool>)
      requires i < |cs| == |classes|
      requires classes == RewriteAll(cs[..i], cmp) + cs[i..]
      requires !OverloadsBefore(cs, i) && modified == ChangedBefore(cs, i, cmp)
      modifies this
      ensures r.Err? ==> AnyOverloads(cs) && r.error == OverloadsNotSupported
      ensures r.Ok? ==> classes == RewriteAll(cs[..i + 1], cmp) + cs[i + 1..]
      ensures r.Ok? ==> !OverloadsBefore(cs, i + 1) && r.value == ChangedBefore(cs, i + 1, cmp)
    {
      ghost var before := classes;
      assert before[i] == cs[i];
      var outcome := SortClass(i, cmp);
      if outcome.Err? {
        OverloadsAt(cs, i);
        return Err(outcome.error);
      }
      RewriteStep(cs, i, before, cmp);
      return Ok(modified || outcome.value);
    }

    /** Lines 38-156: the class loop. Each class is reordered in turn and
        rewritten when its name projection changed; `modified` records
        whether any was. The first class with overloads aborts the loop. */
    method SortAll(cmp: Comparator) returns (r: Result<bool>)
      modifies this
      ensures r.Err? <==> AnyOverloads(old(classes))
      ensures r.Err? ==> r.error == OverloadsNotSupported
      ensures r.Ok? ==> r.value == AnyChanged(old(classes), cmp)
      ensures r.Ok? ==> classes == RewriteAll(old(classes), cmp)
    {
      ghost var cs := classes;
      var modified := false;
      var i := 0;
      while i < |classes|
        invariant 0 <= i <= |cs| == |classes|
        invariant classes == RewriteAll(cs[..i], cmp) + cs[i..]
        invariant !OverloadsBefore(cs, i)
        invariant modified == ChangedBefore(cs, i, cmp)
      {
        var outcome := SortNext(cs, i, modified, cmp);
        if outcome.Err? {
          return outcome;
        }
        modified := outcome.value;
        i := i + 1;
      }
      FinishLoop(cs, classes, cmp);
      NoOverloadsBefore(cs);
      ChangedBeforeAny(cs, modified, cmp);
      return Ok(modified);
    }
  }

  /** What happens to one class: it is replaced by its sorted members when
      the change detector fires, and left alone otherwise. */
  function RewriteClass(c: ClassDecl, cmp: Comparator): ClassDecl {
    if ClassChanged(c.members, cmp) then c.(members := SortedMembers(c.members, cmp)) else c
  }

  /** Every class of the file after the rewrite. */
  function RewriteAll(cs: FileContents, cmp: Comparator): (r: FileContents)
    ensures |r| == |cs|
  {
    seq(|cs|, i requires 0 <= i < |cs| => RewriteClass(cs[i], cmp))
  }

  /** Some class of the file has an overloaded method. */
  predicate AnyOverloads(cs: FileContents) {
    exists i :: 0 <= i < |cs| && HasOverloads(cs[i].members)
  }

  /** Some class of the file is rewritten. */
  predicate AnyChanged(cs: FileContents, cmp: Comparator) {
    exists i :: 0 <= i < |cs| && ClassChanged(cs[i].members, cmp)
  }

  /** What `sortClasses` yields for opened contents: the overload error if any
      class has one, the rewritten contents if some class changed, else null. */
  function FileOutcome(cs: FileContents, cmp: Comparator): Result<Option<FileContents>> {
    if AnyOverloads(cs) then Err(OverloadsNotSupported)
    else if AnyChanged(cs, cmp) then Ok(Some(RewriteAll(cs, cmp)))
    else Ok(None)
  }

  /** What `sortClasses(path)` yields, opening the file first. */
  function LoadAndSort(disk: Disk, path: string, cmp: Comparator): Result<Option<FileContents>> {
    if path !in disk then Err(FileNotFound(path)) else FileOutcome(disk[path], cmp)
  }

  /** Lines 34-163. */
  method SortClasses(disk: Disk, path: string, cmp: Comparator) returns (r: Result<Option<FileContents>>)
    ensures r == LoadAndSort(disk, path, cmp)
  {
    if path !in disk {
      return Err(FileNotFound(path));
    }
    var tree := new SourceTree(disk[path]);
    var modified := tree.SortAll(cmp);
    if modified.Err? {
      return Err(modified.error);
    }
    if modified.value {
      return Ok(Some(tree.classes));
    }
    return Ok(None);
  }

  /** Some class before position `i` is rewritten. */
  predicate ChangedBefore(cs: FileContents, i: nat, cmp: Comparator)
    requires i <= |cs|
  {
    i > 0 && (ChangedBefore(cs, i - 1, cmp) || ClassChanged(cs[i - 1].members, cmp))
  }

  /** Some class before position `i` has an overloaded method. */
  predicate OverloadsBefore(cs: FileContents, i: nat)
    requires i <= |cs|
  {
    i > 0 && (OverloadsBefore(cs, i - 1) || HasOverloads(cs[i - 1].members))
  }

  lemma {:induction false} ChangedBeforeAll(cs: FileContents, i: nat, cmp: Comparator)
    requires i <= |cs|
    ensures ChangedBefore(cs, i, cmp) <==> exists j :: 0 <= j < i && ClassChanged(cs[j].members, cmp)
  {
    if i > 0 {
      ChangedBeforeAll(cs, i - 1, cmp);
      var last := ClassChanged(cs[i - 1].members, cmp);
      assert ChangedBefore(cs, i, cmp) == (ChangedBefore(cs, i - 1, cmp) || last);
      if !last {
        forall j | 0 <= j < i && ClassChanged(cs[j].members, cmp)
          ensures j < i - 1
        {
        }
      }
    }
  }

  lemma {:induction false} OverloadsBeforeAll(cs: FileContents, i: nat)
    requires i <= |cs|
    ensures OverloadsBefore(cs, i) <==> exists j :: 0 <= j < i && HasOverloads(cs[j].members)
  {
    if i > 0 {
      OverloadsBeforeAll(cs, i - 1);
    }
  }

  lemma ChangedBeforeAny(cs: FileContents, modified: bool, cmp: Comparator)
    requires modified == ChangedBefore(cs, |cs|, cmp)
    ensures modified == AnyChanged(cs, cmp)
  {
    ChangedBeforeAll(cs, |cs|, cmp);
  }

  lemma NoOverloadsBefore(cs: FileContents)
    requires !OverloadsBefore(cs, |cs|)
    ensures !AnyOverloads(cs)
  {
    OverloadsBeforeAll(cs, |cs|);
  }

  lemma OverloadsAt(cs: FileContents, i: nat)
    requires i < |cs| && HasOverloads(cs[i].members)
    ensures AnyOverloads(cs)
  {
  }

  /** Rewriting class `i` in a file whose first `i` classes are rewritten. */
  lemma RewriteStep(cs: FileContents, i: nat, t: FileContents, cmp: Comparator)
    requires i < |cs| && t == RewriteAll(cs[..i], cmp) + cs[i..]
    ensures t[i := RewriteClass(cs[i], cmp)] == RewriteAll(cs[..i + 1], cmp) + cs[i + 1..]
  {
    var u := t[i := RewriteClass(cs[i], cmp)];
    var v := RewriteAll(cs[..i + 1], cmp) + cs[i + 1..];
    assert |u| == |v|;
    forall j | 0 <= j < |u| ensures u[j] == v[j] {
      if j < i {
        assert u[j] == RewriteAll(cs[..i], cmp)[j] == RewriteClass(cs[j], cmp);
      } else if j > i {
        assert u[j] == cs[j];
      }
    }
  }

  /** After the class loop every class is rewritten. */
  lemma FinishLoop(cs: FileContents, t: FileContents, cmp: Comparator)
    requires t == RewriteAll(cs[..|cs|], cmp) + cs[|cs|..]
    ensures t == RewriteAll(cs, cmp)
  {
    assert cs[..|cs|] == cs;
    assert cs[|cs|..] == [];
  }
}
