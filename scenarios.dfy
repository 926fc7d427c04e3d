/** The scenarios of the repository's tests, stated on the model. Paths
    stand for the files the tests write; `cmp` is any comparator that puts
    the names in the order the tests rely on. */
module Scenarios {
  import opened Outcomes
  import opened Members
  import opened Collation
  import opened ClassSort
  import opened ClassProps
  import opened FileSort
  import opened FileProps
  import opened Batch
  import opened BatchProps

  function Meth(name: string, isStatic: bool, isPrivate: bool): Member {
    Member(Method, name, isStatic, isPrivate, 0)
  }

  function Prop(name: string, isStatic: bool, isPrivate: bool): Member {
    Member(Property, name, isStatic, isPrivate, 0)
  }

  const Ctor := Member(Constructor, "constructor", false, false, 0)

  /** Two public instance methods of tests/sortClassesInFiles.test.ts come
      out in name order from either declaration order. */
  lemma AlphaBetaSorted(alpha: Member, beta: Member, cmp: Comparator)
    requires alpha == Meth("alpha", false, false) && beta == Meth("beta", false, false)
    requires cmp(alpha.name, beta.name) < 0 && cmp(beta.name, alpha.name) > 0
    ensures SortedMembers([beta, alpha], cmp) == [alpha, beta]
    ensures SortedMembers([alpha, beta], cmp) == [alpha, beta]
  {
    OneBucketSortsByName([beta, alpha], 8, cmp);
    OneBucketSortsByName([alpha, beta], 8, cmp);
    SortPair(beta, alpha, cmp);
    SortPair(alpha, beta, cmp);
  }

  /** Sorting two members by name. */
  lemma SortPair(x: Member, y: Member, cmp: Comparator)
    ensures SortByName([x, y], cmp) == if cmp(x.name, y.name) <= 0 then [x, y] else [y, x]
  {
    assert [x, y][..1] == [x] && [x][..0] == [];
    assert SortByName([x], cmp) == [x];
    assert [x][1..] == [];
    assert Insert(y, [], cmp) == [y];
    assert SortByName([x, y], cmp) == Insert(y, [x], cmp);
  }

  /** A batch of one file holding one class without overloads reports
      that file, with the class sorted, exactly when the class changed. */
  lemma OneClassBatch(path: string, name: string, ms: seq<Member>, disk: Disk, cmp: Comparator)
    requires disk == map[path := [ClassDecl(name, ms)]] && !HasOverloads(ms)
    ensures BatchOutcome([path], disk, cmp) ==
      if ClassChanged(ms, cmp) then Ok([SortedContentsAndPath([ClassDecl(name, SortedMembers(ms, cmp))], path)])
      else Ok([])
  {
    OneClassFile(ClassDecl(name, ms), cmp);
    BatchOfOne(path, disk, cmp);
  }

  lemma AlphaBetaChanged(alpha: Member, beta: Member, cmp: Comparator)
    requires alpha == Meth("alpha", false, false) && beta == Meth("beta", false, false)
    requires cmp(alpha.name, beta.name) < 0 && cmp(beta.name, alpha.name) > 0
    ensures SortedMembers([beta, alpha], cmp) == [alpha, beta]
    ensures ClassChanged([beta, alpha], cmp)
  {
    AlphaBetaSorted(alpha, beta, cmp);
    var n, m := Names([beta, alpha]), Names([alpha, beta]);
    assert n[0] == "beta" && m[0] == "alpha";
  }

  /** tests/sortClassesInFiles.test.ts, lines 39-56: class `Example` with
      `beta()` declared before `alpha()` is rewritten with `alpha()` first,
      and it is the one file reported, with its path. */
  lemma UnsortedReported(alpha: Member, beta: Member, disk: Disk, cmp: Comparator)
    requires alpha == Meth("alpha", false, false) && beta == Meth("beta", false, false)
    requires cmp(alpha.name, beta.name) < 0 && cmp(beta.name, alpha.name) > 0
    requires disk == map["unsorted.ts" := [ClassDecl("Example", [beta, alpha])]]
    ensures BatchOutcome(["unsorted.ts"], disk, cmp) ==
      Ok([SortedContentsAndPath([ClassDecl("Example", [alpha, beta])], "unsorted.ts")])
  {
    AlphaBetaChanged(alpha, beta, cmp);
    OneClassBatch("unsorted.ts", "Example", [beta, alpha], disk, cmp);
  }

  /** tests/sortClassesInFiles.test.ts, lines 58-66: the same class with
      `alpha()` first is left alone and nothing is reported. */
  lemma SortedNotReported(alpha: Member, beta: Member, disk: Disk, cmp: Comparator)
    requires alpha == Meth("alpha", false, false) && beta == Meth("beta", false, false)
    requires cmp(alpha.name, beta.name) < 0 && cmp(beta.name, alpha.name) > 0
    requires disk == map["sorted.ts" := [ClassDecl("Example", [alpha, beta])]]
    ensures BatchOutcome(["sorted.ts"], disk, cmp) == Ok([])
  {
    AlphaBetaSorted(alpha, beta, cmp);
    OneClassBatch("sorted.ts", "Example", [alpha, beta], disk, cmp);
  }

  /** `ms` is the class of tests/sortClassesComplex.test.ts, lines 15-29,
      member by member. */
  predicate IsComplexClass(ms: seq<Member>) {
    && |ms| == 13
    && ms[0] == Meth("rivetingFunc", false, false)
    && ms[1] == Prop("instanceVarB", false, true)
    && ms[2] == Meth("staticFuncB", true, true)
    && ms[3] == Prop("instanceVarA", false, false)
    && ms[4] == Meth("funcX", false, true)
    && ms[5] == Prop("staticVarB", true, true)
    && ms[6] == Prop("staticVarA", true, true)
    && ms[7] == Meth("staticFuncA", true, false)
    && ms[8] == Prop("staticVarA", true, false)
    && ms[9] == Meth("funcC", false, true)
    && ms[10] == Meth("funcA", false, false)
    && ms[11] == Ctor
    && ms[12] == Meth("staticFuncA", true, true)
  }

  /** tests/sortClassesComplex.test.ts, lines 52-68: the orderings among
      static members that the test checks, which hold for every comparator. */
  lemma ComplexStaticOrder(ms: seq<Member>, cmp: Comparator)
    requires IsComplexClass(ms)
    ensures var r := SortedMembers(ms, cmp);
      && Precedes(r, ms[8], ms[7])    // staticVarA before staticFuncA
      && Precedes(r, ms[5], ms[2])    // staticVarB before staticFuncB
      && Precedes(r, ms[8], ms[5])    // staticVarA before staticVarB
      && Precedes(r, ms[7], ms[2])    // staticFuncA before staticFuncB
  {
    assert ms[8] in ms && ms[7] in ms && ms[5] in ms && ms[2] in ms;
    MemberPrecedes(ms, cmp, ms[8], ms[7]);
    MemberPrecedes(ms, cmp, ms[5], ms[2]);
    MemberPrecedes(ms, cmp, ms[8], ms[5]);
    MemberPrecedes(ms, cmp, ms[7], ms[2]);
  }

  /** tests/sortClassesComplex.test.ts, lines 70-86: the orderings around
      the constructor that the test checks, which hold for every comparator. */
  lemma ComplexInstanceOrder(ms: seq<Member>, cmp: Comparator)
    requires IsComplexClass(ms)
    ensures var r := SortedMembers(ms, cmp);
      && Precedes(r, ms[3], ms[11])   // instanceVarA before the constructor
      && Precedes(r, ms[1], ms[11])   // instanceVarB before the constructor
      && Precedes(r, ms[11], ms[10])  // the constructor before funcA
      && Precedes(r, ms[10], ms[9])   // funcA before funcC
  {
    assert ms[3] in ms && ms[1] in ms && ms[11] in ms && ms[10] in ms && ms[9] in ms;
    MemberPrecedes(ms, cmp, ms[3], ms[11]);
    MemberPrecedes(ms, cmp, ms[1], ms[11]);
    MemberPrecedes(ms, cmp, ms[11], ms[10]);
    MemberPrecedes(ms, cmp, ms[10], ms[9]);
  }

  /** The rewritten class starts with its one public static property, so its
      name projection differs from the original's. */
  lemma ComplexChanged(ms: seq<Member>, cmp: Comparator)
    requires IsComplexClass(ms)
    ensures ClassChanged(ms, cmp)
  {
    assert forall j :: 0 <= j < |ms| && j != 8 ==> 1 < Bucket(ms[j]);
    LowestBucketFirst(ms, cmp, 8);
    assert Names(SortedMembers(ms, cmp))[0] != Names(ms)[0];
  }

  /** tests/sortClassesComplex.test.ts, lines 45-47: exactly one file is
      reported, with its path. */
  lemma ComplexReported(ms: seq<Member>, disk: Disk, cmp: Comparator)
    requires IsComplexClass(ms) && disk == map["complex.ts" := [ClassDecl("ComplexClass", ms)]]
    ensures BatchOutcome(["complex.ts"], disk, cmp) ==
      Ok([SortedContentsAndPath([ClassDecl("ComplexClass", SortedMembers(ms, cmp))], "complex.ts")])
  {
    ComplexChanged(ms, cmp);
    ComplexNoOverloads(ms);
    OneClassBatch("complex.ts", "ComplexClass", ms, disk, cmp);
  }

  lemma ComplexNoOverloads(ms: seq<Member>)
    requires IsComplexClass(ms)
    ensures !HasOverloads(ms)
  {
  }

  /** The class of tests/skipSortingClassesWithTag.test.ts, lines 18-53:
      `process` has three overload signatures and `log` two. */
  function SkipClass(): seq<Member> {
    [ Meth("rivetingFunc", false, false),
      Prop("instanceVarB", false, true),
      Meth("staticFuncB", true, true),
      Prop("instanceVarA", false, false),
      Meth("funcX", false, true),
      Prop("staticVarB", true, true),
      Prop("staticVarA", true, true),
      Meth("staticFuncAA", true, false),
      Prop("staticVarAB", true, false),
      Meth("funcC", false, true),
      Meth("funcA", false, false),
      Ctor,
      Meth("staticFuncA", true, true),
      Member(Method, "process", false, false, 3),
      Member(Method, "log", false, false, 2) ]
  }

  /** The class with overloads makes the whole batch fail. */
  lemma SkipClassFails(cmp: Comparator)
    ensures var disk := map["skip.ts" := [ClassDecl("ShouldBeSkipped", SkipClass())]];
      BatchOutcome(["skip.ts"], disk, cmp) == Err(OverloadsNotSupported)
  {
    var disk := map["skip.ts" := [ClassDecl("ShouldBeSkipped", SkipClass())]];
    var cs := disk["skip.ts"];
    assert Overloaded(cs[0].members[13]);
    assert AnyOverloads(cs);
  }
}
