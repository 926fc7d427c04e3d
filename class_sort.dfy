/** The reordering of one class (the body of the class loop of `sortClasses`,
    src/sortClasses.ts:43-126): classify every member into nine buckets, sort
    eight of them by name, join them in the fixed order, and compare the
    name projection of the result with that of the original. */
module ClassSort {
  import opened Outcomes
  import opened Members
  import opened Collation

  /** Bucket `b` after the sorting step: sorted by name, except the
      constructor bucket, which keeps its input order. */
  function SortedBucket(ms: seq<Member>, b: nat, cmp: Comparator): seq<Member>
  {
    if b == 7 then InBucket(ms, 7) else SortByName(InBucket(ms, b), cmp)
  }

  /** Buckets `b` to 9, sorted, joined in bucket order. The class heads the
      termination measure, so that a literal `b` alone does not make the
      verifier unfold the whole join. */
  function SortedFrom(ms: seq<Member>, b: nat, cmp: Comparator): seq<Member>
    decreases ms, 10 - b
  {
    if b > 9 then [] else SortedBucket(ms, b, cmp) + SortedFrom(ms, b + 1, cmp)
  }

  /** The first `k` sorted buckets, joined in bucket order. */
  function SortedUpTo(ms: seq<Member>, k: nat, cmp: Comparator): seq<Member> {
    if k == 0 then [] else SortedUpTo(ms, k - 1, cmp) + SortedBucket(ms, k, cmp)
  }

  /** `sortedMembers`: all nine buckets, sorted, joined in bucket order. */
  function SortedMembers(ms: seq<Member>, cmp: Comparator): seq<Member> {
    SortedUpTo(ms, 9, cmp)
  }

  /** The change detector: the class is rewritten exactly when the name
      projection of its members differs from that of `sortedMembers`. */
  predicate ClassChanged(ms: seq<Member>, cmp: Comparator) {
    Names(ms) != Names(SortedMembers(ms, cmp))
  }

  /** Within every bucket but the constructors', names never decrease. */
  predicate BucketNameSorted(ms: seq<Member>, cmp: Comparator) {
    forall i, j :: 0 <= i < j < |ms| && Bucket(ms[i]) == Bucket(ms[j]) != 7 ==>
      cmp(ms[i].name, ms[j].name) <= 0
  }

  /** A class already in the canonical order: only properties, methods and
      constructors, in bucket order, sorted by name within each bucket. */
  predicate Canonical(ms: seq<Member>, cmp: Comparator) {
    && (forall i :: 0 <= i < |ms| ==> ms[i].kind != Other)
    && BucketOrdered(ms)
    && BucketNameSorted(ms, cmp)
  }

  /** The nine arrays of lines 43-51, one per bucket. */
  datatype Buckets = Buckets(
    staticPublicVars: seq<Member>, staticPrivateVars: seq<Member>,
    staticPublicFuncs: seq<Member>, staticPrivateFuncs: seq<Member>,
    publicVars: seq<Member>, privateVars: seq<Member>,
    constructorDeclarations: seq<Member>,
    publicFuncs: seq<Member>, privateFuncs: seq<Member>)
  {
    /** The array that holds bucket `b`. */
    function At(b: nat): seq<Member>
      requires 1 <= b <= 9
    {
      match b
      case 1 => staticPublicVars
      case 2 => staticPrivateVars
      case 3 => staticPublicFuncs
      case 4 => staticPrivateFuncs
      case 5 => publicVars
      case 6 => privateVars
      case 7 => constructorDeclarations
      case 8 => publicFuncs
      case 9 => privateFuncs
    }
  }

  /** Lines 43-89: the classification loop pushes each member onto the array
      of its bucket, each array keeping input order, and throws on the first
      method that has overloads. */
  method ClassifyMembers(members: seq<Member>) returns (r: Result<Buckets>)
    ensures r.Err? <==> HasOverloads(members)
    ensures r.Err? ==> r.error == OverloadsNotSupported
    ensures r.Ok? ==> forall b :: 1 <= b <= 9 ==> r.value.At(b) == InBucket(members, b)
  {
    var staticPublicVars, staticPrivateVars, staticPublicFuncs, staticPrivateFuncs := [], [], [], [];
    var publicVars, privateVars, constructorDeclarations, publicFuncs, privateFuncs := [], [], [], [], [];
    var i := 0;
    while i < |members|
      invariant 0 <= i <= |members|
      invariant forall j :: 0 <= j < i ==> !Overloaded(members[j])
      invariant staticPublicVars == InBucket(members[..i], 1)
      invariant staticPrivateVars == InBucket(members[..i], 2)
      invariant staticPublicFuncs == InBucket(members[..i], 3)
      invariant staticPrivateFuncs == InBucket(members[..i], 4)
      invariant publicVars == InBucket(members[..i], 5)
      invariant privateVars == InBucket(members[..i], 6)
      invariant constructorDeclarations == InBucket(members[..i], 7)
      invariant publicFuncs == InBucket(members[..i], 8)
      invariant privateFuncs == InBucket(members[..i], 9)
    {
      var member := members[i];
      assert members[..i + 1] == members[..i] + [member];
      InBucketSnoc(members[..i], member);
      if member.kind == Property {
        if member.isStatic {
          if member.isPrivate {
            staticPrivateVars := staticPrivateVars + [member];
          } else {
            staticPublicVars := staticPublicVars + [member];
          }
        } else {
          if member.isPrivate {
            privateVars := privateVars + [member];
          } else {
            publicVars := publicVars + [member];
          }
        }
      } else if member.kind == Constructor {
        constructorDeclarations := constructorDeclarations + [member];
      } else if member.kind == Method {
        if member.overloadCount > 0 {
          return Err(OverloadsNotSupported);
        }
        if member.isStatic {
          if member.isPrivate {
            staticPrivateFuncs := staticPrivateFuncs + [member];
          } else {
            staticPublicFuncs := staticPublicFuncs + [member];
          }
        } else {
          if member.isPrivate {
            privateFuncs := privateFuncs + [member];
          } else {
            publicFuncs := publicFuncs + [member];
          }
        }
      }
      i := i + 1;
    }
    assert members[..i] == members;
    return Ok(Buckets(staticPublicVars, staticPrivateVars, staticPublicFuncs, staticPrivateFuncs,
      publicVars, privateVars, constructorDeclarations, publicFuncs, privateFuncs));
  }

  /** Lines 43-119: classification, the eight sorts (the constructor array is
      left as it is) and the concatenation into `sortedMembers`. */
  method SortClassMembers(members: seq<Member>, cmp: Comparator) returns (r: Result<seq<Member>>)
    ensures r.Err? <==> HasOverloads(members)
    ensures r.Err? ==> r.error == OverloadsNotSupported
    ensures r.Ok? ==> r.value == SortedMembers(members, cmp)
  {
    var classified := ClassifyMembers(members);
    if classified.Err? {
      return Err(classified.error);
    }
    var bs := classified.value;
    ghost var before := bs;
    bs := bs.(staticPublicVars := SortByName(bs.staticPublicVars, cmp));
    bs := bs.(staticPrivateVars := SortByName(bs.staticPrivateVars, cmp));
    bs := bs.(staticPublicFuncs := SortByName(bs.staticPublicFuncs, cmp));
    bs := bs.(staticPrivateFuncs := SortByName(bs.staticPrivateFuncs, cmp));
    bs := bs.(publicVars := SortByName(bs.publicVars, cmp));
    bs := bs.(privateVars := SortByName(bs.privateVars, cmp));
    bs := bs.(publicFuncs := SortByName(bs.publicFuncs, cmp));
    bs := bs.(privateFuncs := SortByName(bs.privateFuncs, cmp));
    assert forall b :: 1 <= b <= 9 ==> bs.At(b) == SortedBucket(members, b, cmp) by {
      forall b | 1 <= b <= 9 ensures bs.At(b) == SortedBucket(members, b, cmp) {
        assert before.At(b) == InBucket(members, b);
      }
    }
    var sortedMembers := bs.staticPublicVars + bs.staticPrivateVars + bs.staticPublicFuncs
      + bs.staticPrivateFuncs + bs.publicVars + bs.privateVars + bs.constructorDeclarations
      + bs.publicFuncs + bs.privateFuncs;
    JoinIsSortedMembers(members, cmp, bs);
    return Ok(sortedMembers);
  }

  lemma {:induction false} SortedUpToThenFrom(ms: seq<Member>, k: nat, cmp: Comparator)
    requires k <= 9
    ensures SortedUpTo(ms, k, cmp) + SortedFrom(ms, k + 1, cmp) == SortedMembers(ms, cmp)
    decreases 9 - k
  {
    if k < 9 {
      SortedUpToThenFrom(ms, k + 1, cmp);
      assert SortedUpTo(ms, k + 1, cmp) == SortedUpTo(ms, k, cmp) + SortedBucket(ms, k + 1, cmp);
      SortedFromStep(ms, k + 1, cmp);
      ConcatAssoc(SortedUpTo(ms, k, cmp), SortedBucket(ms, k + 1, cmp), SortedFrom(ms, k + 2, cmp));
    } else {
      assert SortedFrom(ms, 10, cmp) == [];
    }
  }

  /** `SortedMembers` read from the first bucket on. */
  lemma SortedMembersFrom(ms: seq<Member>, cmp: Comparator)
    ensures SortedMembers(ms, cmp) == SortedFrom(ms, 1, cmp)
  {
    SortedUpToThenFrom(ms, 0, cmp);
    assert [] + SortedFrom(ms, 1, cmp) == SortedFrom(ms, 1, cmp);
  }

  lemma SortedFromStep(ms: seq<Member>, k: nat, cmp: Comparator)
    requires 1 <= k <= 9
    ensures SortedFrom(ms, k, cmp) == SortedBucket(ms, k, cmp) + SortedFrom(ms, k + 1, cmp)
  {
  }

  /** Joining the sorted arrays in the order of lines 109-119 is `SortedMembers`. */
  lemma JoinIsSortedMembers(ms: seq<Member>, cmp: Comparator, bs: Buckets)
    requires forall b :: 1 <= b <= 9 ==> bs.At(b) == SortedBucket(ms, b, cmp)
    ensures bs.staticPublicVars + bs.staticPrivateVars + bs.staticPublicFuncs
      + bs.staticPrivateFuncs + bs.publicVars + bs.privateVars + bs.constructorDeclarations
      + bs.publicFuncs + bs.privateFuncs == SortedMembers(ms, cmp)
  {
    assert SortedUpTo(ms, 1, cmp) == bs.At(1);
    assert SortedUpTo(ms, 2, cmp) == SortedUpTo(ms, 1, cmp) + bs.At(2);
    assert SortedUpTo(ms, 3, cmp) == SortedUpTo(ms, 2, cmp) + bs.At(3);
    assert SortedUpTo(ms, 4, cmp) == SortedUpTo(ms, 3, cmp) + bs.At(4);
    assert SortedUpTo(ms, 5, cmp) == SortedUpTo(ms, 4, cmp) + bs.At(5);
    assert SortedUpTo(ms, 6, cmp) == SortedUpTo(ms, 5, cmp) + bs.At(6);
    assert SortedUpTo(ms, 7, cmp) == SortedUpTo(ms, 6, cmp) + bs.At(7);
    assert SortedUpTo(ms, 8, cmp) == SortedUpTo(ms, 7, cmp) + bs.At(8);
    assert SortedUpTo(ms, 9, cmp) == SortedUpTo(ms, 8, cmp) + bs.At(9);
    SortedUpToThenFrom(ms, 9, cmp);
    assert SortedFrom(ms, 10, cmp) == [];
  }
}
