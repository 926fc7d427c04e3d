/** What the reordering of one class guarantees: it permutes the class's
    properties, methods and constructors and drops every other member; it
    puts buckets in order and names in order within each bucket; it keeps
    equal names, and constructors, in their input order; and it is a
    fixed point exactly on classes already in canonical order. */
module ClassProps {
  import opened Members
  import opened Collation
  import opened ClassSort

  lemma SortedBucketPermutes(ms: seq<Member>, b: nat, cmp: Comparator)
    ensures multiset(SortedBucket(ms, b, cmp)) == multiset(InBucket(ms, b))
    ensures forall m :: m in SortedBucket(ms, b, cmp) ==> m in ms && Bucket(m) == b
  {
    if b != 7 {
      SortByNamePermutes(InBucket(ms, b), cmp);
    }
    InBucketMembers(ms, b);
    forall m | m in SortedBucket(ms, b, cmp) ensures m in ms && Bucket(m) == b {
      assert m in multiset(SortedBucket(ms, b, cmp));
    }
  }

  lemma {:induction false} SortedFromPermutes(ms: seq<Member>, b: nat, cmp: Comparator)
    ensures multiset(SortedFrom(ms, b, cmp)) == multiset(FromBucket(ms, b))
    decreases 10 - b
  {
    if b > 9 {
      FromPastLastBucket(ms, b);
    } else {
      SortedFromPermutes(ms, b + 1, cmp);
      SortedBucketPermutes(ms, b, cmp);
      FromBucketSplit(ms, b);
    }
  }

  /** Every member of buckets `b` to 9 is in one of them. */
  lemma SortedFromBuckets(ms: seq<Member>, b: nat, cmp: Comparator)
    ensures forall m :: m in SortedFrom(ms, b, cmp) ==> m in ms && b <= Bucket(m)
  {
    SortedFromPermutes(ms, b, cmp);
    FromBucketMembers(ms, b);
    forall m | m in SortedFrom(ms, b, cmp) ensures m in ms && b <= Bucket(m) {
      assert m in multiset(SortedFrom(ms, b, cmp));
    }
  }

  /** `sortedMembers` is a permutation of the class's properties, methods
      and constructors: nothing is added or duplicated, and the only
      members dropped are those of no bucket. */
  lemma SortedMembersPermutes(ms: seq<Member>, cmp: Comparator)
    ensures multiset(SortedMembers(ms, cmp)) == multiset(FromBucket(ms, 1))
    ensures forall m :: m in SortedMembers(ms, cmp) <==> m in ms && m.kind != Other
    ensures (forall i :: 0 <= i < |ms| ==> ms[i].kind != Other) ==>
      multiset(SortedMembers(ms, cmp)) == multiset(ms)
  {
    SortedMembersFrom(ms, cmp);
    SortedFromPermutes(ms, 1, cmp);
    FromBucketMembers(ms, 1);
    forall m ensures m in SortedMembers(ms, cmp) <==> m in ms && m.kind != Other {
      assert m in SortedMembers(ms, cmp) <==> m in multiset(SortedMembers(ms, cmp));
      assert m in FromBucket(ms, 1) <==> m in multiset(FromBucket(ms, 1));
    }
    if forall i :: 0 <= i < |ms| ==> ms[i].kind != Other {
      FromFirstBucket(ms);
    }
  }

  /** One bucket followed by later, ordered buckets is in bucket order. */
  lemma ConcatBucketOrdered(x: seq<Member>, y: seq<Member>, b: nat)
    requires forall m :: m in x ==> Bucket(m) == b
    requires forall m :: m in y ==> b < Bucket(m)
    requires BucketOrdered(y)
    ensures BucketOrdered(x + y)
  {
    var r := x + y;
    forall i, j | 0 <= i < j < |r| ensures Bucket(r[i]) <= Bucket(r[j]) {
      if j < |x| {
        assert r[i] in x && r[j] in x;
      } else if i < |x| {
        assert r[i] in x && r[j] == y[j - |x|] && y[j - |x|] in y;
      } else {
        assert r[i] == y[i - |x|] && r[j] == y[j - |x|];
      }
    }
  }

  lemma ConcatBucketNameSorted(x: seq<Member>, y: seq<Member>, b: nat, cmp: Comparator)
    requires forall m :: m in x ==> Bucket(m) == b
    requires forall m :: m in y ==> b < Bucket(m)
    requires b != 7 ==> NameSorted(x, cmp)
    requires BucketNameSorted(y, cmp)
    ensures BucketNameSorted(x + y, cmp)
  {
    var r := x + y;
    forall i, j | 0 <= i < j < |r| && Bucket(r[i]) == Bucket(r[j]) != 7
      ensures cmp(r[i].name, r[j].name) <= 0
    {
      if j < |x| {
        assert r[i] == x[i] && r[j] == x[j] && x[i] in x;
      } else if i < |x| {
        assert false;
      } else {
        assert r[i] == y[i - |x|] && r[j] == y[j - |x|];
      }
    }
  }

  lemma {:induction false} SortedFromOrdered(ms: seq<Member>, b: nat, cmp: Comparator)
    ensures BucketOrdered(SortedFrom(ms, b, cmp))
    decreases 10 - b
  {
    if b <= 9 {
      SortedFromOrdered(ms, b + 1, cmp);
      SortedBucketPermutes(ms, b, cmp);
      SortedFromBuckets(ms, b + 1, cmp);
      ConcatBucketOrdered(SortedBucket(ms, b, cmp), SortedFrom(ms, b + 1, cmp), b);
    }
  }

  lemma {:induction false} SortedFromNameSorted(ms: seq<Member>, b: nat, cmp: Comparator)
    requires Consistent(cmp)
    ensures BucketNameSorted(SortedFrom(ms, b, cmp), cmp)
    decreases 10 - b
  {
    if b <= 9 {
      SortedFromNameSorted(ms, b + 1, cmp);
      SortedBucketPermutes(ms, b, cmp);
      SortedFromBuckets(ms, b + 1, cmp);
      if b != 7 {
        SortByNameSorted(InBucket(ms, b), cmp);
      }
      ConcatBucketNameSorted(SortedBucket(ms, b, cmp), SortedFrom(ms, b + 1, cmp), b, cmp);
    }
  }

  /** Bucket precedence: a member of an earlier bucket comes before every
      member of a later one. */
  lemma BucketPrecedence(ms: seq<Member>, cmp: Comparator)
    ensures var r := SortedMembers(ms, cmp);
      forall i, j :: 0 <= i < |r| && 0 <= j < |r| && Bucket(r[i]) < Bucket(r[j]) ==> i < j
  {
    var r := SortedMembers(ms, cmp);
    SortedMembersFrom(ms, cmp);
    SortedFromOrdered(ms, 1, cmp);
    OrderedPrecedence(r);
  }

  /** Within each bucket but the constructors', names never decrease. */
  lemma NamesOrderedWithinBuckets(ms: seq<Member>, cmp: Comparator)
    requires Consistent(cmp)
    ensures var r := SortedMembers(ms, cmp);
      forall i, j :: 0 <= i < j < |r| && Bucket(r[i]) == Bucket(r[j]) != 7 ==>
        cmp(r[i].name, r[j].name) <= 0
  {
    SortedMembersFrom(ms, cmp);
    SortedFromNameSorted(ms, 1, cmp);
  }

  /** Taking bucket `b` out of the joined buckets `c` to 9 gives back the
      sorted bucket `b`, if `b` is among them, and nothing otherwise. */
  lemma {:induction false} BucketOfSortedFrom(ms: seq<Member>, c: nat, b: nat, cmp: Comparator)
    requires 1 <= c
    ensures InBucket(SortedFrom(ms, c, cmp), b) == if c <= b <= 9 then SortedBucket(ms, b, cmp) else []
    decreases 10 - c
  {
    if c <= 9 {
      BucketOfSortedFrom(ms, c + 1, b, cmp);
      SortedBucketPermutes(ms, c, cmp);
      InBucketConcat(SortedBucket(ms, c, cmp), SortedFrom(ms, c + 1, cmp), b);
      InBucketOfOneBucket(SortedBucket(ms, c, cmp), c, b);
    }
  }

  /** Each bucket of `sortedMembers` holds what the sorting step left in it. */
  lemma BucketOfSortedMembers(ms: seq<Member>, b: nat, cmp: Comparator)
    requires 1 <= b <= 9
    ensures InBucket(SortedMembers(ms, cmp), b) == SortedBucket(ms, b, cmp)
  {
    SortedMembersFrom(ms, cmp);
    BucketOfSortedFrom(ms, 1, b, cmp);
  }

  /** Stability: in every sorted bucket, the members whose names compare
      equal keep their input order. */
  lemma EqualNamesKeepOrder(ms: seq<Member>, b: nat, k: string, cmp: Comparator)
    requires Consistent(cmp)
    requires 1 <= b <= 9 && b != 7
    ensures NamedLike(InBucket(SortedMembers(ms, cmp), b), k, cmp) == NamedLike(InBucket(ms, b), k, cmp)
  {
    BucketOfSortedMembers(ms, b, cmp);
    SortByNameStable(InBucket(ms, b), k, cmp);
  }

  /** The constructor bucket is never sorted: constructors keep their input order. */
  lemma ConstructorsKeepOrder(ms: seq<Member>, cmp: Comparator)
    ensures InBucket(SortedMembers(ms, cmp), 7) == InBucket(ms, 7)
  {
    BucketOfSortedMembers(ms, 7, cmp);
  }

  /** Reordering a reordered class gives the same sequence again. */
  lemma SortedMembersIdempotent(ms: seq<Member>, cmp: Comparator)
    requires Consistent(cmp)
    ensures SortedMembers(SortedMembers(ms, cmp), cmp) == SortedMembers(ms, cmp)
  {
    var r := SortedMembers(ms, cmp);
    forall b | 1 <= b <= 9 ensures SortedBucket(r, b, cmp) == SortedBucket(ms, b, cmp) {
      BucketOfSortedMembers(ms, b, cmp);
      if b != 7 {
        SortByNameSorted(InBucket(ms, b), cmp);
        SortByNameOfSorted(SortByName(InBucket(ms, b), cmp), cmp);
      }
    }
    SortedMembersFrom(r, cmp);
    SortedMembersFrom(ms, cmp);
    SameBucketsSameJoin(r, ms, 1, cmp);
  }

  lemma {:induction false} SameBucketsSameJoin(r: seq<Member>, ms: seq<Member>, b: nat, cmp: Comparator)
    requires forall c :: b <= c <= 9 ==> SortedBucket(r, c, cmp) == SortedBucket(ms, c, cmp)
    ensures SortedFrom(r, b, cmp) == SortedFrom(ms, b, cmp)
    decreases 10 - b
  {
    if b <= 9 {
      SameBucketsSameJoin(r, ms, b + 1, cmp);
    }
  }

  lemma BucketNameSortedTail(ms: seq<Member>, cmp: Comparator)
    requires ms != [] && BucketNameSorted(ms, cmp)
    ensures BucketNameSorted(ms[1..], cmp)
  {
    var t := ms[1..];
    forall i, j | 0 <= i < j < |t| && Bucket(t[i]) == Bucket(t[j]) != 7
      ensures cmp(t[i].name, t[j].name) <= 0
    {
      assert t[i] == ms[i + 1] && t[j] == ms[j + 1];
    }
  }

  /** In a class sorted within buckets, each bucket but the constructors'
      is sorted by name. */
  lemma {:induction false} BucketSortedOfCanonical(ms: seq<Member>, b: nat, cmp: Comparator)
    requires BucketNameSorted(ms, cmp)
    requires b != 7
    ensures NameSorted(InBucket(ms, b), cmp)
  {
    if ms != [] {
      BucketNameSortedTail(ms, cmp);
      BucketSortedOfCanonical(ms[1..], b, cmp);
      if Bucket(ms[0]) == b {
        InBucketMembers(ms[1..], b);
        forall m | m in InBucket(ms[1..], b) ensures cmp(ms[0].name, m.name) <= 0 {
          var j :| 0 <= j < |ms[1..]| && ms[1..][j] == m;
          assert ms[j + 1] == m;
        }
        SortedCons(ms[0], InBucket(ms[1..], b), cmp);
      }
    }
  }

  lemma {:induction false} SortedFromOfCanonical(ms: seq<Member>, b: nat, cmp: Comparator)
    requires BucketOrdered(ms) && BucketNameSorted(ms, cmp)
    requires 1 <= b
    ensures SortedFrom(ms, b, cmp) == FromBucket(ms, b)
    decreases 10 - b
  {
    if b > 9 {
      FromPastLastBucket(ms, b);
    } else {
      SortedFromOfCanonical(ms, b + 1, cmp);
      if b != 7 {
        BucketSortedOfCanonical(ms, b, cmp);
        SortByNameOfSorted(InBucket(ms, b), cmp);
      }
      FromBucketSplitOrdered(ms, b);
    }
  }

  /** A class already in canonical order is its own reordering. */
  lemma CanonicalIsFixedPoint(ms: seq<Member>, cmp: Comparator)
    requires Canonical(ms, cmp)
    ensures SortedMembers(ms, cmp) == ms
  {
    SortedMembersFrom(ms, cmp);
    SortedFromOfCanonical(ms, 1, cmp);
    FromFirstBucket(ms);
  }

  /** The reordering of any class is in canonical order. */
  lemma SortedMembersCanonical(ms: seq<Member>, cmp: Comparator)
    requires Consistent(cmp)
    ensures Canonical(SortedMembers(ms, cmp), cmp)
  {
    var r := SortedMembers(ms, cmp);
    SortedMembersPermutes(ms, cmp);
    assert forall i :: 0 <= i < |r| ==> r[i] in r;
    SortedMembersFrom(ms, cmp);
    SortedFromOrdered(ms, 1, cmp);
    SortedFromNameSorted(ms, 1, cmp);
  }

  /** The reordering leaves a class as it is exactly when the class is
      already in canonical order. */
  lemma FixedPointIffCanonical(ms: seq<Member>, cmp: Comparator)
    requires Consistent(cmp)
    ensures SortedMembers(ms, cmp) == ms <==> Canonical(ms, cmp)
  {
    if Canonical(ms, cmp) {
      CanonicalIsFixedPoint(ms, cmp);
    }
    if SortedMembers(ms, cmp) == ms {
      SortedMembersCanonical(ms, cmp);
    }
  }

  /** `x` and `y` both occur in `r`, and every occurrence of `x` comes
      before every occurrence of `y`. */
  predicate Precedes(r: seq<Member>, x: Member, y: Member) {
    x in r && y in r && forall i, j :: 0 <= i < |r| && 0 <= j < |r| && r[i] == x && r[j] == y ==> i < j
  }

  /** Two members of different buckets come out in bucket order, whatever
      their order in the class. */
  lemma MemberPrecedes(ms: seq<Member>, cmp: Comparator, x: Member, y: Member)
    requires x in ms && y in ms && x.kind != Other && y.kind != Other
    requires Bucket(x) < Bucket(y)
    ensures Precedes(SortedMembers(ms, cmp), x, y)
  {
    SortedMembersPermutes(ms, cmp);
    BucketPrecedence(ms, cmp);
  }

  /** A member alone in the lowest occupied bucket comes out first. */
  lemma LowestBucketFirst(ms: seq<Member>, cmp: Comparator, k: nat)
    requires k < |ms| && ms[k].kind != Other
    requires forall j :: 0 <= j < |ms| && j != k ==> ms[j].kind == Other || Bucket(ms[k]) < Bucket(ms[j])
    ensures |SortedMembers(ms, cmp)| > 0 && SortedMembers(ms, cmp)[0] == ms[k]
  {
    var r := SortedMembers(ms, cmp);
    assert ms[k] in ms;
    SortedMembersPermutes(ms, cmp);
    BucketPrecedence(ms, cmp);
    assert r[0] in ms;
    var j :| 0 <= j < |ms| && ms[j] == r[0];
    var i :| 0 <= i < |r| && r[i] == ms[k];
  }

  /** A class whose members all share one bucket other than the
      constructors' is simply sorted by name. */
  lemma OneBucketSortsByName(ms: seq<Member>, b: nat, cmp: Comparator)
    requires 1 <= b <= 9 && b != 7
    requires forall i :: 0 <= i < |ms| ==> Bucket(ms[i]) == b
    ensures SortedMembers(ms, cmp) == SortByName(ms, cmp)
  {
    var r := SortedMembers(ms, cmp);
    SortedMembersPermutes(ms, cmp);
    assert forall m :: m in ms ==> Bucket(m) == b;
    assert forall m :: m in r ==> Bucket(m) == b;
    InBucketOfOneBucket(ms, b, b);
    InBucketOfOneBucket(r, b, b);
    BucketOfSortedMembers(ms, b, cmp);
  }

  /** An already canonical class is not rewritten. */
  lemma CanonicalNotRewritten(ms: seq<Member>, cmp: Comparator)
    requires Canonical(ms, cmp)
    ensures !ClassChanged(ms, cmp)
  {
    CanonicalIsFixedPoint(ms, cmp);
  }

  /** Running the reorderer on its own output rewrites nothing. */
  lemma RerunNotRewritten(ms: seq<Member>, cmp: Comparator)
    requires Consistent(cmp)
    ensures !ClassChanged(SortedMembers(ms, cmp), cmp)
  {
    SortedMembersIdempotent(ms, cmp);
  }

  lemma {:induction false} FromBucketShorter(ms: seq<Member>, i: nat)
    requires i < |ms| && ms[i].kind == Other
    ensures |FromBucket(ms, 1)| < |ms|
  {
    if i == 0 {
      FromBucketNoLonger(ms[1..], 1);
    } else {
      FromBucketShorter(ms[1..], i - 1);
    }
  }

  lemma {:induction false} FromBucketNoLonger(ms: seq<Member>, b: nat)
    ensures |FromBucket(ms, b)| <= |ms|
  {
    if ms != [] {
      FromBucketNoLonger(ms[1..], b);
    }
  }

  /** A class with an accessor or any other member of no bucket is always
      rewritten, and the rewrite drops that member. */
  lemma OtherForcesRewrite(ms: seq<Member>, cmp: Comparator, i: nat)
    requires i < |ms| && ms[i].kind == Other
    ensures ClassChanged(ms, cmp)
    ensures ms[i] !in SortedMembers(ms, cmp)
  {
    SortedMembersPermutes(ms, cmp);
    FromBucketShorter(ms, i);
    assert |SortedMembers(ms, cmp)| == |FromBucket(ms, 1)| by {
      assert |multiset(SortedMembers(ms, cmp))| == |multiset(FromBucket(ms, 1))|;
    }
    assert |Names(ms)| != |Names(SortedMembers(ms, cmp))|;
  }

  lemma CollisionBuckets(c: Member, p: Member, cmp: Comparator)
    requires Bucket(c) == 7 && Bucket(p) == 5
    ensures forall b :: 1 <= b <= 9 && b != 5 && b != 7 ==> SortedBucket([c, p], b, cmp) == []
    ensures SortedBucket([c, p], 5, cmp) == [p]
    ensures SortedBucket([c, p], 7, cmp) == [c]
  {
    assert [c, p][1..] == [p] && [p][1..] == [];
    forall b | 1 <= b <= 9
      ensures SortedBucket([c, p], b, cmp) == if b == 5 then [p] else if b == 7 then [c] else []
    {
      assert InBucket([p], b) == (if b == 5 then [p] else []) + InBucket([], b);
      assert InBucket([c, p], b) == (if b == 7 then [c] else []) + InBucket([p], b);
      assert SortByName([], cmp) == [];
      assert SortByName([p], cmp) == [p] by {
        assert [p][..0] == [];
      }
    }
  }

  lemma SkipEmptyBucket(ms: seq<Member>, b: nat, cmp: Comparator)
    requires 1 <= b <= 9 && SortedBucket(ms, b, cmp) == []
    ensures SortedFrom(ms, b, cmp) == SortedFrom(ms, b + 1, cmp)
  {
    assert [] + SortedFrom(ms, b + 1, cmp) == SortedFrom(ms, b + 1, cmp);
  }

  lemma CollisionTail(ms: seq<Member>, c: Member, p: Member, cmp: Comparator)
    requires SortedBucket(ms, 5, cmp) == [p] && SortedBucket(ms, 6, cmp) == []
    requires SortedBucket(ms, 7, cmp) == [c] && SortedBucket(ms, 8, cmp) == []
    requires SortedBucket(ms, 9, cmp) == []
    ensures SortedFrom(ms, 5, cmp) == [p, c]
  {
    assert SortedFrom(ms, 10, cmp) == [];
    SkipEmptyBucket(ms, 9, cmp);
    SkipEmptyBucket(ms, 8, cmp);
    assert SortedFrom(ms, 7, cmp) == [c] + [];
    SkipEmptyBucket(ms, 6, cmp);
    assert SortedFrom(ms, 5, cmp) == [p] + [c];
  }

  lemma CollisionHead(ms: seq<Member>, cmp: Comparator)
    requires SortedBucket(ms, 1, cmp) == [] && SortedBucket(ms, 2, cmp) == []
    requires SortedBucket(ms, 3, cmp) == [] && SortedBucket(ms, 4, cmp) == []
    ensures SortedMembers(ms, cmp) == SortedFrom(ms, 5, cmp)
  {
    SortedMembersFrom(ms, cmp);
    SkipEmptyBucket(ms, 4, cmp);
    SkipEmptyBucket(ms, 3, cmp);
    SkipEmptyBucket(ms, 2, cmp);
    SkipEmptyBucket(ms, 1, cmp);
  }

  lemma CollisionJoin(ms: seq<Member>, c: Member, p: Member, cmp: Comparator)
    requires forall b :: 1 <= b <= 9 && b != 5 && b != 7 ==> SortedBucket(ms, b, cmp) == []
    requires SortedBucket(ms, 5, cmp) == [p]
    requires SortedBucket(ms, 7, cmp) == [c]
    ensures SortedMembers(ms, cmp) == [p, c]
  {
    CollisionHead(ms, cmp);
    CollisionTail(ms, c, p, cmp);
  }

  /** The change detector compares names only: a property named
      "Constructor" declared after the constructor must move before it, yet
      both orders project to the same names, so the class is not rewritten. */
  lemma NameCollisionHidesReorder(cmp: Comparator)
    ensures var ms := [Member(Constructor, "constructor", false, false, 0),
                       Member(Property, "Constructor", false, false, 0)];
      && !Canonical(ms, cmp)
      && SortedMembers(ms, cmp) == [ms[1], ms[0]]
      && !ClassChanged(ms, cmp)
  {
    var c, p := Member(Constructor, "constructor", false, false, 0), Member(Property, "Constructor", false, false, 0);
    var ms := [c, p];
    assert Bucket(c) == 7 && Bucket(p) == 5;
    assert !BucketOrdered(ms) by {
      assert Bucket(ms[0]) > Bucket(ms[1]);
    }
    CollisionBuckets(c, p, cmp);
    CollisionJoin(ms, c, p, cmp);
    assert Names([c, p]) == ["Constructor", "Constructor"];
    assert Names([p, c]) == ["Constructor", "Constructor"];
  }
  /** The change detector compares names only: two members of different
      buckets whose names coincide, declared in the wrong order, are swapped
      by the reordering, yet both orders project to the same names, so the
      class is not rewritten. */
  lemma EqualNamesHideReorder(ms: seq<Member>, cmp: Comparator)
    requires |ms| == 2 && ms[0].kind != Other && ms[1].kind != Other
    requires Bucket(ms[1]) < Bucket(ms[0]) && NameCustom(ms[0]) == NameCustom(ms[1])
    ensures !Canonical(ms, cmp)
    ensures SortedMembers(ms, cmp) == [ms[1], ms[0]]
    ensures !ClassChanged(ms, cmp)
  {
    assert !BucketOrdered(ms);
    PairSwapped(ms, cmp);
    assert ms == [ms[0], ms[1]];
    NamesOfPair(ms[0], ms[1]);
    NamesOfPair(ms[1], ms[0]);
  }

  /** Two members declared against bucket order trade places. */
  lemma PairSwapped(ms: seq<Member>, cmp: Comparator)
    requires |ms| == 2 && ms[0].kind != Other && ms[1].kind != Other
    requires Bucket(ms[1]) < Bucket(ms[0])
    ensures SortedMembers(ms, cmp) == [ms[1], ms[0]]
  {
    PairFacts(ms, cmp);
    PairInOrder(SortedMembers(ms, cmp), ms[1], ms[0]);
  }

  lemma PairFacts(ms: seq<Member>, cmp: Comparator)
    requires |ms| == 2 && ms[0].kind != Other && ms[1].kind != Other
    requires Bucket(ms[1]) < Bucket(ms[0])
    ensures multiset(SortedMembers(ms, cmp)) == multiset([ms[1], ms[0]])
    ensures Precedes(SortedMembers(ms, cmp), ms[1], ms[0])
  {
    assert forall i :: 0 <= i < |ms| ==> ms[i].kind != Other;
    WholeClassPermutes(ms, cmp);
    PairMultiset(ms);
    assert ms[0] in ms && ms[1] in ms;
    MemberPrecedes(ms, cmp, ms[1], ms[0]);
  }

  /** With no member of the unhandled kinds, `sortedMembers` is a
      permutation of the whole class. */
  lemma WholeClassPermutes(ms: seq<Member>, cmp: Comparator)
    requires forall i :: 0 <= i < |ms| ==> ms[i].kind != Other
    ensures multiset(SortedMembers(ms, cmp)) == multiset(ms)
  {
    SortedMembersPermutes(ms, cmp);
  }

  lemma PairMultiset(ms: seq<Member>)
    requires |ms| == 2
    ensures multiset(ms) == multiset([ms[1], ms[0]])
  {
    assert ms == [ms[0]] + [ms[1]];
  }

  /** A permutation of two distinct members in which `x` precedes `y`. */
  lemma PairInOrder(r: seq<Member>, x: Member, y: Member)
    requires x != y && multiset(r) == multiset([y, x]) && Precedes(r, x, y)
    ensures r == [x, y]
  {
    assert |r| == |multiset(r)| == 2;
    assert r[0] in multiset(r) && r[1] in multiset(r);
  }

  lemma NamesOfPair(x: Member, y: Member)
    ensures Names([x, y]) == [NameCustom(x), NameCustom(y)]
  {
    assert [x, y][1..] == [y];
  }
}
