/** Class members as the reorderer sees them, and the nine buckets into
    which the classification loop of `sortClasses` puts them. */
module Members {

  /** The syntax kinds the classification loop tests for; `Other` is every
      remaining class member kind (get/set accessors, index signatures,
      static blocks), which none of its branches handles. */
  datatype Kind = Property | Method | Constructor | Other

  /** One member of a class declaration: its kind, its name, whether it is
      static, whether its scope is `private` (public, protected and no
      modifier are all "not private"), and how many overload signatures
      it has. */
  datatype Member = Member(kind: Kind, name: string, isStatic: bool, isPrivate: bool, overloadCount: nat)

  /** A method with at least one overload signature: the reorderer refuses it. */
  predicate Overloaded(m: Member) {
    m.kind == Method && m.overloadCount > 0
  }

  /** Some member of the class is a method with overloads. */
  predicate HasOverloads(ms: seq<Member>) {
    exists i :: 0 <= i < |ms| && Overloaded(ms[i])
  }

  /** `getNameCustom`: constructors all carry the same name. */
  function NameCustom(m: Member): string {
    if m.kind == Constructor then "Constructor" else m.name
  }

  /** The name projection the change detector compares. */
  function Names(ms: seq<Member>): (r: seq<string>)
    ensures |r| == |ms|
    ensures forall i :: 0 <= i < |ms| ==> r[i] == NameCustom(ms[i])
  {
    if ms == [] then [] else [NameCustom(ms[0])] + Names(ms[1..])
  }

  /** The bucket, numbered 1 to 9 in the order the buckets are concatenated,
      into which the classification loop pushes `m`; 0 when it pushes it
      nowhere. */
  function Bucket(m: Member): (b: nat)
    ensures b <= 9
    ensures b == 0 <==> m.kind == Other
    ensures b == 7 <==> m.kind == Constructor
  {
    match m.kind
    case Property =>
      if m.isStatic then (if m.isPrivate then 2 else 1)
      else (if m.isPrivate then 6 else 5)
    case Constructor => 7
    case Method =>
      if m.isStatic then (if m.isPrivate then 4 else 3)
      else (if m.isPrivate then 9 else 8)
    case Other => 0
  }

  /** What places a member: variables and functions by static-ness and
      privacy; constructors whatever their flags say. */
  datatype Slot = Vars(isStatic: bool, isPrivate: bool) | Ctors | Funcs(isStatic: bool, isPrivate: bool)

  function SlotOf(m: Member): Slot
    requires m.kind != Other
  {
    match m.kind
    case Property => Vars(m.isStatic, m.isPrivate)
    case Method => Funcs(m.isStatic, m.isPrivate)
    case Constructor => Ctors
  }

  /** The nine buckets in the order in which `sortedMembers` joins them. */
  const Layout: seq<Slot> := [
    Vars(true, false), Vars(true, true), Funcs(true, false), Funcs(true, true),
    Vars(false, false), Vars(false, true), Ctors, Funcs(false, false), Funcs(false, true)
  ]

  /** Each property, method or constructor lands in exactly one bucket: the
      one whose position in the joining order describes its kind,
      static-ness and privacy. */
  lemma BucketIsLayoutPosition(m: Member)
    requires m.kind != Other
    ensures 1 <= Bucket(m) <= |Layout|
    ensures forall i :: 0 <= i < |Layout| ==> (Layout[i] == SlotOf(m) <==> i == Bucket(m) - 1)
  {
  }

  /** The members of `ms` in bucket `b`, in their order in `ms`. */
  function InBucket(ms: seq<Member>, b: nat): seq<Member>
  {
    if ms == [] then []
    else (if Bucket(ms[0]) == b then [ms[0]] else []) + InBucket(ms[1..], b)
  }

  /** The members of `ms` whose bucket is `b` or later, in their order in `ms`. */
  function FromBucket(ms: seq<Member>, b: nat): seq<Member>
  {
    if ms == [] then []
    else (if b <= Bucket(ms[0]) then [ms[0]] else []) + FromBucket(ms[1..], b)
  }

  lemma {:induction false} InBucketConcat(s: seq<Member>, t: seq<Member>, b: nat)
    ensures InBucket(s + t, b) == InBucket(s, b) + InBucket(t, b)
  {
    if s == [] {
      assert s + t == t;
    } else {
      var st := s + t;
      assert st[0] == s[0];
      assert st[1..] == s[1..] + t;
      InBucketConcat(s[1..], t, b);
      var h := if Bucket(s[0]) == b then [s[0]] else [];
      assert InBucket(st, b) == h + InBucket(s[1..] + t, b);
      assert InBucket(s, b) == h + InBucket(s[1..], b);
      ConcatAssoc(h, InBucket(s[1..], b), InBucket(t, b));
    }
  }

  lemma ConcatAssoc<T>(a: seq<T>, x: seq<T>, y: seq<T>)
    ensures a + (x + y) == (a + x) + y
  {
  }

  /** Filtering a sequence that lies in one bucket keeps all or nothing. */
  lemma {:induction false} InBucketOfOneBucket(s: seq<Member>, c: nat, b: nat)
    requires forall m :: m in s ==> Bucket(m) == c
    ensures InBucket(s, b) == if b == c then s else []
  {
    if s != [] {
      assert s[0] in s;
      assert forall m :: m in s[1..] ==> m in s;
      InBucketOfOneBucket(s[1..], c, b);
      assert s == [s[0]] + s[1..];
    }
  }

  /** `FromBucket(ms, b)` splits into bucket `b` and what comes after, as multisets. */
  lemma {:induction false} FromBucketSplit(ms: seq<Member>, b: nat)
    ensures multiset(FromBucket(ms, b)) == multiset(InBucket(ms, b)) + multiset(FromBucket(ms, b + 1))
  {
    if ms != [] {
      FromBucketSplit(ms[1..], b);
    }
  }

  /** Members appear in non-decreasing bucket order. */
  predicate BucketOrdered(ms: seq<Member>) {
    forall i, j :: 0 <= i < j < |ms| ==> Bucket(ms[i]) <= Bucket(ms[j])
  }

  /** In bucket order, a member of a lower bucket stands before one of a higher. */
  lemma OrderedPrecedence(ms: seq<Member>)
    requires BucketOrdered(ms)
    ensures forall i, j :: 0 <= i < |ms| && 0 <= j < |ms| && Bucket(ms[i]) < Bucket(ms[j]) ==> i < j
  {
  }

  /** When `ms` is already in bucket order, `FromBucket(ms, b)` splits into
      bucket `b` followed by what comes after, as sequences. */
  lemma {:induction false} FromBucketSplitOrdered(ms: seq<Member>, b: nat)
    requires BucketOrdered(ms)
    ensures FromBucket(ms, b) == InBucket(ms, b) + FromBucket(ms, b + 1)
  {
    if ms != [] {
      BucketOrderedTail(ms);
      FromBucketSplitOrdered(ms[1..], b);
      if Bucket(ms[0]) > b {
        LaterBuckets(ms, b);
      }
      FromBucketSplitStep(ms, b);
    }
  }

  /** In a bucket-ordered sequence that starts after bucket `b`, nothing is in `b`. */
  lemma LaterBuckets(ms: seq<Member>, b: nat)
    requires ms != [] && BucketOrdered(ms) && b < Bucket(ms[0])
    ensures InBucket(ms[1..], b) == []
  {
    var rest := ms[1..];
    forall m | m in rest ensures Bucket(m) != b {
      var j :| 0 <= j < |rest| && rest[j] == m;
      assert ms[j + 1] == m;
    }
    NoneInBucket(rest, b);
  }

  lemma FromBucketSplitStep(ms: seq<Member>, b: nat)
    requires ms != []
    requires FromBucket(ms[1..], b) == InBucket(ms[1..], b) + FromBucket(ms[1..], b + 1)
    requires b < Bucket(ms[0]) ==> InBucket(ms[1..], b) == []
    ensures FromBucket(ms, b) == InBucket(ms, b) + FromBucket(ms, b + 1)
  {
    if Bucket(ms[0]) < b {
      SplitStepBefore(ms, b);
    } else if Bucket(ms[0]) == b {
      SplitStepAt(ms, b);
    } else {
      SplitStepAfter(ms, b);
    }
  }

  lemma SplitStepBefore(ms: seq<Member>, b: nat)
    requires ms != [] && Bucket(ms[0]) < b
    requires FromBucket(ms[1..], b) == InBucket(ms[1..], b) + FromBucket(ms[1..], b + 1)
    ensures FromBucket(ms, b) == InBucket(ms, b) + FromBucket(ms, b + 1)
  {
    var rest := ms[1..];
    assert FromBucket(ms, b) == FromBucket(rest, b);
    assert InBucket(ms, b) == InBucket(rest, b);
    assert FromBucket(ms, b + 1) == FromBucket(rest, b + 1);
  }

  lemma SplitStepAt(ms: seq<Member>, b: nat)
    requires ms != [] && Bucket(ms[0]) == b
    requires FromBucket(ms[1..], b) == InBucket(ms[1..], b) + FromBucket(ms[1..], b + 1)
    ensures FromBucket(ms, b) == InBucket(ms, b) + FromBucket(ms, b + 1)
  {
    var m0, rest := ms[0], ms[1..];
    var x, y, z := FromBucket(rest, b), InBucket(rest, b), FromBucket(rest, b + 1);
    assert FromBucket(ms, b) == [m0] + x;
    assert InBucket(ms, b) == [m0] + y;
    assert FromBucket(ms, b + 1) == z;
    assert [m0] + (y + z) == ([m0] + y) + z;
  }

  lemma SplitStepAfter(ms: seq<Member>, b: nat)
    requires ms != [] && b < Bucket(ms[0])
    requires InBucket(ms[1..], b) == []
    requires FromBucket(ms[1..], b) == InBucket(ms[1..], b) + FromBucket(ms[1..], b + 1)
    ensures FromBucket(ms, b) == InBucket(ms, b) + FromBucket(ms, b + 1)
  {
    var m0, rest := ms[0], ms[1..];
    var x, z := FromBucket(rest, b), FromBucket(rest, b + 1);
    assert x == z;
    assert FromBucket(ms, b) == [m0] + x;
    assert InBucket(ms, b) == [];
    assert FromBucket(ms, b + 1) == [m0] + z;
  }

  lemma BucketOrderedTail(ms: seq<Member>)
    requires ms != [] && BucketOrdered(ms)
    ensures BucketOrdered(ms[1..])
  {
    var rest := ms[1..];
    forall i, j | 0 <= i < j < |rest| ensures Bucket(rest[i]) <= Bucket(rest[j]) {
      assert rest[i] == ms[i + 1] && rest[j] == ms[j + 1];
    }
  }

  lemma {:induction false} NoneInBucket(s: seq<Member>, b: nat)
    requires forall m :: m in s ==> Bucket(m) != b
    ensures InBucket(s, b) == []
  {
    if s != [] {
      assert s[0] in s;
      assert forall m :: m in s[1..] ==> m in s;
      NoneInBucket(s[1..], b);
    }
  }

  /** Only members of no bucket are missing from `FromBucket(ms, 1)`. */
  lemma {:induction false} FromFirstBucket(ms: seq<Member>)
    requires forall i :: 0 <= i < |ms| ==> ms[i].kind != Other
    ensures FromBucket(ms, 1) == ms
  {
    if ms != [] {
      FromFirstBucket(ms[1..]);
    }
  }

  /** Nothing is in a bucket past the ninth. */
  lemma {:induction false} FromPastLastBucket(ms: seq<Member>, b: nat)
    requires b > 9
    ensures FromBucket(ms, b) == []
  {
    if ms != [] {
      FromPastLastBucket(ms[1..], b);
    }
  }

  lemma {:induction false} InBucketMembers(ms: seq<Member>, b: nat)
    ensures forall m :: m in InBucket(ms, b) <==> m in ms && Bucket(m) == b
  {
    if ms != [] {
      InBucketMembers(ms[1..], b);
      assert ms == [ms[0]] + ms[1..];
    }
  }

  lemma {:induction false} FromBucketMembers(ms: seq<Member>, b: nat)
    ensures forall m :: m in FromBucket(ms, b) <==> m in ms && b <= Bucket(m)
  {
    if ms != [] {
      FromBucketMembers(ms[1..], b);
      assert ms == [ms[0]] + ms[1..];
    }
  }

  /** Appending one member adds it to its own bucket only. */
  lemma InBucketSnoc(s: seq<Member>, m: Member)
    ensures forall b :: InBucket(s + [m], b) == InBucket(s, b) + (if Bucket(m) == b then [m] else [])
  {
    forall b ensures InBucket(s + [m], b) == InBucket(s, b) + (if Bucket(m) == b then [m] else []) {
      InBucketConcat(s, [m], b);
      assert InBucket([m], b) == (if Bucket(m) == b then [m] else []) + InBucket([], b);
    }
  }
}
