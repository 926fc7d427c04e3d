/** The per-bucket ordering: `Array.prototype.sort` with a comparator built
    on `String.prototype.localeCompare`. The locale's collation itself is not
    modelled: the comparator is a parameter, assumed only to be consistent in
    the sense the ECMAScript 2019 `sort` (section 22.1.3.27) requires. */
module Collation {
  import opened Members

  /** `(a, b) => a.localeCompare(b)`: negative, zero or positive. */
  type Comparator = (string, string) -> int

  /** A consistent comparator: every string equals itself, the sign flips
      when the arguments are swapped, and "not after" is transitive.
      Together these make "not after" a total preorder. */
  ghost predicate Consistent(cmp: Comparator) {
    && (forall a :: cmp(a, a) == 0)
    && (forall a, b :: cmp(a, b) < 0 <==> cmp(b, a) > 0)
    && (forall a, b, c {:trigger cmp(a, b), cmp(b, c)} :: cmp(a, b) <= 0 && cmp(b, c) <= 0 ==> cmp(a, c) <= 0)
  }

  /** Names never decrease along `s`. */
  predicate NameSorted(s: seq<Member>, cmp: Comparator) {
    forall i, j :: 0 <= i < j < |s| ==> cmp(s[i].name, s[j].name) <= 0
  }

  /** Puts `x` after every member of `s` that does not compare after it. */
  function Insert(x: Member, s: seq<Member>, cmp: Comparator): seq<Member> {
    if s == [] then [x]
    else if cmp(s[0].name, x.name) <= 0 then [s[0]] + Insert(x, s[1..], cmp)
    else [x] + s
  }

  /** A stable sort by name: each member, taken in input order, goes after all
      members already placed that do not compare after it. */
  function SortByName(s: seq<Member>, cmp: Comparator): seq<Member> {
    if s == [] then [] else Insert(s[|s| - 1], SortByName(s[..|s| - 1], cmp), cmp)
  }

  lemma {:induction false} InsertPermutes(x: Member, s: seq<Member>, cmp: Comparator)
    ensures multiset(Insert(x, s, cmp)) == multiset(s) + multiset{x}
  {
    if s != [] && cmp(s[0].name, x.name) <= 0 {
      InsertPermutes(x, s[1..], cmp);
      assert s == [s[0]] + s[1..];
    }
  }

  /** A non-empty sequence is its front followed by its last element. */
  lemma SplitLast(s: seq<Member>)
    requires s != []
    ensures multiset(s) == multiset(s[..|s| - 1]) + multiset{s[|s| - 1]}
  {
    assert s == s[..|s| - 1] + [s[|s| - 1]];
  }

  /** The sort permutes its input: nothing is added, dropped or duplicated. */
  lemma {:induction false} SortByNamePermutes(s: seq<Member>, cmp: Comparator)
    ensures multiset(SortByName(s, cmp)) == multiset(s)
  {
    if s != [] {
      var init, last := s[..|s| - 1], s[|s| - 1];
      SortByNamePermutes(init, cmp);
      InsertPermutes(last, SortByName(init, cmp), cmp);
      SplitLast(s);
    }
  }

  /** The members of `s` whose name the comparator finds equal to `k`, in
      their order in `s`. */
  function NamedLike(s: seq<Member>, k: string, cmp: Comparator): seq<Member> {
    if s == [] then []
    else (if cmp(s[0].name, k) == 0 then [s[0]] else []) + NamedLike(s[1..], k, cmp)
  }

  lemma {:induction false} NamedLikeConcat(s: seq<Member>, t: seq<Member>, k: string, cmp: Comparator)
    ensures NamedLike(s + t, k, cmp) == NamedLike(s, k, cmp) + NamedLike(t, k, cmp)
  {
    if s == [] {
      assert s + t == t;
    } else {
      var c := if cmp(s[0].name, k) == 0 then [s[0]] else [];
      assert (s + t)[0] == s[0] && (s + t)[1..] == s[1..] + t;
      assert NamedLike(s + t, k, cmp) == c + NamedLike(s[1..] + t, k, cmp);
      NamedLikeConcat(s[1..], t, k, cmp);
      assert c + (NamedLike(s[1..], k, cmp) + NamedLike(t, k, cmp))
          == (c + NamedLike(s[1..], k, cmp)) + NamedLike(t, k, cmp);
    }
  }

  lemma SortedTail(s: seq<Member>, cmp: Comparator)
    requires s != [] && NameSorted(s, cmp)
    ensures NameSorted(s[1..], cmp)
  {
    var t := s[1..];
    forall i, j | 0 <= i < j < |t| ensures cmp(t[i].name, t[j].name) <= 0 {
      assert t[i] == s[i + 1] && t[j] == s[j + 1];
    }
  }

  /** A member that comes before all of a sorted sequence keeps it sorted. */
  lemma SortedCons(x: Member, s: seq<Member>, cmp: Comparator)
    requires NameSorted(s, cmp)
    requires forall m :: m in s ==> cmp(x.name, m.name) <= 0
    ensures NameSorted([x] + s, cmp)
  {
    var t := [x] + s;
    forall i, j | 0 <= i < j < |t| ensures cmp(t[i].name, t[j].name) <= 0 {
      if i == 0 {
        assert t[j] == s[j - 1] && t[j] in s;
      } else {
        assert t[i] == s[i - 1] && t[j] == s[j - 1];
      }
    }
  }

  /** Inserting into a sorted sequence keeps it sorted. */
  lemma {:induction false} InsertSorted(x: Member, s: seq<Member>, cmp: Comparator)
    requires Consistent(cmp)
    requires NameSorted(s, cmp)
    ensures NameSorted(Insert(x, s, cmp), cmp)
  {
    if s == [] {
    } else if cmp(s[0].name, x.name) <= 0 {
      SortedTail(s, cmp);
      InsertSorted(x, s[1..], cmp);
      InsertPermutes(x, s[1..], cmp);
      HeadBeforeInserted(x, s, cmp);
      SortedCons(s[0], Insert(x, s[1..], cmp), cmp);
    } else {
      InsertedBeforeAll(x, s, cmp);
      SortedCons(x, s, cmp);
    }
  }

  lemma HeadBeforeInserted(x: Member, s: seq<Member>, cmp: Comparator)
    requires NameSorted(s, cmp)
    requires s != [] && cmp(s[0].name, x.name) <= 0
    requires multiset(Insert(x, s[1..], cmp)) == multiset(s[1..]) + multiset{x}
    ensures forall m :: m in Insert(x, s[1..], cmp) ==> cmp(s[0].name, m.name) <= 0
  {
    var r := Insert(x, s[1..], cmp);
    forall m | m in r ensures cmp(s[0].name, m.name) <= 0 {
      assert m in multiset(r);
      if m != x {
        assert m in s[1..];
        var j :| 0 <= j < |s[1..]| && s[1..][j] == m;
        assert s[j + 1] == m;
      }
    }
  }

  lemma InsertedBeforeAll(x: Member, s: seq<Member>, cmp: Comparator)
    requires Consistent(cmp)
    requires NameSorted(s, cmp)
    requires s != [] && cmp(s[0].name, x.name) > 0
    ensures forall m :: m in s ==> cmp(x.name, m.name) <= 0
  {
    forall m | m in s ensures cmp(x.name, m.name) <= 0 {
      var j :| 0 <= j < |s| && s[j] == m;
      assert cmp(x.name, s[0].name) < 0;
      assert cmp(s[0].name, s[j].name) <= 0;
    }
  }

  /** The sort's result is sorted by name. */
  lemma {:induction false} SortByNameSorted(s: seq<Member>, cmp: Comparator)
    requires Consistent(cmp)
    ensures NameSorted(SortByName(s, cmp), cmp)
  {
    if s != [] {
      SortByNameSorted(s[..|s| - 1], cmp);
      InsertSorted(s[|s| - 1], SortByName(s[..|s| - 1], cmp), cmp);
    }
  }

  /** A member that no member of `s` compares after goes at the end. */
  lemma {:induction false} InsertAtEnd(x: Member, s: seq<Member>, cmp: Comparator)
    requires forall i :: 0 <= i < |s| ==> cmp(s[i].name, x.name) <= 0
    ensures Insert(x, s, cmp) == s + [x]
  {
    if s != [] {
      InsertAtEnd(x, s[1..], cmp);
      assert s == [s[0]] + s[1..];
    }
  }

  /** Sorting what is already sorted changes nothing. */
  lemma {:induction false} SortByNameOfSorted(s: seq<Member>, cmp: Comparator)
    requires NameSorted(s, cmp)
    ensures SortByName(s, cmp) == s
  {
    if s != [] {
      var init, last := s[..|s| - 1], s[|s| - 1];
      assert NameSorted(init, cmp) by {
        forall i, j | 0 <= i < j < |init| ensures cmp(init[i].name, init[j].name) <= 0 {
          assert init[i] == s[i] && init[j] == s[j];
        }
      }
      SortByNameOfSorted(init, cmp);
      forall i | 0 <= i < |init| ensures cmp(init[i].name, last.name) <= 0 {
        assert init[i] == s[i];
      }
      InsertAtEnd(last, init, cmp);
      assert s == init + [last];
    }
  }

  /** Inserting `x` into a sorted sequence places it after every member whose
      name equals its own: each class of equal names keeps its order. */
  lemma {:induction false} InsertStable(x: Member, s: seq<Member>, k: string, cmp: Comparator)
    requires Consistent(cmp)
    requires NameSorted(s, cmp)
    ensures NamedLike(Insert(x, s, cmp), k, cmp)
         == NamedLike(s, k, cmp) + (if cmp(x.name, k) == 0 then [x] else [])
  {
    if s == [] {
    } else if cmp(s[0].name, x.name) <= 0 {
      SortedTail(s, cmp);
      InsertStable(x, s[1..], k, cmp);
      InsertStablePast(x, s, k, cmp);
    } else {
      if cmp(x.name, k) == 0 {
        AfterEqualDiffers(x, s, k, cmp);
      }
      InsertStableBefore(x, s, k, cmp);
    }
  }

  lemma InsertStablePast(x: Member, s: seq<Member>, k: string, cmp: Comparator)
    requires s != [] && cmp(s[0].name, x.name) <= 0
    requires NamedLike(Insert(x, s[1..], cmp), k, cmp)
          == NamedLike(s[1..], k, cmp) + (if cmp(x.name, k) == 0 then [x] else [])
    ensures NamedLike(Insert(x, s, cmp), k, cmp)
         == NamedLike(s, k, cmp) + (if cmp(x.name, k) == 0 then [x] else [])
  {
    var extra := if cmp(x.name, k) == 0 then [x] else [];
    assert Insert(x, s, cmp) == [s[0]] + Insert(x, s[1..], cmp);
    assert s == [s[0]] + s[1..];
    ConsKeepsNamedLike(s[0], s[1..], Insert(x, s[1..], cmp), extra, k, cmp);
  }

  /** Putting the same member in front of `t` and of `u` keeps any relation
      between their `NamedLike` projections. */
  lemma ConsKeepsNamedLike(h: Member, t: seq<Member>, u: seq<Member>, extra: seq<Member>, k: string, cmp: Comparator)
    requires NamedLike(u, k, cmp) == NamedLike(t, k, cmp) + extra
    ensures NamedLike([h] + u, k, cmp) == NamedLike([h] + t, k, cmp) + extra
  {
    var c := if cmp(h.name, k) == 0 then [h] else [];
    var hu, ht := [h] + u, [h] + t;
    assert hu[0] == h && hu[1..] == u;
    assert ht[0] == h && ht[1..] == t;
    assert NamedLike(hu, k, cmp) == c + NamedLike(u, k, cmp);
    assert NamedLike(ht, k, cmp) == c + NamedLike(t, k, cmp);
    assert c + (NamedLike(t, k, cmp) + extra) == (c + NamedLike(t, k, cmp)) + extra;
  }

  lemma InsertStableBefore(x: Member, s: seq<Member>, k: string, cmp: Comparator)
    requires s != [] && cmp(s[0].name, x.name) > 0
    requires cmp(x.name, k) == 0 ==> NamedLike(s, k, cmp) == []
    ensures NamedLike(Insert(x, s, cmp), k, cmp)
         == NamedLike(s, k, cmp) + (if cmp(x.name, k) == 0 then [x] else [])
  {
    NamedLikeConcat([x], s, k, cmp);
  }

  /** Every member of a sorted `s` that starts after `x` compares after `x`,
      so none has a name equal to one equal to `x`'s. */
  lemma AfterEqualDiffers(x: Member, s: seq<Member>, k: string, cmp: Comparator)
    requires Consistent(cmp)
    requires NameSorted(s, cmp)
    requires s != [] && cmp(s[0].name, x.name) > 0
    requires cmp(x.name, k) == 0
    ensures NamedLike(s, k, cmp) == []
  {
    forall m | m in s ensures cmp(m.name, k) != 0 {
      var j :| 0 <= j < |s| && s[j] == m;
      assert cmp(s[0].name, m.name) <= 0;
    }
    NamedLikeNone(s, k, cmp);
  }

  lemma {:induction false} NamedLikeNone(s: seq<Member>, k: string, cmp: Comparator)
    requires forall m :: m in s ==> cmp(m.name, k) != 0
    ensures NamedLike(s, k, cmp) == []
  {
    if s != [] {
      assert s[0] in s;
      assert forall m :: m in s[1..] ==> m in s;
      NamedLikeNone(s[1..], k, cmp);
    }
  }

  /** The sort is stable: the members with any one name (up to the
      comparator) appear in the same relative order before and after. */
  lemma {:induction false} SortByNameStable(s: seq<Member>, k: string, cmp: Comparator)
    requires Consistent(cmp)
    ensures NamedLike(SortByName(s, cmp), k, cmp) == NamedLike(s, k, cmp)
  {
    if s != [] {
      var init, last := s[..|s| - 1], s[|s| - 1];
      assert s == init + [last];
      SortByNameStable(init, k, cmp);
      SortByNameSorted(init, cmp);
      InsertStable(last, SortByName(init, cmp), k, cmp);
      SortStableStep(init, last, k, cmp);
    }
  }

  lemma SortStableStep(init: seq<Member>, last: Member, k: string, cmp: Comparator)
    requires NamedLike(SortByName(init, cmp), k, cmp) == NamedLike(init, k, cmp)
    requires NamedLike(Insert(last, SortByName(init, cmp), cmp), k, cmp)
          == NamedLike(SortByName(init, cmp), k, cmp) + (if cmp(last.name, k) == 0 then [last] else [])
    ensures NamedLike(SortByName(init + [last], cmp), k, cmp) == NamedLike(init + [last], k, cmp)
  {
    var s := init + [last];
    assert s[..|s| - 1] == init && s[|s| - 1] == last;
    NamedLikeConcat(init, [last], k, cmp);
  }
}
