/** What `sortClasses` guarantees for a whole file. */
module FileProps {
  import opened Outcomes
  import opened Members
  import opened Collation
  import opened ClassSort
  import opened ClassProps
  import opened FileSort

  /** Reordering never introduces an overloaded method. */
  lemma SortedMembersNoOverloads(ms: seq<Member>, cmp: Comparator)
    requires !HasOverloads(ms)
    ensures !HasOverloads(SortedMembers(ms, cmp))
  {
    var r := SortedMembers(ms, cmp);
    SortedMembersPermutes(ms, cmp);
    forall k | 0 <= k < |r| ensures !Overloaded(r[k]) {
      assert r[k] in r;
      var j :| 0 <= j < |ms| && ms[j] == r[k];
    }
  }

  /** Each class of a rewritten file keeps its name; an unchanged class is
      kept as it was, and a changed one now holds exactly its properties,
      methods and constructors, in the canonical order. */
  lemma RewrittenClasses(cs: FileContents, cmp: Comparator)
    requires Consistent(cmp)
    ensures forall i :: 0 <= i < |cs| ==> RewriteAll(cs, cmp)[i].name == cs[i].name
    ensures forall i :: 0 <= i < |cs| && !ClassChanged(cs[i].members, cmp) ==>
      RewriteAll(cs, cmp)[i] == cs[i]
    ensures forall i :: 0 <= i < |cs| && ClassChanged(cs[i].members, cmp) ==>
      && Canonical(RewriteAll(cs, cmp)[i].members, cmp)
      && (forall m :: m in RewriteAll(cs, cmp)[i].members <==> m in cs[i].members && m.kind != Other)
  {
    forall i | 0 <= i < |cs| && ClassChanged(cs[i].members, cmp)
      ensures Canonical(RewriteAll(cs, cmp)[i].members, cmp)
      ensures forall m :: m in RewriteAll(cs, cmp)[i].members <==> m in cs[i].members && m.kind != Other
    {
      SortedMembersCanonical(cs[i].members, cmp);
      SortedMembersPermutes(cs[i].members, cmp);
    }
  }

  /** A rewritten class is not rewritten again. */
  lemma RewriteClassSettles(c: ClassDecl, cmp: Comparator)
    requires Consistent(cmp)
    ensures !ClassChanged(RewriteClass(c, cmp).members, cmp)
    ensures !HasOverloads(c.members) ==> !HasOverloads(RewriteClass(c, cmp).members)
  {
    if ClassChanged(c.members, cmp) {
      RerunNotRewritten(c.members, cmp);
      if !HasOverloads(c.members) {
        SortedMembersNoOverloads(c.members, cmp);
      }
    }
  }

  /** Running the reorderer on the file it produced yields null. */
  lemma FileRerunIsNull(cs: FileContents, cmp: Comparator)
    requires Consistent(cmp)
    requires FileOutcome(cs, cmp).Ok? && FileOutcome(cs, cmp).value.Some?
    ensures FileOutcome(FileOutcome(cs, cmp).value.value, cmp) == Ok(None)
  {
    var g := RewriteAll(cs, cmp);
    forall i | 0 <= i < |g|
      ensures !ClassChanged(g[i].members, cmp) && !HasOverloads(g[i].members)
    {
      RewriteClassSettles(cs[i], cmp);
    }
  }

  /** A file whose classes are all canonical, with no overloads, yields null. */
  lemma CanonicalFileIsNull(cs: FileContents, cmp: Comparator)
    requires forall i :: 0 <= i < |cs| ==> Canonical(cs[i].members, cmp) && !HasOverloads(cs[i].members)
    ensures FileOutcome(cs, cmp) == Ok(None)
  {
    forall i | 0 <= i < |cs| ensures !ClassChanged(cs[i].members, cmp) {
      CanonicalNotRewritten(cs[i].members, cmp);
    }
  }

  /** A file with no overloads but an accessor (or other member of no
      bucket) in some class is always rewritten. */
  lemma OtherMemberForcesFileRewrite(cs: FileContents, cmp: Comparator, i: nat, k: nat)
    requires !AnyOverloads(cs)
    requires i < |cs| && k < |cs[i].members| && cs[i].members[k].kind == Other
    ensures FileOutcome(cs, cmp).Ok? && FileOutcome(cs, cmp).value.Some?
  {
    OtherForcesRewrite(cs[i].members, cmp, k);
  }

  /** A file of one class with no overloads: rewritten exactly when that
      class changed. */
  lemma OneClassFile(c: ClassDecl, cmp: Comparator)
    requires !HasOverloads(c.members)
    ensures FileOutcome([c], cmp) ==
      if ClassChanged(c.members, cmp) then Ok(Some([RewriteClass(c, cmp)])) else Ok(None)
  {
    assert [c][0] == c;
    if ClassChanged(c.members, cmp) {
      assert RewriteAll([c], cmp) == [RewriteClass(c, cmp)];
    }
  }
}
