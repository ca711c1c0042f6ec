/**
 * The configuration merge as the code carries it out. Where the target lacks an object the source
 * has, `target.to<JsonObject>()` first empties the whole target; everything merged so far is lost.
 */
module WrittenMerge {
  import opened Json
  import opened Options
  import M = Merge
  import Q = Sequences

  function Written(t: Members, s: Members): Members
    decreases s
  {
    match s
    case Nil => t
    case Cons(k, v, rest) =>
      if v.Obj? then
        var t1 := if HasObj(t, k) then t else Cons(k, Obj(Nil), Nil);
        Written(Set(t1, k, Obj(Written(Find(t1, k).value.members, v.members))), rest)
      else if Has(t, k) then Written(t, rest)
      else Written(Set(t, k, v), rest)
  }

  /** Every key at which the source has an object is an object in the target. */
  predicate Covers(t: Members, s: Members) {
    s.Nil? || ((s.value.Obj? ==> HasObj(t, s.key)) && Covers(t, s.rest))
  }

  /** What is left of the source: its last object, treated likewise, and the leaves after it. */
  function Collapse(s: Members): Members {
    match s
    case Nil => Nil
    case Cons(k, v, rest) =>
      if AnyObj(rest) then Collapse(rest)
      else if v.Obj? then Cons(k, Obj(Collapse(v.members)), rest)
      else s
  }

  lemma {:induction s} CoversSet(t: Members, k: string, v: Json, s: Members)
    requires !Has(s, k)
    ensures Covers(Set(t, k, v), s) <==> Covers(t, s)
  {
    if s.Cons? {
      FindSet(t, k, v, s.key);
      CoversSet(t, k, v, s.rest);
    }
  }

  lemma {:induction false} LeavesAppended(t: Members, s: Members)
    requires Unique(s) && !AnyObj(s) && forall q :: Has(s, q) ==> !Has(t, q)
    ensures Written(t, s) == Append(t, s)
    decreases s
  {
    if s.Nil? {
      AppendNil(t);
    } else {
      assert Has(s, s.key);
      forall q | Has(s.rest, q)
        ensures !Has(Set(t, s.key, s.value), q)
      {
        assert Has(s, q);
        FindSet(t, s.key, s.value, q);
      }
      LeavesAppended(Set(t, s.key, s.value), s.rest);
      SetAbsent(t, s.key, s.value);
      AppendAssoc(t, Cons(s.key, s.value, Nil), s.rest);
    }
  }

  lemma {:induction s} UncoveredHasObj(t: Members, s: Members)
    requires !Covers(t, s)
    ensures AnyObj(s)
  {}

  lemma OneKeyHasNoOther(k: string, v: Json, q: string)
    requires q != k
    ensures !Has(Cons(k, v, Nil), q)
  {
    assert Find(Nil, q) == None;
  }

  lemma {:induction false} OneKeyCoversNone(k: string, v: Json, s: Members)
    requires AnyObj(s) && !Has(s, k)
    ensures !Covers(Cons(k, v, Nil), s)
  {
    if s.value.Obj? {
      OneKeyHasNoOther(k, v, s.key);
    } else {
      OneKeyCoversNone(k, v, s.rest);
    }
  }

  lemma {:induction s} EmptyCoversNone(s: Members)
    requires AnyObj(s)
    ensures !Covers(Nil, s)
  {}

  /**
   * If the target lacks, at this level, any object the source has, nothing of the target survives: the
   * result is the source's last object, collapsed likewise, and the source's leaves after it.
   */
  lemma {:induction false} UncoveredCollapses(t: Members, s: Members)
    requires Unique(s) && !Covers(t, s)
    ensures Written(t, s) == Collapse(s)
    decreases s, 0
  {
    var k, v, rest := s.key, s.value, s.rest;
    if !v.Obj? {
      UncoveredHasObj(t, rest);
      CoversSet(t, k, v, rest);
      UncoveredCollapses(if Has(t, k) then t else Set(t, k, v), rest);
    } else if HasObj(t, k) {
      var v' := Obj(Written(Find(t, k).value.members, v.members));
      UncoveredHasObj(t, rest);
      CoversSet(t, k, v', rest);
      UncoveredCollapses(Set(t, k, v'), rest);
    } else {
      FromEmpty(v.members);
      var t' := Cons(k, Obj(Collapse(v.members)), Nil);
      if AnyObj(rest) {
        OneKeyCoversNone(k, t'.value, rest);
        UncoveredCollapses(t', rest);
      } else {
        forall q | Has(rest, q)
          ensures !Has(t', q)
        {
          OneKeyHasNoOther(k, t'.value, q);
        }
        LeavesAppended(t', rest);
      }
    }
  }

  /** Merging into an empty object collapses the source. */
  lemma {:induction false} FromEmpty(s: Members)
    requires Unique(s)
    ensures Written(Nil, s) == Collapse(s)
    decreases s, 1
  {
    if AnyObj(s) {
      EmptyCoversNone(s);
      UncoveredCollapses(Nil, s);
    } else {
      LeavesAppended(Nil, s);
      LeavesUncollapsed(s);
    }
  }

  lemma {:induction s} LeavesUncollapsed(s: Members)
    requires !AnyObj(s)
    ensures Collapse(s) == s
  {}

  // ---------- where the target covers the source ----------

  /** What the code makes of two values at one key of a covered target. */
  function BothWritten(x: Json, y: Json): Json {
    if x.Obj? && y.Obj? then Obj(Written(x.members, y.members)) else x
  }

  function CombineWritten(x: Option<Json>, y: Option<Json>): Option<Json> {
    if x.None? then y else if y.None? then x else Some(BothWritten(x.value, y.value))
  }

  function WrittenTurn(t: Members, k: string, v: Json): Members {
    Set(t, k, if Has(t, k) then BothWritten(Find(t, k).value, v) else v)
  }

  lemma TurnIsWrittenStep(t: Members, s: Members)
    requires s.Cons? && Covers(t, s) && !Has(s.rest, s.key)
    ensures Written(t, s) == Written(WrittenTurn(t, s.key, s.value), s.rest)
    ensures Covers(WrittenTurn(t, s.key, s.value), s.rest)
  {
    if Has(t, s.key) && !s.value.Obj? {
      SetSame(t, s.key);
    }
    CoversSet(t, s.key, if Has(t, s.key) then BothWritten(Find(t, s.key).value, s.value) else s.value, s.rest);
  }

  lemma {:induction false} FindWritten(t: Members, s: Members, q: string)
    requires Unique(s) && Covers(t, s)
    ensures Find(Written(t, s), q) == CombineWritten(Find(t, q), Find(s, q))
    decreases s
  {
    if s.Cons? {
      TurnIsWrittenStep(t, s);
      FindWritten(WrittenTurn(t, s.key, s.value), s.rest, q);
      FindSet(t, s.key, if Has(t, s.key) then BothWritten(Find(t, s.key).value, s.value) else s.value, q);
    }
  }

  lemma {:induction false} KeysWritten(t: Members, s: Members)
    requires Unique(s) && Covers(t, s)
    ensures Keys(Written(t, s)) == Keys(t) + M.Absent(Keys(s), t)
    decreases s
  {
    if s.Cons? {
      var v := if Has(t, s.key) then BothWritten(Find(t, s.key).value, s.value) else s.value;
      TurnIsWrittenStep(t, s);
      KeysWritten(Set(t, s.key, v), s.rest);
      KeysSet(t, s.key, v);
      HasIsInKeys(s.rest, s.key);
      M.AbsentAfterSet(Keys(s.rest), t, s.key, v);
      assert Keys(s)[1..] == Keys(s.rest);
    } else {
      assert Keys(t) + [] == Keys(t);
    }
  }

  lemma {:induction s} CollapseUnique(s: Members)
    requires Unique(s)
    ensures Unique(Collapse(s))
  {}

  lemma {:induction false} WrittenUnique(t: Members, s: Members)
    requires Unique(t) && Unique(s)
    ensures Unique(Written(t, s))
    decreases s
  {
    if !Covers(t, s) {
      UncoveredCollapses(t, s);
      CollapseUnique(s);
    } else if s.Cons? {
      TurnIsWrittenStep(t, s);
      var v := if Has(t, s.key) then BothWritten(Find(t, s.key).value, s.value) else s.value;
      if Has(t, s.key) {
        UniqueFind(t, s.key);
        if s.value.Obj? {
          WrittenUnique(Find(t, s.key).value.members, s.value.members);
        }
      }
      UniqueSet(t, s.key, v);
      WrittenUnique(Set(t, s.key, v), s.rest);
    }
  }

  // ---------- exactly when the code does what it says ----------

  /** Objects occur only as first members, at every level. */
  predicate ObjectsFirst(s: Members) {
    s.Nil? || (!AnyObj(s.rest) && (s.value.Obj? ==> ObjectsFirst(s.value.members)))
  }

  /**
   * The code and its documentation agree on t and s. Either every object of the source meets an
   * object in the target, and they agree on each such pair; or the source is one object followed by
   * leaves, with objects only in first place inside, and the target is empty or starts with the same
   * key and goes on with an initial segment of those very leaves.
   */
  predicate Agree(t: Members, s: Members)
    decreases s, 1
  {
    if Covers(t, s) then AgreeBelow(t, s)
    else
      && s.value.Obj? && ObjectsFirst(s)
      && (t.Nil? || (t.key == s.key && Prefix(t.rest, s.rest)))
  }

  predicate AgreeBelow(t: Members, s: Members)
    requires Covers(t, s)
    decreases s, 0
  {
    s.Nil? || ((s.value.Obj? ==> Agree(Find(t, s.key).value.members, s.value.members)) && AgreeBelow(t, s.rest))
  }

  lemma {:induction s} AgreeBelowAt(t: Members, s: Members, q: string)
    requires Covers(t, s) && AgreeBelow(t, s) && HasObj(s, q)
    ensures HasObj(t, q) && Agree(Find(t, q).value.members, Find(s, q).value.members)
  {}

  lemma {:induction s} CoversAt(t: Members, s: Members, q: string)
    requires Covers(t, s) && HasObj(s, q)
    ensures HasObj(t, q)
  {}

  lemma {:induction false} AgreeBelowFromAll(t: Members, s: Members)
    requires Unique(s) && Covers(t, s)
    requires forall q :: HasObj(s, q) ==> HasObj(t, q) && Agree(Find(t, q).value.members, Find(s, q).value.members)
    ensures AgreeBelow(t, s)
  {
    if s.Cons? {
      assert s.value.Obj? ==> HasObj(s, s.key);
      forall q | HasObj(s.rest, q)
        ensures HasObj(t, q) && Agree(Find(t, q).value.members, Find(s.rest, q).value.members)
      {
        assert HasObj(s, q) && Find(s, q) == Find(s.rest, q);
      }
      AgreeBelowFromAll(t, s.rest);
    }
  }

  function Length(ms: Members): nat {
    if ms.Nil? then 0 else 1 + Length(ms.rest)
  }

  lemma {:induction s} CollapseShortens(s: Members)
    ensures Length(Collapse(s)) <= Length(s)
  {}

  lemma {:induction false} CollapseFixedIff(s: Members)
    ensures Collapse(s) == s <==> ObjectsFirst(s)
    ensures Length(Collapse(s)) == Length(s) ==> s.Nil? || !AnyObj(s.rest)
    decreases s
  {
    if s.Cons? {
      CollapseShortens(s.rest);
      if AnyObj(s.rest) {
        assert Length(Collapse(s)) < Length(s);
      } else if s.value.Obj? {
        CollapseFixedIff(s.value.members);
      }
    }
  }

  lemma {:induction ms} LengthIsKeys(ms: Members)
    ensures |Keys(ms)| == Length(ms)
  {}

  lemma {:induction false} PrefixFinds(a: Members, b: Members, q: string)
    requires Prefix(a, b) && Has(a, q)
    ensures Find(b, q) == Find(a, q)
  {
    if a.key != q {
      PrefixFinds(a.rest, b.rest, q);
    }
  }

  lemma {:induction false} PrefixKeys(a: Members, b: Members)
    requires Prefix(a, b) && Unique(b)
    ensures Keys(a) + M.Absent(Keys(b), a) == Keys(b)
  {
    if a.Nil? {
      AbsentNothing(Keys(b), a);
    } else {
      PrefixKeys(a.rest, b.rest);
      HasIsInKeys(b.rest, a.key);
      AbsentUnder(Keys(b.rest), a.key, a.value, a.rest);
      assert Keys(b)[1..] == Keys(b.rest);
      assert M.Absent(Keys(b), a) == M.Absent(Keys(b.rest), a);
    }
  }

  lemma {:induction false} AbsentNothing(ks: seq<string>, t: Members)
    requires t.Nil?
    ensures M.Absent(ks, t) == ks
  {
    if ks != [] {
      AbsentNothing(ks[1..], t);
    }
  }

  lemma {:induction false} AbsentUnder(ks: seq<string>, k: string, v: Json, t: Members)
    requires k !in ks
    ensures M.Absent(ks, Cons(k, v, t)) == M.Absent(ks, t)
  {
    if ks != [] {
      AbsentUnder(ks[1..], k, v, t);
    }
  }

  /** A target whose keys start the source's and whose values are found there again starts the source. */
  lemma {:induction false} PrefixFromFinds(a: Members, b: Members)
    requires Unique(a) && Unique(b) && Keys(a) <= Keys(b)
    requires forall q :: Has(a, q) ==> Find(b, q) == Find(a, q)
    ensures Prefix(a, b)
  {
    if a.Cons? {
      assert Keys(a)[0] == Keys(b)[0] && Keys(a)[1..] == Keys(a.rest) && Keys(b)[1..] == Keys(b.rest);
      assert Has(a, a.key);
      forall q | Has(a.rest, q)
        ensures Find(b.rest, q) == Find(a.rest, q)
      {
        assert Has(a, q);
      }
      PrefixFromFinds(a.rest, b.rest);
    }
  }

  lemma {:induction s} LeafFinds(s: Members, q: string)
    requires !AnyObj(s)
    ensures !HasObj(s, q)
  {}

  /** Same first key, then a segment of the source's leaves: merged key by key this is the source. */
  lemma PrefixMergeFinds(t: Members, s: Members, q: string)
    requires Unique(t) && Unique(s) && t.Cons? && s.Cons? && s.value.Obj? && !t.value.Obj?
    requires t.key == s.key && Prefix(t.rest, s.rest) && !AnyObj(s.rest)
    ensures Find(M.Merge(t, s), q) == Find(s, q)
  {
    M.FindMerge(t, s, q);
    if q != s.key && Has(t.rest, q) {
      PrefixFinds(t.rest, s.rest, q);
      LeafFinds(s.rest, q);
    }
  }

  lemma PrefixMergeKeys(t: Members, s: Members)
    requires Unique(t) && Unique(s) && t.Cons? && s.Cons?
    requires t.key == s.key && Prefix(t.rest, s.rest)
    ensures Keys(M.Merge(t, s)) == Keys(s)
  {
    M.KeysMerge(t, s);
    PrefixKeys(t.rest, s.rest);
    HasIsInKeys(s.rest, s.key);
    AbsentUnder(Keys(s.rest), t.key, t.value, t.rest);
    SameFirstKey(t, s);
  }

  lemma SameFirstKey(t: Members, s: Members)
    requires t.Cons? && s.Cons? && t.key == s.key
    requires Keys(t.rest) + M.Absent(Keys(s.rest), t) == Keys(s.rest)
    ensures Keys(t) + M.Absent(Keys(s), t) == Keys(s)
  {
    AbsentSkips(s.key, Keys(s.rest), t);
    Prepended(s.key, Keys(t.rest), M.Absent(Keys(s.rest), t), Keys(s.rest));
  }

  lemma AbsentSkips(k: string, ks: seq<string>, t: Members)
    requires Has(t, k)
    ensures M.Absent([k] + ks, t) == M.Absent(ks, t)
  {
    assert ([k] + ks)[1..] == ks;
  }

  lemma Prepended(k: string, a: seq<string>, b: seq<string>, c: seq<string>)
    requires a + b == c
    ensures [k] + a + b == [k] + c
  {}

  /** The one uncovered case in which the intended merge, too, yields the source. */
  lemma UncoveredAgree(t: Members, s: Members)
    requires Unique(t) && Unique(s) && !Covers(t, s) && Agree(t, s)
    ensures M.Merge(t, s) == s && Collapse(s) == s
  {
    CollapseFixedIff(s);
    if t.Nil? {
      M.Identity(s);
    } else {
      CoveredLeaves(t, s.rest);
      forall q
        ensures Find(M.Merge(t, s), q) == Find(s, q)
      {
        PrefixMergeFinds(t, s, q);
      }
      PrefixMergeKeys(t, s);
      M.MergeUnique(t, s);
      Extensional(M.Merge(t, s), s);
    }
  }

  lemma {:induction s} CoveredLeaves(t: Members, s: Members)
    requires !AnyObj(s)
    ensures Covers(t, s)
  {}

  /** Where the target does not cover the source, code and documentation agree only in that case. */
  lemma UncoveredDisagree(t: Members, s: Members)
    requires Unique(t) && Unique(s) && !Covers(t, s) && Collapse(s) == M.Merge(t, s)
    ensures Agree(t, s)
  {
    M.KeysMerge(t, s);
    KeysCount(t, s);
    CollapseShortens(s);
    LengthIsKeys(Collapse(s));
    LengthIsKeys(s);
    CollapseFixedIff(s);
    CoveredLeaves(t, s.rest);
    assert s.value.Obj? && !HasObj(t, s.key);
    M.FindMerge(t, s, s.key);
    CollapseFixedIff(s.value.members);
    assert Collapse(s) == s;
    if t.Cons? {
      assert Keys(t) <= Keys(s);
      assert Keys(t)[0] == Keys(s)[0] && Keys(t)[1..] == Keys(t.rest) && Keys(s)[1..] == Keys(s.rest);
      forall q | Has(t.rest, q)
        ensures Find(s.rest, q) == Find(t.rest, q)
      {
        M.FindMerge(t, s, q);
        LeafFinds(s.rest, q);
        HasIsInKeys(t, q);
        HasIsInKeys(s, q);
      }
      PrefixFromFinds(t.rest, s.rest);
    }
  }

  /** The intended result has at least as many keys as the source. */
  lemma KeysCount(t: Members, s: Members)
    requires Unique(t) && Unique(s)
    ensures |Keys(M.Merge(t, s))| >= |Keys(s)|
  {
    M.KeysMerge(t, s);
    M.MergeUnique(t, s);
    DistinctKeys(s);
    forall k | k in Keys(s)
      ensures k in Keys(M.Merge(t, s))
    {
      HasIsInKeys(s, k);
      M.FindMerge(t, s, k);
      HasIsInKeys(M.Merge(t, s), k);
    }
    Q.Pigeonhole(Keys(s), Keys(M.Merge(t, s)));
  }

  lemma {:induction false} DistinctKeys(ms: Members)
    requires Unique(ms)
    ensures Q.Distinct(Keys(ms))
  {
    if ms.Cons? {
      DistinctKeys(ms.rest);
      HasIsInKeys(ms.rest, ms.key);
      assert Keys(ms)[1..] == Keys(ms.rest);
    }
  }

  /** The code does what its documentation says if and only if `Agree` holds. */
  lemma {:induction false} CodeMeetsDocumentationIff(t: Members, s: Members)
    requires Unique(t) && Unique(s)
    ensures Written(t, s) == M.Merge(t, s) <==> Agree(t, s)
    decreases s
  {
    if !Covers(t, s) {
      UncoveredCollapses(t, s);
      if Agree(t, s) {
        UncoveredAgree(t, s);
      } else if Collapse(s) == M.Merge(t, s) {
        UncoveredDisagree(t, s);
      }
    } else {
      forall q | HasObj(s, q)
        ensures HasObj(t, q)
        ensures var x, y := Find(t, q).value.members, Find(s, q).value.members;
                Written(x, y) == M.Merge(x, y) <==> Agree(x, y)
      {
        CoversAt(t, s, q);
        FindSmaller(s, q);
        UniqueFind(t, q);
        UniqueFind(s, q);
        CodeMeetsDocumentationIff(Find(t, q).value.members, Find(s, q).value.members);
      }
      CoveredAgreeIff(t, s);
    }
  }

  lemma CoveredAgreeIff(t: Members, s: Members)
    requires Unique(t) && Unique(s) && Covers(t, s)
    requires forall q :: HasObj(s, q) ==>
               && HasObj(t, q)
               && var x, y := Find(t, q).value.members, Find(s, q).value.members;
                  Written(x, y) == M.Merge(x, y) <==> Agree(x, y)
    ensures Written(t, s) == M.Merge(t, s) <==> AgreeBelow(t, s)
  {
    if AgreeBelow(t, s) {
      forall q
        ensures Find(Written(t, s), q) == Find(M.Merge(t, s), q)
      {
        FindWritten(t, s, q);
        M.FindMerge(t, s, q);
        if HasObj(s, q) {
          AgreeBelowAt(t, s, q);
        }
      }
      KeysWritten(t, s);
      M.KeysMerge(t, s);
      WrittenUnique(t, s);
      M.MergeUnique(t, s);
      Extensional(Written(t, s), M.Merge(t, s));
    }
    if Written(t, s) == M.Merge(t, s) {
      forall q | HasObj(s, q)
        ensures HasObj(t, q) && Agree(Find(t, q).value.members, Find(s, q).value.members)
      {
        FindWritten(t, s, q);
        M.FindMerge(t, s, q);
      }
      AgreeBelowFromAll(t, s);
    }
  }

  /** With nothing in the target, code and documentation agree if and only if objects come first at every level. */
  lemma AgreeWithEmptyIff(s: Members)
    ensures Agree(Nil, s) <==> ObjectsFirst(s)
  {
    if !AnyObj(s) {
      CoveredLeaves(Nil, s);
      LeavesAgree(s);
    } else {
      EmptyCoversNone(s);
    }
  }

  lemma {:induction s} LeavesAgree(s: Members)
    requires !AnyObj(s)
    ensures Covers(Nil, s) && AgreeBelow(Nil, s) && ObjectsFirst(s)
  {}

  // ---------- an object merged with itself ----------

  lemma {:induction false} CoversFromAll(t: Members, s: Members)
    requires Unique(s) && forall q :: HasObj(s, q) ==> HasObj(t, q)
    ensures Covers(t, s)
  {
    if s.Cons? {
      assert s.value.Obj? ==> HasObj(s, s.key);
      forall q | HasObj(s.rest, q)
        ensures HasObj(t, q)
      {
        assert HasObj(s, q);
      }
      CoversFromAll(t, s.rest);
    }
  }

  /** The coded merge of an object with itself changes nothing, at any depth. */
  lemma {:induction false} SelfAgrees(s: Members)
    requires Unique(s)
    ensures Agree(s, s) && Written(s, s) == s
    decreases s
  {
    CoversFromAll(s, s);
    forall q | HasObj(s, q)
      ensures Agree(Find(s, q).value.members, Find(s, q).value.members)
    {
      FindSmaller(s, q);
      UniqueFind(s, q);
      SelfAgrees(Find(s, q).value.members);
    }
    AgreeBelowFromAll(s, s);
    CodeMeetsDocumentationIff(s, s);
    M.Idempotent(s);
  }
}
