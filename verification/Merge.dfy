/** The configuration merge as its documentation describes it: get or create, then recurse. */
module Merge {
  import opened Json
  import opened Options

  /** Walks the source's members: objects are merged into an object (created if need be), other keys are added if missing. */
  function Merge(t: Members, s: Members): Members
    decreases s
  {
    match s
    case Nil => t
    case Cons(k, v, rest) =>
      var t' :=
        if v.Obj? then Set(t, k, Obj(Merge(if HasObj(t, k) then Find(t, k).value.members else Nil, v.members)))
        else if Has(t, k) then t
        else Set(t, k, v);
      Merge(t', rest)
  }

  /** What two values at the same place become: an object beats a leaf, otherwise the target wins. */
  function Both(x: Json, y: Json): Json {
    if !y.Obj? then x else if x.Obj? then Obj(Merge(x.members, y.members)) else y
  }

  function Combine(x: Option<Json>, y: Option<Json>): Option<Json> {
    if x.None? then y else if y.None? then x else Some(Both(x.value, y.value))
  }

  /** The keys of ks that t lacks, in order. */
  function Absent(ks: seq<string>, t: Members): seq<string> {
    if ks == [] then []
    else if Has(t, ks[0]) then Absent(ks[1..], t)
    else [ks[0]] + Absent(ks[1..], t)
  }

  lemma {:induction false} MergeDisjoint(t: Members, s: Members)
    requires Unique(s) && forall k :: Has(s, k) ==> !Has(t, k)
    ensures Merge(t, s) == Append(t, s)
    decreases s
  {
    match s {
      case Nil => AppendNil(t);
      case Cons(k, v, rest) =>
        assert Has(s, k);
        if v.Obj? {
          MergeDisjoint(Nil, v.members);
        }
        var t' := Set(t, k, v);
        forall q | Has(rest, q)
          ensures !Has(t', q)
        {
          assert Has(s, q);
          FindSet(t, k, v, q);
        }
        MergeDisjoint(t', rest);
        SetAbsent(t, k, v);
        AppendAssoc(t, Cons(k, v, Nil), rest);
    }
  }

  /** The empty object is a left and a right identity. */
  lemma Identity(t: Members)
    requires Unique(t)
    ensures Merge(Nil, t) == t && Merge(t, Nil) == t
  {
    MergeDisjoint(Nil, t);
  }

  /** One turn of the walk. */
  function Turn(t: Members, k: string, v: Json): Members {
    Set(t, k, if Has(t, k) then Both(Find(t, k).value, v) else v)
  }

  lemma TurnIsMergeStep(t: Members, s: Members)
    requires Unique(t) && Unique(s) && s.Cons?
    ensures Merge(t, s) == Merge(Turn(t, s.key, s.value), s.rest)
  {
    if s.value.Obj? {
      Identity(s.value.members);
    } else if Has(t, s.key) {
      SetSame(t, s.key);
    }
  }

  lemma {:induction false} MergeUnique(t: Members, s: Members)
    requires Unique(t) && Unique(s)
    ensures Unique(Merge(t, s))
    decreases s
  {
    if s.Cons? {
      TurnIsMergeStep(t, s);
      if Has(t, s.key) {
        UniqueFind(t, s.key);
        if Find(t, s.key).value.Obj? && s.value.Obj? {
          MergeUnique(Find(t, s.key).value.members, s.value.members);
        }
        UniqueSet(t, s.key, Both(Find(t, s.key).value, s.value));
      } else {
        UniqueSet(t, s.key, s.value);
      }
      MergeUnique(Turn(t, s.key, s.value), s.rest);
    }
  }

  lemma TurnUnique(t: Members, k: string, v: Json)
    requires Unique(t) && UniqueValue(v)
    ensures Unique(Turn(t, k, v))
  {
    if Has(t, k) {
      UniqueFind(t, k);
      if Find(t, k).value.Obj? && v.Obj? {
        MergeUnique(Find(t, k).value.members, v.members);
      }
    }
    UniqueSet(t, k, if Has(t, k) then Both(Find(t, k).value, v) else v);
  }

  lemma {:induction false} FindMerge(t: Members, s: Members, q: string)
    requires Unique(t) && Unique(s)
    ensures Find(Merge(t, s), q) == Combine(Find(t, q), Find(s, q))
    decreases s
  {
    if s.Cons? {
      TurnIsMergeStep(t, s);
      TurnUnique(t, s.key, s.value);
      FindMerge(Turn(t, s.key, s.value), s.rest, q);
      FindSet(t, s.key, if Has(t, s.key) then Both(Find(t, s.key).value, s.value) else s.value, q);
    }
  }

  /** Key order: the target's keys where they were, then the source's new ones in the source's order. */
  lemma {:induction false} KeysMerge(t: Members, s: Members)
    requires Unique(t) && Unique(s)
    ensures Keys(Merge(t, s)) == Keys(t) + Absent(Keys(s), t)
    decreases s
  {
    if s.Cons? {
      var v := if Has(t, s.key) then Both(Find(t, s.key).value, s.value) else s.value;
      TurnIsMergeStep(t, s);
      TurnUnique(t, s.key, s.value);
      KeysMerge(Set(t, s.key, v), s.rest);
      KeysSet(t, s.key, v);
      HasIsInKeys(s.rest, s.key);
      AbsentAfterSet(Keys(s.rest), t, s.key, v);
      assert Keys(s)[1..] == Keys(s.rest);
    } else {
      assert Keys(t) + [] == Keys(t);
    }
  }

  lemma {:induction false} AbsentAfterSet(ks: seq<string>, t: Members, k: string, v: Json)
    requires k !in ks
    ensures Absent(ks, Set(t, k, v)) == Absent(ks, t)
  {
    if ks != [] {
      FindSet(t, k, v, ks[0]);
      AbsentAfterSet(ks[1..], t, k, v);
    }
  }

  // ---------- algebraic laws ----------

  lemma {:induction false} AbsentAll(ks: seq<string>, t: Members)
    requires forall k :: k in ks ==> Has(t, k)
    ensures Absent(ks, t) == []
  {
    if ks != [] {
      AbsentAll(ks[1..], t);
    }
  }

  /** Merging an object into itself changes nothing. */
  lemma {:induction false} Idempotent(t: Members)
    requires Unique(t)
    ensures Merge(t, t) == t
    decreases t
  {
    MergeUnique(t, t);
    KeysMerge(t, t);
    forall k
      ensures k in Keys(t) ==> Has(t, k)
    {
      HasIsInKeys(t, k);
    }
    AbsentAll(Keys(t), t);
    forall q
      ensures Find(Merge(t, t), q) == Find(t, q)
    {
      FindMerge(t, t, q);
      if HasObj(t, q) {
        FindSmaller(t, q);
        UniqueFind(t, q);
        Idempotent(Find(t, q).value.members);
      }
    }
    Extensional(Merge(t, t), t);
  }

  lemma {:induction false} AbsentAppend(ks: seq<string>, ls: seq<string>, t: Members)
    ensures Absent(ks + ls, t) == Absent(ks, t) + Absent(ls, t)
  {
    if ks == [] {
      assert [] + ls == ls;
    } else {
      assert (ks + ls)[1..] == ks[1..] + ls;
      AbsentAppend(ks[1..], ls, t);
    }
  }

  /** Leaving out what b has and then what a has leaves out what their merge has. */
  lemma {:induction false} AbsentTwice(ks: seq<string>, a: Members, b: Members)
    requires Unique(a) && Unique(b)
    ensures Absent(Absent(ks, b), a) == Absent(ks, Merge(a, b))
  {
    if ks != [] {
      FindMerge(a, b, ks[0]);
      AbsentTwice(ks[1..], a, b);
      assert !Has(b, ks[0]) ==> Absent(ks, b)[1..] == Absent(ks[1..], b);
    }
  }

  lemma KeysLeftNested(a: Members, b: Members, c: Members)
    requires Unique(a) && Unique(b) && Unique(c) && Unique(Merge(a, b))
    ensures Keys(Merge(Merge(a, b), c)) == Keys(a) + Absent(Keys(b), a) + Absent(Keys(c), Merge(a, b))
  {
    KeysMerge(Merge(a, b), c);
    KeysMerge(a, b);
  }

  lemma KeysRightNested(a: Members, b: Members, c: Members)
    requires Unique(a) && Unique(b) && Unique(c) && Unique(Merge(b, c))
    ensures Keys(Merge(a, Merge(b, c))) == Keys(a) + (Absent(Keys(b), a) + Absent(Absent(Keys(c), b), a))
  {
    KeysMerge(b, c);
    KeysMerge(a, Merge(b, c));
    AbsentAppend(Keys(b), Absent(Keys(c), b), a);
  }

  lemma AssociativeKeys(a: Members, b: Members, c: Members)
    requires Unique(a) && Unique(b) && Unique(c) && Unique(Merge(a, b)) && Unique(Merge(b, c))
    ensures Keys(Merge(Merge(a, b), c)) == Keys(Merge(a, Merge(b, c)))
  {
    KeysLeftNested(a, b, c);
    KeysRightNested(a, b, c);
    AbsentTwice(Keys(c), a, b);
    Reassociate(Keys(a), Absent(Keys(b), a), Absent(Keys(c), Merge(a, b)));
  }

  lemma Reassociate(x: seq<string>, y: seq<string>, z: seq<string>)
    ensures x + y + z == x + (y + z)
  {}

  lemma {:induction false} AssociativeAt(a: Members, b: Members, c: Members, q: string)
    requires Unique(a) && Unique(b) && Unique(c) && Unique(Merge(a, b)) && Unique(Merge(b, c))
    ensures Find(Merge(Merge(a, b), c), q) == Find(Merge(a, Merge(b, c)), q)
    decreases c, 0
  {
    FindMerge(a, b, q);
    FindMerge(b, c, q);
    FindMerge(Merge(a, b), c, q);
    FindMerge(a, Merge(b, c), q);
    if HasObj(a, q) && HasObj(b, q) && HasObj(c, q) {
      FindSmaller(c, q);
      UniqueFind(a, q);
      UniqueFind(b, q);
      UniqueFind(c, q);
      Associative(Find(a, q).value.members, Find(b, q).value.members, Find(c, q).value.members);
    }
  }

  /** Associative, key order included. */
  lemma {:induction false} Associative(a: Members, b: Members, c: Members)
    requires Unique(a) && Unique(b) && Unique(c)
    ensures Merge(Merge(a, b), c) == Merge(a, Merge(b, c))
    decreases c, 1
  {
    MergeUnique(a, b);
    MergeUnique(b, c);
    MergeUnique(Merge(a, b), c);
    MergeUnique(a, Merge(b, c));
    AssociativeKeys(a, b, c);
    forall q
      ensures Find(Merge(Merge(a, b), c), q) == Find(Merge(a, Merge(b, c)), q)
    {
      AssociativeAt(a, b, c, q);
    }
    Extensional(Merge(Merge(a, b), c), Merge(a, Merge(b, c)));
  }

  /** Merging the same backup a second time changes nothing. */
  lemma Absorbs(t: Members, s: Members)
    requires Unique(t) && Unique(s)
    ensures Merge(Merge(t, s), s) == Merge(t, s)
  {
    Associative(t, s, s);
    Idempotent(s);
  }

  // ---------- what is found along a path ----------

  function At(j: Json, path: seq<string>): Option<Json>
    decreases path
  {
    if path == [] then Some(j)
    else if j.Obj? && Has(j.members, path[0]) then At(Find(j.members, path[0]).value, path[1..])
    else None
  }

  /**
   * Along every path, at any depth, the merge holds what the target and the source hold there combined:
   * nothing the target has is lost unless the source needs an object in its place, everything the source has
   * is present, and nothing comes from elsewhere.
   */
  lemma {:induction false} MergeAlongPath(t: Members, s: Members, path: seq<string>)
    requires Unique(t) && Unique(s)
    ensures At(Obj(Merge(t, s)), path) == Combine(At(Obj(t), path), At(Obj(s), path))
    decreases path
  {
    if path != [] {
      FindMerge(t, s, path[0]);
      if Has(t, path[0]) && Has(s, path[0]) {
        var x, y := Find(t, path[0]).value, Find(s, path[0]).value;
        UniqueFind(t, path[0]);
        UniqueFind(s, path[0]);
        if x.Obj? && y.Obj? {
          MergeAlongPath(x.members, y.members, path[1..]);
        }
      }
    }
  }

  /** The three readings of it: target leaves survive, source paths are present, leaves have a source. */
  lemma MergeKeepsAddsInventsNothing(t: Members, s: Members, path: seq<string>)
    requires Unique(t) && Unique(s)
    ensures var m, x, y := At(Obj(Merge(t, s)), path), At(Obj(t), path), At(Obj(s), path);
            && (x.Some? && !x.value.Obj? && !(y.Some? && y.value.Obj?) ==> m == x)
            && (y.Some? ==> m.Some? && (y.value.Obj? ==> m.value.Obj?))
            && (m.Some? ==> x.Some? || y.Some?)
            && (m.Some? && !m.value.Obj? ==> m == x || m == y)
  {
    MergeAlongPath(t, s, path);
  }
}
