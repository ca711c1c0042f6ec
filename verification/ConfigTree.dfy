/** The merge carried out in place on a tree of variants, as `mergeJsonObjects` does on an ArduinoJson document. */
module ConfigTree {
  import opened Json
  import opened Options
  import C = ConfigFile

  /** The object with these keys and values. */
  function Zip(keys: seq<string>, values: seq<Json>): Members
    requires |keys| == |values|
  {
    if keys == [] then Nil else Cons(keys[0], values[0], Zip(keys[1..], values[1..]))
  }

  lemma {:induction false} ZipFind(keys: seq<string>, values: seq<Json>, k: string, i: nat)
    requires |keys| == |values| && i < |keys| && keys[i] == k && k !in keys[..i]
    ensures Find(Zip(keys, values), k) == Some(values[i])
  {
    if i > 0 {
      assert keys[0] in keys[..i] && keys[1..][..i - 1] == keys[..i][1..];
      ZipFind(keys[1..], values[1..], k, i - 1);
    }
  }

  lemma {:induction false} ZipFindNone(keys: seq<string>, values: seq<Json>, k: string)
    requires |keys| == |values| && k !in keys
    ensures Find(Zip(keys, values), k) == None
  {
    if keys != [] {
      ZipFindNone(keys[1..], values[1..], k);
    }
  }

  lemma {:induction false} ZipSet(keys: seq<string>, values: seq<Json>, k: string, i: nat, v: Json)
    requires |keys| == |values| && i < |keys| && keys[i] == k && k !in keys[..i]
    ensures Zip(keys, values[i := v]) == Set(Zip(keys, values), k, v)
  {
    if i > 0 {
      assert keys[0] in keys[..i] && keys[1..][..i - 1] == keys[..i][1..];
      assert values[i := v][1..] == values[1..][i - 1 := v];
      ZipSet(keys[1..], values[1..], k, i - 1, v);
    } else {
      assert values[0 := v][1..] == values[1..];
    }
  }

  lemma {:induction false} ZipAdd(keys: seq<string>, values: seq<Json>, k: string, v: Json)
    requires |keys| == |values| && k !in keys
    ensures Zip(keys + [k], values + [v]) == Set(Zip(keys, values), k, v)
  {
    if keys == [] {
      assert [k] + [] == [k] && [v] + [] == [v];
      assert Zip([k], [v]) == Cons(k, v, Zip([k][1..], [v][1..]));
    } else {
      assert (keys + [k])[1..] == keys[1..] + [k] && (values + [v])[1..] == values[1..] + [v];
      ZipAdd(keys[1..], values[1..], k, v);
    }
  }

  lemma ZipOne(k: string, v: Json)
    ensures Zip([k], [v]) == Cons(k, v, Nil)
  {
    assert Zip([k], [v]) == Cons(k, v, Zip([k][1..], [v][1..]));
  }

  class Variant {
    var leaf: Json            // the value while this is no object
    var isObject: bool
    var keys: seq<string>     // the members while it is one
    var kids: seq<Variant>
    ghost var Repr: set<object>

    ghost predicate Valid()
      reads this, Repr
      ensures Valid() ==> this in Repr
      decreases Repr
    {
      && this in Repr && |keys| == |kids| && !leaf.Obj? && (!isObject ==> kids == [])
      && (forall i :: 0 <= i < |kids| ==>
            kids[i] in Repr && kids[i].Repr <= Repr && this !in kids[i].Repr && kids[i].Valid())
      && (forall i, j :: 0 <= i < j < |kids| ==> kids[i].Repr !! kids[j].Repr)
    }

    ghost function Values(n: nat): (vs: seq<Json>)
      requires Valid() && n <= |kids|
      reads this, Repr
      ensures |vs| == n && forall i :: 0 <= i < n ==> vs[i] == kids[i].Value()
      decreases Repr, n
    {
      if n == 0 then [] else Values(n - 1) + [kids[n - 1].Value()]
    }

    ghost function Value(): (j: Json)
      requires Valid()
      reads this, Repr
      ensures j.Obj? <==> isObject
      decreases Repr, |kids| + 1
    {
      if isObject then Obj(Zip(keys, Values(|kids|))) else leaf
    }

    constructor Leaf(v: Json)
      requires !v.Obj?
      ensures Valid() && fresh(Repr) && Value() == v
    {
      leaf, isObject, keys, kids := v, false, [], [];
      Repr := {this};
    }

    constructor EmptyObject()
      ensures Valid() && fresh(Repr) && Value() == Obj(Nil)
    {
      leaf, isObject, keys, kids := Null, true, [], [];
      Repr := {this};
    }

    /** Where the member is, or -1. */
    method IndexOf(k: string) returns (i: int)
      requires Valid()
      ensures -1 <= i < |keys|
      ensures i >= 0 ==> keys[i] == k && k !in keys[..i]
      ensures i < 0 ==> k !in keys
    {
      i := 0;
      while i < |keys|
        invariant 0 <= i <= |keys|
        invariant k !in keys[..i]
      {
        if keys[i] == k {
          return;
        }
        i := i + 1;
      }
      i := -1;
    }

    /** `target.to<JsonObject>().createNestedObject(k)` */
    method ResetTo(k: string)
      requires Valid()
      modifies this
      ensures Valid() && fresh(Repr - {this})
      ensures Value() == C.Emptied(k)
      ensures |kids| == 1 && isObject && keys == [k] && kids[0].isObject
    {
      var kid := new Variant.EmptyObject();
      leaf, isObject, keys, kids := Null, true, [k], [kid];
      Repr := {this} + kid.Repr;
      assert Values(1) == Values(0) + [kid.Value()] == [Obj(Nil)];
      ZipOne(k, Obj(Nil));
    }

    /** Links a separate variant in as the last member, touching no other. */
    method Link(k: string, kid: Variant)
      requires Valid() && isObject
      requires kid.Valid() && kid.Repr !! Repr
      modifies this
      ensures Valid() && Repr == old(Repr) + kid.Repr
      ensures isObject && keys == old(keys) + [k] && kids == old(kids) + [kid]
      ensures kid.Value() == old(kid.Value())
      ensures forall j :: 0 <= j < |old(kids)| ==> kids[j].Value() == old(kids[j].Value())
    {
      keys, kids := keys + [k], kids + [kid];
      Repr := Repr + kid.Repr;
    }

    method Append(k: string, kid: Variant)
      requires Valid() && isObject && k !in keys
      requires kid.Valid() && kid.Repr !! Repr
      modifies this
      ensures Valid() && Repr == old(Repr) + kid.Repr
      ensures Value() == Obj(Set(old(Value()).members, k, old(kid.Value())))
    {
      ghost var values := Values(|kids|);
      ZipAdd(keys, values, k, kid.Value());
      Link(k, kid);
      assert Values(|kids| - 1) == values;
      assert kids[|kids| - 1] == kid;
    }

    /** `target[k] = v` in general, for a key the target lacks and a value that is no object. */
    method AddLeaf(k: string, v: Json)
      requires Valid() && k !in keys && !v.Obj?
      modifies this
      ensures Valid() && fresh(Repr - old(Repr))
      ensures Value() == C.SetMember(old(Value()), k, v)
    {
      if !isObject {
        if leaf != Null {
          return;
        }
        isObject, keys := true, [];
        assert Value() == Obj(Nil);
      }
      var kid := new Variant.Leaf(v);
      Append(k, kid);
    }
  }

  method MergeJsonObjects(target: Variant, source: Json)
    requires target.Valid()
    modifies target.Repr
    ensures target.Valid() && fresh(target.Repr - old(target.Repr))
    ensures target.Value() == C.MergeJsonObjects(old(target.Value()), source)
    decreases source, 0, 0
  {
    if !source.Obj? {
      return;
    }
    var rest := source.members;
    while rest.Cons?
      invariant rest == source.members || rest < source.members
      invariant target.Valid() && fresh(target.Repr - old(target.Repr))
      invariant C.MergeMembers(target.Value(), rest) == C.MergeMembers(old(target.Value()), source.members)
      decreases rest
    {
      if rest.value.Obj? {
        MergeObjectMember(target, rest.key, rest.value);
      } else {
        MergeLeafMember(target, rest.key, rest.value);
      }
      rest := rest.rest;
    }
  }

  method MergeLeafMember(target: Variant, k: string, v: Json)
    requires target.Valid() && !v.Obj?
    modifies target
    ensures target.Valid() && fresh(target.Repr - old(target.Repr))
    ensures target.Value() == if C.ContainsKey(old(target.Value()), k) then old(target.Value())
                              else C.SetMember(old(target.Value()), k, v)
  {
    var i := target.IndexOf(k);
    if i < 0 {
      if target.isObject {
        ZipFindNone(target.keys, target.Values(|target.kids|), k);
      }
      target.AddLeaf(k, v);
    } else {
      ZipFind(target.keys, target.Values(|target.kids|), k, i);
    }
  }

  method MergeObjectMember(target: Variant, k: string, v: Json)
    requires target.Valid() && v.Obj?
    modifies target.Repr
    ensures target.Valid() && fresh(target.Repr - old(target.Repr))
    ensures var t := old(target.Value());
            var t1 := if C.MemberIsObj(t, k) then t else C.Emptied(k);
            target.Value() == C.SetMember(t1, k, C.MergeMembers(Find(t1.members, k).value, v.members))
    decreases v, 2, 0
  {
    var i := EnsureObject(target, k);
    MergeIntoChild(target, i, v);
  }

  /** Finds the object at k, or makes the target an object holding nothing but an empty one there. */
  method EnsureObject(target: Variant, k: string) returns (i: nat)
    requires target.Valid()
    modifies target
    ensures target.Valid() && fresh(target.Repr - old(target.Repr))
    ensures target.isObject && i < |target.kids| && target.keys[i] == k && k !in target.keys[..i]
    ensures target.Value() == if C.MemberIsObj(old(target.Value()), k) then old(target.Value()) else C.Emptied(k)
    ensures target.Value().Obj? && Find(target.Value().members, k) == Some(target.kids[i].Value())
  {
    var found := target.IndexOf(k);
    if found >= 0 {
      ZipFind(target.keys, target.Values(|target.kids|), k, found);
    } else if target.isObject {
      ZipFindNone(target.keys, target.Values(|target.kids|), k);
    }
    if found < 0 || !target.kids[found].isObject {
      target.ResetTo(k);
      ZipFind(target.keys, target.Values(1), k, 0);
      return 0;
    }
    i := found;
  }

  method MergeIntoChild(target: Variant, i: nat, v: Json)
    requires target.Valid() && v.Obj? && target.isObject && i < |target.kids|
    requires target.keys[i] !in target.keys[..i]
    modifies target.Repr
    ensures target.Valid() && fresh(target.Repr - old(target.Repr))
    ensures target.Value() == C.SetMember(old(target.Value()), old(target.keys[i]),
                                          C.MergeMembers(old(target.kids[i].Value()), v.members))
    decreases v, 1, 0
  {
    ghost var n := |target.kids|;
    ghost var before := target.Values(n);
    MergeKid(target, i, v);
    assert target.Values(n) == before[i := target.kids[i].Value()];
    ZipSet(target.keys, before, target.keys[i], i, target.kids[i].Value());
  }

  /** The recursive call, and what it does to the parent: one child has a new value, all else is as before. */
  method MergeKid(target: Variant, i: nat, v: Json)
    requires target.Valid() && v.Obj? && i < |target.kids|
    modifies target.Repr
    ensures target.isObject == old(target.isObject) && target.keys == old(target.keys) && target.kids == old(target.kids)
    ensures target.Valid() && fresh(target.Repr - old(target.Repr))
    ensures target.kids[i].Value() == C.MergeMembers(old(target.kids[i].Value()), v.members)
    ensures forall j :: 0 <= j < |target.kids| && j != i ==> target.kids[j].Value() == old(target.kids[j].Value())
    decreases v, 0, 1
  {
    var kid := target.kids[i];
    MergeJsonObjects(kid, v);
    target.Repr := target.Repr + kid.Repr;
    forall j | 0 <= j < |target.kids| && j != i
      ensures target.kids[j].Valid() && target.kids[j].Repr == old(target.kids[j].Repr)
      ensures target.kids[j].Value() == old(target.kids[j].Value())
    {
    }
  }
}
