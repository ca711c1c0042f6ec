/** JSON values as in section 4 of RFC 8259; an object is an ordered list of members. */
module Json {
  import opened Options

  datatype Json =
    | Null
    | Bool(b: bool)
    | Int(n: int)
    | Float(r: real)
    | Str(s: string)
    | Arr(elements: seq<Json>)
    | Obj(members: Members)

  datatype Members = Nil | Cons(key: string, value: Json, rest: Members)

  function Find(ms: Members, k: string): Option<Json> {
    match ms
    case Nil => None
    case Cons(key, value, rest) => if key == k then Some(value) else Find(rest, k)
  }

  predicate Has(ms: Members, k: string) {
    Find(ms, k).Some?
  }

  predicate HasObj(ms: Members, k: string) {
    Find(ms, k).Some? && Find(ms, k).value.Obj?
  }

  predicate AnyObj(ms: Members) {
    ms.Cons? && (ms.value.Obj? || AnyObj(ms.rest))
  }

  /** Keys are unique in the object and in every object below it. */
  predicate Unique(ms: Members) {
    match ms
    case Nil => true
    case Cons(key, value, rest) => !Has(rest, key) && (value.Obj? ==> Unique(value.members)) && Unique(rest)
  }

  predicate UniqueValue(j: Json) {
    j.Obj? ==> Unique(j.members)
  }

  function Keys(ms: Members): seq<string> {
    match ms
    case Nil => []
    case Cons(key, _, rest) => [key] + Keys(rest)
  }

  function Append(a: Members, b: Members): Members {
    match a
    case Nil => b
    case Cons(key, value, rest) => Cons(key, value, Append(rest, b))
  }

  /** Assignment through a key: in place if the key is there, else at the end. */
  function Set(ms: Members, k: string, v: Json): Members {
    match ms
    case Nil => Cons(k, v, Nil)
    case Cons(key, value, rest) => if key == k then Cons(key, v, rest) else Cons(key, value, Set(rest, k, v))
  }

  /** Is a an initial segment of b? */
  predicate Prefix(a: Members, b: Members) {
    a.Nil? || (b.Cons? && a.key == b.key && a.value == b.value && Prefix(a.rest, b.rest))
  }

  lemma {:induction ms} FindSet(ms: Members, k: string, v: Json, q: string)
    ensures Find(Set(ms, k, v), q) == if q == k then Some(v) else Find(ms, q)
  {}

  lemma {:induction ms} HasIsInKeys(ms: Members, k: string)
    ensures Has(ms, k) <==> k in Keys(ms)
  {}

  lemma {:induction ms} KeysSet(ms: Members, k: string, v: Json)
    ensures Keys(Set(ms, k, v)) == if Has(ms, k) then Keys(ms) else Keys(ms) + [k]
  {}

  lemma {:induction false} UniqueSet(ms: Members, k: string, v: Json)
    requires Unique(ms) && UniqueValue(v)
    ensures Unique(Set(ms, k, v))
  {
    if ms.Cons? {
      UniqueSet(ms.rest, k, v);
      FindSet(ms.rest, k, v, ms.key);
    }
  }

  lemma {:induction ms} UniqueFind(ms: Members, k: string)
    requires Unique(ms) && Has(ms, k)
    ensures UniqueValue(Find(ms, k).value)
  {}

  lemma {:induction ms} FindSmaller(ms: Members, k: string)
    requires HasObj(ms, k)
    ensures Find(ms, k).value.members < ms
  {}

  lemma {:induction ms} SetAbsent(ms: Members, k: string, v: Json)
    requires !Has(ms, k)
    ensures Set(ms, k, v) == Append(ms, Cons(k, v, Nil))
  {}

  lemma {:induction ms} AppendAssoc(ms: Members, b: Members, c: Members)
    ensures Append(Append(ms, b), c) == Append(ms, Append(b, c))
  {}

  lemma {:induction ms} AppendNil(ms: Members)
    ensures Append(ms, Nil) == ms
  {}

  lemma {:induction ms} SetSame(ms: Members, k: string)
    requires Has(ms, k)
    ensures Set(ms, k, Find(ms, k).value) == ms
  {}

  /** Same key order and same value at every key: the same object. */
  lemma {:induction false} Extensional(a: Members, b: Members)
    requires Unique(a) && Unique(b) && Keys(a) == Keys(b)
    requires forall k :: Find(a, k) == Find(b, k)
    ensures a == b
  {
    if a.Cons? {
      assert Keys(a)[0] == Keys(b)[0] && Keys(a)[1..] == Keys(b)[1..];
      assert Find(a, a.key) == Find(b, a.key);
      forall k
        ensures Find(a.rest, k) == Find(b.rest, k)
      {
        assert Find(a, k) == Find(b, k);
      }
      Extensional(a.rest, b.rest);
    }
  }
}
