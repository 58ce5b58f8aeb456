/** Optional values, linked lists, and sequences without repeats. */
module Wrappers {
  datatype Option<+T> = None | Some(value: T)

  datatype List<+T> = Nil | Cons(head: T, tail: List<T>)

  function Append<T>(a: List<T>, b: List<T>): List<T> {
    match a
    case Nil => b
    case Cons(x, t) => Cons(x, Append(t, b))
  }

  lemma {:induction false} AppendNil<T>(a: List<T>)
    ensures Append(a, Nil) == a
  {
    if a.Cons? { AppendNil(a.tail); }
  }

  lemma AppendOne<T>(x: T, b: List<T>)
    ensures Append(Cons(x, Nil), b) == Cons(x, b)
  {
    assert Append(Nil, b) == b;
  }

  lemma {:induction false} AppendAssoc<T>(a: List<T>, b: List<T>, c: List<T>)
    ensures Append(Append(a, b), c) == Append(a, Append(b, c))
  {
    if a.Cons? { AppendAssoc(a.tail, b, c); }
  }

  predicate NoRepeat<T(==)>(s: seq<T>) {
    forall a, b :: 0 <= a < b < |s| ==> s[a] != s[b]
  }

  lemma JoinNoRepeat<T>(a: seq<T>, b: seq<T>)
    requires NoRepeat(a) && NoRepeat(b) && forall x :: x in a ==> x !in b
    ensures NoRepeat(a + b)
  {
    var s := a + b;
    forall i, j | 0 <= i < j < |s| ensures s[i] != s[j] {
      if i < |a| <= j {
        assert s[i] in a && s[j] in b;
      } else if |a| <= i {
        assert s[i] == b[i - |a|] && s[j] == b[j - |a|];
      }
    }
  }
}
