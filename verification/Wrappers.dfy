/** Result shapes, and mapping and filtering of lists, shared by the models. */
module Wrappers {

  datatype Option<+T> = None | Some(value: T)

  /** A value, or the error the source reports by throwing. */
  datatype Result<+T, +E> = Ok(value: T) | Err(error: E)

  function Map<A, B>(f: A -> B, s: seq<A>): (r: seq<B>)
    ensures |r| == |s|
  {
    if s == [] then [] else [f(s[0])] + Map(f, s[1..])
  }

  lemma {:induction false} MapAt<A, B>(f: A -> B, s: seq<A>, i: nat)
    requires i < |s|
    ensures Map(f, s)[i] == f(s[i])
  {
    if i == 0 {
    } else {
      MapAt(f, s[1..], i - 1);
    }
  }

  lemma {:induction false} MapOneMore<A, B>(f: A -> B, s: seq<A>, a: A)
    ensures Map(f, s + [a]) == Map(f, s) + [f(a)]
  {
    if s == [] {
      assert s + [a] == [a];
    } else {
      assert (s + [a])[1..] == s[1..] + [a];
      MapOneMore(f, s[1..], a);
    }
  }

  lemma MapOfPrefix<A, B>(f: A -> B, s: seq<A>, i: nat)
    requires i < |s|
    ensures Map(f, s[..i + 1]) == Map(f, s[..i]) + [f(s[i])]
  {
    assert s[..i + 1] == s[..i] + [s[i]];
    MapOneMore(f, s[..i], s[i]);
  }

  function Filter<A>(p: A -> bool, s: seq<A>): seq<A> {
    if s == [] then []
    else if p(s[0]) then [s[0]] + Filter(p, s[1..])
    else Filter(p, s[1..])
  }

  lemma {:induction false} FilterIn<A>(p: A -> bool, s: seq<A>, a: A)
    ensures a in Filter(p, s) <==> a in s && p(a)
  {
    if s == [] {
    } else {
      FilterIn(p, s[1..], a);
      assert s == [s[0]] + s[1..];
    }
  }

  lemma {:induction false} FilterAgrees<A>(p: A -> bool, q: A -> bool, s: seq<A>)
    requires forall i | 0 <= i < |s| :: p(s[i]) == q(s[i])
    ensures Filter(p, s) == Filter(q, s)
  {
    if s == [] {
    } else {
      FilterAgrees(p, q, s[1..]);
    }
  }
}
