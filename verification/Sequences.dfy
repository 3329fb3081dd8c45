/** Flattening of chunked order plans and facts about duplicate-free sequences. */
module Sequences {

  lemma AppendAssoc<T>(a: seq<T>, b: seq<T>, c: seq<T>)
    ensures (a + b) + c == a + (b + c)
  {
  }

  function Flatten<T>(xss: seq<seq<T>>): (flat: seq<T>)
  {
    if xss == [] then [] else xss[0] + Flatten(xss[1..])
  }

  lemma {:induction false} FlattenConcat<T>(xss: seq<seq<T>>, yss: seq<seq<T>>)
    ensures Flatten(xss + yss) == Flatten(xss) + Flatten(yss)
  {
    if xss == [] {
      assert xss + yss == yss;
    } else {
      assert (xss + yss)[1..] == xss[1..] + yss;
      FlattenConcat(xss[1..], yss);
    }
  }

  lemma {:induction false} FlattenSnoc<T>(xss: seq<seq<T>>, k: nat)
    requires k < |xss|
    ensures Flatten(xss[..k + 1]) == Flatten(xss[..k]) + xss[k]
  {
    assert xss[..k + 1] == xss[..k] + [xss[k]];
    FlattenConcat(xss[..k], [xss[k]]);
    assert [xss[k]][1..] == [];
    assert Flatten([xss[k]]) == xss[k] + Flatten<T>([]);
  }

  lemma FlattenCons<T>(xs: seq<T>, xss: seq<seq<T>>)
    ensures Flatten([xs] + xss) == xs + Flatten(xss)
  {
    assert ([xs] + xss)[1..] == xss;
  }

  lemma {:induction false} FlattenAppend<T>(xss: seq<seq<T>>, xs: seq<T>)
    ensures Flatten(xss + [xs]) == Flatten(xss) + xs
  {
    FlattenConcat(xss, [xs]);
    assert [xs] + [] == [xs];
    FlattenCons(xs, []);
  }

  lemma FlattenNil<T>()
    ensures Flatten<T>([]) == []
  {
  }

  /** The flattened plan splits around chunk `k`. */
  lemma {:induction false} FlattenSplit<T>(xss: seq<seq<T>>, k: nat)
    requires k < |xss|
    ensures Flatten(xss) == Flatten(xss[..k]) + xss[k] + Flatten(xss[k + 1..])
  {
    FlattenSnoc(xss, k);
    assert xss == xss[..k + 1] + xss[k + 1..];
    FlattenConcat(xss[..k + 1], xss[k + 1..]);
  }

  predicate NoDuplicates<T(==)>(s: seq<T>)
  {
    forall i, j :: 0 <= i < j < |s| ==> s[i] != s[j]
  }

  lemma RemoveFromMultiset<T>(ys: seq<T>, k: nat)
    requires k < |ys|
    ensures multiset(ys) == multiset(ys[..k] + ys[k + 1..]) + multiset{ys[k]}
  {
    assert ys == ys[..k] + [ys[k]] + ys[k + 1..];
  }

  lemma PermutationTail<T>(xs: seq<T>, ys: seq<T>, k: nat)
    requires xs != [] && k < |ys| && ys[k] == xs[0] && multiset(xs) == multiset(ys)
    ensures multiset(xs[1..]) == multiset(ys[..k] + ys[k + 1..])
  {
    RemoveFromMultiset(ys, k);
    RemoveFromMultiset(xs, 0);
    assert xs[..0] + xs[1..] == xs[1..];
    CancelElement(multiset(xs[1..]), multiset(ys[..k] + ys[k + 1..]), xs[0]);
  }

  lemma CancelElement<T>(a: multiset<T>, b: multiset<T>, x: T)
    requires a + multiset{x} == b + multiset{x}
    ensures a == b
  {
    assert a == (a + multiset{x}) - multiset{x};
    assert b == (b + multiset{x}) - multiset{x};
  }

  lemma TwiceInMultiset<T>(s: seq<T>, j: nat, k: nat)
    requires j < k < |s| && s[j] == s[k]
    ensures multiset(s)[s[j]] >= 2
  {
    assert s == s[..k] + [s[k]] + s[k + 1..];
    assert s[j] in s[..k];
  }

  lemma OnceInMultiset<T>(s: seq<T>, a: nat)
    requires a < |s| && forall i :: 0 <= i < |s| && i != a ==> s[i] != s[a]
    ensures multiset(s)[s[a]] == 1
  {
    assert s == s[..a] + [s[a]] + s[a + 1..];
    assert s[a] !in s[..a] && s[a] !in s[a + 1..];
  }

  /** The non-empty ones, in order. */
  function DropEmpty<T>(xss: seq<seq<T>>): (yss: seq<seq<T>>)
    ensures |yss| <= |xss|
  {
    if xss == [] then [] else
    (if |xss[0]| == 0 then [] else [xss[0]]) + DropEmpty(xss[1..])
  }

  lemma {:induction false} DropEmptyFacts<T>(xss: seq<seq<T>>)
    ensures Flatten(DropEmpty(xss)) == Flatten(xss)
    ensures forall k :: 0 <= k < |DropEmpty(xss)| ==> DropEmpty(xss)[k] != []
  {
    if xss != [] {
      DropEmptyFacts(xss[1..]);
      if xss[0] != [] {
        assert DropEmpty(xss) == [xss[0]] + DropEmpty(xss[1..]);
      } else {
        assert DropEmpty(xss) == DropEmpty(xss[1..]);
      }
    }
  }

  lemma {:induction false} DropEmptyPrefix<T>(xss: seq<seq<T>>, m: nat)
    requires m <= |xss| && forall i :: 0 <= i < |xss| ==> (xss[i] == [] <==> i >= m)
    ensures DropEmpty(xss) == xss[..m]
  {
    if xss != [] {
      var rest := xss[1..];
      assert forall i :: 0 <= i < |rest| ==> rest[i] == xss[i + 1];
      DropEmptyPrefix(rest, if m == 0 then 0 else m - 1);
      if m > 0 {
        assert xss[..m] == [xss[0]] + rest[..m - 1];
      }
    }
  }

  lemma {:induction false} DropEmptySnoc<T>(xss: seq<seq<T>>, xs: seq<T>)
    ensures DropEmpty(xss + [xs]) == DropEmpty(xss) + if xs == [] then [] else [xs]
  {
    if xss == [] {
      assert xss + [xs] == [xs];
    } else {
      assert (xss + [xs])[1..] == xss[1..] + [xs];
      DropEmptySnoc(xss[1..], xs);
    }
  }

  lemma NothingDropped<T>()
    ensures DropEmpty<T>([]) == []
  {
  }
}
