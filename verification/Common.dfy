/** Small definitions shared by the models. */
module Common {

  const TWO_32: nat := 0x1_0000_0000

  datatype Option<+T> = None | Some(value: T)

  ghost predicate NoDup<T>(s: seq<T>) {
    forall i, j :: 0 <= i < j < |s| ==> s[i] != s[j]
  }

  /** The sequence without the value `x`, order kept. */
  function Without<T(==,!new)>(s: seq<T>, x: T): (r: seq<T>)
    ensures forall y :: y in r <==> y in s && y != x
    ensures x !in s ==> r == s
    ensures |r| <= |s|
  {
    if s == [] then [] else (if s[0] == x then [] else [s[0]]) + Without(s[1..], x)
  }

  lemma WithoutHead<T(!new)>(s: seq<T>, x: T)
    requires s != [] && s[0] != x
    ensures Without(s, x) != [] && Without(s, x)[0] == s[0]
  {
  }

  lemma {:induction false} WithoutNoDup<T(!new)>(s: seq<T>, x: T)
    requires NoDup(s)
    ensures NoDup(Without(s, x))
    ensures x in s ==> |Without(s, x)| == |s| - 1
  {
    if s != [] {
      assert NoDup(s[1..]);
      WithoutNoDup(s[1..], x);
      assert s[0] !in s[1..];
      if s[0] != x {
        assert Without(s, x) == [s[0]] + Without(s[1..], x);
      }
    }
  }

  lemma WithoutCons<T(!new)>(h: T, t: seq<T>, x: T)
    ensures Without([h] + t, x) == (if h == x then [] else [h]) + Without(t, x)
  {
    assert ([h] + t)[1..] == t;
  }

  lemma WithoutNone<T(!new)>(s: seq<T>, x: T)
    requires x !in s
    ensures Without(s, x) == s
  {
  }

  lemma Regroup<T>(h: T, a: seq<T>, x: T, b: seq<T>)
    ensures [h] + (a + [x] + b) == ([h] + a) + [x] + b
    ensures [h] + (a + b) == ([h] + a) + b
  {
  }

  lemma {:induction false} WithoutSplit<T(!new)>(a: seq<T>, x: T, b: seq<T>)
    requires x !in a && x !in b
    ensures Without(a + [x] + b, x) == a + b
  {
    hide Without;
    if a == [] {
      WithoutCons(x, b, x);
      WithoutNone(b, x);
      assert a + [x] + b == [x] + b && a + b == b;
    } else {
      var rest := a[1..];
      WithoutSplit(rest, x, b);
      WithoutCons(a[0], rest + [x] + b, x);
      assert a == [a[0]] + rest;
      Regroup(a[0], rest, x, b);
    }
  }

  lemma UpdateTwice<K, V>(m: map<K, V>, i: K, a: V, b: V)
    ensures m[i := a][i := b] == m[i := b]
  {
  }

  lemma UpdateSeqTwice<V>(s: seq<V>, i: nat, a: V, b: V)
    requires i < |s|
    ensures s[i := a][i := b] == s[i := b]
    ensures s[i := a][i] == a
  {
  }

  /** LIST_NEXT: the element after `x`. */
  function NextIn<T(==)>(l: seq<T>, x: T): Option<T> {
    if |l| <= 1 then None else if l[0] == x then Some(l[1]) else NextIn(l[1..], x)
  }

  function First<T>(l: seq<T>): Option<T> {
    if l == [] then None else Some(l[0])
  }

  /** One step of a walk that saves the next element before its callback may unlink the current one:
      the saved element is the head of the part not visited yet, whether or not `x` is unlinked. */
  lemma {:induction false} WalkStep<T(!new)>(a: seq<T>, x: T, rest: seq<T>)
    requires NoDup(a + [x] + rest)
    ensures NextIn(a + [x] + rest, x) == First(rest)
    ensures Without(a + [x] + rest, x) == a + rest
  {
    var l := a + [x] + rest;
    assert forall j :: 0 <= j < |a| ==> l[j] == a[j];
    assert forall j :: 0 <= j < |rest| ==> l[|a| + 1 + j] == rest[j];
    assert l[|a|] == x;
    assert x !in a && x !in rest;
    WithoutSplit(a, x, rest);
    if a != [] {
      var b := a[1..];
      assert l[1..] == b + [x] + rest;
      assert NoDup(l[1..]) by {
        assert forall j :: 0 <= j < |l[1..]| ==> l[1..][j] == l[j + 1];
      }
      WalkStep(b, x, rest);
    } else {
      assert l == [x] + rest;
    }
  }

  /** The sequence without the values in `gone`, order kept. */
  function Except<T(==,!new)>(l: seq<T>, gone: set<T>): (r: seq<T>)
    ensures forall j :: j in r <==> j in l && j !in gone
  {
    if l == [] then [] else (if l[0] in gone then [] else [l[0]]) + Except(l[1..], gone)
  }

  lemma {:induction false} ExceptSnoc<T(!new)>(a: seq<T>, x: T, gone: set<T>)
    ensures Except(a + [x], gone) == Except(a, gone) + if x in gone then [] else [x]
  {
    if a == [] {
      assert a + [x] == [x] && [x][1..] == [];
    } else {
      var b := a[1..];
      assert (a + [x])[1..] == b + [x];
      ExceptSnoc(b, x, gone);
      var head := if a[0] in gone then [] else [a[0]];
      var last := if x in gone then [] else [x];
      assert Except(a + [x], gone) == head + Except(b + [x], gone);
      assert head + (Except(b, gone) + last) == (head + Except(b, gone)) + last;
    }
  }

  lemma {:induction false} ExceptSame<T(!new)>(l: seq<T>, gone: set<T>, gone': set<T>)
    requires forall j :: j in l ==> (j in gone <==> j in gone')
    ensures Except(l, gone) == Except(l, gone')
  {
    if l != [] {
      ExceptSame(l[1..], gone, gone');
    }
  }

  /** A walk of the list `l0`, now `l`, stands at `cur`: what was seen has lost the elements in `gone`,
      the rest is as it was. */
  ghost predicate StandsAt<T(!new)>(l0: seq<T>, l: seq<T>, seen: nat, cur: Option<T>, gone: set<T>) {
    seen <= |l0| && l == Except(l0[..seen], gone) + l0[seen..] && cur == First(l0[seen..])
  }

  /** One step of the walk, whether or not the callback unlinks the current element. */
  lemma StandsAtStep<T(!new)>(l0: seq<T>, l: seq<T>, seen: nat, x: T, gone: set<T>)
    requires StandsAt(l0, l, seen, Some(x), gone) && NoDup(l)
    ensures x in l && seen < |l0|
    ensures StandsAt(l0, if x in gone then Without(l, x) else l, seen + 1, NextIn(l, x), gone)
  {
    var a, rest := Except(l0[..seen], gone), l0[seen + 1..];
    assert l0[seen..] == [x] + rest;
    assert l == a + [x] + rest;
    assert l0[..seen + 1] == l0[..seen] + [x];
    ExceptSnoc(l0[..seen], x, gone);
    WalkStep(a, x, rest);
  }

  lemma StandsAtStart<T(!new)>(l0: seq<T>, gone: set<T>)
    ensures StandsAt(l0, l0, 0, First(l0), gone)
  {
    assert l0[0..] == l0 && Except(l0[..0], gone) == [];
    assert [] + l0 == l0;
  }

  lemma StandsAtLast<T(!new)>(l0: seq<T>, l: seq<T>, seen: nat, cur: Option<T>, gone: set<T>)
    requires StandsAt(l0, l, seen, cur, gone)
    ensures seen <= |l0| && (cur.None? <==> seen == |l0|)
  {
  }

  lemma StandsAtEnd<T(!new)>(l0: seq<T>, l: seq<T>, seen: nat, gone: set<T>)
    requires StandsAt(l0, l, seen, None, gone)
    ensures l == Except(l0, gone)
  {
    assert l0[seen..] == [] && l0[..seen] == l0;
    assert Except(l0, gone) + [] == Except(l0, gone);
  }
}
