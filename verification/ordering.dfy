/** The order in which both Spark (`orderBy(event_id.asc())`) and Python (`sorted`) compare strings. */
module Ordering {

  predicate StrLess(a: string, b: string)
  {
    if b == [] then false
    else if a == [] then true
    else if a[0] == b[0] then StrLess(a[1..], b[1..])
    else a[0] < b[0]
  }

  lemma {:induction false} StrIrreflexive(a: string)
    ensures !StrLess(a, a)
  {
    if a != [] { StrIrreflexive(a[1..]); }
  }

  lemma {:induction false} StrTotal(a: string, b: string)
    ensures a == b || StrLess(a, b) || StrLess(b, a)
  {
    if a != [] && b != [] && a[0] == b[0] {
      StrTotal(a[1..], b[1..]);
      if a[1..] == b[1..] {
        assert a == [a[0]] + a[1..] && b == [b[0]] + b[1..];
      }
    }
  }

  lemma {:induction false} StrTransitive(a: string, b: string, c: string)
    requires StrLess(a, b) && StrLess(b, c)
    ensures StrLess(a, c)
  {
    if a != [] && a[0] == b[0] && b[0] == c[0] {
      StrTransitive(a[1..], b[1..], c[1..]);
    }
  }

  /** What the comparison means: after a common beginning, the first string has ended or has the smaller character. */
  lemma {:induction false} StrLessMeans(a: string, b: string)
    ensures StrLess(a, b) <==> exists n: nat :: n <= |a| && n < |b| && a[..n] == b[..n] && (n == |a| || a[n] < b[n])
  {
    if b != [] && (a == [] || a[0] != b[0]) {
      assert a[..0] == b[..0];
    } else if b != [] {
      var a', b' := a[1..], b[1..];
      StrLessMeans(a', b');
      if n: nat :| n <= |a'| && n < |b'| && a'[..n] == b'[..n] && (n == |a'| || a'[n] < b'[n]) {
        assert a[..n + 1] == [a[0]] + a'[..n] && b[..n + 1] == [b[0]] + b'[..n];
        assert n + 1 == |a| || a[n + 1] < b[n + 1];
      }
      if n: nat :| n <= |a| && n < |b| && a[..n] == b[..n] && (n == |a| || a[n] < b[n]) {
        assert n > 0;
        assert a'[..n - 1] == a[..n][1..] && b'[..n - 1] == b[..n][1..];
        assert n - 1 == |a'| || a'[n - 1] < b'[n - 1];
      }
    }
  }

  lemma {:induction false} FirstDiffers(a: string, b: string, n: nat)
    requires n < |a| && n < |b| && a[..n] == b[..n] && a[n] < b[n]
    ensures StrLess(a, b) && !StrLess(b, a)
  {
    if n > 0 {
      assert a[0] == a[..n][0] == b[..n][0] == b[0];
      assert a[1..][..n - 1] == a[..n][1..] && b[1..][..n - 1] == b[..n][1..];
      FirstDiffers(a[1..], b[1..], n - 1);
    }
  }

  /** A non-empty finite set of strings has a least element. */
  lemma {:induction false} LeastString(s: set<string>) returns (least: string)
    requires s != {}
    ensures least in s && forall x :: x in s && x != least ==> StrLess(least, x)
    decreases |s|
  {
    var a :| a in s;
    if s == {a} {
      least := a;
    } else {
      var b := LeastString(s - {a});
      StrTotal(a, b);
      if StrLess(a, b) {
        least := a;
        forall x | x in s && x != a
          ensures StrLess(a, x)
        {
          if x != b { StrTransitive(a, b, x); }
        }
      } else {
        least := b;
      }
    }
  }

  /** What `sorted` returns of distinct names. */
  predicate Increasing(list: seq<string>)
  {
    forall i, j :: 0 <= i < j < |list| ==> StrLess(list[i], list[j])
  }

  /** All names are listed or still to do, and the listed ones come first. */
  predicate Parted(list: seq<string>, todo: set<string>, all: set<string>)
  {
    && (set n | n in list) + todo == all && Increasing(list)
    && (forall n, m :: n in list && m in todo ==> StrLess(n, m))
  }

  lemma MoveLeast(list: seq<string>, todo: set<string>, all: set<string>, n: string)
    requires Parted(list, todo, all) && n in todo && forall m :: m in todo && m != n ==> StrLess(n, m)
    ensures Parted(list + [n], todo - {n}, all)
  {
    hide StrLess;
    assert forall x :: x in list + [n] <==> x in list || x == n;
    assert forall i :: 0 <= i < |list| ==> list[i] in list;
  }

  method NextName(todo: set<string>) returns (n: string)
    requires todo != {}
    ensures n in todo && forall m :: m in todo && m != n ==> StrLess(n, m)
  {
    hide StrLess;
    ghost var least := LeastString(todo);
    n :| n in todo && forall m :: m in todo && m != n ==> StrLess(n, m);
  }

  method SortNames(names: set<string>) returns (list: seq<string>)
    ensures Increasing(list) && (set n | n in list) == names
  {
    list := [];
    var todo := names;
    assert Parted(list, todo, names);
    hide Increasing;
    while todo != {}
      invariant Parted(list, todo, names)
      decreases |todo|
    {
      hide Parted;
      var n := NextName(todo);
      MoveLeast(list, todo, names, n);
      list := list + [n];
      todo := todo - {n};
    }
  }
}
