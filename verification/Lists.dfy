/** The source's std::list registries: push_back, remove (which takes out every occurrence) and clear. */
module Lists {
  import opened Base

  datatype ListOp<T> = Added(item: T) | Removed(item: T) | Cleared

  function Without<T(==)>(s: seq<T>, x: T): seq<T> {
    if s == [] then [] else (if s[0] == x then [] else [s[0]]) + Without(s[1..], x)
  }

  function AfterOp<T(==)>(s: seq<T>, op: ListOp<T>): seq<T> {
    match op
    case Added(x) => s + [x]
    case Removed(x) => Without(s, x)
    case Cleared => []
  }

  /** The list after a history of calls. */
  function Listed<T(==)>(ops: seq<ListOp<T>>): seq<T> {
    if ops == [] then [] else AfterOp(Listed(ops[..|ops| - 1]), ops[|ops| - 1])
  }

  lemma ListedAppend<T>(ops: seq<ListOp<T>>, op: ListOp<T>)
    ensures Listed(ops + [op]) == AfterOp(Listed(ops), op)
  {
    assert (ops + [op])[..|ops|] == ops;
  }

  predicate Drops<T(==)>(op: ListOp<T>, x: T) {
    op == Removed(x) || op == Cleared
  }

  /** Call number `i` registered `x`, and nothing has dropped it since. */
  ghost predicate InForce<T>(ops: seq<ListOp<T>>, i: int, x: T) {
    0 <= i < |ops| && ops[i] == Added(x) && forall j :: i < j < |ops| ==> !Drops(ops[j], x)
  }

  /** How many registrations of `x` are in force. */
  ghost function Registrations<T>(ops: seq<ListOp<T>>, x: T): nat {
    |set i | 0 <= i < |ops| && InForce(ops, i, x)|
  }

  ghost predicate Registered<T>(ops: seq<ListOp<T>>, x: T) {
    exists i :: InForce(ops, i, x)
  }

  lemma {:induction false} WithoutCount<T>(s: seq<T>, x: T, y: T)
    ensures Count(Without(s, x), y) == if y == x then 0 else Count(s, y)
  {
    if s != [] {
      WithoutCount(s[1..], x, y);
      assert s == [s[0]] + s[1..];
    }
  }

  lemma InForceStep<T>(ops: seq<ListOp<T>>, i: int, x: T)
    requires ops != []
    ensures var n := |ops| - 1;
      InForce(ops, i, x) <==> (i == n && ops[n] == Added(x)) || (InForce(ops[..n], i, x) && !Drops(ops[n], x))
  {
    var n, before := |ops| - 1, ops[..|ops| - 1];
    if InForce(before, i, x) && !Drops(ops[n], x) {
      forall j | i < j < |ops| ensures !Drops(ops[j], x) {
        assert j < n ==> before[j] == ops[j];
      }
    }
    if InForce(ops, i, x) && i < n {
      assert before[i] == Added(x);
      assert forall j :: i < j < |before| ==> before[j] == ops[j];
    }
  }

  lemma RegistrationsStep<T>(ops: seq<ListOp<T>>, x: T)
    requires ops != []
    ensures var n := |ops| - 1;
      Registrations(ops, x) ==
        if Drops(ops[n], x) then 0 else Registrations(ops[..n], x) + if ops[n] == Added(x) then 1 else 0
  {
    var n := |ops| - 1;
    var now, earlier :=
      set i | 0 <= i < |ops| && InForce(ops, i, x), set i | 0 <= i < |ops[..n]| && InForce(ops[..n], i, x);
    forall i ensures i in now <==> (i == n && ops[n] == Added(x)) || (i in earlier && !Drops(ops[n], x)) {
      InForceStep(ops, i, x);
    }
    if Drops(ops[n], x) {
      assert now == {};
    } else if ops[n] == Added(x) {
      assert now == earlier + {n};
    } else {
      assert now == earlier;
    }
  }

  /** Whatever the history, the list holds each item as often as it has registrations in force. */
  lemma {:induction false} ListedCount<T>(ops: seq<ListOp<T>>, x: T)
    ensures Count(Listed(ops), x) == Registrations(ops, x)
    ensures x in Listed(ops) <==> Registered(ops, x)
  {
    if ops != [] {
      var n := |ops| - 1;
      ListedCount(ops[..n], x);
      RegistrationsStep(ops, x);
      if ops[n].Removed? {
        WithoutCount(Listed(ops[..n]), ops[n].item, x);
      }
    }
    RegisteredMeans(ops, x);
    assert x in Listed(ops) <==> x in multiset(Listed(ops));
  }

  lemma RegisteredMeans<T>(ops: seq<ListOp<T>>, x: T)
    ensures Registered(ops, x) <==> Registrations(ops, x) > 0
  {
    var s := set i | 0 <= i < |ops| && InForce(ops, i, x);
    if Registered(ops, x) {
      var i :| InForce(ops, i, x);
      assert i in s;
    }
    if |s| > 0 {
      var i :| i in s;
    }
  }

  // ---- the order of a list

  /** What call number `n` contributes: its item, if it registered one that is still in force. */
  ghost function Contribution<T>(ops: seq<ListOp<T>>, n: nat): seq<T> {
    if n < |ops| && ops[n].Added? && InForce(ops, n, ops[n].item) then [ops[n].item] else []
  }

  ghost function Concat<T>(n: nat, f: nat -> seq<T>): seq<T> {
    if n == 0 then [] else Concat(n - 1, f) + f(n - 1)
  }

  /** The items of the registrations in force, oldest first. */
  ghost function StillListed<T>(ops: seq<ListOp<T>>): seq<T> {
    Concat(|ops|, i => Contribution(ops, i))
  }

  lemma Regroup<T>(a: seq<T>, b: seq<T>, c: seq<T>)
    ensures a + (b + c) == (a + b) + c
  {
  }

  lemma {:induction false} WithoutFirst<T>(s: seq<T>, x: T)
    requires s != []
    ensures Without(s, x) == (if s[0] == x then [] else [s[0]]) + Without(s[1..], x)
  {
  }

  lemma {:induction false} WithoutAppend<T>(a: seq<T>, b: seq<T>, x: T)
    ensures Without(a + b, x) == Without(a, x) + Without(b, x)
  {
    if a == [] {
      assert a + b == b;
    } else {
      var rest, head := a[1..], if a[0] == x then [] else [a[0]];
      WithoutAppend(rest, b, x);
      assert (a + b)[0] == a[0] && (a + b)[1..] == rest + b;
      WithoutFirst(a + b, x);
      Regroup(head, Without(rest, x), Without(b, x));
    }
  }

  lemma WithoutOne<T>(y: T, x: T)
    ensures Without([y], x) == if y == x then [] else [y]
  {
    assert [y][1..] == [];
  }

  lemma ContributionStep<T>(before: seq<ListOp<T>>, last: ListOp<T>, n: nat)
    requires n < |before|
    ensures Contribution(before + [last], n) ==
      if last.Added? then Contribution(before, n) else AfterOp(Contribution(before, n), last)
  {
    var ops, op := before + [last], before[n];
    assert ops[..|before|] == before && ops[n] == op;
    if op.Added? {
      InForceStep(ops, n, op.item);
      if last.Removed? {
        WithoutOne(op.item, last.item);
      }
    }
  }

  lemma {:induction false} ConcatSame<T>(n: nat, f: nat -> seq<T>, g: nat -> seq<T>)
    requires forall i: nat :: i < n ==> g(i) == f(i)
    ensures Concat(n, g) == Concat(n, f)
  {
    if n > 0 {
      ConcatSame(n - 1, f, g);
    }
  }

  lemma {:induction false} ConcatNothing<T>(n: nat, g: nat -> seq<T>)
    requires forall i: nat :: i < n ==> g(i) == []
    ensures Concat(n, g) == []
  {
    if n > 0 {
      ConcatNothing(n - 1, g);
    }
  }

  lemma {:induction false} ConcatWithout<T>(n: nat, f: nat -> seq<T>, g: nat -> seq<T>, x: T)
    requires forall i: nat :: i < n ==> g(i) == Without(f(i), x)
    ensures Concat(n, g) == Without(Concat(n, f), x)
  {
    if n > 0 {
      ConcatWithout(n - 1, f, g, x);
      WithoutAppend(Concat(n - 1, f), f(n - 1), x);
    }
  }

  lemma StillListedStep<T>(before: seq<ListOp<T>>, last: ListOp<T>)
    ensures StillListed(before + [last]) == AfterOp(StillListed(before), last)
  {
    var n, ops := |before|, before + [last];
    var f, g := (i: nat) => Contribution(before, i), (i: nat) => Contribution(ops, i);
    forall i: nat | i < n ensures g(i) == if last.Added? then f(i) else AfterOp(f(i), last) {
      ContributionStep(before, last, i);
    }
    assert ops[n] == last && g(n) == if last.Added? then [last.item] else [];
    assert StillListed(ops) == Concat(n, g) + g(n) && StillListed(before) == Concat(n, f);
    if last.Added? {
      ConcatSame(n, f, g);
    } else if last.Removed? {
      ConcatWithout(n, f, g, last.item);
    } else {
      ConcatNothing(n, g);
    }
  }

  /** Whatever the history, the list is made up of the registrations in force, in the order in which they were made. */
  lemma {:induction false} ListedInOrder<T>(ops: seq<ListOp<T>>)
    ensures Listed(ops) == StillListed(ops)
  {
    if ops != [] {
      var n := |ops| - 1;
      ListedInOrder(ops[..n]);
      StillListedStep(ops[..n], ops[n]);
      assert ops == ops[..n] + [ops[n]];
    }
  }
}
