/** The calls the driver makes into the HAL, and what a well-behaved sequence of them looks like. */
module Hal {
  import opened Base

  datatype Call =
    | Open(ok: bool)
    | Close(ok: bool)
    | Transmit(bytes: Bytes)
    | AddAddress(address: Byte)
    | RemoveAddress(address: Byte)

  datatype Handle = Shut | Live | Misused

  function After(h: Handle, c: Call): Handle {
    match c
    case Open(ok) => if h != Shut then Misused else if ok then Live else Shut
    case Close(_) => if h == Live then Shut else Misused
    case _ => if h == Live then Live else Misused
  }

  /** The state of the native handle after a sequence of calls; a close ends the session even when it reports an error. */
  function Scan(calls: seq<Call>): Handle {
    if calls == [] then Shut else After(Scan(calls[..|calls| - 1]), calls[|calls| - 1])
  }

  lemma ScanAppend(calls: seq<Call>, c: Call)
    ensures Scan(calls + [c]) == After(Scan(calls), c)
  {
    assert (calls + [c])[..|calls|] == calls;
  }

  ghost predicate OpenedAt(calls: seq<Call>, j: int, i: int) {
    0 <= j < i <= |calls| && calls[j] == Open(true) && forall k :: j < k < i ==> !calls[k].Close?
  }

  /** Call number `i` lies strictly between a successful open and the next close. */
  ghost predicate InSession(calls: seq<Call>, i: nat) {
    exists j :: OpenedAt(calls, j, i)
  }

  /** Every open is made outside a session, and every other call inside one. */
  ghost predicate Proper(calls: seq<Call>) {
    forall i :: 0 <= i < |calls| ==> (InSession(calls, i) <==> !calls[i].Open?)
  }

  lemma InSessionOfPrefix(calls: seq<Call>, n: nat, i: nat)
    requires i <= n <= |calls|
    ensures InSession(calls[..n], i) <==> InSession(calls, i)
  {
    forall j ensures OpenedAt(calls[..n], j, i) <==> OpenedAt(calls, j, i) {
      if 0 <= j < i {
        assert calls[..n][j] == calls[j];
        if forall k :: j < k < i ==> !calls[..n][k].Close? {
          forall k | j < k < i ensures !calls[k].Close? {
            assert calls[..n][k] == calls[k];
          }
        }
      }
    }
  }

  lemma InSessionStep(calls: seq<Call>, n: nat)
    requires 0 < n <= |calls|
    ensures InSession(calls, n) <==> calls[n - 1] == Open(true) || (InSession(calls, n - 1) && !calls[n - 1].Close?)
  {
    if calls[n - 1] == Open(true) {
      assert OpenedAt(calls, n - 1, n);
    }
    if InSession(calls, n - 1) && !calls[n - 1].Close? {
      var j :| OpenedAt(calls, j, n - 1);
      assert OpenedAt(calls, j, n);
    }
    if InSession(calls, n) && calls[n - 1] != Open(true) {
      var j :| OpenedAt(calls, j, n);
      assert OpenedAt(calls, j, n - 1);
    }
  }

  /** The handle automaton and the statement about sessions agree, in both directions. */
  lemma {:induction false} ScanMeansProper(calls: seq<Call>)
    ensures Scan(calls) != Misused <==> Proper(calls)
    ensures Proper(calls) ==> (Scan(calls) == Live <==> InSession(calls, |calls|))
  {
    if calls != [] {
      var n := |calls| - 1;
      var before := calls[..n];
      ScanMeansProper(before);
      forall i | 0 <= i <= n ensures InSession(before, i) <==> InSession(calls, i) {
        InSessionOfPrefix(calls, n, i);
      }
      assert forall i :: 0 <= i < n ==> before[i] == calls[i];
      assert Proper(calls) <==> Proper(before) && (InSession(calls, n) <==> !calls[n].Open?);
      InSessionStep(calls, n + 1);
    }
  }
}
