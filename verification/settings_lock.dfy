/** The process-wide reader/writer lock, seen through the sequence of calls made on it. */
module SettingsLock {

  datatype LockOp = LockForRead | LockForWrite | Unlock

  predicate Acquires(op: LockOp)
  {
    op != Unlock
  }

  /** Every acquisition is released by the very next call, and nothing is released twice. */
  predicate Balanced(t: seq<LockOp>)
    decreases |t|
  {
    |t| == 0 || (|t| >= 2 && Acquires(t[0]) && t[1] == Unlock && Balanced(t[2..]))
  }

  /** Number of acquisitions still held at the end of a trace. */
  function Held(t: seq<LockOp>): int
    decreases |t|
  {
    if |t| == 0 then 0
    else (if Acquires(t[0]) then 1 else -1) + Held(t[1..])
  }

  /** Balanced traces compose: running one locked operation after another stays balanced. */
  lemma {:induction false} BalancedAppend(a: seq<LockOp>, b: seq<LockOp>)
    requires Balanced(a) && Balanced(b)
    ensures Balanced(a + b)
    decreases |a|
  {
    if |a| == 0 {
      assert a + b == b;
    } else {
      assert (a + b)[2..] == a[2..] + b;
      BalancedAppend(a[2..], b);
    }
  }
}
