/** The fixed-capacity histories the widgets keep: push the new value at the
    end, then drop the oldest one if the list has grown past its capacity. */
module History {

  /** `push` followed by one `shift` when the length exceeds `capacity`. */
  function Push<T>(buf: seq<T>, x: T, capacity: nat): (r: seq<T>)
    requires capacity > 0
    ensures |r| > 0 && r[|r| - 1] == x
    ensures |buf| < capacity ==> r[..|r| - 1] == buf
    ensures |buf| >= capacity ==> r[..|r| - 1] == buf[1..]
  {
    var pushed := buf + [x];
    if |pushed| > capacity then pushed[1..] else pushed
  }

  /** A full history stays full; a shorter one grows by one; none outgrows
      its capacity if it did not already. */
  lemma {:induction false} PushLength<T>(buf: seq<T>, x: T, capacity: nat)
    requires capacity > 0
    ensures |buf| >= capacity ==> |Push(buf, x, capacity)| == |buf|
    ensures |buf| < capacity ==> |Push(buf, x, capacity)| == |buf| + 1
    ensures |buf| <= capacity ==> |Push(buf, x, capacity)| <= capacity
  {
  }

  /** Every entry of the new history is the new value or an old entry. */
  lemma {:induction false} PushMembers<T>(buf: seq<T>, x: T, capacity: nat, P: T -> bool)
    requires capacity > 0
    requires P(x) && forall i :: 0 <= i < |buf| ==> P(buf[i])
    ensures forall i :: 0 <= i < |Push(buf, x, capacity)| ==> P(Push(buf, x, capacity)[i])
  {
    var r := Push(buf, x, capacity);
    forall i | 0 <= i < |r| ensures P(r[i]) {
      if i < |r| - 1 {
        if |buf| < capacity {
          assert r[i] == r[..|r| - 1][i] == buf[i];
        } else {
          assert r[i] == r[..|r| - 1][i] == buf[1..][i] == buf[i + 1];
        }
      }
    }
  }
}
