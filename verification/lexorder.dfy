/** Lexicographic order on strings. It stands in for the database's
    chronological order of `clicked_at`: for UTC ISO-8601 timestamps of one
    uniform format, lexicographic order and chronological order agree. */
module LexOrder {

  /** `a` sorts no later than `b`. */
  predicate LexLe(a: string, b: string)
  {
    |a| == 0 || (|b| > 0 && (a[0] < b[0] || (a[0] == b[0] && LexLe(a[1..], b[1..]))))
  }

  /** `a` sorts strictly before `b`. */
  predicate LexLt(a: string, b: string)
  {
    LexLe(a, b) && a != b
  }

  /** Every pair of elements, taken in input order, is strictly in order. */
  predicate StrictlyAscending(s: seq<string>)
  {
    forall i, j :: 0 <= i < j < |s| ==> LexLt(s[i], s[j])
  }

  /** Cutting two ordered strings to a common length keeps them ordered: the
      date parts of two ordered ISO timestamps are ordered. */
  lemma {:induction false} PrefixMonotone(a: string, b: string, n: nat)
    requires LexLe(a, b)
    requires n <= |a| && n <= |b|
    ensures LexLe(a[..n], b[..n])
  {
    if n > 0 {
      if a[0] == b[0] {
        PrefixMonotone(a[1..], b[1..], n - 1);
        assert a[..n][1..] == a[1..][..n - 1];
        assert b[..n][1..] == b[1..][..n - 1];
      }
    }
  }
}
