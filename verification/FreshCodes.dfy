/** Picking the code of a row the admin adds by hand: the loops behind "Add
    subject" and "Add topic" count up until a code is unused. */
module FreshCodes {
  import opened Prelude
  import opened Decimal

  /** The code with the least index, from 1, that is not in use. */
  ghost predicate IsFresh(prefix: string, used: set<string>, code: string) {
    exists n: nat {:trigger Label(prefix, n)} ::
      && n >= 1 && code == Label(prefix, n) && code !in used
      && forall m: nat :: 1 <= m < n ==> Label(prefix, m) in used
  }

  /** Terminates for every finite set of used codes: the codes tried so far are
      pairwise different and all used, so there are no more of them than used codes. */
  method FreshCode(prefix: string, used: set<string>) returns (code: string)
    ensures IsFresh(prefix, used, code)
    ensures exists n: nat :: 1 <= n <= |used| + 1 && code == Label(prefix, n)
  {
    var n := 1;
    code := Label(prefix, n);
    ghost var tried: set<string> := {};
    while code in used
      invariant n >= 1 && code == Label(prefix, n)
      invariant tried <= used && |tried| == n - 1 && n - 1 <= |used|
      invariant forall c :: c in tried ==> exists m: nat :: 1 <= m < n && c == Label(prefix, m)
      invariant forall m: nat :: 1 <= m < n ==> Label(prefix, m) in used
      decreases |used| + 1 - n
    {
      if code in tried {
        var m: nat :| 1 <= m < n && code == Label(prefix, m);
        LabelInjective(prefix, m, n);
      }
      tried := tried + {code};
      SubsetSize(tried, used);
      n := n + 1;
      code := Label(prefix, n);
    }
  }

  /** The rule determines the code. */
  lemma FreshIsUnique(prefix: string, used: set<string>, a: string, b: string)
    requires IsFresh(prefix, used, a) && IsFresh(prefix, used, b)
    ensures a == b
  {
    var m: nat :| m >= 1 && a == Label(prefix, m) && a !in used
      && forall k: nat :: 1 <= k < m ==> Label(prefix, k) in used;
    var n: nat :| n >= 1 && b == Label(prefix, n) && b !in used
      && forall k: nat :: 1 <= k < n ==> Label(prefix, k) in used;
    assert !(m < n) && !(n < m);
  }
}
