/** The search for a modulus under which no two queue pair numbers collide, and the table from
    queue pair number to rank it gives. */
module QpRank {

  const INT32_MAX: nat := 0x7fff_ffff

  /** No two of the first n queue pair numbers collide modulo m. */
  predicate Apart(qps: seq<nat>, n: nat, m: nat)
    requires n <= |qps| && (m > 0 || n == 0)
  {
    forall i, k :: 0 <= i < k < n ==> qps[i] % m != qps[k] % m
  }

  /** One round of the search: mark the residues, stop at the first one marked already. */
  method Mark(qps: seq<nat>, m: nat) returns (apart: bool, b: array<int>)
    requires m >= |qps|
    ensures apart <==> Apart(qps, |qps|, m)
    ensures b.Length == m && fresh(b)
  {
    b := new int[m](_ => 0);
    var i := 0;
    while i < |qps|
      invariant 0 <= i <= |qps|
      invariant b.Length == m && fresh(b)
      invariant Apart(qps, i, m)
      invariant forall r :: 0 <= r < m ==> (b[r] != 0 <==> exists h :: 0 <= h < i && qps[h] % m == r)
    {
      var k := qps[i] % m;
      if b[k] != 0 {
        return false, b;
      }
      b[k] := 1;
      i := i + 1;
    }
    apart := true;
  }

  /** The search itself. It stops below INT32_MAX exactly when some modulus there works, and then
      at the least one not below the number of ranks; the table then names every rank. */
  method Search(qps: seq<nat>) returns (mod: nat, qp2rank: array<int>)
    requires |qps| <= INT32_MAX
    ensures mod < INT32_MAX <==> exists m :: |qps| <= m < INT32_MAX && Apart(qps, |qps|, m)
    ensures mod < INT32_MAX ==>
              && |qps| <= mod && Apart(qps, |qps|, mod)
              && (forall m :: |qps| <= m < mod ==> !Apart(qps, |qps|, m))
              && qp2rank.Length == mod
              && (forall i :: 0 <= i < |qps| ==> qp2rank[qps[i] % mod] == i)
  {
    var j := |qps|;
    var b := new int[0];
    var apart := false;
    while j < INT32_MAX
      invariant |qps| <= j <= INT32_MAX
      invariant forall m :: |qps| <= m < j ==> !Apart(qps, |qps|, m)
      invariant !apart
    {
      apart, b := Mark(qps, j);
      if apart {
        break;
      }
      j := j + 1;
    }
    mod, qp2rank := j, b;
    if j < INT32_MAX {
      var i := 0;
      while i < |qps|
        invariant 0 <= i <= |qps|
        invariant forall h :: 0 <= h < i ==> b[qps[h] % j] == h
      {
        b[qps[i] % j] := i;
        i := i + 1;
      }
    }
  }

  predicate Distinct(qps: seq<nat>) {
    forall i, k :: 0 <= i < k < |qps| ==> qps[i] != qps[k]
  }

  lemma SmallMod(x: nat, m: nat)
    requires x < m
    ensures x % m == x
  {}

  /** Any modulus above every number keeps distinct numbers apart. */
  lemma LargeModulusWorks(qps: seq<nat>, m: nat)
    requires Distinct(qps) && m > 0 && forall i :: 0 <= i < |qps| ==> qps[i] < m
    ensures Apart(qps, |qps|, m)
  {
    forall i, k | 0 <= i < k < |qps| ensures qps[i] % m != qps[k] % m {
      SmallMod(qps[i], m);
      SmallMod(qps[k], m);
    }
  }

  lemma EqualNumbersNeverApart(qps: seq<nat>, m: nat)
    requires !Distinct(qps) && m > 0
    ensures !Apart(qps, |qps|, m)
  {
    var i, k :| 0 <= i < k < |qps| && qps[i] == qps[k];
    assert qps[i] % m == qps[k] % m;
  }

  /** Queue pair numbers are 24 bits wide, so the assertion after the search fires exactly when two
      of them are equal. */
  lemma FailsExactlyOnEqualNumbers(qps: seq<nat>)
    requires 0 < |qps| < INT32_MAX && forall i :: 0 <= i < |qps| ==> qps[i] < 0x100_0000
    ensures (exists m :: |qps| <= m < INT32_MAX && Apart(qps, |qps|, m)) <==> Distinct(qps)
  {
    if Distinct(qps) {
      var m := if |qps| > 0x100_0000 then |qps| else 0x100_0000;
      LargeModulusWorks(qps, m);
      assert |qps| <= m < INT32_MAX && Apart(qps, |qps|, m);
    } else {
      forall m | |qps| <= m < INT32_MAX ensures !Apart(qps, |qps|, m) {
        EqualNumbersNeverApart(qps, m);
      }
    }
  }

  /** What init() leaves behind for distinct numbers below a bound: a modulus no larger than that
      bound needs, and a table that turns every queue pair number back into its rank. */
  method BuildTable(qps: seq<nat>, ghost bound: nat) returns (mod: nat, qp2rank: array<int>)
    requires Distinct(qps) && forall i :: 0 <= i < |qps| ==> qps[i] < bound
    requires |qps| < INT32_MAX && 0 < bound <= 0x100_0000
    ensures |qps| <= mod <= (if |qps| > bound then |qps| else bound)
    ensures forall m :: |qps| <= m < mod ==> !Apart(qps, |qps|, m)
    ensures qp2rank.Length == mod
    ensures forall i :: 0 <= i < |qps| ==> qp2rank[qps[i] % mod] == i
  {
    mod, qp2rank := Search(qps);
    ghost var m := if |qps| > bound then |qps| else bound;
    LargeModulusWorks(qps, m);
  }
}
