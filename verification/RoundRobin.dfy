/**
 The round-robin index of `next` in `pkg/deploy/protocol_coordinator.go`: where the index points,
 and how evenly a stable list is served.
 */
module RoundRobin {
  // An index left over from a longer list starts again at 0.
  function Position(index: nat, n: nat): (p: nat)
    requires n > 0
    ensures p < n
  {
    if index >= n then 0 else index
  }

  function NextIndex(index: nat, n: nat): (i: nat)
    requires n > 0
    ensures i < n
  {
    if Position(index, n) + 1 == n then 0 else Position(index, n) + 1
  }

  // The index after k picks from a list of n, and the positions picked.
  function IndexAfter(index: nat, n: nat, k: nat): nat
    requires n > 0
  {
    if k == 0 then index else NextIndex(IndexAfter(index, n, k - 1), n)
  }

  function Picks(index: nat, n: nat, k: nat): (s: seq<nat>)
    requires n > 0
    ensures |s| == k
    ensures forall j :: 0 <= j < k ==> s[j] < n
  {
    if k == 0 then [] else Picks(index, n, k - 1) + [Position(IndexAfter(index, n, k - 1), n)]
  }

  function Count<T(==)>(s: seq<T>, p: T): nat {
    if s == [] then 0 else Count(s[..|s| - 1], p) + (if s[|s| - 1] == p then 1 else 0)
  }

  // How many picks after the start position p comes up first.
  function Offset(start: nat, n: nat, p: nat): (d: nat)
    requires start < n && p < n
    ensures d < n
  {
    if p >= start then p - start else p + n - start
  }

  // m rounds of n picks
  function Rounds(m: nat, n: nat): nat {
    if m == 0 then 0 else Rounds(m - 1, n) + n
  }

  // The source computes the new index with a remainder.
  lemma NextIndexIsRemainder(index: nat, n: nat)
    requires n > 0
    ensures NextIndex(index, n) == (Position(index, n) + 1) % n
  {}

  // One pick moves the offset on by one, around the end of the round.
  lemma OffsetMoves(start: nat, n: nat, at: nat, r: nat, p: nat)
    requires start < n && at < n && p < n && Offset(start, n, at) == r
    ensures p == at <==> Offset(start, n, p) == r
    ensures Offset(start, n, if at + 1 == n then 0 else at + 1) == if r + 1 == n then 0 else r + 1
  {}

  // k picks as full rounds and the picks of the last, unfinished one.
  function Turn(n: nat, k: nat): (t: (nat, nat))
    requires n > 0
    ensures t.1 < n && k == Rounds(t.0, n) + t.1
  {
    if k == 0 then (0, 0)
    else
      var (m, r) := Turn(n, k - 1);
      if r + 1 == n then (m + 1, 0) else (m, r + 1)
  }

  lemma {:induction false} TurnOffset(index: nat, n: nat, k: nat)
    requires n > 0
    ensures Offset(Position(index, n), n, Position(IndexAfter(index, n, k), n)) == Turn(n, k).1
  {
    if k > 0 {
      TurnOffset(index, n, k - 1);
      OffsetMoves(Position(index, n), n, Position(IndexAfter(index, n, k - 1), n), Turn(n, k - 1).1, 0);
    }
  }

  /**
   After m full rounds and r more picks, a position has been picked m times, and once more if it
   is among the first r after the start.
   */
  lemma {:induction false} PickCount(index: nat, n: nat, k: nat, p: nat)
    requires p < n
    ensures var (m, r) := Turn(n, k);
            Count(Picks(index, n, k), p) == m + (if Offset(Position(index, n), n, p) < r then 1 else 0)
  {
    if k > 0 {
      PickCount(index, n, k - 1, p);
      CountStep(index, n, k, p);
      TurnOffset(index, n, k - 1);
      OffsetMoves(Position(index, n), n, Position(IndexAfter(index, n, k - 1), n), Turn(n, k - 1).1, p);
    }
  }

  lemma CountStep(index: nat, n: nat, k: nat, p: nat)
    requires n > 0 && k > 0
    ensures Count(Picks(index, n, k), p) ==
            Count(Picks(index, n, k - 1), p) + (if Position(IndexAfter(index, n, k - 1), n) == p then 1 else 0)
  {}

  lemma {:induction false} RoundsQuotient(k: nat, n: nat, m: nat, r: nat)
    requires n > 0 && k == Rounds(m, n) + r && r < n
    ensures k / n == m
  {
    if m > 0 {
      RoundsQuotient(k - n, n, m - 1, r);
      OneLess(k, n);
    }
  }

  lemma OneLess(k: nat, n: nat)
    requires n > 0 && k >= n
    ensures k / n == (k - n) / n + 1
  {
    var q, r := (k - n) / n, (k - n) % n;
    assert (q + 1) * n == q * n + n;
    Quotient(k, n, q + 1, r);
  }

  lemma Quotient(k: nat, n: nat, m: nat, r: nat)
    requires n > 0 && k == m * n + r && r < n
    ensures k / n == m
  {
    var q := k / n;
    assert k == q * n + k % n;
    assert (m - q) * n == m * n - q * n == k % n - r;
    if q < m {
      MultipleAtLeast(m - q, n);
    } else if m < q {
      assert (q - m) * n == r - k % n;
      MultipleAtLeast(q - m, n);
    }
  }

  lemma MultipleAtLeast(d: nat, n: nat)
    requires d >= 1
    ensures d * n >= n
  {}

  /** Fairness: after k picks every position has been picked floor(k/n) or ceil(k/n) times. */
  lemma PicksAreFair(index: nat, n: nat, k: nat, p: nat)
    requires p < n
    ensures k / n <= Count(Picks(index, n, k), p) <= (k + n - 1) / n
  {
    PickCount(index, n, k, p);
    var (m, r) := Turn(n, k);
    RoundsQuotient(k, n, m, r);
    if r > 0 {
      RoundsQuotient(k + n - 1, n, m + 1, r - 1);
    } else {
      RoundsQuotient(k + n - 1, n, m, n - 1);
    }
  }

  /** Any n consecutive picks from a list of n serve every position exactly once. */
  lemma OneRoundServesEachOnce(index: nat, n: nat, p: nat)
    requires p < n
    ensures Count(Picks(index, n, n), p) == 1
  {
    PickCount(index, n, n, p);
    var (m, r) := Turn(n, n);
    RoundsQuotient(n, n, m, r);
    assert Rounds(1, n) == n;
    RoundsQuotient(n, n, 1, 0);
  }

  lemma {:induction false} CountAtLeast(s: seq<nat>, i: nat, j: nat)
    requires i < j < |s| && s[i] == s[j]
    ensures Count(s, s[i]) >= 2
  {
    if j == |s| - 1 {
      CountOne(s[..j], i);
    } else {
      CountAtLeast(s[..|s| - 1], i, j);
    }
  }

  lemma {:induction false} CountOne(s: seq<nat>, i: nat)
    requires i < |s|
    ensures Count(s, s[i]) >= 1
  {
    if i < |s| - 1 {
      CountOne(s[..|s| - 1], i);
    }
  }

  /** No more picks than nodes: no node is picked twice. */
  lemma FewPicksAreDistinct(index: nat, n: nat, k: nat, i: nat, j: nat)
    requires n > 0 && k <= n && i < j < k
    ensures Picks(index, n, k)[i] != Picks(index, n, k)[j]
  {
    var s := Picks(index, n, k);
    if s[i] == s[j] {
      CountAtLeast(s, i, j);
      PicksAreFair(index, n, k, s[i]);
      if k < n {
        assert Rounds(1, n) == n;
        RoundsQuotient(k + n - 1, n, 1, k - 1);
      } else {
        OneRoundServesEachOnce(index, n, s[i]);
      }
    }
  }
}
