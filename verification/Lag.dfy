/**
 What happens when coordinators do not share a view: two of them, at slots s and t of views of sizes
 m and n, both own some protocol exactly if s and t agree modulo the greatest common divisor of m
 and n. So a coordinator that lags one join behind shares protocols with every other one.
 */
module Lag {
  import opened View

  function Gcd(m: nat, n: nat): (g: nat)
    requires m > 0 || n > 0
    ensures g > 0
    decreases n
  {
    if n == 0 then m else Gcd(n, m % n)
  }

  lemma {:induction false} Bezout(m: nat, n: nat) returns (x: int, y: int)
    requires m > 0 || n > 0
    ensures x * m + y * n == Gcd(m, n)
    decreases n
  {
    if n == 0 {
      return 1, 0;
    }
    var x', y' := Bezout(n, m % n);
    x, y := y', x' - (m / n) * y';
    Rearrange(x', y', m / n, n, m % n);
    assert m == (m / n) * n + m % n;
  }

  lemma Rearrange(x: int, y: int, q: int, n: int, r: int)
    ensures x * n + y * r == y * (q * n + r) + (x - q * y) * n
  {}

  lemma {:induction false} GcdDivides(m: nat, n: nat) returns (a: int, b: int)
    requires m > 0 || n > 0
    ensures m == a * Gcd(m, n) && n == b * Gcd(m, n)
    decreases n
  {
    if n == 0 {
      return 1, 0;
    }
    var b', r := GcdDivides(n, m % n);
    var g, q := Gcd(m, n), m / n;
    a, b := q * b' + r, b';
    assert m == q * n + m % n;
    assert (q * b' + r) * g == q * (b' * g) + r * g;
  }

  lemma TimesAtLeast(w: int, m: int)
    requires w >= 1 && m > 0
    ensures w * m >= m
  {}

  lemma SmallMultiple(w: int, m: int, d: int)
    requires m > 0 && w * m == d && -m < d < m
    ensures w == 0
  {
    if w >= 1 {
      TimesAtLeast(w, m);
      assert false;
    } else if w <= -1 {
      TimesAtLeast(-w, m);
      assert false;
    }
  }

  // A remainder is determined by any decomposition.
  lemma RemainderIs(h: int, m: int, s: int, u: int)
    requires m > 0 && 0 <= s < m && h == s + u * m
    ensures h % m == s
  {
    assert h == (h / m) * m + h % m;
    assert (h / m - u) * m == (h / m) * m - u * m;
    SmallMultiple(h / m - u, m, s - h % m);
  }

  lemma DifferenceOfMultiples(q: int, a: int, p: int, b: int, g: int)
    ensures p * (b * g) - q * (a * g) == (p * b - q * a) * g
  {}

  lemma CommonHashAgrees(m: nat, n: nat, h: nat)
    requires m > 0 && n > 0
    ensures (h % m - h % n) % Gcd(m, n) == 0
  {
    var a, b := GcdDivides(m, n);
    RemaindersAgree(h, h / m, m, h / n, n, a, b, Gcd(m, n), h % m, h % n);
  }

  lemma RemaindersAgree(h: int, q: int, m: int, p: int, n: int, a: int, b: int, g: int, s: int, t: int)
    requires g > 0 && m == a * g && n == b * g && h == q * m + s && h == p * n + t
    ensures (s - t) % g == 0
  {
    DifferenceOfMultiples(q, a, p, b, g);
    var d := p * b - q * a;
    assert s - t == 0 + d * g;
    RemainderIs(s - t, g, 0, d);
  }

  // Going down by common multiples keeps both remainders.
  lemma ReducedMeets(h0: int, m: nat, n: nat, s: nat, t: nat, u: int, v: int) returns (h: nat)
    requires s < m && t < n && h0 == s + u * m && h0 == t + v * n
    ensures h < m * n && h % m == s && h % n == t
  {
    TimesAtLeast(m, n);
    var mn := m * n;
    var z := h0 / mn;
    h := h0 % mn;
    assert h0 == z * mn + h;
    Regroup(z, m, n, u);
    Regroup(z, n, m, v);
    RemainderIs(h, m, s, u - z * n);
    RemainderIs(h, n, t, v - z * m);
  }

  lemma Regroup(z: int, m: int, n: int, u: int)
    ensures (u - z * n) * m == u * m - z * (m * n)
    ensures m * n == n * m
  {}

  lemma AgreeingSlotsMeet(m: nat, n: nat, s: nat, t: nat) returns (h: nat)
    requires s < m && t < n && (s - t) % Gcd(m, n) == 0
    ensures h < m * n && h % m == s && h % n == t
  {
    var g := Gcd(m, n);
    var x, y := Bezout(m, n);
    var k := (s - t) / g;
    MeetAt(m, n, s, t, k, g, x, y);
    h := ReducedMeets(s + (-(k * x)) * m, m, n, s, t, -(k * x), k * y);
  }

  lemma MeetAt(m: int, n: int, s: int, t: int, k: int, g: int, x: int, y: int)
    requires s - t == k * g && x * m + y * n == g
    ensures s + (-(k * x)) * m == t + (k * y) * n
  {
    assert k * (x * m + y * n) == (k * x) * m + (k * y) * n;
  }

  /** When two coordinators, each with its own view, both own some protocol. */
  lemma OwnersCollideIff(view: seq<NodeInfo>, c: NodeId, view': seq<NodeInfo>, d: NodeId)
    requires view != [] && view' != []
    ensures (exists h: nat :: Owns(view, c, h) && Owns(view', d, h)) <==>
            (Slot(view, c) - Slot(view', d)) % Gcd(|view|, |view'|) == 0
  {
    if h: nat :| Owns(view, c, h) && Owns(view', d, h) {
      CommonHashAgrees(|view|, |view'|, h);
    }
    if (Slot(view, c) - Slot(view', d)) % Gcd(|view|, |view'|) == 0 {
      var h := AgreeingSlotsMeet(|view|, |view'|, Slot(view, c), Slot(view', d));
      assert Owns(view, c, h) && Owns(view', d, h);
    }
  }

  lemma NeighboursAreCoprime(n: nat)
    requires n > 0
    ensures Gcd(n, n + 1) == 1
  {
    var g := Gcd(n, n + 1);
    var a, b := GcdDivides(n, n + 1);
    assert (b - a) * g == b * g - a * g;
    if g > 1 {
      SmallMultiple(b - a, g, 1);
    }
  }

  /**
   Agreement is needed: once a node joins, every coordinator that has seen it and every one that has
   not yet both own some protocol.
   */
  lemma LagBreaksOwnership(view: seq<NodeInfo>, joined: NodeInfo, c: NodeId, d: NodeId)
    requires view != [] && !InView(view, joined.Id())
    ensures exists h: nat :: Owns(view, c, h) && Owns(ApplyEvent(view, Put(joined)), d, h)
  {
    var after := ApplyEvent(view, Put(joined));
    UpsertNew(view, joined);
    NeighboursAreCoprime(|view|);
    OwnersCollideIff(view, c, after, d);
  }
}
