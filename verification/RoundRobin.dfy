/** The rotation of `Pool.Pick` (internal/upstream/pool.go), on the availability of the keys alone. */
module RoundRobin {
  import opened Basics

  /** Scanning n slots from `start` in circular order, from the `i`-th on. */
  function Scan(avail: seq<bool>, start: nat, i: nat): (r: Option<nat>)
    requires |avail| > 0 && i <= |avail|
    ensures r.Some? ==> r.value < |avail| && avail[r.value]
    decreases |avail| - i
  {
    if i == |avail| then None
    else if avail[(start + i) % |avail|] then Some((start + i) % |avail|)
    else Scan(avail, start, i + 1)
  }

  /** What the pick with counter value `c` yields. */
  function Chosen(avail: seq<bool>, c: nat): (r: Option<nat>)
    requires |avail| > 0
  {
    Scan(avail, c % |avail|, 0)
  }

  // ---------------------------------------------------------------- the line of slots

  /** Slot `p` of the circle rolled out along the integers. */
  predicate At(avail: seq<bool>, p: int)
    requires |avail| > 0
  {
    avail[p % |avail|]
  }

  lemma MulAtLeast(n: int, d: int)
    requires n > 0 && d >= 1
    ensures n * d >= n
  {
  }

  /** A multiple of n strictly between -n and n is zero. */
  lemma SmallMultiple(n: int, d: int)
    requires n > 0 && -n < n * d < n
    ensures d == 0
  {
    if d >= 1 {
      MulAtLeast(n, d);
    } else if d <= -1 {
      MulAtLeast(n, -d);
    }
  }

  lemma ModUnique(a: int, n: int, q: int, r: int)
    requires n > 0 && a == n * q + r && 0 <= r < n
    ensures a % n == r
  {
    assert n * (a / n - q) == r - a % n;
    SmallMultiple(n, a / n - q);
  }

  lemma ModShift(p: int, n: int)
    requires n > 0
    ensures (p + n) % n == p % n
  {
    assert p + n == n * (p / n + 1) + p % n;
    ModUnique(p + n, n, p / n + 1, p % n);
  }

  /** Two points less than n apart stand for the same slot only if they are equal. */
  lemma SameSlot(a: int, b: int, n: int)
    requires n > 0 && a <= b < a + n && a % n == b % n
    ensures a == b
  {
    assert n * (b / n - a / n) == b - a;
    SmallMultiple(n, b / n - a / n);
  }

  lemma ModAdd(c: int, j: int, n: int)
    requires n > 0
    ensures (c % n + j) % n == (c + j) % n
  {
    assert c == n * (c / n) + c % n;
    var x := c % n + j;
    assert x == n * (x / n) + x % n;
    assert c + j == n * (c / n + x / n) + x % n;
    ModUnique(c + j, n, c / n + x / n, x % n);
  }

  /** The pick from `c` lands on `p` when `p` is available, at most n - 1 ahead, and nothing between is available. */
  lemma {:induction false} ScanFinds(avail: seq<bool>, c: nat, i: nat, p: int)
    requires |avail| > 0 && i < |avail| && c + i <= p < c + |avail| && At(avail, p)
    requires forall j | c + i <= j < p :: !At(avail, j)
    ensures Scan(avail, c % |avail|, i) == Some(p % |avail|)
    decreases |avail| - i
  {
    ModAdd(c, i, |avail|);
    if c + i < p {
      assert !At(avail, c + i);
      ScanFinds(avail, c, i + 1, p);
    }
  }

  lemma {:induction false} ScanMisses(avail: seq<bool>, c: nat, i: nat)
    requires |avail| > 0 && i <= |avail|
    requires forall j | c + i <= j < c + |avail| :: !At(avail, j)
    ensures Scan(avail, c % |avail|, i) == None
    decreases |avail| - i
  {
    if i < |avail| {
      ModAdd(c, i, |avail|);
      assert !At(avail, c + i);
      ScanMisses(avail, c, i + 1);
    }
  }

  /** The first available point in [lo, hi), or hi. */
  function FirstAt(avail: seq<bool>, lo: int, hi: int): (p: int)
    requires |avail| > 0 && lo <= hi
    ensures lo <= p <= hi && (p < hi ==> At(avail, p)) && (forall j | lo <= j < p :: !At(avail, j))
    decreases hi - lo
  {
    if lo == hi || At(avail, lo) then lo else FirstAt(avail, lo + 1, hi)
  }

  /** A pick fails exactly when no key is available. */
  lemma PickFailsIffNoneAvailable(avail: seq<bool>, c: nat)
    requires |avail| > 0
    ensures Chosen(avail, c) == None <==> forall k | 0 <= k < |avail| :: !avail[k]
  {
    var n := |avail|;
    var p := FirstAt(avail, c, c + n);
    if p < c + n {
      ScanFinds(avail, c, 0, p);
      assert avail[p % n];
    } else {
      ScanMisses(avail, c, 0);
      forall k | 0 <= k < n
        ensures !avail[k]
      {
        var q := PointFor(c, k, n);
        assert !At(avail, q);
      }
    }
  }

  /** Every slot has a point in any window of n. */
  lemma PointFor(c: int, k: int, n: int) returns (q: int)
    requires n > 0 && 0 <= k < n
    ensures c <= q < c + n && q % n == k
  {
    q := c + (k - c) % n;
    ModAdd(k - c, c, n);
    ModUnique(k, n, 0, k);
  }

  // ---------------------------------------------------------------- exact counts

  /** No point from `lo` up to `hi` is available. */
  ghost predicate NoneAt(avail: seq<bool>, lo: int, hi: int)
    requires |avail| > 0
  {
    forall j | lo <= j < hi :: !At(avail, j)
  }

  /** How many unavailable slots stand directly before slot `k`, in circular order, `g` of them already counted. */
  function GapFrom(avail: seq<bool>, k: nat, g: nat): (r: nat)
    requires k < |avail| && g < |avail| && NoneAt(avail, k - g, k)
    ensures g <= r < |avail| && NoneAt(avail, k - r, k)
    ensures r < |avail| - 1 ==> At(avail, k - r - 1)
    decreases |avail| - g
  {
    if g == |avail| - 1 || At(avail, k - g - 1) then g else GapFrom(avail, k, g + 1)
  }

  function Gap(avail: seq<bool>, k: nat): nat
    requires k < |avail|
  {
    GapFrom(avail, k, 0)
  }

  /** Picks are periodic in the counter; `c` ranges over all integers so that windows can be moved. */
  predicate Picks(avail: seq<bool>, c: int, k: nat)
    requires |avail| > 0
  {
    Scan(avail, c % |avail|, 0) == Some(k)
  }

  /** How many of the counter values in [lo, lo + m) pick slot `k`. */
  function Count(avail: seq<bool>, k: nat, lo: int, m: nat): nat
    requires |avail| > 0
    decreases m
  {
    if m == 0 then 0 else (if Picks(avail, lo, k) then 1 else 0) + Count(avail, k, lo + 1, m - 1)
  }

  lemma {:induction false} CountSplit(avail: seq<bool>, k: nat, lo: int, m1: nat, m2: nat)
    requires |avail| > 0
    ensures Count(avail, k, lo, m1 + m2) == Count(avail, k, lo, m1) + Count(avail, k, lo + m1, m2)
    decreases m1
  {
    if m1 > 0 {
      CountSplit(avail, k, lo + 1, m1 - 1, m2);
      assert (m1 + m2) - 1 == (m1 - 1) + m2;
    }
  }

  /** A window of n counter values may be moved by one: what leaves at one end enters at the other. */
  lemma CountSlides(avail: seq<bool>, k: nat, lo: int)
    requires |avail| > 0
    ensures Count(avail, k, lo, |avail|) == Count(avail, k, lo + 1, |avail|)
  {
    var n := |avail|;
    CountSplit(avail, k, lo, 1, n - 1);
    CountSplit(avail, k, lo + 1, n - 1, 1);
    assert Count(avail, k, lo, 1) == (if Picks(avail, lo, k) then 1 else 0) + Count(avail, k, lo + 1, 0);
    assert Count(avail, k, lo + n, 1) == (if Picks(avail, lo + n, k) then 1 else 0) + Count(avail, k, lo + n + 1, 0);
    ModShift(lo, n);
  }

  lemma {:induction false} CountMoves(avail: seq<bool>, k: nat, lo: int, d: nat)
    requires |avail| > 0
    ensures Count(avail, k, lo, |avail|) == Count(avail, k, lo + d, |avail|)
    decreases d
  {
    if d > 0 {
      CountSlides(avail, k, lo);
      CountMoves(avail, k, lo + 1, d - 1);
    }
  }

  /** In the window that ends at `k` itself, exactly the last Gap(k) + 1 counter values pick `k`. */
  lemma PicksNear(avail: seq<bool>, k: nat, c: int)
    requires k < |avail| && avail[k] && k - |avail| < c <= k
    ensures Picks(avail, c, k) <==> k - c <= Gap(avail, k)
  {
    var n := |avail|;
    ModUnique(k, n, 0, k);
    assert At(avail, k);
    var c' := c + n;
    ModShift(c, n);
    var p := FirstAt(avail, c, k);
    ModShift(p, n);
    forall j | c' <= j < p + n
      ensures !At(avail, j)
    {
      ModShift(j - n, n);
      assert !At(avail, j - n);
    }
    ScanFinds(avail, c', 0, p + n);
    if p < k {
      if p % n == k % n {
        SameSlot(p, k, n);
      }
      assert At(avail, p);
    }
  }

  lemma {:induction false} CountNone(avail: seq<bool>, k: nat, lo: int, m: nat)
    requires |avail| > 0 && forall c | lo <= c < lo + m :: !Picks(avail, c, k)
    ensures Count(avail, k, lo, m) == 0
    decreases m
  {
    if m > 0 {
      assert !Picks(avail, lo, k);
      CountNone(avail, k, lo + 1, m - 1);
    }
  }

  lemma {:induction false} CountAll(avail: seq<bool>, k: nat, lo: int, m: nat)
    requires |avail| > 0 && forall c | lo <= c < lo + m :: Picks(avail, c, k)
    ensures Count(avail, k, lo, m) == m
    decreases m
  {
    if m > 0 {
      assert Picks(avail, lo, k);
      CountAll(avail, k, lo + 1, m - 1);
    }
  }

  /** Any n consecutive picks return an available key once for itself and once for every unavailable key directly
      before it in circular order. */
  lemma ExactShare(avail: seq<bool>, k: nat, c: nat)
    requires k < |avail| && avail[k]
    ensures Count(avail, k, c, |avail|) == 1 + Gap(avail, k)
  {
    var n, g := |avail|, Gap(avail, k);
    var lo := k - n + 1;
    CountMoves(avail, k, lo, c - lo);
    CountSplit(avail, k, lo, n - 1 - g, g + 1);
    forall x | lo <= x <= k
      ensures Picks(avail, x, k) <==> k - x <= g
    {
      PicksNear(avail, k, x);
    }
    CountNone(avail, k, lo, n - 1 - g);
    CountAll(avail, k, k - g, g + 1);
  }
}
