/** The round-robin branch of the load balancer, on a 32-bit counter that wraps around. */
module LoadBalancing {
  import opened Bytes

  class LoadBalancer {
    var index: uint32

    constructor ()
      ensures index == 0
    {
      index := 0;
    }

    /** `select`: the counter is read and incremented at once, and wraps at 2^32. */
    method Select(addresses: seq<string>) returns (address: string)
      modifies this
      ensures addresses == [] ==> address == "" && index == old(index)
      ensures addresses != [] ==> address == addresses[Position(old(index), 0, |addresses|)]
      ensures addresses != [] ==> index == (old(index) + 1) % TWO32
    {
      if addresses == [] {
        return "";
      }
      var at := index;
      index := (index + 1) % TWO32;
      address := addresses[at % |addresses|];
    }

    /** Consecutive selects on one list visit the positions that `Position` names. */
    method SelectTimes(addresses: seq<string>, times: nat) returns (picked: seq<string>)
      requires addresses != []
      modifies this
      ensures |picked| == times
      ensures forall k :: 0 <= k < times ==> picked[k] == addresses[Position(old(index), k, |addresses|)]
    {
      picked := [];
      ghost var start := index;
      for i := 0 to times
        invariant |picked| == i && index == (start + i) % TWO32
        invariant forall k :: 0 <= k < i ==> picked[k] == addresses[Position(start, k, |addresses|)]
      {
        NextIndex(start, i, |addresses|);
        var address := Select(addresses);
        picked := picked + [address];
      }
    }
  }

  /** The position the k-th select from `start` takes in a list of `n`. */
  function Position(start: nat, k: nat, n: nat): (p: nat)
    requires n > 0
    ensures p < n
  {
    (start + k) % TWO32 % n
  }

  lemma NextIndex(start: nat, i: nat, n: nat)
    requires n > 0
    ensures Position((start + i) % TWO32, 0, n) == Position(start, i, n)
    ensures ((start + i) % TWO32 + 1) % TWO32 == (start + (i + 1)) % TWO32
  {
  }

  /** How often the first `m` values of `f` are `p`. */
  function Count(f: nat -> nat, p: nat, m: nat): nat {
    if m == 0 then 0 else Count(f, p, m - 1) + (if f(m - 1) == p then 1 else 0)
  }

  lemma {:induction false} CountSame(f: nat -> nat, g: nat -> nat, p: nat, m: nat)
    requires forall k: nat :: k < m ==> f(k) == g(k)
    ensures Count(f, p, m) == Count(g, p, m)
  {
    if m > 0 {
      CountSame(f, g, p, m - 1);
    }
  }

  lemma {:induction false} CountJoin(f: nat -> nat, g: nat -> nat, h: nat -> nat, p: nat, m: nat, l: nat)
    requires forall k: nat :: k < m ==> f(k) == g(k)
    requires forall k: nat :: k < l ==> f(m + k) == h(k)
    ensures Count(f, p, m + l) == Count(g, p, m) + Count(h, p, l)
  {
    if l == 0 {
      CountSame(f, g, p, m);
    } else {
      CountJoin(f, g, h, p, m, l - 1);
      assert f(m + (l - 1)) == h(l - 1);
    }
  }

  function Positions(start: nat, n: nat): nat -> nat
    requires n > 0
  {
    k => Position(start, k, n)
  }

  /** How often `m` selects from `start` pick position `p`. */
  function Picks(start: nat, m: nat, n: nat, p: nat): nat
    requires n > 0
  {
    Count(Positions(start, n), p, m)
  }

  function Residues(a: nat, n: nat): nat -> nat
    requires n > 0
  {
    k => (a + k) % n
  }

  /** How many of the `m` integers from `a` leave remainder `p`. */
  function Hits(a: nat, m: nat, n: nat, p: nat): nat
    requires n > 0
  {
    Count(Residues(a, n), p, m)
  }

  lemma DivUnique(v: int, d: int, q: int, r: int)
    requires d > 0 && 0 <= r < d && v == q * d + r
    ensures v / d == q && v % d == r
  {
    var q', r' := v / d, v % d;
    assert q' * d + r' == q * d + r;
    assert (q - q') * d == r' - r;
    OnlyMultiple(q - q', d, r' - r);
  }

  lemma OnlyMultiple(k: int, d: int, x: int)
    requires d > 0 && k * d == x && -d < x < d
    ensures k == 0
  {
  }

  /** The rounded quotient that counts remainders `p` below `x`. */
  function Below(x: nat, n: nat, p: nat): nat
    requires p < n
  {
    (x + n - 1 - p) / n
  }

  lemma BelowAt(q: nat, r: nat, n: nat, p: nat)
    requires p < n && r <= n
    ensures Below(q * n + r, n, p) == q + (if r > p then 1 else 0)
  {
    var v := q * n + r + n - 1 - p;
    if r > p {
      assert v == (q + 1) * n + (r - 1 - p) by { assert (q + 1) * n == q * n + n; }
      DivUnique(v, n, q + 1, r - 1 - p);
    } else {
      DivUnique(v, n, q, r + n - 1 - p);
    }
  }

  lemma BelowStep(x: nat, n: nat, p: nat)
    requires p < n
    ensures Below(x + 1, n, p) == Below(x, n, p) + (if x % n == p then 1 else 0)
  {
    var q, r := x / n, x % n;
    assert x == q * n + r;
    BelowAt(q, r, n, p);
    BelowAt(q, r + 1, n, p);
  }

  lemma {:induction false} HitsAre(a: nat, m: nat, n: nat, p: nat)
    requires p < n
    ensures Hits(a, m, n, p) == Below(a + m, n, p) - Below(a, n, p)
  {
    if m > 0 {
      HitsAre(a, m - 1, n, p);
      HitsStep(a, m - 1, n, p);
      BelowStep(a + (m - 1), n, p);
    }
  }

  lemma HitsStep(a: nat, m: nat, n: nat, p: nat)
    requires n > 0
    ensures Hits(a, m + 1, n, p) == Hits(a, m, n, p) + (if (a + m) % n == p then 1 else 0)
  {
  }

  /** Adding two numbers given by quotient and remainder. */
  lemma SumQuotient(u: nat, m: nat, n: nat, q: nat, r: nat, q': nat, r': nat)
    requires n > 0 && u == q * n + r && m == q' * n + r' && r < n && r' < n
    ensures (u + m) / n == q + q' + (if r + r' < n then 0 else 1)
  {
    assert (q + q') * n == q * n + q' * n;
    if r + r' < n {
      DivUnique(u + m, n, q + q', r + r');
    } else {
      assert (q + q' + 1) * n == (q + q') * n + n;
      DivUnique(u + m, n, q + q' + 1, r + r' - n);
    }
  }

  /** A window of `m` consecutive integers holds each remainder floor(m/n) or ceil(m/n) times. */
  lemma HitsFair(a: nat, m: nat, n: nat, p: nat)
    requires p < n
    ensures m / n <= Hits(a, m, n, p) <= m / n + (if m % n == 0 then 0 else 1)
  {
    HitsAre(a, m, n, p);
    BelowGrows(a, m, n, p);
  }

  lemma BelowGrows(a: nat, m: nat, n: nat, p: nat)
    requires p < n
    ensures m / n <= Below(a + m, n, p) - Below(a, n, p) <= m / n + (if m % n == 0 then 0 else 1)
  {
    var u := a + n - 1 - p;
    assert a + m + n - 1 - p == u + m;
    QuotientGrows(u, m, n);
  }

  lemma QuotientGrows(u: nat, m: nat, n: nat)
    requires n > 0
    ensures m / n <= (u + m) / n - u / n <= m / n + (if m % n == 0 then 0 else 1)
  {
    SumQuotient(u, m, n, u / n, u % n, m / n, m % n);
  }

  lemma Ceiling(m: nat, n: nat, q: nat, r: nat)
    requires n > 0 && m == q * n + r && r < n
    ensures (m + n - 1) / n == if r == 0 then q else q + 1
  {
    if r == 0 {
      DivUnique(m + n - 1, n, q, n - 1);
    } else {
      assert (q + 1) * n == q * n + n;
      DivUnique(m + n - 1, n, q + 1, r - 1);
    }
  }

  lemma PositionBeforeWrap(start: nat, k: nat, n: nat)
    requires n > 0 && start + k < TWO32
    ensures Positions(start, n)(k) == Residues(start, n)(k)
  {
  }

  lemma PositionAfterWrap(start: nat, k: nat, n: nat)
    requires n > 0 && start <= TWO32 && k < TWO32
    ensures Positions(start, n)(TWO32 - start + k) == Residues(0, n)(k)
  {
  }

  lemma PicksBeforeWrap(start: nat, m: nat, n: nat, p: nat)
    requires n > 0 && start + m <= TWO32
    ensures Picks(start, m, n, p) == Hits(start, m, n, p)
  {
    var f, g := Positions(start, n), Residues(start, n);
    forall k: nat | k < m ensures f(k) == g(k) {
      PositionBeforeWrap(start, k, n);
    }
    CountSame(f, g, p, m);
  }

  lemma PicksAcrossWrap(start: nat, m: nat, n: nat, p: nat)
    requires n > 0 && start <= TWO32 <= start + m <= 2 * TWO32
    ensures Picks(start, m, n, p) == Hits(start, TWO32 - start, n, p) + Hits(0, start + m - TWO32, n, p)
  {
    var f, g, h := Positions(start, n), Residues(start, n), Residues(0, n);
    var before, after := TWO32 - start, start + m - TWO32;
    forall k: nat | k < before ensures f(k) == g(k) {
      PositionBeforeWrap(start, k, n);
    }
    forall k: nat | k < after ensures f(before + k) == h(k) {
      PositionAfterWrap(start, k, n);
    }
    CountJoin(f, g, h, p, before, after);
  }

  /** Fairness while the counter does not wrap. */
  lemma FairBeforeWrap(start: uint32, m: nat, n: nat, p: nat)
    requires p < n && start + m <= TWO32
    ensures m / n <= Picks(start, m, n, p) <= (m + n - 1) / n
  {
    PicksBeforeWrap(start, m, n, p);
    HitsFair(start, m, n, p);
    CeilingOf(m, n);
  }

  lemma CeilingOf(m: nat, n: nat)
    requires n > 0
    ensures (m + n - 1) / n == m / n + (if m % n == 0 then 0 else 1)
  {
    Ceiling(m, n, m / n, m % n);
  }

  lemma HitsClose(a: nat, m: nat, n: nat, p: nat, p': nat)
    requires p < n && p' < n
    ensures -1 <= Hits(a, m, n, p) - Hits(a, m, n, p') <= 1
  {
    HitsFair(a, m, n, p);
    HitsFair(a, m, n, p');
  }

  /** Across one wrap two positions can drift apart by one more. */
  lemma FairAcrossWrap(start: uint32, m: nat, n: nat, p: nat, p': nat)
    requires p < n && p' < n && start + m <= 2 * TWO32
    ensures -2 <= Picks(start, m, n, p) - Picks(start, m, n, p') <= 2
  {
    if start + m <= TWO32 {
      PicksBeforeWrap(start, m, n, p);
      PicksBeforeWrap(start, m, n, p');
      HitsClose(start, m, n, p, p');
    } else {
      PicksAcrossWrap(start, m, n, p);
      PicksAcrossWrap(start, m, n, p');
      HitsClose(start, TWO32 - start, n, p, p');
      HitsClose(0, start + m - TWO32, n, p, p');
    }
  }

  /** No window of selects, however long, favours a position over another by more than one. */
  ghost predicate AlwaysFair(n: nat)
    requires n > 0
  {
    forall start: uint32, m: nat, p: nat, p': nat :: p < n && p' < n ==>
      -1 <= Picks(start, m, n, p) - Picks(start, m, n, p') <= 1
  }

  lemma ReducedTwice(x: nat, n: nat)
    requires n > 0 && TWO32 % n == 0
    ensures x % TWO32 % n == x % n
  {
    var w, q, r := TWO32 / n, x / TWO32, x % TWO32;
    var q', r' := r / n, r % n;
    assert TWO32 == w * n && x == q * TWO32 + r && r == q' * n + r';
    assert q * TWO32 == (q * w) * n;
    assert x == (q * w + q') * n + r' by { assert (q * w + q') * n == (q * w) * n + q' * n; }
    DivUnique(x, n, q * w + q', r');
  }

  lemma PicksWhenDividing(start: nat, m: nat, n: nat, p: nat)
    requires n > 0 && TWO32 % n == 0
    ensures Picks(start, m, n, p) == Hits(start, m, n, p)
  {
    var f, g := Positions(start, n), Residues(start, n);
    forall k: nat | k < m ensures f(k) == g(k) {
      ReducedTwice(start + k, n);
    }
    CountSame(f, g, p, m);
  }

  /** The window that ends with the first select after the wrap: the last partial round, and position 0. */
  lemma WindowPicks(n: nat, q: nat, r: nat, p: nat)
    requires p < n && TWO32 == q * n + r && r < n
    ensures Picks(TWO32 - r, r + 1, n, p) == (if p < r then 1 else 0) + (if p == 0 then 1 else 0)
  {
    PicksAcrossWrap(TWO32 - r, r + 1, n, p);
    HitsFromMultiple(q, TWO32 - r, r, n, p);
    HitsFromMultiple(0, 0, 1, n, p);
  }

  /** It picks position 0 twice and the last position never. */
  lemma UnfairWindow(n: nat)
    requires n > 0 && TWO32 % n != 0
    ensures var r := TWO32 % n;
            r <= TWO32 && Picks(TWO32 - r, r + 1, n, 0) == 2 && Picks(TWO32 - r, r + 1, n, n - 1) == 0
  {
    var q, r := TWO32 / n, TWO32 % n;
    assert TWO32 == q * n + r;
    WindowPicks(n, q, r, 0);
    WindowPicks(n, q, r, n - 1);
  }

  lemma HitsFromMultiple(q: nat, a: nat, r: nat, n: nat, p: nat)
    requires p < n && a == q * n && r <= n
    ensures Hits(a, r, n, p) == if r > p then 1 else 0
  {
    HitsAre(a, r, n, p);
    BelowAt(q, r, n, p);
    BelowAt(q, 0, n, p);
  }

  /** Round robin is fair for ever exactly for the list sizes that divide 2^32. */
  lemma FairExactly(n: nat)
    requires n > 0
    ensures AlwaysFair(n) <==> TWO32 % n == 0
  {
    if TWO32 % n == 0 {
      forall start: uint32, m: nat, p: nat, p': nat | p < n && p' < n
        ensures -1 <= Picks(start, m, n, p) - Picks(start, m, n, p') <= 1
      {
        PicksWhenDividing(start, m, n, p);
        PicksWhenDividing(start, m, n, p');
        HitsClose(start, m, n, p, p');
      }
    } else {
      UnfairWindow(n);
      var r := TWO32 % n;
      var start: uint32 := TWO32 - r;
      assert Picks(start, r + 1, n, 0) - Picks(start, r + 1, n, n - 1) == 2;
    }
  }
}
