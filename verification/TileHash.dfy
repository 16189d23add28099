/** The perfect hash of sliding-tile boards: the rank of the permutation in the
    factorial number system, computed with a table of bit counts. */
module TileHash {
  import opened Numbers

  /** A board lists the tile at each position; the tiles are 0 .. n-1, each once. */
  ghost predicate Board(t: seq<nat>) {
    && (forall i :: 0 <= i < |t| ==> t[i] < |t|)
    && (forall i, j :: 0 <= i < j < |t| ==> t[i] != t[j])
  }

  function Seen(t: seq<nat>): set<nat> {
    if t == [] then {} else {t[0]} + Seen(t[1..])
  }

  /** How many numbers below k are in s. */
  function Below(s: set<nat>, k: nat): (c: nat)
    ensures c <= k
  {
    if k == 0 then 0 else Below(s, k - 1) + if k - 1 in s then 1 else 0
  }

  lemma {:induction false} SeenIsTail(t: seq<nat>, x: nat)
    ensures x in Seen(t) <==> x in t
  {
    if t != [] { SeenIsTail(t[1..], x); }
  }

  lemma {:induction false} BelowGrows(s: set<nat>, x: nat, k: nat)
    requires x !in s
    ensures Below(s + {x}, k) == Below(s, k) + if x < k then 1 else 0
  {
    if k > 0 { BelowGrows(s, x, k - 1); }
  }

  lemma {:induction false} BelowTail(t: seq<nat>, n: nat)
    requires (forall i :: 0 <= i < |t| ==> t[i] < n) && (forall i, j :: 0 <= i < j < |t| ==> t[i] != t[j])
    ensures Below(Seen(t), n) == |t|
  {
    if t == [] {
      NothingBelow(n);
    } else {
      BelowTail(t[1..], n);
      SeenIsTail(t[1..], t[0]);
      BelowGrows(Seen(t[1..]), t[0], n);
      assert {t[0]} + Seen(t[1..]) == Seen(t[1..]) + {t[0]};
    }
  }

  lemma {:induction false} NothingBelow(n: nat)
    ensures Below({}, n) == 0
  {
    if n > 0 { NothingBelow(n - 1); }
  }

  /** Between a missing number a and b there are fewer than b - a members. */
  lemma {:induction false} BelowGap(s: set<nat>, a: nat, b: nat)
    requires a < b && a !in s
    ensures Below(s, b) < Below(s, a) + (b - a)
  {
    if a + 1 < b { BelowGap(s, a, b - 1); }
  }

  // ---------- the digits ----------

  /** The i-th digit: how many smaller tiles are not at a later position. */
  function Digit(t: seq<nat>, i: nat): nat
    requires i < |t|
  {
    t[i] - Below(Seen(t[i + 1..]), t[i])
  }

  /** A digit of position i is at most i. */
  lemma DigitInRange(t: seq<nat>, i: nat)
    requires Board(t) && i < |t|
    ensures Digit(t, i) <= i
  {
    var tail := t[i + 1..];
    BelowTail(tail, |t|);
    SeenIsTail(tail, t[i]);
    BelowGap(Seen(tail), t[i], |t|);
  }

  /** What the first i digits contribute. */
  function Low(t: seq<nat>, i: nat): nat
    requires i <= |t|
  {
    if i == 0 then 0 else Low(t, i - 1) + Digit(t, i - 1) * Factorial(i - 1)
  }

  function Rank(t: seq<nat>): nat {
    Low(t, |t|)
  }

  lemma {:induction false} LowIsBelowFactorial(t: seq<nat>, i: nat)
    requires Board(t) && i <= |t|
    ensures Low(t, i) < Factorial(i)
  {
    if i > 0 {
      LowIsBelowFactorial(t, i - 1);
      DigitInRange(t, i - 1);
      Scale(Digit(t, i - 1), i - 1, Factorial(i - 1));
    }
  }

  /** The hash of a board of n tiles is below n!. */
  lemma RankInRange(t: seq<nat>)
    requires Board(t)
    ensures Rank(t) < Factorial(|t|)
  {
    LowIsBelowFactorial(t, |t|);
  }

  /** Given the later tiles, a digit determines the tile. */
  lemma DigitDetermines(a: seq<nat>, b: seq<nat>, i: nat)
    requires Board(a) && Board(b) && |a| == |b| && i < |a| && a[i + 1..] == b[i + 1..] && Digit(a, i) == Digit(b, i)
    ensures a[i] == b[i]
  {
    var s := Seen(a[i + 1..]);
    SeenIsTail(a[i + 1..], a[i]);
    SeenIsTail(b[i + 1..], b[i]);
    assert a[i] !in a[i + 1..] && b[i] !in b[i + 1..];
    if a[i] < b[i] {
      BelowGap(s, a[i], b[i]);
    } else if b[i] < a[i] {
      BelowGap(s, b[i], a[i]);
    }
  }

  lemma {:induction false} LowDetermines(a: seq<nat>, b: seq<nat>, i: nat)
    requires Board(a) && Board(b) && |a| == |b| && i <= |a| && a[i..] == b[i..] && Low(a, i) == Low(b, i)
    ensures a == b
  {
    if i == 0 {
      assert a == a[0..] && b == b[0..];
    } else {
      LowIsBelowFactorial(a, i - 1);
      LowIsBelowFactorial(b, i - 1);
      SameDigits(Factorial(i - 1), Digit(a, i - 1), Low(a, i - 1), Digit(b, i - 1), Low(b, i - 1));
      DigitDetermines(a, b, i - 1);
      assert a[i - 1..] == [a[i - 1]] + a[i..] && b[i - 1..] == [b[i - 1]] + b[i..];
      LowDetermines(a, b, i - 1);
    }
  }

  /** The hash is perfect: boards of the same size share it only if they are equal. */
  lemma HashIsPerfect(a: seq<nat>, b: seq<nat>)
    requires Board(a) && Board(b) && |a| == |b|
    ensures Rank(a) == Rank(b) <==> a == b
  {
    if Rank(a) == Rank(b) { LowDetermines(a, b, |a|); }
  }

  // ---------- bit counts ----------

  function Ones(v: nat): nat {
    if v == 0 then 0 else v % 2 + Ones(v / 2)
  }

  /** The bit set of the members of s below k. */
  function Bits(s: set<nat>, k: nat): (b: nat)
    ensures b < Pow2(k)
  {
    if k == 0 then 0 else Bits(s, k - 1) + if k - 1 in s then Pow2(k - 1) else 0
  }

  lemma {:induction false} OnesOfTop(a: nat, k: nat)
    requires a < Pow2(k)
    ensures Ones(a + Pow2(k)) == Ones(a) + 1
  {
    if k > 0 {
      OnesOfTop(a / 2, k - 1);
      assert (a + Pow2(k)) / 2 == a / 2 + Pow2(k - 1) && (a + Pow2(k)) % 2 == a % 2;
    } else {
      assert Ones(1) == 1 + Ones(0);
    }
  }

  /** Counting the bits counts the members. */
  lemma {:induction false} OnesOfBits(s: set<nat>, k: nat)
    ensures Ones(Bits(s, k)) == Below(s, k)
  {
    if k > 0 {
      OnesOfBits(s, k - 1);
      OnesOfTop(Bits(s, k - 1), k - 1);
    }
  }

  lemma {:induction false} Pow2Splits(a: nat, k: nat)
    ensures Pow2(a + k) == Pow2(a) * Pow2(k)
  {
    if a > 0 {
      Pow2Splits(a - 1, k);
      assert Pow2(a + k) == 2 * Pow2(a - 1 + k);
      TwiceProduct(Pow2(a - 1), Pow2(k));
    }
  }

  lemma TwiceProduct(x: nat, y: nat)
    ensures 2 * (x * y) == (2 * x) * y
  {
  }

  /** The members of s from k on, shifted down. */
  function High(s: set<nat>, k: nat, n: nat): nat
    requires k <= n
  {
    if n == k then 0 else High(s, k, n - 1) + if n - 1 in s then Pow2(n - 1 - k) else 0
  }

  lemma {:induction false} BitsSplit(s: set<nat>, k: nat, n: nat)
    requires k <= n
    ensures Bits(s, n) == High(s, k, n) * Pow2(k) + Bits(s, k)
    decreases n
  {
    if k < n {
      BitsSplit(s, k, n - 1);
      Pow2Splits(n - 1 - k, k);
      AddProduct(High(s, k, n - 1), Pow2(n - 1 - k), Pow2(k));
    }
  }

  /** Masking keeps the low bits: mask & bits. */
  lemma MaskOfBits(s: set<nat>, k: nat, n: nat)
    requires k <= n
    ensures Bits(s, n) % Pow2(k) == Bits(s, k)
  {
    BitsSplit(s, k, n);
    var b, f := Bits(s, n), Pow2(k);
    DivisionSplits(b, f);
    SameDigits(f, b / f, b % f, High(s, k, n), Bits(s, k));
  }

  lemma {:induction false} BitsGrow(s: set<nat>, x: nat, n: nat)
    requires x !in s
    ensures Bits(s + {x}, n) == Bits(s, n) + if x < n then Pow2(x) else 0
  {
    if n > 0 { BitsGrow(s, x, n - 1); }
  }

  // ---------- the tables and the loop ----------

  /** The bits of i, lowest first. */
  method CountOnes(i: nat) returns (bits: nat)
    ensures bits == Ones(i)
  {
    var j := i;
    bits := 0;
    while j != 0
      invariant bits + Ones(j) == Ones(i)
    {
      bits := bits + j % 2;
      j := j / 2;
    }
  }

  method OnesTable(pow: nat) returns (ones: array<nat>)
    ensures fresh(ones) && ones.Length == pow + 1
    ensures forall v {:trigger ones[v]} :: 0 <= v < ones.Length ==> ones[v] == Ones(v)
  {
    ones := new nat[pow + 1](_ => 0);
    var i := 1;
    while i <= pow
      invariant 1 <= i <= pow + 1 && forall v {:trigger ones[v]} :: 0 <= v < i ==> ones[v] == Ones(v)
    {
      ones[i] := CountOnes(i);
      i := i + 1;
    }
  }

  method FactorialTable(n: nat) returns (facts: array<nat>)
    ensures fresh(facts) && facts.Length == n + 1
    ensures forall i {:trigger facts[i]} :: 0 <= i <= n ==> facts[i] == Factorial(i)
  {
    facts := new nat[n + 1](_ => 1);
    var i := 1;
    while i < n + 1
      invariant 1 <= i <= n + 1 && forall k {:trigger facts[k]} :: 0 <= k < i ==> facts[k] == Factorial(k)
    {
      NextFactorial(i);
      facts[i] := facts[i - 1] * i;
      i := i + 1;
    }
  }

  lemma NextFactorial(i: nat)
    requires i > 0
    ensures Factorial(i) == Factorial(i - 1) * i
  {
  }

  class Tables {
    const n: nat
    const ones: array<nat>
    const factorials: array<nat>

    ghost predicate Valid()
      reads this, ones, factorials
    {
      && n > 0 && ones.Length == Pow2(n - 1) + 1 && factorials.Length == n + 1
      && (forall v {:trigger ones[v]} :: 0 <= v < ones.Length ==> ones[v] == Ones(v))
      && (forall i {:trigger factorials[i]} :: 0 <= i <= n ==> factorials[i] == Factorial(i))
    }

    /** n is the number of cells, width times height. */
    constructor (n: nat)
      requires n > 0
      ensures Valid() && this.n == n
    {
      var pow := 1;
      var e := 0;
      while e < n - 1
        invariant 0 <= e <= n - 1 && pow == Pow2(e)
      {
        pow, e := 2 * pow, e + 1;
      }
      var table := OnesTable(pow);
      var facts := FactorialTable(n);
      this.n, ones, factorials := n, table, facts;
    }

    /** One digit: the tiles below k that have been seen do not count. */
    method LookUp(bits: nat, k: nat, ghost s: set<nat>) returns (d: nat)
      requires Valid() && k < n && bits == Bits(s, n) && Below(s, k) <= k
      ensures d == k - Below(s, k)
    {
      hide Factorial, Ones, Pow2, Below;
      Pow2Grows(k, n - 1);
      MaskOfBits(s, k, n);
      OnesOfBits(s, k);
      var v: nat := bits % Pow2(k);
      assert v == Bits(s, k);
      d := k - ones[v];
    }

    /** compute_hash: every table access is in range, no digit is negative, and the
        result is the rank.  Up to 20 tiles nothing is cut off on the way: `bits` stays
        within its 32 bits and `hash` within its 64. */
    method ComputeHash(tiles: seq<nat>) returns (hash: nat)
      requires Valid() && Board(tiles) && |tiles| == n
      ensures hash == Rank(tiles) && hash < Factorial(n)
      ensures n <= 20 ==> hash < 0x1_0000_0000_0000_0000
    {
      hide Factorial, Ones, Pow2, Below, Bits, Digit, WordsHold;
      var bits := 0;
      hash := 0;
      var i := |tiles|;
      assert tiles[n..] == [];
      NoBits(n);
      if n <= 20 { WordsSuffice(tiles, n, 0, 0); }
      while i > 0
        invariant 0 <= i <= n
        invariant bits == Bits(Seen(tiles[i..]), n)
        invariant hash + Low(tiles, i) == Rank(tiles)
        invariant n <= 20 ==> WordsHold(bits, hash)
      {
        i := i - 1;
        var k := tiles[i];
        HashStep(tiles, i, bits, hash);
        var d := LookUp(bits, k, Seen(tiles[i + 1..]));
        ProductIsNat(d, factorials[i]);
        hash := hash + d * factorials[i];
        bits := bits + Pow2(k);
        if n <= 20 { WordsSuffice(tiles, i, bits, hash); }
      }
      RankInRange(tiles);
      if n <= 20 { FitsInAWord(n); }
    }
  }

  lemma {:induction false} NoBits(n: nat)
    ensures Bits({}, n) == 0
  {
    if n > 0 { NoBits(n - 1); }
  }

  /** What one turn of the loop adds to the hash and to the set of tiles seen. */
  lemma HashStep(t: seq<nat>, i: nat, bits: nat, hash: nat)
    requires Board(t) && i < |t| && bits == Bits(Seen(t[i + 1..]), |t|) && hash + Low(t, i + 1) == Rank(t)
    ensures t[i] < |t| && Below(Seen(t[i + 1..]), t[i]) <= t[i]
    ensures var d := t[i] - Below(Seen(t[i + 1..]), t[i]);
            hash + d * Factorial(i) + Low(t, i) == Rank(t)
    ensures bits + Pow2(t[i]) == Bits(Seen(t[i..]), |t|)
  {
    var s := Seen(t[i + 1..]);
    SeenIsTail(t[i + 1..], t[i]);
    BitsGrow(s, t[i], |t|);
    assert t[i..] == [t[i]] + t[i + 1..];
    assert {t[i]} + s == s + {t[i]};
  }

  /** The set of tiles seen so far fits into 32 bits, and the sum into 64. */
  ghost predicate WordsHold(bits: nat, hash: nat)
  {
    bits < 0x1_0000_0000 && hash < 0x1_0000_0000_0000_0000
  }

  lemma WordsSuffice(t: seq<nat>, i: nat, bits: nat, hash: nat)
    requires Board(t) && i <= |t| <= 20
    requires bits == Bits(Seen(t[i..]), |t|) && hash + Low(t, i) == Rank(t)
    ensures WordsHold(bits, hash)
  {
    RankInRange(t);
    FitsInAWord(|t|);
    Pow2Grows(|t|, 20);
    assert Pow2(10) == 1024;
    assert Pow2(20) == 1048576;
  }

  lemma FitsInAWord(n: nat)
    requires n <= 20
    ensures Factorial(n) < 0x1_0000_0000_0000_0000
  {
    FactorialGrows(n, 20);
    assert Factorial(5) == 120;
    assert Factorial(10) == 3628800;
    assert Factorial(15) == 1307674368000;
    assert Factorial(20) == 2432902008176640000;
  }
}
