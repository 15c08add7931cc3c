/** djb2Hash, with the wrap-around of its 64-bit accumulator. */
module StringHash {

  const TWO64 := 0x1_0000_0000_0000_0000
  const INT_MAX := 0x7fff_ffff

  predicate IsAlnum(c: char) { '0' <= c <= '9' || 'A' <= c <= 'Z' || 'a' <= c <= 'z' }

  function Alnums(s: string): string {
    if s == "" then "" else
      var c := s[|s| - 1];
      Alnums(s[..|s| - 1]) + if IsAlnum(c) then [c] else ""
  }

  function Pow33(n: nat): nat { if n == 0 then 1 else 33 * Pow33(n - 1) }

  /** The string as a number in base 33, its first character the most significant digit. */
  function Base33(s: string): nat {
    if s == "" then 0 else s[0] as nat * Pow33(|s| - 1) + Base33(s[1..])
  }

  /** The hash before any reduction. */
  function Exact(s: string): nat { Seeded(Alnums(s)) }

  function Seeded(t: string): nat { 5381 * Pow33(|t|) + Base33(t) }

  lemma AlnumsAppend(s: string, c: char)
    ensures Alnums(s + [c]) == Alnums(s) + (if IsAlnum(c) then [c] else "")
  {
    assert (s + [c])[..|s|] == s;
  }

  lemma {:induction false} Base33Append(s: string, c: char)
    ensures Base33(s + [c]) == 33 * Base33(s) + c as nat
  {
    if s == "" {
      assert [c][1..] == "" && Pow33(0) == 1;
      assert Base33([c]) == c as nat * Pow33(0) + Base33("");
    } else {
      assert (s + [c])[1..] == s[1..] + [c];
      Base33Append(s[1..], c);
      Shift33(s[0] as nat, |s|);
    }
  }

  lemma Shift33(d: nat, n: nat)
    requires n > 0
    ensures d * Pow33(n) == 33 * (d * Pow33(n - 1))
  {
  }

  lemma SeededAppend(t: string, c: char)
    ensures Seeded(t + [c]) == 33 * Seeded(t) + c as nat
  {
    Base33Append(t, c);
    assert Pow33(|t| + 1) == 33 * Pow33(|t|);
  }

  /** One more character, before any reduction. */
  lemma ExactAppend(s: string, c: char)
    ensures Exact("") == 5381
    ensures Exact(s + [c]) ==
            if '0' <= c <= '9' || 'A' <= c <= 'Z' || 'a' <= c <= 'z' then 33 * Exact(s) + c as nat else Exact(s)
  {
    AlnumsAppend(s, c);
    SeededAppend(Alnums(s), c);
    assert Alnums(s) + "" == Alnums(s);
  }

  lemma AtLeastOne(d: int, m: int)
    requires m > 0
    ensures (d >= 1 ==> d * m >= m) && (d <= -1 ==> d * m <= -m)
  {
  }

  lemma ModUnique(n: int, k: int, r: int, m: int)
    requires m > 0 && n == k * m + r && 0 <= r < m
    ensures n % m == r
  {
    var d := n / m - k;
    assert d * m == r - n % m;
    AtLeastOne(d, m);
  }

  lemma ModShift(x: nat, q: nat, m: nat)
    requires m > 0
    ensures (x + q * m) % m == x % m
  {
    var k, r := x / m, x % m;
    assert x + q * m == (k + q) * m + r;
    ModUnique(x + q * m, k + q, r, m);
  }

  lemma ModOfSum(a: nat, b: nat, m: nat)
    requires m > 0
    ensures (a % m + b) % m == (a + b) % m
  {
    var q, r := a / m, a % m;
    ModShift(r + b, q, m);
    assert a + b == (r + b) + q * m;
  }

  lemma SumAgrees(x: nat, y: nat, ex: nat, ey: nat, m: nat)
    requires m > 0 && x % m == ex % m && y % m == ey % m
    ensures (x + y) % m == (ex + ey) % m
  {
    ModOfSum(x, y, m);
    ModOfSum(ex, y, m);
    ModOfSum(y, ex, m);
    ModOfSum(ey, ex, m);
  }

  lemma ShiftAgrees(x: nat, ex: nat, m: nat)
    requires m > 0 && x % m == ex % m
    ensures (x * 32) % m == (32 * ex) % m
  {
    Shift32(x, m);
    Shift32(ex, m);
  }

  lemma Shift32(x: nat, m: nat)
    requires m > 0
    ensures (32 * x) % m == (32 * (x % m)) % m
  {
    var q, r := x / m, x % m;
    assert 32 * x == 32 * r + (32 * q) * m;
    ModShift(32 * r, 32 * q, m);
  }

  lemma ModTwice(x: nat, m: nat)
    requires m > 0
    ensures x % m < m && x % m % m == x % m
  {
  }

  /** unsigned long arithmetic. */
  function Wrapped(n: nat): nat { if n < TWO64 then n else n % TWO64 }

  /** A 64-bit value reduced modulo map_size. */
  function Reduced(n: nat, mapSize: nat): nat
    requires mapSize > 0
  {
    Wrapped(n) % mapSize
  }

  /** The loop body on an unsigned long. */
  function NextHash(hash: nat, c: char, mapSize: nat): nat
    requires mapSize > 0
  {
    Reduced(Reduced(Reduced(hash * 32, mapSize) + hash, mapSize) + c as nat, mapSize)
  }

  lemma ReducedIs(n: nat, m: nat)
    requires 0 < m <= INT_MAX && n < TWO64
    ensures Reduced(n, m) == n % m < m
  {
  }

  predicate Tracks(hash: nat, s: string, m: nat)
    requires m > 0
  {
    (hash < m || hash == 5381) && hash % m == Exact(s) % m
  }

  /** One addition and its reduction, on values that agree with the exact ones. */
  lemma SumTracks(x: nat, y: nat, ex: nat, ey: nat, m: nat)
    requires 0 < m <= INT_MAX && x + y < TWO64 && x % m == ex % m && y % m == ey % m
    ensures Reduced(x + y, m) < m && Reduced(x + y, m) % m == (ex + ey) % m
  {
    ReducedIs(x + y, m);
    SumAgrees(x, y, ex, ey, m);
    ModTwice(x + y, m);
  }

  lemma ShiftTracks(x: nat, ex: nat, m: nat)
    requires 0 < m <= INT_MAX && 32 * x < TWO64 && x % m == ex % m
    ensures Reduced(x * 32, m) < m && Reduced(x * 32, m) % m == (32 * ex) % m
  {
    ReducedIs(x * 32, m);
    ShiftAgrees(x, ex, m);
    ModTwice(x * 32, m);
  }

  lemma NextHashTracks(hash: nat, s: string, c: char, m: nat)
    requires 0 < m <= INT_MAX && Tracks(hash, s, m)
    ensures Tracks(if IsAlnum(c) then NextHash(hash, c, m) else hash, s + [c], m)
  {
    ExactAppend(s, c);
    if IsAlnum(c) {
      ShiftTracks(hash, Exact(s), m);
      SumTracks(Reduced(hash * 32, m), hash, 32 * Exact(s), Exact(s), m);
      SumTracks(Reduced(Reduced(hash * 32, m) + hash, m), c as nat, 33 * Exact(s), c as nat, m);
    }
  }

  /** The accumulator is below map_size, or still 5381: nothing wraps, and the result is the exact
      polynomial reduced once. */
  method Djb2Hash(str: string, mapSize: nat) returns (r: nat)
    requires 0 < mapSize <= INT_MAX
    ensures r == Exact(str) % mapSize
  {
    var hash: nat := 5381;
    assert Exact("") == 5381;
    for i := 0 to |str|
      invariant Tracks(hash, str[..i], mapSize)
    {
      var c := str[i];
      assert str[..i + 1] == str[..i] + [c];
      NextHashTracks(hash, str[..i], c, mapSize);
      if IsAlnum(c) { hash := NextHash(hash, c, mapSize); }
    }
    assert str[..|str|] == str;
    r := hash % mapSize;
  }
}
