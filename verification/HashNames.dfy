/**
 Names of backing files: ConflictlessHashProvider re-hashes until it finds an unused hash and prints it in hexadecimal.
 */
module HashNames {

  /** A 64-bit size_t. */
  type Hash = h: nat | h < 0x1_0000_0000_0000_0000

  const DIGITS: string := "0123456789abcdef"

  lemma QuotientOf(n: nat, base: nat)
    requires base == 10 || base == 16
    ensures n >= base ==> n / base < n
    ensures n % base < base && n / base * base + n % base == n
  {
    if base == 10 {
      assert n / 10 * 10 + n % 10 == n;
    } else {
      assert n / 16 * 16 + n % 16 == n;
    }
  }

  /** Positional notation without leading zeros, as std::hex (base 16) and std::to_wstring (base 10) print it. */
  function Digits(n: nat, base: nat): (s: string)
    requires base == 10 || base == 16
    ensures s != ""
    decreases n
  {
    if n < base then [DIGITS[n]]
    else
      QuotientOf(n, base);
      Digits(n / base, base) + [DIGITS[n % base]]
  }

  function DigitValue(c: char): nat {
    if '0' <= c <= '9' then c as int - '0' as int else if 'a' <= c <= 'f' then c as int - 'a' as int + 10 else 0
  }

  /** The number a numeral stands for. */
  function Value(s: string, base: nat): nat {
    if s == "" then 0 else Value(s[..|s| - 1], base) * base + DigitValue(s[|s| - 1])
  }

  lemma DigitValueOf(d: nat)
    requires d < 16
    ensures DigitValue(DIGITS[d]) == d
  {
  }

  /** A numeral of this base as the library prints it: digits below the base, no leading zero. */
  ghost predicate IsNumeral(s: string, base: nat) {
    && s != ""
    && (forall i :: 0 <= i < |s| ==> ('0' <= s[i] <= '9' || 'a' <= s[i] <= 'f') && DigitValue(s[i]) < base)
    && (|s| > 1 ==> s[0] != '0')
  }

  lemma NumeralSnoc(s: string, base: nat, d: nat)
    requires base == 10 || base == 16
    requires d < base && IsNumeral(s, base) && s[0] != '0'
    ensures IsNumeral(s + [DIGITS[d]], base)
    ensures Value(s + [DIGITS[d]], base) == Value(s, base) * base + d
  {
    DigitValueOf(d);
    var t := s + [DIGITS[d]];
    assert t[..|t| - 1] == s;
    forall i | 0 <= i < |t| ensures ('0' <= t[i] <= '9' || 'a' <= t[i] <= 'f') && DigitValue(t[i]) < base {
      if i < |s| {
        assert t[i] == s[i];
      }
    }
  }

  /** What is printed is a numeral that stands for the number. */
  lemma {:induction false} NumeralRoundTrip(n: nat, base: nat)
    requires base == 10 || base == 16
    ensures IsNumeral(Digits(n, base), base)
    ensures Value(Digits(n, base), base) == n
    ensures n > 0 ==> Digits(n, base)[0] != '0'
  {
    if n < base {
      DigitValueOf(n);
      assert [DIGITS[n]][..0] == "";
    } else {
      hide IsNumeral, Value;
      QuotientOf(n, base);
      NumeralRoundTrip(n / base, base);
      NumeralSnoc(Digits(n / base, base), base, n % base);
    }
  }

  function Hex(h: Hash): string {
    Digits(h, 16)
  }

  lemma HexPrints(h: Hash)
    ensures Hex(h) == Digits(h, 16)
  {
  }

  lemma HexInjective(a: Hash, b: Hash)
    requires Hex(a) == Hex(b)
    ensures a == b
  {
    NumeralRoundTrip(a, 16);
    NumeralRoundTrip(b, 16);
  }

  /** The hash tried after `n` conflicts. */
  function Probe(generator: string -> Hash, seed: string, n: nat): Hash {
    if n == 0 then generator(seed) else generator(seed + Digits(Probe(generator, seed, n - 1), 10))
  }

  /** The probe loop ends for this seed. */
  ghost predicate Returns(generator: string -> Hash, used: set<Hash>, seed: string) {
    exists n: nat :: Probe(generator, seed, n) !in used
  }

  class ConflictlessHashProvider {
    var alreadyUsedHashes: set<Hash>
    var conflictTracker: nat
    const generator: string -> Hash
    // every name handed out so far
    ghost var issued: set<string>

    ghost predicate Valid()
      reads this
    {
      forall name :: name in issued ==> exists h :: h in alreadyUsedHashes && name == Hex(h)
    }

    constructor (generator: string -> Hash)
      ensures Valid() && issued == {} && alreadyUsedHashes == {} && conflictTracker == 0
      ensures this.generator == generator
    {
      this.generator := generator;
      alreadyUsedHashes := {};
      conflictTracker := 0;
      issued := {};
    }

    /** Any call that returns hands out a name no earlier call handed out: the first free hash of the probe sequence. */
    method GetHash(seed: string) returns (name: string)
      requires Valid()
      requires Returns(generator, alreadyUsedHashes, seed)
      modifies this
      ensures Valid()
      ensures name !in old(issued) && issued == old(issued) + {name}
      ensures exists n: nat ::
                && Probe(generator, seed, n) !in old(alreadyUsedHashes)
                && (forall m: nat :: m < n ==> Probe(generator, seed, m) in old(alreadyUsedHashes))
                && name == Hex(Probe(generator, seed, n))
                && alreadyUsedHashes == old(alreadyUsedHashes) + {Probe(generator, seed, n)}
                && conflictTracker == old(conflictTracker) + n
      ensures exists tried: seq<Hash> ::
                && tried != [] && tried[0] == generator(seed)
                && (forall i :: 0 < i < |tried| ==> tried[i] == generator(seed + Digits(tried[i - 1], 10)))
                && (forall i :: 0 <= i < |tried| - 1 ==> tried[i] in old(alreadyUsedHashes))
                && tried[|tried| - 1] !in old(alreadyUsedHashes)
                && name == Digits(tried[|tried| - 1], 16)
    {
      hide Digits, Hex;
      ghost var bound: nat :| Probe(generator, seed, bound) !in alreadyUsedHashes;
      var hash := generator(seed);
      ghost var n: nat := 0;
      ghost var tried := [hash];
      while hash in alreadyUsedHashes
        invariant hash == Probe(generator, seed, n)
        invariant forall m: nat :: m < n ==> Probe(generator, seed, m) in alreadyUsedHashes
        invariant tried != [] && tried[0] == generator(seed) && tried[|tried| - 1] == hash
        invariant forall i :: 0 < i < |tried| ==> tried[i] == generator(seed + Digits(tried[i - 1], 10))
        invariant forall i :: 0 <= i < |tried| - 1 ==> tried[i] in old(alreadyUsedHashes)
        invariant alreadyUsedHashes == old(alreadyUsedHashes) && issued == old(issued)
        invariant conflictTracker == old(conflictTracker) + n && n <= bound
        decreases bound - n
      {
        hash := generator(seed + Digits(hash, 10));
        conflictTracker := conflictTracker + 1;
        n := n + 1;
        tried := tried + [hash];
      }
      alreadyUsedHashes := alreadyUsedHashes + {hash};
      name := Hex(hash);
      HexPrints(hash);
      forall earlier | earlier in issued ensures earlier != name {
        var h :| h in old(alreadyUsedHashes) && earlier == Hex(h);
        if Hex(h) == Hex(hash) {
          HexInjective(h, hash);
        }
      }
      issued := issued + {name};
    }
  }

  /** A call that returns: it takes the first free hash of the probe sequence of some seed. */
  ghost predicate Issues(generator: string -> Hash, used: set<Hash>, name: string, used': set<Hash>) {
    exists seed, n: nat ::
      && Probe(generator, seed, n) !in used
      && name == Hex(Probe(generator, seed, n))
      && used' == used + {Probe(generator, seed, n)}
  }

  lemma IssuedHash(generator: string -> Hash, used: set<Hash>, name: string, used': set<Hash>) returns (h: Hash)
    requires Issues(generator, used, name, used')
    ensures h !in used && name == Hex(h) && used' == used + {h}
  {
    var seed, n: nat :| Probe(generator, seed, n) !in used && name == Hex(Probe(generator, seed, n))
      && used' == used + {Probe(generator, seed, n)};
    h := Probe(generator, seed, n);
  }

  /** Over any run of calls that return, all names are pairwise distinct, whatever the hash function. */
  lemma {:induction false} NamesNeverShared(generator: string -> Hash, used: seq<set<Hash>>, names: seq<string>)
    requires |used| == |names| + 1 && used[0] == {}
    requires forall i :: 0 <= i < |names| ==> Issues(generator, used[i], names[i], used[i + 1])
    ensures forall i, j :: 0 <= i < j < |names| ==> names[i] != names[j]
    ensures forall i :: 0 <= i < |names| ==> exists h :: h in used[|names|] && names[i] == Hex(h)
    decreases |names|
  {
    if names != [] {
      hide Hex, Issues;
      var k := |names| - 1;
      NamesNeverShared(generator, used[..|used| - 1], names[..k]);
      assert Issues(generator, used[k], names[k], used[k + 1]);
      var h := IssuedHash(generator, used[k], names[k], used[k + 1]);
      forall i | 0 <= i < k
        ensures names[i] != names[k]
        ensures exists g :: g in used[k + 1] && names[i] == Hex(g)
      {
        assert names[..k][i] == names[i];
        var g :| g in used[..|used| - 1][k] && names[i] == Hex(g);
        assert g in used[k + 1];
        if names[i] == names[k] {
          HexInjective(g, h);
        }
      }
    }
  }

  /** The probe loop may cycle: with a constant hash function the first call returns and no later call does. */
  lemma {:induction false} ConstantHashCycles(generator: string -> Hash, h: Hash, seed: string)
    requires forall s :: generator(s) == h
    ensures Returns(generator, {}, seed)
    ensures !Returns(generator, {h}, seed)
  {
    var none: set<Hash> := {};
    assert Probe(generator, seed, 0) !in none;
    forall n: nat ensures Probe(generator, seed, n) == h {
    }
  }
}
