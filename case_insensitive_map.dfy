/** Key hashing and key equality of CaseInsensitiveMap.kt: a map keyed by strings
    compared without regard to letter case. The linked-map storage it extends is
    not part of this model; only the two overridden hooks and the capacity clamp are.

    Kotlin's Char is a UTF-16 code unit and its Int a 32-bit two's-complement
    integer, so both are modelled as bounded integers with wrap-around written out.
    Character.toUpperCase and Character.toLowerCase are given as `CaseTables`. */
module CaseInsensitiveMap {

  /** A UTF-16 code unit (Kotlin's Char). */
  type CodeUnit = c: int | 0 <= c < 0x1_0000

  /** Kotlin's Int. */
  type Int32 = x: int | -0x8000_0000 <= x < 0x8000_0000

  const CapitalA: CodeUnit := 0x41  // 'A'
  const CapitalZ: CodeUnit := 0x5A  // 'Z'
  const SmallA: CodeUnit := 0x61    // 'a'
  const SmallZ: CodeUnit := 0x7A    // 'z'
  const Tilde: CodeUnit := 0x7E     // '~', the end of the fast path

  /** The JDK's Character.toUpperCase and Character.toLowerCase on code units. */
  datatype CaseTables = CaseTables(toUpperCase: CodeUnit -> CodeUnit, toLowerCase: CodeUnit -> CodeUnit)

  predicate IsAsciiUpper(c: CodeUnit) { CapitalA <= c <= CapitalZ }
  predicate IsAsciiLower(c: CodeUnit) { SmallA <= c <= SmallZ }

  /** The private `Char.toLowerCase` of the map: a fast path for code units up to
      '~' that lowers exactly the capitals A-Z, and the JDK beyond. */
  function ToLowerCase(c: CodeUnit, t: CaseTables): (r: CodeUnit)
    ensures c <= Tilde ==> r <= Tilde && !IsAsciiUpper(r)
    ensures c <= Tilde ==> (r != c <==> IsAsciiUpper(c))
    ensures IsAsciiUpper(c) ==> IsAsciiLower(r) && r == c + (SmallA - CapitalA)
    ensures c > Tilde ==> r == t.toLowerCase(c)
  {
    if c < CapitalA then c
    else if c <= CapitalZ then c + 32
    else if c <= Tilde then c
    else t.toLowerCase(c)
  }

  /** On the fast path, folding twice is folding once. */
  lemma ToLowerCaseIdempotent(c: CodeUnit, t: CaseTables)
    requires c <= Tilde
    ensures ToLowerCase(ToLowerCase(c, t), t) == ToLowerCase(c, t)
  {
  }

  /** A string with every code unit folded. */
  function Folded(s: seq<CodeUnit>, t: CaseTables): seq<CodeUnit>
  {
    seq(|s|, i requires 0 <= i < |s| => ToLowerCase(s[i], t))
  }

  const Modulus: int := 0x1_0000_0000  // 2^32
  const Half: int := 0x8000_0000        // 2^31

  /** Kotlin's Int arithmetic: the value in [-2^31, 2^31) congruent to `x` modulo 2^32. */
  function ToInt32(x: int): (r: Int32)
    ensures (r - x) % Modulus == 0
  {
    (x + Half) % Modulus - Half
  }

  /** java.lang.String.hashCode: the left fold h := 31 * h + c over the code units,
      in Int arithmetic. */
  function StringHashCode(s: seq<CodeUnit>): Int32
  {
    if s == [] then 0 else ToInt32(31 * StringHashCode(s[..|s| - 1]) + s[|s| - 1])
  }

  /** A key of the map: null, a String, or any other object with its own hashCode(). */
  datatype Key = Null | Str(s: seq<CodeUnit>) | Other(hashCode: Int32)

  /** The hash of a key: 0 for null, the object's own hashCode for a non-String,
      and for a String the String hash of its folded code units. */
  function KeyHash(key: Key, t: CaseTables): Int32
  {
    match key
    case Null => 0
    case Other(h) => h
    case Str(s) => StringHashCode(Folded(s, t))
  }

  /** hash(key): the loop over the code units of a String key. */
  method Hash(key: Key, t: CaseTables) returns (h: Int32)
    ensures h == KeyHash(key, t)
    ensures key == Null || key == Str([]) ==> h == 0
  {
    if key.Null? {
      return 0;
    }
    if key.Other? {
      return key.hashCode;
    }
    var s := key.s;
    var hashCode: Int32 := 0;
    for idx := 0 to |s|
      invariant hashCode == StringHashCode(Folded(s[..idx], t))
    {
      assert Folded(s[..idx + 1], t)[..idx] == Folded(s[..idx], t);
      hashCode := ToInt32(31 * hashCode + ToLowerCase(s[idx], t));
    }
    assert s[..|s|] == s;
    return hashCode;
  }

  // ---------------------------------------------------------------------------
  // The String hash as the polynomial of the String.hashCode documentation:
  // s[0]*31^(n-1) + s[1]*31^(n-2) + ... + s[n-1], reduced to Int.

  function Pow31(n: nat): nat
  {
    if n == 0 then 1 else 31 * Pow31(n - 1)
  }

  function PowerSum(s: seq<CodeUnit>): int
  {
    if s == [] then 0 else s[0] * Pow31(|s| - 1) + PowerSum(s[1..])
  }

  /** Euclidean division by 2^32 has one remainder. */
  lemma ModUnique(a: int, d: int, m: int)
    requires a == Modulus * d + m && 0 <= m < Modulus
    ensures a % Modulus == m
  {
  }

  /** Values 2^32 apart wrap to the same Int. */
  lemma ToInt32Congruent(a: int, q: int)
    ensures ToInt32(a + Modulus * q) == ToInt32(a)
  {
    var y := a + Half;
    var d, m := y / Modulus, y % Modulus;
    assert y == Modulus * d + m;
    ModUnique(y + Modulus * q, d + q, m);
  }

  /** One step of the hash loop may wrap before or after: the result is the same. */
  lemma ToInt32Step(x: int, c: CodeUnit)
    ensures ToInt32(31 * ToInt32(x) + c) == ToInt32(31 * x + c)
  {
    var q := (x + Half) / Modulus;
    assert x + Half == Modulus * q + (x + Half) % Modulus;
    assert 31 * ToInt32(x) + c == (31 * x + c) + Modulus * (-31 * q);
    ToInt32Congruent(31 * x + c, -31 * q);
  }

  lemma {:induction false} PowerSumSnoc(s: seq<CodeUnit>, c: CodeUnit)
    ensures PowerSum(s + [c]) == 31 * PowerSum(s) + c
  {
    if s == [] {
      assert [] + [c] == [c];
      assert [c][1..] == [];
    } else {
      assert (s + [c])[1..] == s[1..] + [c];
      PowerSumSnoc(s[1..], c);
      assert Pow31(|s|) == 31 * Pow31(|s| - 1);
      calc {
        PowerSum(s + [c]);
        s[0] * Pow31(|s|) + PowerSum(s[1..] + [c]);
        s[0] * (31 * Pow31(|s| - 1)) + 31 * PowerSum(s[1..]) + c;
        { assert s[0] * (31 * Pow31(|s| - 1)) == 31 * (s[0] * Pow31(|s| - 1)); }
        31 * (s[0] * Pow31(|s| - 1) + PowerSum(s[1..])) + c;
      }
    }
  }

  /** The String hash is the documented polynomial, reduced to Int. */
  lemma {:induction false} StringHashCodeIsPowerSum(s: seq<CodeUnit>)
    ensures StringHashCode(s) == ToInt32(PowerSum(s))
    decreases |s|
  {
    if s != [] {
      var p, c := s[..|s| - 1], s[|s| - 1];
      assert s == p + [c];
      StringHashCodeIsPowerSum(p);
      PowerSumSnoc(p, c);
      ToInt32Step(PowerSum(p), c);
    }
  }

  // ---------------------------------------------------------------------------
  // Key equality.

  /** One code unit of java.lang.String.equalsIgnoreCase (through regionMatches):
      equal, or equal after upper-casing, or equal after upper- then lower-casing.
      The three tests together amount to the last one alone. */
  predicate CharsEqualIgnoreCase(c1: CodeUnit, c2: CodeUnit, t: CaseTables): (r: bool)
    ensures r <==> t.toLowerCase(t.toUpperCase(c1)) == t.toLowerCase(t.toUpperCase(c2))
  {
    c1 == c2 ||
    t.toUpperCase(c1) == t.toUpperCase(c2) ||
    t.toLowerCase(t.toUpperCase(c1)) == t.toLowerCase(t.toUpperCase(c2))
  }

  /** isEqualKey for two String keys: `key1.equals(key2, ignoreCase = true)`, which on
      the JVM is java.lang.String.equalsIgnoreCase. Two keys are equal exactly when
      they have the same length and agree, code unit by code unit, after upper- then
      lower-casing. */
  predicate IsEqualKey(key1: seq<CodeUnit>, key2: seq<CodeUnit>, t: CaseTables): (r: bool)
    ensures r <==> |key1| == |key2| &&
                   forall i :: 0 <= i < |key1| ==>
                     t.toLowerCase(t.toUpperCase(key1[i])) == t.toLowerCase(t.toUpperCase(key2[i]))
  {
    |key1| == |key2| && forall i :: 0 <= i < |key1| ==> CharsEqualIgnoreCase(key1[i], key2[i], t)
  }

  lemma IsEqualKeyReflexive(key: seq<CodeUnit>, t: CaseTables)
    ensures IsEqualKey(key, key, t)
  {
  }

  lemma IsEqualKeySymmetric(key1: seq<CodeUnit>, key2: seq<CodeUnit>, t: CaseTables)
    ensures IsEqualKey(key1, key2, t) <==> IsEqualKey(key2, key1, t)
  {
  }

  /** Upper-casing on the fast path. */
  function AsciiToUpper(c: CodeUnit): CodeUnit
  {
    if IsAsciiLower(c) then c - 32 else c
  }

  /** The premise of the fast path: up to '~' the JDK's case mapping is plain ASCII
      case mapping, so Character.toLowerCase agrees with the map's own fold there. */
  predicate AsciiCaseTables(t: CaseTables)
  {
    forall c: CodeUnit {:trigger t.toUpperCase(c)} {:trigger t.toLowerCase(c)} :: c <= Tilde ==>
      t.toUpperCase(c) == AsciiToUpper(c) && t.toLowerCase(c) == ToLowerCase(c, t)
  }

  /** A string whose code units all lie on the fast path. */
  predicate OnFastPath(s: seq<CodeUnit>)
  {
    forall i :: 0 <= i < |s| ==> s[i] <= Tilde
  }

  /** Two code units that are the same letter up to ASCII case, or simply equal. */
  predicate SameUpToAsciiCase(x: CodeUnit, y: CodeUnit)
  {
    x == y || (IsAsciiUpper(x) && y == x + 32) || (IsAsciiUpper(y) && x == y + 32)
  }

  /** Two strings that differ only in the case of ASCII letters. */
  predicate DifferOnlyInCase(a: seq<CodeUnit>, b: seq<CodeUnit>)
  {
    |a| == |b| && forall i :: 0 <= i < |a| ==> SameUpToAsciiCase(a[i], b[i])
  }

  lemma CharsOnFastPath(x: CodeUnit, y: CodeUnit, t: CaseTables)
    requires AsciiCaseTables(t) && x <= Tilde && y <= Tilde
    ensures CharsEqualIgnoreCase(x, y, t) <==> ToLowerCase(x, t) == ToLowerCase(y, t)
    ensures SameUpToAsciiCase(x, y) <==> ToLowerCase(x, t) == ToLowerCase(y, t)
  {
  }

  /** On the fast path, isEqualKey is equality of the folded strings, and holds
      exactly when the strings differ only in letter case. */
  lemma {:induction false} IsEqualKeyOnFastPath(a: seq<CodeUnit>, b: seq<CodeUnit>, t: CaseTables)
    requires AsciiCaseTables(t) && OnFastPath(a) && OnFastPath(b)
    ensures IsEqualKey(a, b, t) <==> Folded(a, t) == Folded(b, t)
    ensures IsEqualKey(a, b, t) <==> DifferOnlyInCase(a, b)
  {
    if |a| == |b| {
      forall i | 0 <= i < |a|
        ensures CharsEqualIgnoreCase(a[i], b[i], t) <==> Folded(a, t)[i] == Folded(b, t)[i]
        ensures SameUpToAsciiCase(a[i], b[i]) <==> Folded(a, t)[i] == Folded(b, t)[i]
      {
        CharsOnFastPath(a[i], b[i], t);
      }
    }
  }

  /** Strings that differ only in the case of ASCII letters hash equally, whatever
      they contain besides. */
  lemma {:induction false} DifferOnlyInCaseHashEqually(a: seq<CodeUnit>, b: seq<CodeUnit>, t: CaseTables)
    requires DifferOnlyInCase(a, b)
    ensures KeyHash(Str(a), t) == KeyHash(Str(b), t)
  {
    assert Folded(a, t) == Folded(b, t) by {
      forall i | 0 <= i < |a|
        ensures Folded(a, t)[i] == Folded(b, t)[i]
      {
        assert SameUpToAsciiCase(a[i], b[i]);
      }
    }
  }

  /** On the fast path the hash is consistent with isEqualKey: keys equal up to case
      hash equally. */
  lemma HashConsistentOnFastPath(a: seq<CodeUnit>, b: seq<CodeUnit>, t: CaseTables)
    requires AsciiCaseTables(t) && OnFastPath(a) && OnFastPath(b)
    requires IsEqualKey(a, b, t)
    ensures KeyHash(Str(a), t) == KeyHash(Str(b), t)
  {
    IsEqualKeyOnFastPath(a, b, t);
  }

  // ---------------------------------------------------------------------------
  // Beyond the fast path the hash and isEqualKey disagree: "i" and "ı" (U+0131,
  // dotless i) are equal keys, since both upper-case to 'I', but the fold leaves
  // U+0131 alone, so their hashes differ.

  const SmallI: CodeUnit := 0x69        // 'i'
  const CapitalI: CodeUnit := 0x49      // 'I'
  const DotlessSmallI: CodeUnit := 0x131  // 'ı'

  lemma DotlessIHashesApart(t: CaseTables)
    requires AsciiCaseTables(t)
    requires t.toUpperCase(DotlessSmallI) == CapitalI && t.toLowerCase(DotlessSmallI) == DotlessSmallI
    ensures IsEqualKey([SmallI], [DotlessSmallI], t)
    ensures KeyHash(Str([SmallI]), t) != KeyHash(Str([DotlessSmallI]), t)
  {
  }

  /** The fold that keeps the hash consistent with isEqualKey: the fast path as
      before, and above '~' the JDK's lower case of the upper case. */
  function ConsistentFold(c: CodeUnit, t: CaseTables): CodeUnit
  {
    if c <= Tilde then ToLowerCase(c, t) else t.toLowerCase(t.toUpperCase(c))
  }

  /** The key hash with the consistent fold. */
  function ConsistentKeyHash(key: Key, t: CaseTables): (h: Int32)
    ensures key.Str? && OnFastPath(key.s) ==> h == KeyHash(key, t)
  {
    match key
    case Null => 0
    case Other(h) => h
    case Str(s) =>
      var f := seq(|s|, i requires 0 <= i < |s| => ConsistentFold(s[i], t));
      assert OnFastPath(s) ==> f == Folded(s, t);
      StringHashCode(f)
  }

  lemma ConsistentFoldIsLowerOfUpper(c: CodeUnit, t: CaseTables)
    requires AsciiCaseTables(t)
    ensures ConsistentFold(c, t) == t.toLowerCase(t.toUpperCase(c))
  {
  }

  /** With the consistent fold, keys that isEqualKey calls equal hash equally. */
  lemma {:induction false} ConsistentHashRespectsIsEqualKey(a: seq<CodeUnit>, b: seq<CodeUnit>, t: CaseTables)
    requires AsciiCaseTables(t)
    requires IsEqualKey(a, b, t)
    ensures ConsistentKeyHash(Str(a), t) == ConsistentKeyHash(Str(b), t)
  {
    var fa := seq(|a|, i requires 0 <= i < |a| => ConsistentFold(a[i], t));
    var fb := seq(|b|, i requires 0 <= i < |b| => ConsistentFold(b[i], t));
    forall i | 0 <= i < |a|
      ensures fa[i] == fb[i]
    {
      ConsistentFoldIsLowerOfUpper(a[i], t);
      ConsistentFoldIsLowerOfUpper(b[i], t);
    }
    assert fa == fb;
  }

  // ---------------------------------------------------------------------------

  /** The default of the constructor's `initialCapacity`; `BackingCapacity` keeps it
      as it is, since it is above the floor of 2. */
  const DefaultInitialCapacity: Int32 := 16

  /** The capacity the backing map is created with: `Math.max(2, initialCapacity)`. */
  function BackingCapacity(initialCapacity: Int32): (c: Int32)
    ensures c >= 2 && c >= initialCapacity
    ensures c == 2 || c == initialCapacity
  {
    if initialCapacity >= 2 then initialCapacity else 2
  }
}
