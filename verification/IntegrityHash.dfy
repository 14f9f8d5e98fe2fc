/** `computeIntegrityHash`: a 32-bit rolling hash of the canonical text, printed as hex. */
module IntegrityHash {
  import opened JsonText
  import opened CanonicalJson

  const M: int := 0x1_0000_0000
  const HALF: int := 0x8000_0000

  /** ECMA-262 section 7.1.6: the signed 32-bit integer congruent to `x`. */
  function ToInt32(x: int): (r: int)
    ensures -HALF <= r < HALF
    ensures (r - x) % M == 0
  {
    var m := x % M;
    if m >= HALF then m - M else m
  }

  /** One round: `hash = (hash << 5) - hash + char; hash |= 0`. The shift truncates on its own. */
  function Round(hash: int, c: CodeUnit): int {
    ToInt32(ToInt32(hash * 32) - hash + c)
  }

  function Pow31(n: nat): nat {
    if n == 0 then 1 else 31 * Pow31(n - 1)
  }

  /** The polynomial with the code units as coefficients, highest power first, evaluated at 31. */
  function Poly(s: Text): nat {
    if s == [] then 0 else s[0] * Pow31(|s| - 1) + Poly(s[1..])
  }

  function Abs(x: int): nat { if x < 0 then -x else x }

  // ---- congruence modulo 2^32 -----------------------------------------------------------

  predicate Congruent(x: int, y: int) { (x - y) % M == 0 }

  lemma CongruentQuotient(x: int, y: int) returns (q: int)
    requires Congruent(x, y)
    ensures x == y + q * M
  {
    q := (x - y) / M;
  }

  lemma QuotientCongruent(x: int, y: int, q: int)
    requires x == y + q * M
    ensures Congruent(x, y)
  {
  }

  lemma ToInt32Unique(x: int, y: int)
    ensures Congruent(x, y) <==> ToInt32(x) == ToInt32(y)
  {
    var p := CongruentQuotient(ToInt32(x), x);
    var q := CongruentQuotient(ToInt32(y), y);
    if Congruent(x, y) {
      var k := CongruentQuotient(x, y);
      assert ToInt32(x) - ToInt32(y) == (p + k - q) * M;
    }
    if ToInt32(x) == ToInt32(y) {
      QuotientCongruent(x, y, q - p);
    }
  }

  lemma RoundIsHorner(hash: int, p: int, c: CodeUnit)
    requires Congruent(hash, p)
    ensures Congruent(Round(hash, c), 31 * p + c)
  {
    var shifted := ToInt32(hash * 32);
    var a := CongruentQuotient(shifted, hash * 32);
    var b := CongruentQuotient(Round(hash, c), shifted - hash + c);
    var d := CongruentQuotient(hash, p);
    QuotientCongruent(Round(hash, c), 31 * p + c, a + b + 31 * d);
  }

  lemma {:induction false} PowSum(m: nat, n: nat)
    ensures Pow31(m + n) == Pow31(m) * Pow31(n)
  {
    if m > 0 {
      PowSum(m - 1, n);
      assert Pow31(m + n) == 31 * (Pow31(m - 1) * Pow31(n));
    }
  }

  /** Composition: the hash of a concatenation depends on the two hashes and the second length. */
  lemma {:induction false} PolyConcat(a: Text, b: Text)
    ensures Poly(a + b) == Poly(a) * Pow31(|b|) + Poly(b)
  {
    if a == [] {
      assert a + b == b;
    } else {
      assert (a + b)[1..] == a[1..] + b;
      PolyConcat(a[1..], b);
      PowSum(|a| - 1, |b|);
      Distribute(a[0], Pow31(|a| - 1), Pow31(|b|), Poly(a[1..]));
    }
  }

  lemma Distribute(c: int, p: int, q: int, r: int)
    ensures (c * p + r) * q == c * (p * q) + r * q
  {
  }

  lemma PolySnoc(s: Text, c: CodeUnit)
    ensures Poly(s + [c]) == 31 * Poly(s) + c
  {
    PolyConcat(s, [c]);
    assert Pow31(1) == 31 * Pow31(0);
  }

  // ---- the printed digest ---------------------------------------------------------------

  function HexDigit(d: int): char
    requires 0 <= d < 16
  {
    "0123456789abcdef"[d]
  }

  predicate IsHexDigit(c: char) { '0' <= c <= '9' || 'a' <= c <= 'f' }

  function HexDigitValue(c: char): int
    requires IsHexDigit(c)
  {
    if c <= '9' then c as int - '0' as int else c as int - 'a' as int + 10
  }

  /** `n.toString(16)` */
  function Hex(n: nat): (r: string)
    ensures |r| >= 1
  {
    if n < 16 then [HexDigit(n)] else Hex(n / 16) + [HexDigit(n % 16)]
  }

  /** `s.padStart(8, '0')` */
  function PadStart8(s: string): string
    decreases 8 - |s|
  {
    if |s| >= 8 then s else PadStart8("0" + s)
  }

  function Digest(text: Text): string {
    "h" + PadStart8(Hex(Abs(ToInt32(Poly(text)))))
  }

  /** The number that a string of hex digits spells. */
  function HexValue(s: string): nat
    requires forall i :: 0 <= i < |s| ==> IsHexDigit(s[i])
  {
    if s == [] then 0 else HexValue(s[..|s| - 1]) * 16 + HexDigitValue(s[|s| - 1])
  }

  ghost predicate Spells(s: string, n: nat) {
    (forall i :: 0 <= i < |s| ==> IsHexDigit(s[i])) && HexValue(s) == n
  }

  lemma {:induction false} HexSpells(n: nat, width: nat)
    requires n < Power16(width) && width >= 1
    ensures Spells(Hex(n), n) && |Hex(n)| <= width
    decreases width
  {
    if n >= 16 {
      HexSpells(n / 16, width - 1);
      assert Hex(n)[..|Hex(n)| - 1] == Hex(n / 16);
    } else {
      assert Hex(n)[..0] == [];
    }
  }

  function Power16(k: nat): nat { if k == 0 then 1 else 16 * Power16(k - 1) }

  lemma {:induction false} LeadingZero(s: string, n: nat)
    requires Spells(s, n)
    ensures Spells("0" + s, n)
    decreases |s|
  {
    var z := "0" + s;
    assert forall i :: 0 <= i < |z| ==> IsHexDigit(z[i]);
    if s == [] {
      assert z[..0] == [];
    } else {
      var front := s[..|s| - 1];
      LeadingZero(front, HexValue(front));
      assert z[..|z| - 1] == "0" + front;
    }
  }

  lemma {:induction false} PadSpells(s: string, n: nat)
    requires Spells(s, n) && |s| <= 8
    ensures Spells(PadStart8(s), n) && |PadStart8(s)| == 8
    decreases 8 - |s|
  {
    if |s| < 8 {
      LeadingZero(s, n);
      PadSpells("0" + s, n);
    }
  }

  lemma Power16Of8()
    ensures Power16(8) == M
  {
    assert Power16(4) == 0x1_0000;
  }

  /** The digest is `h` and exactly eight hex digits, which spell the magnitude of the hash; the
      bound holds for the most negative hash too. */
  lemma DigestShape(text: Text)
    ensures var d := Digest(text);
      |d| == 9 && d[0] == 'h' && Spells(d[1..], Abs(ToInt32(Poly(text))))
  {
    var n := Abs(ToInt32(Poly(text)));
    Power16Of8();
    HexSpells(n, 8);
    PadSpells(Hex(n), n);
    assert Digest(text)[1..] == PadStart8(Hex(n));
  }

  /** Two texts share a digest exactly when their polynomials agree up to sign modulo 2^32. */
  lemma DigestCollision(s: Text, t: Text)
    ensures Digest(s) == Digest(t) <==>
              (Poly(s) - Poly(t)) % M == 0 || (Poly(s) + Poly(t)) % M == 0
  {
    DigestShape(s);
    DigestShape(t);
    SameMagnitude(Poly(s), Poly(t));
  }

  lemma SameMagnitude(x: int, y: int)
    ensures Abs(ToInt32(x)) == Abs(ToInt32(y)) <==> (x - y) % M == 0 || (x + y) % M == 0
  {
    ToInt32Unique(x, y);
    ToInt32Unique(x, -y);
    Negation(y);
    assert x - -y == x + y;
  }

  lemma Negation(x: int)
    ensures ToInt32(-x) == if ToInt32(x) == -HALF then -HALF else -ToInt32(x)
  {
    var q := CongruentQuotient(ToInt32(x), x);
    var want := if ToInt32(x) == -HALF then -HALF else -ToInt32(x);
    if ToInt32(x) == -HALF {
      QuotientCongruent(want, -x, -q - 1);
    } else {
      QuotientCongruent(want, -x, -q);
    }
    ToInt32Unique(want, -x);
    assert ToInt32(want) == want;
  }

  /** A payload with its digest: `{ ok: true }` hashes to h2091fad4. */
  lemma SampleDigest()
    ensures Digest(Canonical(SAMPLE)) == "h2091fad4"
  {
    var text := Canonical(SAMPLE);
    SamplePolynomial(text);
    SampleHex();
    PlainDigest(text, 0x2091FAD4);
    assert "h" + "2091fad4" == "h2091fad4";
  }

  lemma SamplePolynomial(text: Text)
    requires text == Canonical(SAMPLE)
    ensures ToInt32(Poly(text)) == 0x2091FAD4
  {
    SampleText();
    assert Units("{\"ok\":true}") == [123, 34, 111, 107, 34, 58, 116, 114, 117, 101, 125];
    SamplePolyEnd();
  }

  lemma PlainDigest(text: Text, n: nat)
    requires ToInt32(Poly(text)) == n && |Hex(n)| == 8
    ensures Digest(text) == "h" + Hex(n)
  {
  }

  lemma SampleHex()
    ensures Hex(0x2091FAD4) == "2091fad4"
  {
    HexNext(0x2, 0x0, "2");
    HexNext(0x20, 0x9, "20");
    HexNext(0x209, 0x1, "209");
    HexNext(0x2091, 0xF, "2091");
    HexNext(0x2091F, 0xA, "2091f");
    HexNext(0x2091FA, 0xD, "2091fa");
    HexNext(0x2091FAD, 0x4, "2091fad");
  }

  lemma HexNext(n: nat, d: int, s: string)
    requires n > 0 && 0 <= d < 16 && Hex(n) == s
    ensures Hex(16 * n + d) == s + [HexDigit(d)]
  {
  }

  lemma SamplePolyStart()
    ensures Poly([123, 34, 111, 107, 34, 58]) == 3556196027
  {
    assert Poly([]) == 0;
    PolyNext([], 123, [123], 0);
    PolyNext([123], 34, [123, 34], 123);
    PolyNext([123, 34], 111, [123, 34, 111], 3847);
    PolyNext([123, 34, 111], 107, [123, 34, 111, 107], 119368);
    PolyNext([123, 34, 111, 107], 34, [123, 34, 111, 107, 34], 3700515);
    PolyNext([123, 34, 111, 107, 34], 58, [123, 34, 111, 107, 34, 58], 114715999);
  }

  lemma SamplePolyEnd()
    ensures Poly([123, 34, 111, 107, 34, 58, 116, 114, 117, 101, 125]) == 101810873153223380
  {
    SamplePolyStart();
    var s := [123, 34, 111, 107, 34, 58];
    PolyNext(s, 116, s + [116], 3556196027);
    PolyNext(s + [116], 114, s + [116, 114], 110242076953);
    PolyNext(s + [116, 114], 117, s + [116, 114, 117], 3417504385657);
    PolyNext(s + [116, 114, 117], 101, s + [116, 114, 117, 101], 105942635955484);
    PolyNext(s + [116, 114, 117, 101], 125, s + [116, 114, 117, 101, 125], 3284221714620105);
    assert s + [116, 114, 117, 101, 125] == [123, 34, 111, 107, 34, 58, 116, 114, 117, 101, 125];
  }

  lemma PolyNext(s: Text, c: CodeUnit, w: Text, p: int)
    requires Poly(s) == p && w == s + [c]
    ensures Poly(w) == 31 * p + c
  {
    PolySnoc(s, c);
  }

  /** Insertion order of object members never reaches the digest. */
  lemma DigestIgnoresKeyOrder(p: seq<Field>, q: seq<Field>)
    requires SameUnordered(Obj(p), Obj(q))
    ensures Digest(Canonical(p)) == Digest(Canonical(q))
  {
    KeyOrderInvariance(p, q);
  }

  lemma HashStep(text: Text, i: nat, hash: int)
    requires i < |text| && Congruent(hash, Poly(text[..i]))
    ensures Congruent(Round(hash, text[i]), Poly(text[..i + 1]))
  {
    assert text[..i + 1] == text[..i] + [text[i]];
    PolySnoc(text[..i], text[i]);
    RoundIsHorner(hash, Poly(text[..i]), text[i]);
  }

  lemma HashIsReduced(hash: int, p: int)
    requires -HALF <= hash < HALF && Congruent(hash, p)
    ensures hash == ToInt32(p)
  {
    ToInt32Unique(hash, p);
  }

  /** `computeIntegrityHash` for an object payload. */
  method ComputeIntegrityHash(payload: seq<Field>) returns (digest: string)
    ensures digest == Digest(Canonical(payload))
  {
    var canonical := Canonical(payload);
    var hash := 0;
    for i := 0 to |canonical|
      invariant -HALF <= hash < HALF
      invariant Congruent(hash, Poly(canonical[..i]))
    {
      HashStep(canonical, i, hash);
      hash := ToInt32(hash * 32) - hash + canonical[i];
      hash := ToInt32(hash);
    }
    assert canonical[..|canonical|] == canonical;
    HashIsReduced(hash, Poly(canonical));
    digest := "h" + PadStart8(Hex(if hash < 0 then -hash else hash));
  }
}
