/** The tint and the face a contact always gets (frontend/src/components/ConversationThread.tsx):
    two 32-bit hashes computed in double arithmetic. */
module AvatarHash {
  import opened Basics

  /** A UTF-16 code unit, as charCodeAt gives it. */
  newtype CodeUnit = x: int | 0 <= x < 0x1_0000

  const TWO_53 := 0x20_0000_0000_0000

  const TINTS := 9
  const FACES := 24
  const TINT_BASE := 31
  const FACE_BASE := 33

  function Abs(x: int): nat { if x < 0 then -x else x }

  function Pow(base: nat, n: nat): nat {
    if n == 0 then 1 else base * Pow(base, n - 1)
  }

  /** The sum of s[i] * base^(|s| - 1 - i), unbounded. */
  function Polynomial(base: nat, s: seq<CodeUnit>): nat {
    if s == [] then 0 else s[0] as int * Pow(base, |s| - 1) + Polynomial(base, s[1..])
  }

  lemma {:induction false} HornerStep(base: nat, s: seq<CodeUnit>, u: CodeUnit)
    ensures Polynomial(base, s + [u]) == Polynomial(base, s) * base + u as int
  {
    if s == [] {
      assert s + [u] == [u] && [u][1..] == [];
      assert Pow(base, 0) == 1;
    } else {
      HornerStep(base, s[1..], u);
      assert (s + [u])[1..] == s[1..] + [u];
      var c, p := s[0] as int, Pow(base, |s| - 1);
      calc {
        c * Pow(base, |s|) + (Polynomial(base, s[1..]) * base + u as int);
        c * (base * p) + Polynomial(base, s[1..]) * base + u as int;
        { assert c * (base * p) == (c * p) * base; }
        (c * p) * base + Polynomial(base, s[1..]) * base + u as int;
        { assert (c * p) * base + Polynomial(base, s[1..]) * base == (c * p + Polynomial(base, s[1..])) * base; }
        (c * p + Polynomial(base, s[1..])) * base + u as int;
      }
    }
  }

  lemma Residue(x: int, y: int, k: int)
    requires x - y == TWO_32 * k
    ensures ToInt32(x) == ToInt32(y)
  {
  }

  /** Wrapping at every step is wrapping once at the end. */
  lemma WrapStep(x: int, base: nat, u: int)
    ensures ToInt32(ToInt32(x) * base + u) == ToInt32(x * base + u)
  {
    var k := (x - ToInt32(x)) / TWO_32;
    assert x - ToInt32(x) == TWO_32 * k;
    assert (x - ToInt32(x)) * base == TWO_32 * (k * base);
    Residue(x * base + u, ToInt32(x) * base + u, k * base);
  }

  lemma HashStep(base: nat, s: seq<CodeUnit>, i: nat)
    requires i < |s|
    ensures ToInt32(ToInt32(Polynomial(base, s[..i])) * base + s[i] as int) == ToInt32(Polynomial(base, s[..i + 1]))
  {
    HornerStep(base, s[..i], s[i]);
    WrapStep(Polynomial(base, s[..i]), base, s[i] as int);
    assert s[..i + 1] == s[..i] + [s[i]];
  }

  lemma ProductBound(x: int, b: nat, m: nat, n: nat)
    requires 0 - m <= x <= m && b <= n
    ensures 0 - m * n <= x * b <= m * n
  {
    assert x * b <= m * b && 0 <= (x + m) * b;
    assert m * b <= m * n;
  }

  /** Before each wrap the value is one a double holds exactly. */
  lemma StepIsExact(base: nat, s: seq<CodeUnit>, i: nat)
    requires base <= FACE_BASE && i < |s|
    ensures Abs(ToInt32(Polynomial(base, s[..i])) * base) < TWO_53
    ensures Abs(ToInt32(Polynomial(base, s[..i])) * base + s[i] as int) < TWO_53
  {
    var hash := ToInt32(Polynomial(base, s[..i]));
    ProductBound(hash, base, TWO_31, FACE_BASE);
  }

  /** The hash of one unit is the unit; of two, the first times the base and the second. */
  lemma ShortHashes(a: CodeUnit, b: CodeUnit)
    ensures Polynomial(TINT_BASE, [a]) == Polynomial(FACE_BASE, [a]) == a as int
    ensures Polynomial(TINT_BASE, [a, b]) == 31 * a as int + b as int
    ensures Polynomial(FACE_BASE, [a, b]) == 33 * a as int + b as int
  {
    assert [a, b][1..] == [b] && [a][1..] == [] && [b][1..] == [];
    assert Pow(TINT_BASE, 0) == 1 && Pow(FACE_BASE, 0) == 1;
    assert Pow(TINT_BASE, 1) == TINT_BASE * Pow(TINT_BASE, 0) && Pow(FACE_BASE, 1) == FACE_BASE * Pow(FACE_BASE, 0);
  }

  method TintFor(seed: seq<CodeUnit>) returns (index: nat)
    ensures index == Abs(ToInt32(Polynomial(31, seed))) % 9 && index < 9
  {
    var hash := 0;
    for i := 0 to |seed|
      invariant hash == ToInt32(Polynomial(TINT_BASE, seed[..i]))
    {
      HashStep(TINT_BASE, seed, i);
      hash := ToInt32(hash * TINT_BASE + seed[i] as int);
    }
    assert seed[..|seed|] == seed;
    index := Abs(hash) % TINTS;
  }

  method EmojiFor(phone: seq<CodeUnit>) returns (index: nat)
    ensures index == Abs(ToInt32(Polynomial(33, phone))) % 24 && index < 24
  {
    var hash := 0;
    for i := 0 to |phone|
      invariant hash == ToInt32(Polynomial(FACE_BASE, phone[..i]))
    {
      HashStep(FACE_BASE, phone, i);
      hash := ToInt32(hash * FACE_BASE + phone[i] as int);
    }
    assert phone[..|phone|] == phone;
    index := Abs(hash) % FACES;
  }
}
