/** The DLT application id generator: a masked base-31 Horner hash whose low
    base-63 digits are spelled with a fixed character set. */
module AppId {
  import opened Arith

  const UPPER := "ABCDEFGHIJKLMNOPQRSTUVWXYZ"
  const LOWER := "abcdefghijklmnopqrstuvwxyz"
  const REST := "0123456789_"
  const CHARSET := UPPER + LOWER + REST
  const BASE := 63
  const WORD := 0x1_0000_0000

  /** A Unicode code point, as `ord` returns it. */
  type CodePoint = c: nat | c < 0x11_0000

  /** The base-31 polynomial of the code points, on unbounded integers. */
  ghost function Poly(s: seq<CodePoint>): nat {
    if s == [] then 0 else Poly(s[..|s| - 1]) * 31 + s[|s| - 1]
  }

  ghost function Hash(s: seq<CodePoint>): nat { Poly(s) % WORD }

  /** The `n` low digits of `h` in base 63, least significant first. */
  ghost function Digits(h: nat, n: nat): seq<nat> {
    if n == 0 then [] else [h % BASE] + Digits(h / BASE, n - 1)
  }

  ghost function Value(ds: seq<nat>): nat {
    if ds == [] then 0 else ds[0] + BASE * Value(ds[1..])
  }

  ghost predicate InRange(ds: seq<nat>) {
    forall i | 0 <= i < |ds| :: ds[i] < BASE
  }

  ghost function Spell(ds: seq<nat>): string
    requires InRange(ds)
  {
    assert |CHARSET| == BASE;
    seq(|ds|, i requires 0 <= i < |ds| => CHARSET[ds[i]])
  }

  lemma {:induction false} DigitsInRange(h: nat, n: nat)
    ensures |Digits(h, n)| == n
    ensures InRange(Digits(h, n))
  {
    if n > 0 {
      DigitsInRange(h / BASE, n - 1);
    }
  }

  ghost function Id(s: seq<CodePoint>): string {
    DigitsInRange(Hash(s), 4);
    Spell(Digits(Hash(s), 4))
  }

  /** Reducing before multiplying and adding does not change the residue. */
  lemma MaskedStep(p: nat, c: nat)
    ensures (p % WORD * 31 + c) % WORD == (p * 31 + c) % WORD
  {
  }

  /** The masked loop followed by the digit loop computes the four base-63
      digits of the polynomial modulo 2^32. */
  method GenDltAppid(input: seq<CodePoint>) returns (id: string)
    ensures id == Id(input)
  {
    var hash := 0;
    for i := 0 to |input|
      invariant hash == Hash(input[..i])
    {
      assert input[..i + 1][..i] == input[..i];
      MaskedStep(Poly(input[..i]), input[i]);
      hash := (hash * 31 + input[i]) % WORD;
    }
    assert input[..|input|] == input;
    id := [];
    ghost var h := hash;
    DigitsInRange(h, 4);
    for i := 0 to 4
      invariant |id| == i && hash >= 0
      invariant Digits(h, 4)[i..] == Digits(hash, 4 - i)
      invariant id == Spell(Digits(h, 4)[..i])
    {
      assert Digits(h, 4)[i] == Digits(hash, 4 - i)[0] == hash % BASE;
      assert |CHARSET| == BASE;
      id := id + [CHARSET[hash % BASE]];
      assert Digits(h, 4)[i + 1..] == Digits(h, 4)[i..][1..] == Digits(hash / BASE, 4 - i - 1);
      hash := hash / BASE;
    }
    assert Digits(h, 4)[..4] == Digits(h, 4);
  }

  /** The polynomial has no constant of its own, and a character in front weighs 31 to the number
      of characters after it. */
  lemma {:induction false} PolyOfConcat(c: CodePoint, s: seq<CodePoint>)
    ensures Poly([]) == 0 && Poly([c] + s) == c * Power(31, |s|) + Poly(s)
    decreases |s|
  {
    if s == [] {
      assert [c] + s == [c] && [c][..0] == [];
    } else {
      var front, p := s[..|s| - 1], Power(31, |s| - 1);
      assert ([c] + s)[..|s|] == [c] + front;
      PolyOfConcat(c, front);
      MulDistributes(31, c * p, Poly(front));
      assert c * p * 31 == c * Power(31, |s|);
    }
  }

  /** Capitals come first, then small letters, digits and the underscore. */
  lemma CharsetOrder()
    ensures CHARSET == "ABCDEFGHIJKLMNOPQRSTUVWXYZabcdefghijklmnopqrstuvwxyz0123456789_"
  {
  }

  /** Each character of an id spells the hash's base-63 digit of its place. */
  lemma IdAt(s: seq<CodePoint>, i: nat)
    requires i < 4
    ensures |Id(s)| == 4 && Power(63, i) > 0
    ensures |CHARSET| == 63 && Id(s)[i] == CHARSET[Poly(s) % 0x1_0000_0000 / Power(63, i) % 63]
  {
    DigitsInRange(Hash(s), 4);
    PowerPositive(63, i);
    DigitAt(Hash(s), 4, i);
  }

  lemma {:induction false} DigitAt(h: nat, n: nat, i: nat)
    requires i < n
    ensures Power(63, i) > 0 && |Digits(h, n)| == n && Digits(h, n)[i] == h / Power(63, i) % 63
  {
    DigitsInRange(h, n);
    PowerPositive(63, i);
    if i > 0 {
      PowerPositive(63, i - 1);
      DigitAt(h / 63, n - 1, i - 1);
      ModByProduct(h, 63, Power(63, i - 1));
    }
  }

  /** Digits are the positional representation of the residue. */
  lemma {:induction false} DigitsAreResidue(h: nat, n: nat)
    ensures Power(BASE, n) > 0
    ensures Value(Digits(h, n)) == h % Power(BASE, n)
  {
    PowerPositive(BASE, n);
    if n > 0 {
      PowerPositive(BASE, n - 1);
      var m := Power(BASE, n - 1);
      DigitsAreResidue(h / BASE, n - 1);
      assert Digits(h, n)[1..] == Digits(h / BASE, n - 1);
      ModByProduct(h, BASE, m);
    }
  }

  lemma ValueSplit(a: seq<nat>)
    requires a != [] && InRange(a)
    ensures a[0] == Value(a) % BASE && Value(a[1..]) == Value(a) / BASE
  {
  }

  lemma {:induction false} ValueInjective(a: seq<nat>, b: seq<nat>)
    requires |a| == |b| && Value(a) == Value(b)
    requires InRange(a) && InRange(b)
    ensures a == b
  {
    if a != [] {
      ValueSplit(a);
      ValueSplit(b);
      assert InRange(a[1..]) && InRange(b[1..]);
      ValueInjective(a[1..], b[1..]);
      assert a == [a[0]] + a[1..] && b == [b[0]] + b[1..];
    }
  }

  ghost function CharIndex(c: char): int {
    if 'A' <= c <= 'Z' then c as int - 'A' as int
    else if 'a' <= c <= 'z' then c as int - 'a' as int + 26
    else if '0' <= c <= '9' then c as int - '0' as int + 52
    else 62
  }

  lemma PartsDistinct(d: nat)
    ensures |UPPER| == |LOWER| == 26 && |REST| == 11
    ensures d < 26 ==> CharIndex(UPPER[d]) == d && CharIndex(LOWER[d]) == d + 26
    ensures d < 11 ==> CharIndex(REST[d]) == d + 52
  {
  }

  lemma CharsetDistinct(d: nat)
    requires d < BASE
    ensures |CHARSET| == BASE && CharIndex(CHARSET[d]) == d
  {
    PartsDistinct(if d < 26 then d else if d < 52 then d - 26 else d - 52);
  }

  /** Two strings share an application id exactly when their 32-bit hashes
      agree modulo 63^4. */
  lemma SameIdIff(a: seq<CodePoint>, b: seq<CodePoint>)
    ensures Id(a) == Id(b) <==> Hash(a) % Power(BASE, 4) == Hash(b) % Power(BASE, 4)
  {
    var da, db := Digits(Hash(a), 4), Digits(Hash(b), 4);
    DigitsInRange(Hash(a), 4);
    DigitsInRange(Hash(b), 4);
    DigitsAreResidue(Hash(a), 4);
    DigitsAreResidue(Hash(b), 4);
    if Id(a) == Id(b) {
      forall i | 0 <= i < 4 ensures da[i] == db[i] {
        assert Id(a)[i] == CHARSET[da[i]] && Id(b)[i] == CHARSET[db[i]];
        CharsetDistinct(da[i]);
        CharsetDistinct(db[i]);
      }
      assert da == db;
    }
    if Value(da) == Value(db) {
      ValueInjective(da, db);
    }
  }

  /** The id does not identify its string: "Aa" and "BB" collide already in
      the polynomial. */
  lemma IdsCollide()
    ensures [65, 97] != [66, 66] && Id([65, 97]) == Id([66, 66])
  {
  }
}
