/** Session ids that sort newest first (`session_id_at`,
    src/agent/opencode.rs): the low 48 bits of an inverted time stamp, in hex. */
module SessionId {
  import opened Basics

  const TWO_36 := 0x10_0000_0000
  const TWO_48 := 0x1_0000_0000_0000
  const TWO_64 := 0x1_0000_0000_0000_0000

  const HEX := "0123456789abcdef"
  const CHARS := "0123456789" + "ABCDEFGHIJKLMNOPQRSTUVWXYZ" + "abcdefghijklmnopqrstuvwxyz"

  type u64 = x: nat | x < TWO_64
  type u16 = x: nat | x < 0x1_0000

  /** The time in milliseconds times 4096, wrapped, plus the low 12 bits of the
      counter: the addition never overflows. */
  function Stamp(ms: u64, counter: u16): u64 {
    StampFits(ms, counter);
    ms * 0x1000 % TWO_64 + counter % 0x1000
  }

  lemma StampFits(ms: u64, counter: u16)
    ensures ms * 0x1000 % TWO_64 + counter % 0x1000 < TWO_64
  {
    var q := ms * 0x1000 / TWO_64;
    assert ms * 0x1000 % TWO_64 == (ms - q * 0x10_0000_0000_0000) * 0x1000;
  }

  /** `!x`. */
  function Not(x: u64): u64 {
    TWO_64 - 1 - x
  }

  /** The last `n` hex digits of `v`. */
  function Hex(v: nat, n: nat): (s: string)
    ensures |s| == n
  {
    if n == 0 then "" else Hex(v / 16, n - 1) + [HEX[v % 16]]
  }

  function Letters(random: seq<byte>): (s: string)
    ensures |s| == |random|
  {
    if random == [] then "" else Letters(random[..|random| - 1]) + [CHARS[random[|random| - 1] as nat % 62]]
  }

  /** 2^(48 - 8i). */
  function Scale(i: nat): (scale: nat)
    requires i <= 6
    ensures scale > 0
  {
    [TWO_48, 0x100_0000_0000, 0x1_0000_0000, 0x100_0000, 0x1_0000, 0x100, 1][i]
  }

  lemma NextByte(v: nat, i: nat)
    requires i < 6
    ensures Hex(v / Scale(i + 1), 2 * (i + 1))
         == Hex(v / Scale(i), 2 * i) + Hex(v / Scale(i + 1) % 256, 2)
  {
    hide Hex, Scale;
    var w := v / Scale(i + 1);
    ScaleSteps(v, i);
    TwoDigits(w, 2 * i);
    ByteDigits(w % 256);
  }

  lemma Nibbles(w: nat)
    ensures w / 16 / 16 == w / 256 && w / 16 % 16 == w % 256 / 16 && w % 256 % 16 == w % 16
  {
  }

  lemma ByteDigits(b: nat)
    requires b < 256
    ensures Hex(b, 2) == [HEX[b / 16], HEX[b % 16]]
  {
    assert Hex(b / 16 / 16, 0) == "" && Hex(b / 16, 1) == [HEX[b / 16 % 16]];
  }

  lemma ScaleSteps(v: nat, i: nat)
    requires i < 6
    ensures v / Scale(i + 1) / 256 == v / Scale(i)
  {
  }

  lemma TwoDigits(w: nat, n: nat)
    ensures Hex(w, n + 2) == Hex(w / 256, n) + [HEX[w % 256 / 16], HEX[w % 256 % 16]]
  {
    Nibbles(w);
    assert Hex(w / 16, n + 1) == Hex(w / 16 / 16, n) + [HEX[w / 16 % 16]];
  }

  function IdAt(ms: u64, counter: u16, random: seq<byte>): string {
    "ses_" + Hex(Not(Stamp(ms, counter)), 12) + Letters(random)
  }

  /** The id: always 30 characters. */
  method SessionIdAt(ms: u64, counter: u16, random: seq<byte>) returns (id: string)
    requires |random| == 14
    ensures id == IdAt(ms, counter, random) && |id| == 30
  {
    hide Hex;
    var value := Not(Stamp(ms, counter));
    id := "ses_";
    NoDigits(value);
    for i := 0 to 6
      invariant id == "ses_" + Hex(value / Scale(i), 2 * i)
    {
      NextByte(value, i);
      id := id + Hex(value / Scale(i + 1) % 256, 2);
    }
    for i := 0 to 14
      invariant id == "ses_" + Hex(value, 12) + Letters(random[..i])
    {
      assert random[..i + 1][..i] == random[..i];
      id := id + [CHARS[random[i] as nat % 62]];
    }
    assert random[..14] == random;
  }

  // ----- Reading an id -----

  function DigitOf(c: char): int {
    if '0' <= c <= '9' then c as int - '0' as int else c as int - 'a' as int + 10
  }

  /** The number that lower-case hex digits are. */
  function NumberOf(s: string): int {
    if s == "" then 0 else NumberOf(s[..|s| - 1]) * 16 + DigitOf(s[|s| - 1])
  }

  lemma {:induction false} HexReads(v: nat, n: nat)
    ensures NumberOf(Hex(v, n)) == v % Pow16(n)
    ensures forall c :: c in Hex(v, n) ==> '0' <= c <= '9' || 'a' <= c <= 'f'
  {
    if n > 0 {
      HexReads(v / 16, n - 1);
      DropDigit(v, n);
      DigitReads(v % 16);
      hide Pow16, DigitOf;
      assert Hex(v, n) == Hex(v / 16, n - 1) + [HEX[v % 16]];
      assert Hex(v, n)[..n - 1] == Hex(v / 16, n - 1);
    }
  }

  lemma DigitReads(d: nat)
    requires d < 16
    ensures DigitOf(HEX[d]) == d && ('0' <= HEX[d] <= '9' || 'a' <= HEX[d] <= 'f')
  {
  }

  lemma {:induction false} LettersAre(random: seq<byte>)
    ensures forall c :: c in Letters(random) ==> '0' <= c <= '9' || 'A' <= c <= 'Z' || 'a' <= c <= 'z'
  {
    if random != [] {
      LettersAre(random[..|random| - 1]);
      LetterIs(random[|random| - 1] as nat % 62);
    }
  }

  lemma LetterIs(k: nat)
    requires k < 62
    ensures '0' <= CHARS[k] <= '9' || 'A' <= CHARS[k] <= 'Z' || 'a' <= CHARS[k] <= 'z'
  {
    if k < 10 {
      assert CHARS[k] == "0123456789"[k];
    } else if k < 36 {
      UpperIs(k - 10);
      assert CHARS[k] == "ABCDEFGHIJKLMNOPQRSTUVWXYZ"[k - 10];
    } else {
      LowerIs(k - 36);
      assert CHARS[k] == "abcdefghijklmnopqrstuvwxyz"[k - 36];
    }
  }

  lemma UpperIs(k: nat)
    requires k < 26
    ensures "ABCDEFGHIJKLMNOPQRSTUVWXYZ"[k] as int == 'A' as int + k
  {
  }

  lemma LowerIs(k: nat)
    requires k < 26
    ensures "abcdefghijklmnopqrstuvwxyz"[k] as int == 'a' as int + k
  {
  }

  /** An id is `ses_`, then the low 48 bits of the inverted stamp in lower-case
      hex, then letters and digits. */
  lemma IdReads(ms: u64, counter: u16, random: seq<byte>)
    ensures var id := IdAt(ms, counter, random);
            && |id| == 16 + |random| && id[..4] == "ses_"
            && NumberOf(id[4..16]) == TWO_48 - 1 - (ms % TWO_36 * 0x1000 + counter % 0x1000)
            && (forall c :: c in id[4..16] ==> '0' <= c <= '9' || 'a' <= c <= 'f')
            && (forall c :: c in id[16..] ==> '0' <= c <= '9' || 'A' <= c <= 'Z' || 'a' <= c <= 'z')
  {
    hide Hex, Letters, NumberOf, DigitOf, Stamp, Not;
    var v := Not(Stamp(ms, counter));
    HexReads(v, 12);
    assert Pow16(12) == TWO_48;
    StampKeeps(ms, counter);
    LettersAre(random);
    var id := IdAt(ms, counter, random);
    assert id[4..16] == Hex(v, 12) && id[16..] == Letters(random);
  }

  lemma NoDigits(v: nat)
    ensures Hex(v / Scale(0), 0) == ""
  {
  }

  // ----- Order -----

  /** What of the time and counter the id keeps. */
  function Kept(ms: u64, counter: u16): nat {
    ms % TWO_36 * 0x1000 + counter % 0x1000
  }

  lemma StampKeeps(ms: u64, counter: u16)
    ensures Stamp(ms, counter) % TWO_48 == Kept(ms, counter) < TWO_48
    ensures Not(Stamp(ms, counter)) % TWO_48 == TWO_48 - 1 - Kept(ms, counter)
  {
    var q, r := ms / TWO_36, ms % TWO_36;
    var wrapped := ms * 0x1000 % TWO_64;
    var k := ms * 0x1000 / TWO_64;
    var x := Stamp(ms, counter);
    assert x == (q - k * 0x1_0000) * TWO_48 + Kept(ms, counter);
    Remainder(x, q - k * 0x1_0000, Kept(ms, counter));
    Remainder(Not(x), 0x1_0000 - 1 - (q - k * 0x1_0000), TWO_48 - 1 - Kept(ms, counter));
  }

  lemma Remainder(x: nat, q: int, r: nat)
    requires x == q * TWO_48 + r && r < TWO_48
    ensures x % TWO_48 == r
  {
  }

  function Pow16(n: nat): (p: nat)
    ensures p > 0
  {
    if n == 0 then 1 else 16 * Pow16(n - 1)
  }

  lemma {:induction false} LessAfter(p: string, s: string, t: string)
    ensures Less(p + s, p + t) <==> Less(s, t)
  {
    if p == "" {
      assert p + s == s && p + t == t;
    } else {
      assert (p + s)[1..] == p[1..] + s && (p + t)[1..] == p[1..] + t;
      LessAfter(p[1..], s, t);
    }
  }

  /** Hex digits sort as the numbers do, whatever follows them. */
  lemma {:induction false} HexSorts(a: nat, b: nat, n: nat, s: string, t: string)
    requires a % Pow16(n) < b % Pow16(n)
    ensures Less(Hex(a, n) + s, Hex(b, n) + t)
  {
    hide Hex, Less;
    if n > 0 {
      DropDigit(a, n);
      DropDigit(b, n);
      LastDigit(a, n, s);
      LastDigit(b, n, t);
      var s', t' := [HEX[a % 16]] + s, [HEX[b % 16]] + t;
      if a / 16 % Pow16(n - 1) < b / 16 % Pow16(n - 1) {
        HexSorts(a / 16, b / 16, n - 1, s', t');
      } else {
        HexSame(a / 16, b / 16, n - 1);
        DigitSorts(a % 16, b % 16, s, t);
        LessAfter(Hex(a / 16, n - 1), s', t');
      }
    }
  }

  lemma LastDigit(a: nat, n: nat, s: string)
    requires n > 0
    ensures Hex(a, n) + s == Hex(a / 16, n - 1) + ([HEX[a % 16]] + s)
  {
  }

  lemma DigitSorts(a: nat, b: nat, s: string, t: string)
    requires a < b < 16
    ensures Less([HEX[a]] + s, [HEX[b]] + t)
  {
  }

  lemma DropDigit(a: nat, n: nat)
    requires n > 0
    ensures a % Pow16(n) == 16 * (a / 16 % Pow16(n - 1)) + a % 16
  {
    var p := Pow16(n - 1);
    var q, r := a / 16 / p, a / 16 % p;
    assert a == 16 * (q * p + r) + a % 16;
    assert a == q * (16 * p) + (16 * r + a % 16);
    SameRemainder(a, 16 * p, q, 16 * r + a % 16);
  }

  lemma SameRemainder(a: nat, m: nat, q: nat, r: nat)
    requires a == q * m + r && r < m
    ensures a % m == r
  {
    var p := a / m;
    assert a == p * m + a % m;
    if p < q {
      TimesGrows(p, q, m);
    } else if q < p {
      TimesGrows(q, p, m);
    }
  }

  lemma {:induction false} TimesGrows(x: nat, y: nat, m: nat)
    requires x < y
    ensures x * m + m <= y * m
  {
    if x + 1 < y {
      TimesGrows(x, y - 1, m);
    }
    assert y * m == (y - 1) * m + m;
  }

  lemma {:induction false} HexSame(a: nat, b: nat, n: nat)
    requires a % Pow16(n) == b % Pow16(n)
    ensures Hex(a, n) == Hex(b, n)
  {
    if n > 0 {
      DropDigit(a, n);
      DropDigit(b, n);
      HexSame(a / 16, b / 16, n - 1);
    }
  }

  /** Two ids sort by what they keep of their times, newest first, whatever
      their random parts. */
  lemma IdsSortByWhatTheyKeep(ms1: u64, c1: u16, r1: seq<byte>, ms2: u64, c2: u16, r2: seq<byte>)
    requires Kept(ms1, c1) != Kept(ms2, c2)
    ensures Less(IdAt(ms2, c2, r2), IdAt(ms1, c1, r1)) <==> Kept(ms1, c1) < Kept(ms2, c2)
  {
    StampKeeps(ms1, c1);
    StampKeeps(ms2, c2);
    assert Pow16(12) == TWO_48 by {
      assert Pow16(4) == 0x1_0000 && Pow16(8) == 0x1_0000_0000;
    }
    var v1, v2 := Not(Stamp(ms1, c1)), Not(Stamp(ms2, c2));
    var id1, id2 := Hex(v1, 12) + Letters(r1), Hex(v2, 12) + Letters(r2);
    if Kept(ms1, c1) < Kept(ms2, c2) {
      HexSorts(v2, v1, 12, Letters(r2), Letters(r1));
    } else {
      HexSorts(v1, v2, 12, Letters(r1), Letters(r2));
      NotBothLess(id1, id2);
    }
    LessAfter("ses_", id2, id1);
    assert "ses_" + id1 == IdAt(ms1, c1, r1) && "ses_" + id2 == IdAt(ms2, c2, r2);
  }

  lemma {:induction false} NotBothLess(a: string, b: string)
    requires Less(a, b)
    ensures !Less(b, a)
  {
    if a != "" && a[0] == b[0] {
      NotBothLess(a[1..], b[1..]);
    }
  }

  /** A later time or counter. */
  predicate Later(ms1: u64, c1: u16, ms2: u64, c2: u16) {
    ms1 < ms2 || (ms1 == ms2 && c1 % 0x1000 < c2 % 0x1000)
  }

  /** In one window of 2^36 milliseconds a later id always sorts first. */
  lemma NewestFirst(ms1: u64, c1: u16, r1: seq<byte>, ms2: u64, c2: u16, r2: seq<byte>)
    requires ms1 / TWO_36 == ms2 / TWO_36 && Later(ms1, c1, ms2, c2)
    ensures Less(IdAt(ms2, c2, r2), IdAt(ms1, c1, r1))
  {
    IdsSortByWhatTheyKeep(ms1, c1, r1, ms2, c2, r2);
  }

  /** In the next window it sorts last exactly from the same point of the
      window on: the order starts over every 2^36 milliseconds. */
  lemma OrderStartsOver(ms: u64, later: u64, c: u16, r1: seq<byte>, r2: seq<byte>)
    requires later / TWO_36 == ms / TWO_36 + 1 && later % TWO_36 != ms % TWO_36
    ensures Less(IdAt(later, c, r2), IdAt(ms, c, r1)) <==> ms % TWO_36 < later % TWO_36
  {
    IdsSortByWhatTheyKeep(ms, c, r1, later, c, r2);
  }

  /** The last id of a window sorts before the first of the next one. */
  lemma AcrossWindows(r1: seq<byte>, r2: seq<byte>)
    ensures Later(TWO_36 - 1, 0, TWO_36, 0)
    ensures Less(IdAt(TWO_36 - 1, 0, r1), IdAt(TWO_36, 0, r2))
  {
    IdsSortByWhatTheyKeep(TWO_36, 0, r2, TWO_36 - 1, 0, r1);
  }
}
