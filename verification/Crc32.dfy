/** The CRC field of a Kafka record: CRC-32 (section 8 of RFC 1952) and CRC-32C (section 12.1 of
    RFC 3720), both bit-reflected. */
module Crc32 {
  type Byte = bv8
  type Word = bv32

  datatype Polynomial = Ieee | Castagnoli

  const IEEE: Word := 0xEDB88320
  const CASTAGNOLI: Word := 0x82F63B78

  function Bits(p: Polynomial): Word {
    match p case Ieee => IEEE case Castagnoli => CASTAGNOLI
  }

  // ---------------------------------------------------------------- word operations and their laws

  function Xor(a: Word, b: Word): Word {
    a ^ b
  }

  function Half(a: Word): Word {
    a >> 1
  }

  predicate Odd(a: Word) {
    a & 1 == 1
  }

  function Drop(a: Word): Word {
    a >> 8
  }

  function Widen(b: Byte): Word {
    b as Word
  }

  function Low(a: Word): Byte {
    (a & 0xFF) as Byte
  }

  function High(a: Word): Word {
    a & 0xFFFFFF00
  }

  lemma XorCommutes(a: Word, b: Word)
    ensures Xor(a, b) == Xor(b, a)
  {
  }

  lemma XorAssociates(a: Word, b: Word, c: Word)
    ensures Xor(Xor(a, b), c) == Xor(a, Xor(b, c))
  {
  }

  lemma XorUndoes(a: Word, b: Word)
    ensures Xor(Xor(a, b), b) == a
  {
  }

  lemma XorCancels(a: Word, b: Word, c: Word)
    requires Xor(a, c) == Xor(b, c)
    ensures a == b
  {
    hide Xor;
    XorUndoes(a, c);
    XorUndoes(b, c);
  }

  lemma XorCancelsLeft(a: Word, b: Word, c: Word)
    requires Xor(a, b) == Xor(a, c)
    ensures b == c
  {
    hide Xor;
    XorCommutes(a, b);
    XorCommutes(a, c);
    XorCancels(b, c, a);
  }

  lemma XorExchange(a: Word, b: Word, k: Word)
    ensures Xor(Xor(a, b), k) == Xor(Xor(a, k), b)
  {
    hide Xor;
    XorAssociates(a, b, k);
    XorAssociates(a, k, b);
    XorCommutes(b, k);
  }

  lemma HalfLinear(a: Word, b: Word)
    ensures Half(Xor(a, b)) == Xor(Half(a), Half(b))
    ensures Odd(Xor(a, b)) <==> Odd(a) != Odd(b)
  {
  }

  /** A zero low byte is eight zero bits. */
  lemma ZeroByte(x: Word)
    requires Low(x) == 0
    ensures !Odd(x) && !Odd(Half(x)) && !Odd(Half(Half(x))) && !Odd(Half(Half(Half(x))))
    ensures !Odd(Half(Half(Half(Half(x))))) && !Odd(Half(Half(Half(Half(Half(x))))))
    ensures !Odd(Half(Half(Half(Half(Half(Half(x))))))) && !Odd(Half(Half(Half(Half(Half(Half(Half(x))))))))
  {
  }

  lemma EightHalves(x: Word)
    ensures Half(Half(Half(Half(Half(Half(Half(Half(x)))))))) == Drop(x)
  {
  }

  lemma HighOnly(x: Word)
    ensures Low(High(x)) == 0 && Drop(High(x)) == Drop(x)
  {
  }

  lemma HighAndLow(x: Word)
    ensures Xor(High(x), Widen(Low(x))) == x
  {
  }

  lemma XorBytes(a: Byte, b: Byte)
    ensures Xor(Widen(a), Widen(b)) == Widen(a ^ b)
  {
  }

  // ---------------------------------------------------------------- bit steps

  function Step(p: Polynomial, x: Word): Word {
    if Odd(x) then Xor(Half(x), Bits(p)) else Half(x)
  }

  /** A step is linear over exclusive or. */
  lemma StepLinear(p: Polynomial, x: Word, y: Word)
    ensures Step(p, Xor(x, y)) == Xor(Step(p, x), Step(p, y))
  {
    hide Xor, Half, Odd, Bits;
    HalfLinear(x, y);
    XorUndoes(Xor(Half(x), Half(y)), Bits(p));
    XorAssociates(Half(x), Half(y), Bits(p));
    XorExchange(Half(x), Half(y), Bits(p));
    XorAssociates(Xor(Half(x), Bits(p)), Half(y), Bits(p));
  }

  /** The shifted-out bit can be read off the top bit, because both polynomials have theirs set. */
  lemma StepInjective(p: Polynomial, x: Word, y: Word)
    requires Step(p, x) == Step(p, y)
    ensures x == y
  {
    match p
    case Ieee =>
    case Castagnoli =>
  }

  function Steps(p: Polynomial, x: Word, n: nat): Word
    decreases n
  {
    if n == 0 then x else Steps(p, Step(p, x), n - 1)
  }

  lemma {:induction false} StepsLinear(p: Polynomial, x: Word, y: Word, n: nat)
    ensures Steps(p, Xor(x, y), n) == Xor(Steps(p, x, n), Steps(p, y, n))
    decreases n
  {
    hide Step, Xor;
    if n > 0 {
      StepLinear(p, x, y);
      StepsLinear(p, Step(p, x), Step(p, y), n - 1);
    }
  }

  lemma {:induction false} StepsInjective(p: Polynomial, x: Word, y: Word, n: nat)
    requires Steps(p, x, n) == Steps(p, y, n)
    ensures x == y
    decreases n
  {
    hide Step;
    if n > 0 {
      StepsInjective(p, Step(p, x), Step(p, y), n - 1);
      StepInjective(p, x, y);
    }
  }

  lemma {:induction false} StepsCompose(p: Polynomial, x: Word, m: nat, n: nat)
    ensures Steps(p, Steps(p, x, m), n) == Steps(p, x, m + n)
    decreases m
  {
    hide Step;
    if m > 0 {
      StepsCompose(p, Step(p, x), m - 1, n);
    }
  }

  /** One byte: mixed into the low end, then eight bit steps. */
  function Feed(p: Polynomial, crc: Word, b: Byte): Word {
    Steps(p, Xor(crc, Widen(b)), 8)
  }

  /** The register after a whole byte sequence. */
  function Fold(p: Polynomial, crc: Word, s: seq<Byte>): Word {
    if s == [] then crc else Feed(p, Fold(p, crc, s[..|s| - 1]), s[|s| - 1])
  }

  lemma {:induction false} FoldAppend(p: Polynomial, crc: Word, s: seq<Byte>, t: seq<Byte>)
    ensures Fold(p, crc, s + t) == Fold(p, Fold(p, crc, s), t)
  {
    hide Feed;
    if t == [] {
      assert s + t == s;
    } else {
      FoldAppend(p, crc, s, t[..|t| - 1]);
      assert (s + t)[..|s + t| - 1] == s + t[..|t| - 1];
    }
  }

  /** Reading the same bytes keeps different registers different. */
  lemma {:induction false} FoldInjective(p: Polynomial, x: Word, y: Word, s: seq<Byte>)
    requires Fold(p, x, s) == Fold(p, y, s)
    ensures x == y
  {
    if s != [] {
      hide Feed;
      var front := s[..|s| - 1];
      FeedInjective(p, Fold(p, x, front), Fold(p, y, front), s[|s| - 1]);
      FoldInjective(p, x, y, front);
    }
  }

  lemma FeedInjective(p: Polynomial, x: Word, y: Word, b: Byte)
    requires Feed(p, x, b) == Feed(p, y, b)
    ensures x == y
  {
    hide Steps, Xor, Widen;
    StepsInjective(p, Xor(x, Widen(b)), Xor(y, Widen(b)), 8);
    XorCancels(x, y, Widen(b));
  }

  // ---------------------------------------------------------------- eight steps at once

  lemma StepsEven(p: Polynomial, x: Word, n: nat)
    requires !Odd(x)
    ensures Steps(p, x, n + 1) == Steps(p, Half(x), n)
  {
    hide Odd, Half, Xor, Bits;
  }

  /** Eight steps drop a zero low byte. */
  lemma StepsDrop(p: Polynomial, x: Word)
    requires Low(x) == 0
    ensures Steps(p, x, 8) == Drop(x)
  {
    ZeroByte(x);
    EightHalves(x);
    hide *;
    StepsEven(p, x, 7);
    StepsEven(p, Half(x), 6);
    StepsEven(p, Half(Half(x)), 5);
    StepsEven(p, Half(Half(Half(x))), 4);
    StepsEven(p, Half(Half(Half(Half(x)))), 3);
    StepsEven(p, Half(Half(Half(Half(Half(x))))), 2);
    StepsEven(p, Half(Half(Half(Half(Half(Half(x)))))), 1);
    StepsEven(p, Half(Half(Half(Half(Half(Half(Half(x))))))), 0);
    StepsNone(p, Drop(x));
  }

  lemma StepsNone(p: Polynomial, x: Word)
    ensures Steps(p, x, 0) == x
  {
  }

  // ---------------------------------------------------------------- the byte table

  /** The table step is the bit-by-bit step. */
  lemma TableStep(p: Polynomial, crc: Word, b: Byte)
    ensures Xor(Drop(crc), Steps(p, Widen(Low(crc) ^ b), 8)) == Feed(p, crc, b)
  {
    HighOnly(crc);
    HighAndLow(crc);
    XorBytes(Low(crc), b);
    hide Steps, Xor, Low, High, Drop, Widen;
    XorAssociates(High(crc), Widen(Low(crc)), Widen(b));
    StepsLinear(p, High(crc), Widen(Low(crc) ^ b), 8);
    StepsDrop(p, High(crc));
  }

  function WordAt(j: nat): Word
    requires j < 256
  {
    j as Word
  }

  function ByteIndex(k: Byte): (j: nat)
    ensures j < 256
  {
    k as nat
  }

  lemma WidenKeepsValue(k: Byte)
    ensures (k as Word) as nat == k as nat
  {
  }

  lemma WordFromValue(w: Word)
    ensures (w as nat) < 0x1_0000_0000 && (w as nat) as Word == w
  {
  }

  lemma ValueAsWord(k: Byte)
    ensures (k as nat) < 256 && (k as nat) as Word == k as Word
  {
    WidenKeepsValue(k);
    WordFromValue(k as Word);
  }

  lemma WordAtIndex(k: Byte)
    ensures WordAt(ByteIndex(k)) == Widen(k)
  {
    ValueAsWord(k);
    assert ByteIndex(k) == k as nat;
    hide ByteIndex;
    assert WordAt(k as nat) == (k as nat) as Word;
    hide WordAt;
    assert Widen(k) == k as Word;
  }

  function Entry(table: seq<Word>, k: Byte): Word
    requires |table| == 256
  {
    table[ByteIndex(k)]
  }

  /** The table holds eight steps of every byte. */
  ghost predicate IsTable(table: seq<Word>, p: Polynomial) {
    |table| == 256 && forall k: Byte :: Entry(table, k) == Steps(p, Widen(k), 8)
  }

  /** The first entries of such a table. */
  ghost predicate Filled(p: Polynomial, s: seq<Word>) {
    |s| <= 256 && forall j :: 0 <= j < |s| ==> s[j] == Steps(p, WordAt(j), 8)
  }

  lemma FilledGrows(p: Polynomial, s: seq<Word>)
    requires Filled(p, s) && |s| < 256
    ensures Filled(p, s + [Steps(p, WordAt(|s|), 8)])
  {
    hide Steps, WordAt;
  }

  lemma FilledIsTable(p: Polynomial, s: seq<Word>)
    requires Filled(p, s) && |s| == 256
    ensures IsTable(s, p)
  {
    hide Steps, WordAt, Widen;
    forall k: Byte ensures Entry(s, k) == Steps(p, Widen(k), 8) {
      WordAtIndex(k);
    }
  }

  /** The inner loop of both the table's initialiser and the bit-by-bit checksum. */
  method EightSteps(p: Polynomial, before: Word) returns (crc: Word)
    ensures crc == Steps(p, before, 8)
  {
    hide Xor, Half, Odd, Bits;
    crc := before;
    for j := 0 to 8
      invariant Steps(p, crc, 8 - j) == Steps(p, before, 8)
    {
      if Odd(crc) {
        crc := Xor(Half(crc), Bits(p));
      } else {
        crc := Half(crc);
      }
    }
  }

  method CastagnoliTable() returns (table: array<Word>)
    ensures fresh(table) && IsTable(table[..], Castagnoli)
  {
    table := new Word[256];
    assert Filled(Castagnoli, []);
    hide *;
    for i := 0 to 256
      invariant Filled(Castagnoli, table[..i])
    {
      var crc := EightSteps(Castagnoli, WordAt(i));
      FilledGrows(Castagnoli, table[..i]);
      table[i] := crc;
      assert table[..i + 1] == table[..i] + [crc];
    }
    assert table[..256] == table[..];
    FilledIsTable(Castagnoli, table[..]);
  }

  // ---------------------------------------------------------------- the field

  datatype Check = NoError | CrcMismatch

  function BigEndian(w: Word): (s: seq<Byte>)
    ensures |s| == 4
  {
    [(w >> 24) as Byte, ((w >> 16) & 0xFF) as Byte, ((w >> 8) & 0xFF) as Byte, (w & 0xFF) as Byte]
  }

  function FromBigEndian(s: seq<Byte>): Word
    requires |s| == 4
  {
    ((s[0] as Word) << 24) | ((s[1] as Word) << 16) | ((s[2] as Word) << 8) | (s[3] as Word)
  }

  lemma BigEndianRoundTrip(w: Word)
    ensures FromBigEndian(BigEndian(w)) == w
  {
  }

  function CrcOf(p: Polynomial, s: seq<Byte>): Word {
    Xor(Fold(p, 0xFFFFFFFF, s), 0xFFFFFFFF)
  }

  /** The bytes the field at `start` covers when the record ends at `end`. */
  function Covered(start: nat, end: nat, buf: seq<Byte>): seq<Byte>
    requires start + 4 <= |buf| && end <= |buf|
  {
    if start + 4 <= end then buf[start + 4..end] else []
  }

  function Stored(start: nat, buf: seq<Byte>): Word
    requires start + 4 <= |buf|
  {
    FromBigEndian(buf[start..start + 4])
  }

  /** The field holds the checksum of what it covers. */
  predicate Intact(p: Polynomial, start: nat, end: nat, buf: seq<Byte>)
    requires start + 4 <= |buf| && end <= |buf|
  {
    Stored(start, buf) == CrcOf(p, Covered(start, end, buf))
  }

  /** The table-driven loop. */
  method FoldByTable(s: seq<Byte>) returns (crc: Word)
    ensures crc == Fold(Castagnoli, 0xFFFFFFFF, s)
  {
    var castagnoliTable := CastagnoliTable();
    var table := castagnoliTable[..];
    crc := 0xFFFFFFFF;
    hide Steps, Feed, IsTable;
    for i := 0 to |s|
      invariant crc == Fold(Castagnoli, 0xFFFFFFFF, s[..i])
    {
      crc := FeedByTable(table, crc, s[i]);
      assert s[..i + 1][..i] == s[..i];
    }
    assert s[..|s|] == s;
  }

  method FeedByTable(table: seq<Word>, before: Word, b: Byte) returns (crc: Word)
    requires IsTable(table, Castagnoli)
    ensures crc == Feed(Castagnoli, before, b)
  {
    hide Steps, Feed, Entry, Low, Xor, Drop, Widen;
    TableStep(Castagnoli, before, b);
    var k := Low(before) ^ b;
    assert Entry(table, k) == Steps(Castagnoli, Widen(k), 8);
    crc := Xor(Drop(before), Entry(table, k));
  }

  /** The bit-by-bit loop. */
  method FoldByBits(s: seq<Byte>) returns (crc: Word)
    ensures crc == Fold(Ieee, 0xFFFFFFFF, s)
  {
    crc := 0xFFFFFFFF;
    hide Steps;
    for i := 0 to |s|
      invariant crc == Fold(Ieee, 0xFFFFFFFF, s[..i])
    {
      crc := EightSteps(Ieee, Xor(crc, Widen(s[i])));
      assert s[..i + 1][..i] == s[..i];
    }
    assert s[..|s|] == s;
  }

  // ---------------------------------------------------------------- bursts

  /** A byte placed `k` bytes up. */
  function Place(b: Byte, k: nat): Word
    requires k < 4
  {
    if k == 0 then b as Word
    else if k == 1 then (b as Word) << 8
    else if k == 2 then (b as Word) << 16
    else (b as Word) << 24
  }

  /** Up to four bytes as one word, first byte lowest. */
  function WordOf(s: seq<Byte>): Word
    requires |s| <= 4
  {
    if s == [] then 0 else Xor(WordOf(s[..|s| - 1]), Place(s[|s| - 1], |s| - 1))
  }

  lemma WordOfInjective(s: seq<Byte>, t: seq<Byte>)
    requires |s| == |t| <= 4
    requires WordOf(s) == WordOf(t)
    ensures s == t
    decreases |s|
  {
    if s != [] {
      var n := |s| - 1;
      hide Xor, Place, Short;
      WordOfShort(s[..n]);
      WordOfShort(t[..n]);
      PlaceInjective(WordOf(s[..n]), WordOf(t[..n]), s[n], t[n], n);
      WordOfInjective(s[..n], t[..n]);
      assert s == s[..n] + [s[n]];
      assert t == t[..n] + [t[n]];
    }
  }

  predicate Short(x: Word, k: nat)
    requires k <= 4
  {
    if k == 0 then x == 0
    else if k == 1 then x >> 8 == 0
    else if k == 2 then x >> 16 == 0
    else if k == 3 then x >> 24 == 0
    else true
  }

  lemma {:induction false} WordOfShort(s: seq<Byte>)
    requires |s| <= 4
    ensures Short(WordOf(s), |s|)
    decreases |s|
  {
    if s != [] {
      var n := |s| - 1;
      WordOfShort(s[..n]);
      PlaceShort(WordOf(s[..n]), s[n], n);
    }
  }

  lemma PlaceShort(x: Word, b: Byte, k: nat)
    requires k < 4 && Short(x, k)
    ensures Short(Xor(x, Place(b, k)), k + 1)
  {
  }

  lemma PlaceInjective(x: Word, y: Word, a: Byte, b: Byte, k: nat)
    requires k < 4 && Short(x, k) && Short(y, k)
    requires Xor(x, Place(a, k)) == Xor(y, Place(b, k))
    ensures x == y && a == b
  {
  }

  lemma {:induction false} StepsPlace(p: Polynomial, b: Byte, k: nat)
    requires k < 4
    ensures Steps(p, Place(b, k), 8 * k) == Widen(b)
    decreases k
  {
    hide Step, Steps;
    if k == 0 {
      StepsNone(p, Widen(b));
    } else {
      PlaceDown(b, k);
      hide Place;
      StepsDrop(p, Place(b, k));
      StepsCompose(p, Place(b, k), 8, 8 * k - 8);
      StepsPlace(p, b, k - 1);
    }
  }

  lemma PlaceDown(b: Byte, k: nat)
    requires 0 < k < 4
    ensures Low(Place(b, k)) == 0 && Drop(Place(b, k)) == Place(b, k - 1)
  {
  }

  /** Up to four bytes act on the register as one word. */
  lemma {:induction false} FoldWord(p: Polynomial, crc: Word, s: seq<Byte>)
    requires |s| <= 4
    ensures Fold(p, crc, s) == Steps(p, Xor(crc, WordOf(s)), 8 * |s|)
    decreases |s|
  {
    if s == [] {
      assert Xor(crc, 0) == crc;
    } else {
      hide Steps, Xor, Place;
      var n := |s| - 1;
      var w := WordOf(s[..n]);
      FoldWord(p, crc, s[..n]);
      StepsPlace(p, s[n], n);
      XorAssociates(crc, w, Place(s[n], n));
      StepsLinear(p, Xor(crc, w), Place(s[n], n), 8 * n);
      StepsCompose(p, Xor(crc, WordOf(s)), 8 * n, 8);
    }
  }

  /** Different words of up to four bytes move the same register to different places. */
  lemma ShortWordsDiffer(p: Polynomial, crc: Word, s: seq<Byte>, t: seq<Byte>)
    requires |s| == |t| <= 4
    requires Fold(p, crc, s) == Fold(p, crc, t)
    ensures s == t
  {
    hide Steps, Xor, Fold, WordOf;
    FoldWord(p, crc, s);
    FoldWord(p, crc, t);
    StepsInjective(p, Xor(crc, WordOf(s)), Xor(crc, WordOf(t)), 8 * |s|);
    XorCancelsLeft(crc, WordOf(s), WordOf(t));
    WordOfInjective(s, t);
  }

  function BytesOf(w: Word): (s: seq<Byte>)
    ensures |s| == 4
  {
    [Low(w), Low(w >> 8), Low(w >> 16), Low(w >> 24)]
  }

  lemma WordOfFour(s: seq<Byte>)
    requires |s| == 4
    ensures WordOf(s) == Xor(Xor(Xor(Xor(0, Place(s[0], 0)), Place(s[1], 1)), Place(s[2], 2)), Place(s[3], 3))
  {
    hide Xor, Place;
    assert s[..3][..2] == s[..2] && s[..2][..1] == s[..1] && s[..1][..0] == [];
    assert WordOf(s[..1][..0]) == 0;
    assert WordOf(s[..1]) == Xor(0, Place(s[0], 0));
    assert WordOf(s[..2]) == Xor(WordOf(s[..1]), Place(s[1], 1));
    assert WordOf(s[..3]) == Xor(WordOf(s[..2]), Place(s[2], 2));
  }

  lemma Reassemble(w: Word)
    ensures Xor(Xor(Xor(Xor(0, Place(Low(w), 0)), Place(Low(w >> 8), 1)), Place(Low(w >> 16), 2)),
                Place(Low(w >> 24), 3)) == w
  {
  }

  lemma WordOfBytes(w: Word)
    ensures WordOf(BytesOf(w)) == w
  {
    hide Xor, Place, Low, WordOf;
    WordOfFour(BytesOf(w));
    Reassemble(w);
  }

  /** Five bytes can be replaced by five others, with any other first byte, that act on the register
      alike: the last four make up for the first. */
  lemma FiveBytesCanSlip(p: Polynomial, crc: Word, s: seq<Byte>, b: Byte) returns (t: seq<Byte>)
    requires |s| == 5 && b != s[0]
    ensures |t| == 5 && t[0] == b && t != s && Fold(p, crc, t) == Fold(p, crc, s)
  {
    hide *;
    var x, y, w := Fold(p, crc, [s[0]]), Fold(p, crc, [b]), WordOf(s[1..]);
    var v := Xor(y, Xor(x, w));
    t := [b] + BytesOf(v);
    assert s == [s[0]] + s[1..];
    FoldAppend(p, crc, [s[0]], s[1..]);
    FoldAppend(p, crc, [b], BytesOf(v));
    FoldWord(p, x, s[1..]);
    FoldWord(p, y, BytesOf(v));
    WordOfBytes(v);
    XorAssociates(y, y, Xor(x, w));
    XorSelf(y);
    XorZero(Xor(x, w));
    assert t[0] == b;
  }

  lemma XorZero(a: Word)
    ensures Xor(0, a) == a
  {
  }

  lemma XorSelf(a: Word)
    ensures Xor(a, a) == 0
  {
  }

  /** A change confined to four consecutive bytes changes the checksum. */
  lemma BurstChangesCrc(p: Polynomial, before: seq<Byte>, s: seq<Byte>, t: seq<Byte>, after: seq<Byte>)
    requires |s| == |t| <= 4
    requires CrcOf(p, before + s + after) == CrcOf(p, before + t + after)
    ensures s == t
  {
    hide Fold;
    FoldAppend(p, 0xFFFFFFFF, before + s, after);
    FoldAppend(p, 0xFFFFFFFF, before, s);
    FoldAppend(p, 0xFFFFFFFF, before + t, after);
    FoldAppend(p, 0xFFFFFFFF, before, t);
    var crc := Fold(p, 0xFFFFFFFF, before);
    XorCancels(Fold(p, 0xFFFFFFFF, before + s + after), Fold(p, 0xFFFFFFFF, before + t + after), 0xFFFFFFFF);
    FoldInjective(p, Fold(p, crc, s), Fold(p, crc, t), after);
    ShortWordsDiffer(p, crc, s, t);
  }

  /** The two buffers agree everywhere but in the `width` bytes from `at`. */
  ghost predicate DifferWithin(good: seq<Byte>, bad: seq<Byte>, at: nat, width: nat) {
    && |good| == |bad| && at + width <= |good|
    && good[..at] == bad[..at] && good[at + width..] == bad[at + width..]
  }

  lemma AgreeBefore(s: seq<Byte>, t: seq<Byte>, n: nat, i: nat, j: nat)
    requires i <= j <= n <= |s| && n <= |t| && s[..n] == t[..n]
    ensures s[i..j] == t[i..j]
  {
    assert s[i..j] == s[..n][i..j] && t[i..j] == t[..n][i..j];
  }

  lemma AgreeAfter(s: seq<Byte>, t: seq<Byte>, n: nat, j: nat)
    requires n <= j <= |s| == |t| && s[n..] == t[n..]
    ensures s[n..j] == t[n..j]
  {
    assert s[n..j] == s[n..][..j - n] && t[n..j] == t[n..][..j - n];
  }

  lemma SameEverywhere(good: seq<Byte>, bad: seq<Byte>, at: nat, width: nat)
    requires at + width <= |good| && DifferWithin(good, bad, at, width)
    requires good[at..at + width] == bad[at..at + width]
    ensures good == bad
  {
    assert good == good[..at] + good[at..at + width] + good[at + width..];
    assert bad == bad[..at] + bad[at..at + width] + bad[at + width..];
  }

  lemma CoveredSplits(start: nat, end: nat, buf: seq<Byte>, at: nat, width: nat)
    requires start + 4 <= at && at + width <= end <= |buf|
    ensures Covered(start, end, buf) == buf[start + 4..at] + buf[at..at + width] + buf[at + width..end]
  {
  }

  /** A corruption of at most four consecutive covered bytes is always caught. */
  lemma BurstIsCaught(p: Polynomial, start: nat, end: nat, good: seq<Byte>, bad: seq<Byte>, at: nat, width: nat)
    requires start + 4 <= |good| && end <= |good|
    requires Intact(p, start, end, good)
    requires width <= 4 && start + 4 <= at && at + width <= end
    requires DifferWithin(good, bad, at, width) && good != bad
    ensures !Intact(p, start, end, bad)
  {
    CoveredSplits(start, end, good, at, width);
    CoveredSplits(start, end, bad, at, width);
    assert good[..at] == bad[..at] && good[at + width..] == bad[at + width..];
    hide CrcOf, Covered, FromBigEndian, DifferWithin;
    AgreeBefore(good, bad, at, start, start + 4);
    AgreeBefore(good, bad, at, start + 4, at);
    AgreeAfter(good, bad, at + width, end);
    if Intact(p, start, end, bad) {
      BurstChangesCrc(p, good[start + 4..at], good[at..at + width], bad[at..at + width], good[at + width..end]);
      SameEverywhere(good, bad, at, width);
    }
  }

  lemma SpliceDiffers(good: seq<Byte>, at: nat, t: seq<Byte>)
    requires at + |t| <= |good|
    ensures var bad := good[..at] + t + good[at + |t|..];
            |bad| == |good| && bad[at..at + |t|] == t && DifferWithin(good, bad, at, |t|)
  {
    var bad := good[..at] + t + good[at + |t|..];
    assert bad[..at] == good[..at] && bad[at + |t|..] == good[at + |t|..];
  }

  lemma FoldReplaced(p: Polynomial, before: seq<Byte>, s: seq<Byte>, t: seq<Byte>, after: seq<Byte>)
    requires Fold(p, Fold(p, 0xFFFFFFFF, before), t) == Fold(p, Fold(p, 0xFFFFFFFF, before), s)
    ensures CrcOf(p, before + t + after) == CrcOf(p, before + s + after)
  {
    hide Fold, Xor;
    FoldAppend(p, 0xFFFFFFFF, before + s, after);
    FoldAppend(p, 0xFFFFFFFF, before, s);
    FoldAppend(p, 0xFFFFFFFF, before + t, after);
    FoldAppend(p, 0xFFFFFFFF, before, t);
  }

  /** A changed window with the same effect on the register leaves the field intact. */
  lemma SameEffectIntact(p: Polynomial, start: nat, end: nat, good: seq<Byte>, at: nat, t: seq<Byte>)
    requires start + 4 <= at && at + |t| <= end <= |good| && Intact(p, start, end, good)
    requires var crc := Fold(p, 0xFFFFFFFF, good[start + 4..at]);
             Fold(p, crc, t) == Fold(p, crc, good[at..at + |t|])
    ensures var bad := good[..at] + t + good[at + |t|..];
            DifferWithin(good, bad, at, |t|) && bad[at..at + |t|] == t && Intact(p, start, end, bad)
  {
    hide Covered, FromBigEndian, Fold, CrcOf, DifferWithin;
    var n := |t|;
    var bad := good[..at] + t + good[at + n..];
    SpliceDiffers(good, at, t);
    DifferParts(good, bad, at, n);
    CoveredSplits(start, end, good, at, n);
    CoveredSplits(start, end, bad, at, n);
    AgreeBefore(good, bad, at, start, start + 4);
    AgreeBefore(good, bad, at, start + 4, at);
    AgreeAfter(good, bad, at + n, end);
    FoldReplaced(p, good[start + 4..at], good[at..at + n], t, good[at + n..end]);
  }

  /** In every intact buffer every five consecutive covered bytes can be changed without being caught. */
  lemma FiveByteChangeSlips(p: Polynomial, start: nat, end: nat, good: seq<Byte>, at: nat) returns (bad: seq<Byte>)
    requires start + 4 <= at && at + 5 <= end <= |good| && Intact(p, start, end, good)
    ensures DifferWithin(good, bad, at, 5) && bad != good && Intact(p, start, end, bad)
  {
    hide *;
    var s := good[at..at + 5];
    var t := FiveBytesCanSlip(p, Fold(p, 0xFFFFFFFF, good[start + 4..at]), s, if s[0] == 0 then 1 else 0);
    bad := good[..at] + t + good[at + 5..];
    SameEffectIntact(p, start, end, good, at, t);
    assert bad[at..at + 5] != good[at..at + 5];
  }

  /** Every change confined to w consecutive covered bytes of an intact buffer is caught. */
  ghost predicate CatchesWithin(p: Polynomial, w: nat) {
    forall start: nat, end: nat, good: seq<Byte>, bad: seq<Byte>, at: nat ::
      (start + 4 <= at && at + w <= end <= |good| && Intact(p, start, end, good) &&
       DifferWithin(good, bad, at, w) && good != bad) ==> !Intact(p, start, end, bad)
  }

  /** An intact buffer covering n zero bytes. */
  lemma IntactZeros(p: Polynomial, n: nat) returns (good: seq<Byte>)
    ensures |good| == 4 + n && Intact(p, 0, 4 + n, good)
  {
    var zeros: seq<Byte> := seq(n, i => 0);
    var w := CrcOf(p, zeros);
    good := BigEndian(w) + zeros;
    assert good[0..4] == BigEndian(w) && good[4..4 + n] == zeros;
    BigEndianRoundTrip(w);
  }

  lemma DifferWider(good: seq<Byte>, bad: seq<Byte>, at: nat, w: nat, v: nat)
    requires DifferWithin(good, bad, at, w) && w <= v && at + v <= |good|
    ensures DifferWithin(good, bad, at, v)
  {
    assert good[at + v..] == good[at + w..][v - w..] && bad[at + v..] == bad[at + w..][v - w..];
  }

  /** The exact width, for both polynomials: four bytes. */
  lemma CatchesExactly(p: Polynomial, w: nat)
    ensures CatchesWithin(p, w) <==> w <= 4
  {
    hide Intact, DifferWithin;
    if w <= 4 {
      forall start: nat, end: nat, good: seq<Byte>, bad: seq<Byte>, at: nat |
        start + 4 <= at && at + w <= end <= |good| && Intact(p, start, end, good) &&
        DifferWithin(good, bad, at, w) && good != bad
        ensures |bad| == |good| && !Intact(p, start, end, bad)
      {
        DifferParts(good, bad, at, w);
        BurstIsCaught(p, start, end, good, bad, at, w);
      }
    } else {
      var good := IntactZeros(p, w);
      var bad := FiveByteChangeSlips(p, 0, 4 + w, good, 4);
      DifferParts(good, bad, 4, 5);
      DifferWider(good, bad, 4, 5, w);
    }
  }

  lemma DifferParts(good: seq<Byte>, bad: seq<Byte>, at: nat, w: nat)
    requires DifferWithin(good, bad, at, w)
    ensures |bad| == |good| && at + w <= |good| && good[..at] == bad[..at] && good[at + w..] == bad[at + w..]
  {
  }

  // ---------------------------------------------------------------- the two checksums by their check values

  /** The bytes of "123456789", over which catalogues of checksums give their check values. */
  const CHECK_INPUT: seq<Byte> := [0x31, 0x32, 0x33, 0x34, 0x35, 0x36, 0x37, 0x38, 0x39]

  /** A byte that takes the register from `before` to `after`, its eight bit steps spelled out. */
  lemma FoldOn(p: Polynomial, s: seq<Byte>, before: Word, b: Byte, after: Word)
    requires Fold(p, 0xFFFFFFFF, s) == before
    requires var x := Xor(before, Widen(b));
             Step(p, Step(p, Step(p, Step(p, Step(p, Step(p, Step(p, Step(p, x)))))))) == after
    ensures Fold(p, 0xFFFFFFFF, s + [b]) == after
  {
    hide Step, Xor, Widen;
    var x := Xor(before, Widen(b));
    StepsEight(p, x);
    assert (s + [b])[..|s + [b]| - 1] == s;
  }

  lemma StepsEight(p: Polynomial, x: Word)
    ensures Steps(p, x, 8) == Step(p, Step(p, Step(p, Step(p, Step(p, Step(p, Step(p, Step(p, x))))))))
  {
    hide Step;
    assert Steps(p, x, 8) == Steps(p, Step(p, x), 7) == Steps(p, Step(p, Step(p, x)), 6);
    var y := Step(p, Step(p, x));
    assert Steps(p, y, 6) == Steps(p, Step(p, y), 5) == Steps(p, Step(p, Step(p, y)), 4);
    var z := Step(p, Step(p, y));
    assert Steps(p, z, 4) == Steps(p, Step(p, z), 3) == Steps(p, Step(p, Step(p, z)), 2);
  }

  lemma IeeeRegister()
    ensures Fold(Ieee, 0xFFFFFFFF, CHECK_INPUT) == 0x340BC6D9
  {
    hide Fold;
    FoldNothing(Ieee);
    assert CHECK_INPUT[..1] == CHECK_INPUT[..0] + [0x31];
    FoldOn(Ieee, CHECK_INPUT[..0], 0xFFFFFFFF, 0x31, 0x7C231048);
    assert CHECK_INPUT[..2] == CHECK_INPUT[..1] + [0x32];
    FoldOn(Ieee, CHECK_INPUT[..1], 0x7C231048, 0x32, 0xB0ACBB32);
    assert CHECK_INPUT[..3] == CHECK_INPUT[..2] + [0x33];
    FoldOn(Ieee, CHECK_INPUT[..2], 0xB0ACBB32, 0x33, 0x77B79C2D);
    assert CHECK_INPUT[..4] == CHECK_INPUT[..3] + [0x34];
    FoldOn(Ieee, CHECK_INPUT[..3], 0x77B79C2D, 0x34, 0x641C1F5C);
    assert CHECK_INPUT[..5] == CHECK_INPUT[..4] + [0x35];
    FoldOn(Ieee, CHECK_INPUT[..4], 0x641C1F5C, 0x35, 0x340AC5E3);
    assert CHECK_INPUT[..6] == CHECK_INPUT[..5] + [0x36];
    FoldOn(Ieee, CHECK_INPUT[..5], 0x340AC5E3, 0x36, 0xF68D2C9E);
    assert CHECK_INPUT[..7] == CHECK_INPUT[..6] + [0x37];
    FoldOn(Ieee, CHECK_INPUT[..6], 0xF68D2C9E, 0x37, 0xAFFC9660);
    assert CHECK_INPUT[..8] == CHECK_INPUT[..7] + [0x38];
    FoldOn(Ieee, CHECK_INPUT[..7], 0xAFFC9660, 0x38, 0x651F2550);
    assert CHECK_INPUT[..9] == CHECK_INPUT[..8] + [0x39];
    FoldOn(Ieee, CHECK_INPUT[..8], 0x651F2550, 0x39, 0x340BC6D9);
    assert CHECK_INPUT[..9] == CHECK_INPUT;
  }

  lemma CastagnoliRegister()
    ensures Fold(Castagnoli, 0xFFFFFFFF, CHECK_INPUT) == 0x1CF96D7C
  {
    hide Fold;
    FoldNothing(Castagnoli);
    assert CHECK_INPUT[..1] == CHECK_INPUT[..0] + [0x31];
    FoldOn(Castagnoli, CHECK_INPUT[..0], 0xFFFFFFFF, 0x31, 0x6F0A661C);
    assert CHECK_INPUT[..2] == CHECK_INPUT[..1] + [0x32];
    FoldOn(Castagnoli, CHECK_INPUT[..1], 0x6F0A661C, 0x32, 0x8CAA3B9F);
    assert CHECK_INPUT[..3] == CHECK_INPUT[..2] + [0x33];
    FoldOn(Castagnoli, CHECK_INPUT[..2], 0x8CAA3B9F, 0x33, 0xEF84D04D);
    assert CHECK_INPUT[..4] == CHECK_INPUT[..3] + [0x34];
    FoldOn(Castagnoli, CHECK_INPUT[..3], 0xEF84D04D, 0x34, 0x09C50B11);
    assert CHECK_INPUT[..5] == CHECK_INPUT[..4] + [0x35];
    FoldOn(Castagnoli, CHECK_INPUT[..4], 0x09C50B11, 0x35, 0xE72EDCCA);
    assert CHECK_INPUT[..6] == CHECK_INPUT[..5] + [0x36];
    FoldOn(Castagnoli, CHECK_INPUT[..5], 0xE72EDCCA, 0x36, 0xBECA8E79);
    assert CHECK_INPUT[..7] == CHECK_INPUT[..6] + [0x37];
    FoldOn(Castagnoli, CHECK_INPUT[..6], 0xBECA8E79, 0x37, 0xEDBD6815);
    assert CHECK_INPUT[..8] == CHECK_INPUT[..7] + [0x38];
    FoldOn(Castagnoli, CHECK_INPUT[..7], 0xEDBD6815, 0x38, 0x9F787F65);
    assert CHECK_INPUT[..9] == CHECK_INPUT[..8] + [0x39];
    FoldOn(Castagnoli, CHECK_INPUT[..8], 0x9F787F65, 0x39, 0x1CF96D7C);
    assert CHECK_INPUT[..9] == CHECK_INPUT;
  }

  lemma FoldNothing(p: Polynomial)
    ensures Fold(p, 0xFFFFFFFF, CHECK_INPUT[..0]) == 0xFFFFFFFF
  {
  }

  /** The published check values of CRC-32 and CRC-32C: they fix the two polynomials, the bit order, the
      initial register and the final complement. */
  lemma CheckValues()
    ensures CrcOf(Ieee, CHECK_INPUT) == 0xCBF43926
    ensures CrcOf(Castagnoli, CHECK_INPUT) == 0xE3069283
  {
    IeeeRegister();
    CastagnoliRegister();
    hide Fold;
  }

  /** A field anywhere in a buffer that covers those nine bytes: what it holds exactly when it is intact,
      most significant byte first. */
  lemma CheckField(p: Polynomial, before: seq<Byte>, stored: seq<Byte>, after: seq<Byte>)
    requires |stored| == 4
    ensures Intact(p, |before|, |before| + 13, before + stored + CHECK_INPUT + after) <==>
            stored == match p case Ieee => [0xCB, 0xF4, 0x39, 0x26] case Castagnoli => [0xE3, 0x06, 0x92, 0x83]
  {
    hide Fold, CrcOf;
    CheckValues();
    var buf := before + stored + CHECK_INPUT + after;
    assert Covered(|before|, |before| + 13, buf) == CHECK_INPUT;
    assert buf[|before|..|before| + 4] == stored;
    ReadsAs(stored);
  }

  lemma ReadsAs(s: seq<Byte>)
    requires |s| == 4
    ensures FromBigEndian(s) == 0xCBF43926 <==> s == [0xCB, 0xF4, 0x39, 0x26]
    ensures FromBigEndian(s) == 0xE3069283 <==> s == [0xE3, 0x06, 0x92, 0x83]
  {
  }

  class Crc32Field {
    var startOffset: nat
    var polynomial: Polynomial

    constructor (p: Polynomial)
      ensures startOffset == 0 && polynomial == p
    {
      startOffset, polynomial := 0, p;
    }

    method SaveOffset(offset: nat)
      modifies this
      ensures startOffset == offset && polynomial == old(polynomial)
    {
      startOffset := offset;
    }

    /** Both loops, the table-driven one and the bit-by-bit one, compute the same function. */
    method Crc(end: nat, buf: seq<Byte>) returns (out: Word)
      requires startOffset + 4 <= |buf| && end <= |buf|
      ensures out == CrcOf(polynomial, Covered(startOffset, end, buf))
    {
      hide Fold, Xor;
      var crc: Word := 0xFFFFFFFF;
      var covered := Covered(startOffset, end, buf);
      if polynomial == Castagnoli {
        crc := FoldByTable(covered);
      } else {
        crc := FoldByBits(covered);
      }
      out := Xor(crc, 0xFFFFFFFF);
    }

    /** Writes the checksum in network byte order; what it covers is untouched, so the field is intact. */
    method Run(end: nat, buf: array<Byte>)
      requires startOffset + 4 <= buf.Length && end <= buf.Length
      modifies buf
      ensures Intact(polynomial, startOffset, end, buf[..])
      ensures buf[..] == old(buf[..startOffset]) + BigEndian(CrcOf(polynomial, old(Covered(startOffset, end, buf[..]))))
                         + old(buf[startOffset + 4..])
    {
      hide CrcOf, BigEndian, FromBigEndian;
      var w := Crc(end, buf[..]);
      ghost var covered := Covered(startOffset, end, buf[..]);
      var bytes := BigEndian(w);
      buf[startOffset] := bytes[0];
      buf[startOffset + 1] := bytes[1];
      buf[startOffset + 2] := bytes[2];
      buf[startOffset + 3] := bytes[3];
      assert buf[..] == old(buf[..startOffset]) + bytes + old(buf[startOffset + 4..]);
      assert buf[..][startOffset..startOffset + 4] == bytes;
      assert Covered(startOffset, end, buf[..]) == covered;
      BigEndianRoundTrip(w);
    }

    method Check(end: nat, buf: seq<Byte>) returns (r: Check)
      requires startOffset + 4 <= |buf| && end <= |buf|
      ensures r == NoError <==> Intact(polynomial, startOffset, end, buf)
    {
      var w := Crc(end, buf);
      if w != FromBigEndian(buf[startOffset..startOffset + 4]) {
        return CrcMismatch;
      }
      return NoError;
    }
  }
}
