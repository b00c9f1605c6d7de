/** The Internet checksum (tcp/network/checksum.go, RFC 1071). */
module Checksum {
  import opened SeqNum
  import opened Bytes

  const WORD: int := 0x1_0000
  const ALL_ONES: int := 0xFFFF

  /** Longest data whose word sum fits 32 bits: 65537 words. */
  const MAX_SUMMED: nat := 131074

  function WordCount(data: seq<u8>): nat {
    (|data| + 1) / 2
  }

  /** The i-th 16-bit word; an odd last byte is padded with zero. */
  function Word(data: seq<u8>, i: nat): u16
    requires i < WordCount(data)
  {
    data[2 * i] * BYTE + if 2 * i + 1 < |data| then data[2 * i + 1] else 0
  }

  function SumTo(data: seq<u8>, n: nat): nat
    requires n <= WordCount(data)
  {
    if n == 0 then 0 else SumTo(data, n - 1) + Word(data, n - 1)
  }

  function WordSum(data: seq<u8>): nat {
    SumTo(data, WordCount(data))
  }

  function FoldRound(s: nat): nat {
    s % WORD + s / WORD
  }

  /** End-around carry. */
  function Fold(s: nat): u16 {
    if s < WORD then s else Fold(FoldRound(s))
  }

  function Sum(data: seq<u8>): u16 {
    ALL_ONES - Fold(WordSum(data) % MOD)
  }

  lemma {:induction false} AddMod(s: nat, w: nat)
    ensures (s % MOD + w) % MOD == (s + w) % MOD
  {
    var q := s / MOD;
    assert s + w == (s % MOD + w) + MOD * q;
  }

  /** One more word into the 32-bit accumulator. */
  lemma {:induction false} AddWord(data: seq<u8>, k: nat, w: nat)
    requires k < WordCount(data) && w == Word(data, k)
    ensures (SumTo(data, k) % MOD + w) % MOD == SumTo(data, k + 1) % MOD
  {
    AddMod(SumTo(data, k), w);
  }

  method Compute(data: seq<u8>) returns (c: u16)
    ensures c == Sum(data)
  {
    var sum: u32 := 0;
    var n := |data|;
    var i := 0;
    while i + 1 < n
      invariant i % 2 == 0 && i <= n
      invariant sum == SumTo(data, i / 2) % MOD
    {
      var w: int := data[i] * BYTE + data[i + 1];
      AddWord(data, i / 2, w);
      sum := (sum + w) % MOD;
      i := i + 2;
    }
    if n % 2 == 1 {
      var w: int := data[n - 1] * BYTE;
      AddWord(data, i / 2, w);
      sum := (sum + w) % MOD;
    }
    assert sum == WordSum(data) % MOD;
    while sum / WORD != 0
      invariant Fold(sum) == Fold(WordSum(data) % MOD)
      decreases sum
    {
      FoldTwoRounds(sum);
      sum := sum % WORD + sum / WORD;
    }
    return ALL_ONES - sum;
  }

  // ----- what folding computes -----

  /** The carry loop is over within two rounds for every 32-bit sum. */
  lemma {:induction false} FoldTwoRounds(s: u32)
    ensures FoldRound(s) < WORD || FoldRound(FoldRound(s)) < WORD
    ensures s >= WORD ==> FoldRound(s) < s
  {
  }

  /** Reduction modulo 2^16 - 1 that keeps zero apart from its multiples. */
  function Residue(s: nat): u16 {
    if s == 0 then 0 else (s - 1) % ALL_ONES + 1
  }

  lemma {:induction false} FoldIsModulo(s: nat)
    ensures Fold(s) == Residue(s)
  {
    if s >= WORD {
      FoldIsModulo(FoldRound(s));
      assert s - 1 == (FoldRound(s) - 1) + ALL_ONES * (s / WORD);
      ModShift(FoldRound(s) - 1, s / WORD);
    }
  }

  lemma {:induction false} ModShift(a: nat, k: nat)
    ensures (a + ALL_ONES * k) % ALL_ONES == a % ALL_ONES
    decreases k
  {
    if k > 0 { ModShift(a + ALL_ONES, k - 1); }
  }

  lemma {:induction false} SumBound(data: seq<u8>, n: nat)
    requires n <= WordCount(data)
    ensures SumTo(data, n) <= ALL_ONES * n
  {
    if n > 0 { SumBound(data, n - 1); }
  }

  lemma {:induction false} SumIsResidue(data: seq<u8>)
    requires |data| <= MAX_SUMMED
    ensures WordSum(data) < MOD && Sum(data) == ALL_ONES - Residue(WordSum(data))
  {
    SumBound(data, WordCount(data));
    assert WordSum(data) % MOD == WordSum(data);
    FoldIsModulo(WordSum(data));
  }

  /** A buffer verifies exactly when its word sum is a positive multiple of 2^16 - 1. */
  lemma {:induction false} VerifiesIff(data: seq<u8>)
    requires |data| <= MAX_SUMMED
    ensures WordSum(data) < MOD
    ensures Sum(data) == 0 <==> WordSum(data) > 0 && WordSum(data) % ALL_ONES == 0
  {
    SumIsResidue(data);
    var s := WordSum(data);
    if s > 0 { FoldedOnes(s); }
  }

  lemma {:induction false} FoldedOnes(s: nat)
    requires s > 0
    ensures Residue(s) == ALL_ONES <==> s % ALL_ONES == 0
  {
  }

  lemma {:induction false} FillArithmetic(s: nat)
    requires s > 0
    ensures var t := s + (ALL_ONES - Residue(s));
      t > 0 && t % ALL_ONES == 0
  {
    var q := (s - 1) / ALL_ONES;
    assert s - ((s - 1) % ALL_ONES + 1) + ALL_ONES == ALL_ONES * (q + 1);
  }

  lemma {:induction false} ShiftArithmetic(s: nat, d: int)
    requires s % ALL_ONES == 0
    ensures (s + d) % ALL_ONES == 0 <==> d % ALL_ONES == 0
  {
    assert s == ALL_ONES * (s / ALL_ONES);
  }

  // ----- one word changes -----

  /** b and c agree except possibly in word k. */
  ghost predicate DifferAt(b: seq<u8>, c: seq<u8>, k: nat) {
    && |b| == |c| && k < WordCount(b)
    && forall i :: 0 <= i < WordCount(b) && i != k ==> Word(b, i) == Word(c, i)
  }

  lemma {:induction false} SumChange(b: seq<u8>, c: seq<u8>, k: nat, n: nat)
    requires DifferAt(b, c, k) && n <= WordCount(b)
    ensures SumTo(c, n) == SumTo(b, n) + if k < n then Word(c, k) - Word(b, k) else 0
  {
    if n > 0 { SumChange(b, c, k, n - 1); }
  }

  /** Filling a zero checksum word with the computed checksum makes the buffer verify. */
  lemma {:induction false} FillVerifies(b: seq<u8>, c: seq<u8>, k: nat)
    requires |b| <= MAX_SUMMED && DifferAt(b, c, k)
    requires Word(b, k) == 0 && Word(c, k) == Sum(b)
    ensures Sum(c) == 0
  {
    SumIsResidue(b);
    SumChange(b, c, k, WordCount(b));
    VerifiesIff(c);
    if WordSum(b) > 0 { FillArithmetic(WordSum(b)); }
  }

  /** Exact detection: of all changes of one word of a verified buffer, the undetected ones
      are the swaps of 0x0000 and 0xFFFF while another word is non-zero. */
  lemma {:induction false} ChangeUndetectedIff(b: seq<u8>, c: seq<u8>, k: nat)
    requires |b| <= MAX_SUMMED && Sum(b) == 0 && DifferAt(b, c, k) && Word(b, k) != Word(c, k)
    ensures Sum(c) == 0 <==>
      && ((Word(b, k) == 0 && Word(c, k) == ALL_ONES) || (Word(b, k) == ALL_ONES && Word(c, k) == 0))
      && exists i :: 0 <= i < WordCount(b) && i != k && Word(b, i) != 0
  {
    SumChange(b, c, k, WordCount(b));
    VerifiesIff(b);
    VerifiesIff(c);
    OtherWord(b, k, WordCount(b));
    ChangeArithmetic(WordSum(b), Word(b, k), Word(c, k));
  }

  /** The same in the word sum s and the old and new word. */
  lemma {:induction false} ChangeArithmetic(s: nat, v: u16, w: u16)
    requires s > 0 && s % ALL_ONES == 0 && s >= v && v != w
    ensures (s + w - v > 0 && (s + (w - v)) % ALL_ONES == 0)
       <==> ((v == 0 && w == ALL_ONES) || (v == ALL_ONES && w == 0)) && s > v
  {
    ShiftArithmetic(s, w - v);
  }

  lemma {:induction false} OtherWord(b: seq<u8>, k: nat, n: nat)
    requires k < WordCount(b) && n <= WordCount(b)
    ensures SumTo(b, n) >= if k < n then Word(b, k) else 0
    ensures SumTo(b, n) > (if k < n then Word(b, k) else 0) <==>
      exists i :: 0 <= i < n && i != k && Word(b, i) != 0
  {
    if n > 0 {
      OtherWord(b, k, n - 1);
      if n - 1 != k && Word(b, n - 1) != 0 {
        assert exists i :: 0 <= i < n && i != k && Word(b, i) != 0;
      }
    }
  }

  /** Every single-bit flip of a verified buffer is caught. */
  lemma {:induction false} BitFlipDetected(b: seq<u8>, c: seq<u8>, k: nat, bit: nat)
    requires |b| <= MAX_SUMMED && Sum(b) == 0 && DifferAt(b, c, k)
    requires bit in {0x1, 0x2, 0x4, 0x8, 0x10, 0x20, 0x40, 0x80, 0x100, 0x200, 0x400, 0x800, 0x1000, 0x2000,
                     0x4000, 0x8000}
    requires Word(c, k) == Word(b, k) + bit || Word(c, k) == Word(b, k) - bit
    ensures Sum(c) != 0
  {
    ChangeUndetectedIff(b, c, k);
  }
}
