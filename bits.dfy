// The bit-field helper of the SVT utilities: a field of `Nbit` bits at bit
// `Position` of a 32-bit word is read or replaced through the "cleaner word",
// the mask that is 0 on the field and 1 elsewhere; four bytes are packed into
// a word and back, most significant byte first.
//
// A uint32_t is modelled as its 32 bits, least significant first, and a
// uint8_t as its 8 bits. Each C++ operator the code uses is defined on the
// bits: `&`, `|`, `~` bit by bit, the shifts by moving bits, `+` and `-` by a
// ripple-carry adder modulo 2^32. The reference argument of ModifyUInt32
// becomes an in and out value; the byte buffers are arrays.
module BitsManager {
  /** A uint32_t: bit i is w[i], bit 0 the least significant. */
  type Word = w: seq<bool> | |w| == 32 witness seq(32, (i: int) => false)

  /** A uint8_t: bit i is b[i]. */
  type Byte = b: seq<bool> | |b| == 8 witness seq(8, (i: int) => false)

  function Zero(): Word { seq(32, (i: int) => false) }
  function One(): Word { seq(32, (i: int) => i == 0) }
  /** 0xffffffff. */
  function AllOnes(): Word { seq(32, (i: int) => true) }

  // ---------------------------------------------------------------------
  // The operators

  /** `~a`. */
  function Not(a: Word): Word
  {
    seq(32, i requires 0 <= i < 32 => !a[i])
  }

  /** `a & b`. */
  function And(a: Word, b: Word): Word
  {
    seq(32, i requires 0 <= i < 32 => a[i] && b[i])
  }

  /** `a | b`. */
  function Or(a: Word, b: Word): Word
  {
    seq(32, i requires 0 <= i < 32 => a[i] || b[i])
  }

  /** `a << k`: bit i comes from bit i - k, zeros come in at the bottom. A shift by 32 or more is undefined in C++. */
  function Shl(a: Word, k: nat): Word
    requires k < 32
  {
    seq(32, i requires 0 <= i < 32 => k <= i && a[i - k])
  }

  /** `a >> k` on an unsigned word: bit i comes from bit i + k, zeros come in at the top. */
  function Shr(a: Word, k: nat): Word
    requires k < 32
  {
    seq(32, i requires 0 <= i < 32 => i + k < 32 && a[i + k])
  }

  /**
   * _lrotl on a 32-bit unsigned long: the word rotated to the left by the
   * count modulo 32, so bit i comes from bit i - k modulo 32.
   */
  function RotateLeft(a: Word, count: nat): Word
  {
    seq(32, i requires 0 <= i < 32 => a[(i + 32 - count % 32) % 32])
  }

  /** The carry into bit i when a, b and the carry-in cin are added bit by bit from bit 0. */
  function Carry(a: Word, b: Word, cin: bool, i: nat): bool
    requires i <= 32
  {
    if i == 0 then cin
    else
      var c := Carry(a, b, cin, i - 1);
      (a[i - 1] && b[i - 1]) || (a[i - 1] && c) || (b[i - 1] && c)
  }

  /** The ripple-carry sum of a, b and cin, modulo 2^32. */
  function AddWithCarry(a: Word, b: Word, cin: bool): Word
  {
    seq(32, i requires 0 <= i < 32 => (a[i] != b[i]) != Carry(a, b, cin, i))
  }

  /** `a + b` on uint32_t: the sum modulo 2^32. */
  function Add(a: Word, b: Word): Word
  {
    AddWithCarry(a, b, false)
  }

  /** `a - b` on uint32_t: a + ~b + 1 modulo 2^32. */
  function Sub(a: Word, b: Word): Word
  {
    AddWithCarry(a, Not(b), true)
  }

  // ---------------------------------------------------------------------
  // Facts about the adder

  /** Adding words with no bit in common never carries. */
  lemma {:induction false} NoCarry(a: Word, b: Word, i: nat)
    requires i <= 32
    requires forall j :: 0 <= j < 32 ==> !(a[j] && b[j])
    ensures !Carry(a, b, false, i)
  {
    if i > 0 {
      NoCarry(a, b, i - 1);
    }
  }

  /** So the sum of words with no bit in common is their bitwise or. */
  lemma DisjointAddIsOr(a: Word, b: Word)
    requires And(a, b) == Zero()
    ensures Add(a, b) == Or(a, b)
  {
    forall j | 0 <= j < 32
      ensures !(a[j] && b[j])
    {
      assert And(a, b)[j] == Zero()[j];
    }
    forall i | 0 <= i < 32
      ensures Add(a, b)[i] == Or(a, b)[i]
    {
      NoCarry(a, b, i);
    }
  }

  /** Subtracting from all ones never borrows: the carry of a + ~x + 1 is 1 all the way. */
  lemma {:induction false} CarryOfComplement(x: Word, i: nat)
    requires i <= 32
    ensures Carry(AllOnes(), Not(x), true, i)
  {
    if i > 0 {
      CarryOfComplement(x, i - 1);
    }
  }

  /** `0xffffffff - x` is `~x`. */
  lemma SubtractFromAllOnes(x: Word)
    ensures Sub(AllOnes(), x) == Not(x)
  {
    forall i | 0 <= i < 32
      ensures Sub(AllOnes(), x)[i] == Not(x)[i]
    {
      CarryOfComplement(x, i);
    }
  }

  /** The low n bits set: the value 2^n - 1. */
  function LowBits(n: nat): Word
    requires n < 32
  {
    seq(32, i requires 0 <= i < 32 => i < n)
  }

  /** In `(1 << n) - 1`, the carry into bit i (from bit 1 up) is set exactly when bit n lies below bit i. */
  lemma {:induction false} CarryOfLowBits(n: nat, i: nat)
    requires n < 32 && 1 <= i <= 32
    ensures Carry(Shl(One(), n), Not(One()), true, i) == (n < i)
  {
    if i > 1 {
      CarryOfLowBits(n, i - 1);
    }
  }

  /** `(1 << n) - 1` is the word of the low n bits. */
  lemma OneShiftedMinusOne(n: nat)
    requires n < 32
    ensures Sub(Shl(One(), n), One()) == LowBits(n)
  {
    forall i | 0 <= i < 32
      ensures Sub(Shl(One(), n), One())[i] == LowBits(n)[i]
    {
      if i > 0 {
        CarryOfLowBits(n, i);
      }
    }
  }

  // ---------------------------------------------------------------------
  // Fields

  /** A field that fits the word: its last bit is bit 31 at most. */
  predicate InWord(position: nat, nbit: nat)
  {
    position < 32 && nbit < 32 && position + nbit <= 32
  }

  /** SetClWord: `_lrotl(0xffffffff - ((1 << Nbit) - 1), Position)`. */
  function CleanerWord(position: nat, nbit: nat): Word
    requires nbit < 32
  {
    RotateLeft(Sub(AllOnes(), Sub(Shl(One(), nbit), One())), position)
  }

  /** The bits of the field: nbit of them from bit position up. */
  function FieldMask(position: nat, nbit: nat): Word
  {
    seq(32, i requires 0 <= i < 32 => position <= i < position + nbit)
  }

  /** Within the word, the cleaner word is 0 exactly on the field. */
  lemma CleanerWordIsFieldComplement(position: nat, nbit: nat)
    requires InWord(position, nbit)
    ensures CleanerWord(position, nbit) == Not(FieldMask(position, nbit))
  {
    OneShiftedMinusOne(nbit);
    SubtractFromAllOnes(LowBits(nbit));
  }

  /** The value of bits [position, position + nbit) of x, moved down to bit 0. */
  function Field(x: Word, position: nat, nbit: nat): Word
    requires InWord(position, nbit)
  {
    seq(32, i requires 0 <= i < 32 => i < nbit && x[position + i])
  }

  /** ExtractFromUInt32: `(Input & ~CleanerWord) >> position`, with the cleaner word c. */
  function ReadThrough(x: Word, c: Word, position: nat): Word
    requires position < 32
  {
    Shr(And(x, Not(c)), position)
  }

  /** The extraction with the cleaner word SetClWord computes. */
  function Extracted(x: Word, position: nat, nbit: nat): Word
    requires position < 32 && nbit < 32
  {
    ReadThrough(x, CleanerWord(position, nbit), position)
  }

  /** The extraction reads exactly the field. */
  lemma ExtractReadsField(x: Word, position: nat, nbit: nat)
    requires InWord(position, nbit)
    ensures Extracted(x, position, nbit) == Field(x, position, nbit)
  {
    CleanerWordIsFieldComplement(position, nbit);
  }

  /** ModifyUInt32 with operation 0: `(OldUInt32 & CleanerWord) + ((NewTerm << Position) & ~CleanerWord)`, with the cleaner word c. */
  function Combine(word: Word, term: Word, c: Word): Word
  {
    Add(And(word, c), And(term, Not(c)))
  }

  /** The two addends share no bit, so the + is a bitwise or. */
  lemma AddendsDisjoint(word: Word, term: Word, c: Word)
    ensures And(And(word, c), And(term, Not(c))) == Zero()
    ensures Combine(word, term, c) == Or(And(word, c), And(term, Not(c)))
  {
    DisjointAddIsOr(And(word, c), And(term, Not(c)));
  }

  /** The modification with the cleaner word SetClWord computes. */
  function Modified(word: Word, newTerm: Word, position: nat, nbit: nat): Word
    requires position < 32 && nbit < 32
  {
    Combine(word, Shl(newTerm, position), CleanerWord(position, nbit))
  }

  /** The word with bits [position, position + nbit) replaced by the low nbit bits of t. */
  function Spliced(word: Word, t: Word, position: nat, nbit: nat): Word
    requires InWord(position, nbit)
  {
    seq(32, i requires 0 <= i < 32 => if position <= i < position + nbit then t[i - position] else word[i])
  }

  /** The modification writes the low bits of the new term into the field and keeps every other bit. */
  lemma ModifySplices(word: Word, newTerm: Word, position: nat, nbit: nat)
    requires InWord(position, nbit)
    ensures Modified(word, newTerm, position, nbit) == Spliced(word, newTerm, position, nbit)
  {
    var c := CleanerWord(position, nbit);
    CleanerWordIsFieldComplement(position, nbit);
    AddendsDisjoint(word, Shl(newTerm, position), c);
  }

  /** Only the bits of the field change. */
  lemma ModifyKeepsOtherBits(word: Word, newTerm: Word, position: nat, nbit: nat, i: nat)
    requires InWord(position, nbit) && i < 32 && !(position <= i < position + nbit)
    ensures Modified(word, newTerm, position, nbit)[i] == word[i]
  {
    ModifySplices(word, newTerm, position, nbit);
  }

  /** Reading the field right after writing it gives the new term modulo 2^nbit. */
  lemma ExtractAfterModify(word: Word, newTerm: Word, position: nat, nbit: nat)
    requires InWord(position, nbit)
    ensures Extracted(Modified(word, newTerm, position, nbit), position, nbit) == And(newTerm, LowBits(nbit))
  {
    ModifySplices(word, newTerm, position, nbit);
    ExtractReadsField(Modified(word, newTerm, position, nbit), position, nbit);
  }

  // ---------------------------------------------------------------------
  // The manager

  /** The manager: the state the last call set up for the operation it performs. */
  class ItsBitsManager {
    var newTerm: Word
    var position: nat
    var nbit: nat
    var nshift: nat
    var cleanerWord: Word
    /** BMOperation: 0 changes the field, 1 shifts the word, 2 does both. */
    var operation: nat

    /** The C++ constructor leaves the fields uninitialised; here they start at zero. */
    constructor()
      ensures newTerm == Zero() && position == 0 && nbit == 0 && nshift == 0
      ensures cleanerWord == Zero() && operation == 0
    {
      newTerm, position, nbit, nshift := Zero(), 0, 0, 0;
      cleanerWord, operation := Zero(), 0;
    }

    /** ShiftNewTerm: the new term moved to the field's position. */
    method ShiftNewTerm()
      requires position < 32
      modifies this
      ensures position == old(position) && nbit == old(nbit) && nshift == old(nshift)
      ensures newTerm == Shl(old(newTerm), position)
      ensures cleanerWord == old(cleanerWord) && operation == old(operation)
    {
      newTerm := Shl(newTerm, position);
    }

    /** SetClWord(): the cleaner word of the current position and width. */
    method SetClWord()
      requires nbit < 32
      modifies this
      ensures newTerm == old(newTerm) && position == old(position) && nbit == old(nbit)
      ensures nshift == old(nshift) && operation == old(operation)
      ensures cleanerWord == CleanerWord(position, nbit)
    {
      cleanerWord := RotateLeft(Sub(AllOnes(), Sub(Shl(One(), nbit), One())), position);
    }

    /** SetClWord(ClWord): a cleaner word given directly. */
    method SetCleanerWord(word: Word)
      modifies this
      ensures cleanerWord == word
      ensures newTerm == old(newTerm) && position == old(position) && nbit == old(nbit)
      ensures nshift == old(nshift) && operation == old(operation)
    {
      cleanerWord := word;
    }

    /** ExtractFromUInt32: the field of the input, read through the cleaner word. */
    method ExtractFromUInt32(input: Word, pos: nat, bitNumber: nat) returns (r: Word)
      requires pos < 32 && bitNumber < 32
      modifies this
      ensures position == pos && nbit == bitNumber
      ensures newTerm == old(newTerm) && nshift == old(nshift) && operation == old(operation)
      ensures cleanerWord == CleanerWord(pos, bitNumber)
      ensures r == Extracted(input, pos, bitNumber)
      ensures InWord(pos, bitNumber) ==> r == Field(input, pos, bitNumber)
    {
      position := pos;
      nbit := bitNumber;
      SetClWord();
      r := Shr(And(input, Not(cleanerWord)), position);
      if InWord(pos, bitNumber) {
        ExtractReadsField(input, pos, bitNumber);
      }
    }

    /**
     * ModifyUInt32(OldUInt32): operation 0 or 2 writes the new term into the
     * field through the cleaner word, then operation 1 or 2 shifts the word
     * left by NShift. With the cleaner word of a field inside the word,
     * operation 0 replaces exactly that field.
     */
    method ApplyOperation(word: Word) returns (r: Word)
      requires (operation == 0 || operation == 2) ==> position < 32
      requires (operation == 1 || operation == 2) ==> nshift < 32
      ensures var changed := if operation == 0 || operation == 2 then Combine(word, Shl(newTerm, position), cleanerWord) else word;
              r == if operation == 1 || operation == 2 then Shl(changed, nshift) else changed
      ensures operation == 0 && InWord(position, nbit) && cleanerWord == CleanerWord(position, nbit) ==>
                r == Spliced(word, newTerm, position, nbit)
      ensures operation != 0 && operation != 1 && operation != 2 ==> r == word
    {
      r := word;
      if operation == 0 || operation == 2 {
        r := Add(And(r, cleanerWord), And(Shl(newTerm, position), Not(cleanerWord)));
      }
      if operation == 1 || operation == 2 {
        r := Shl(r, nshift);
      }
      if operation == 0 && InWord(position, nbit) && cleanerWord == CleanerWord(position, nbit) {
        ModifySplices(word, newTerm, position, nbit);
      }
    }

    /**
     * ModifyUInt32(OldUInt32, NewEle, position, bitNumber): operation 0 on the
     * field of the given position and width; the word comes back with the
     * field replaced and every other bit kept.
     */
    method ModifyUInt32(word: Word, newEle: Word, pos: nat, bitNumber: nat) returns (r: Word)
      requires pos < 32 && bitNumber < 32
      modifies this
      ensures newTerm == newEle && position == pos && nbit == bitNumber && operation == 0
      ensures nshift == old(nshift)
      ensures cleanerWord == CleanerWord(pos, bitNumber)
      ensures r == Modified(word, newEle, pos, bitNumber)
      ensures InWord(pos, bitNumber) ==> r == Spliced(word, newEle, pos, bitNumber)
    {
      newTerm := newEle;
      position := pos;
      nbit := bitNumber;
      SetClWord();
      operation := 0;
      r := ApplyOperation(word);
    }
  }

  // ---------------------------------------------------------------------
  // Bytes

  /** `(uint32_t)b`: the byte in the low 8 bits. */
  function Widen(b: Byte): Word
  {
    seq(32, i requires 0 <= i < 32 => i < 8 && b[i])
  }

  /** `(uint8_t)w`: the low 8 bits. */
  function Truncate(w: Word): Byte
  {
    w[..8]
  }

  /** Four bytes as a word, the first one most significant: bit i is bit i % 8 of byte 3 - i / 8. */
  function Pack(b: seq<Byte>): Word
    requires |b| == 4
  {
    seq(32, i requires 0 <= i < 32 => b[3 - i / 8][i % 8])
  }

  /** The word as four bytes, the most significant first: byte k holds bits 8 * (3 - k) to 8 * (3 - k) + 7. */
  function Unpack(w: Word): (r: seq<Byte>)
    ensures |r| == 4
  {
    seq(4, k requires 0 <= k < 4 => w[8 * (3 - k)..8 * (3 - k) + 8])
  }

  /** Unpacking a packed word gives back its bytes. */
  lemma UnpackPack(b: seq<Byte>)
    requires |b| == 4
    ensures Unpack(Pack(b)) == b
  {
    forall k | 0 <= k < 4
      ensures Unpack(Pack(b))[k] == b[k]
    {
      forall j | 0 <= j < 8
        ensures Unpack(Pack(b))[k][j] == b[k][j]
      {
        assert (8 * (3 - k) + j) / 8 == 3 - k;
      }
    }
  }

  /** Packing the bytes of a word gives back the word. */
  lemma PackUnpack(w: Word)
    ensures Pack(Unpack(w)) == w
  {
    forall i | 0 <= i < 32
      ensures Pack(Unpack(w))[i] == w[i]
    {
      assert 8 * (3 - (3 - i / 8)) + i % 8 == i;
    }
  }

  /** The sum the packing loop has built after k steps: the bytes 3, 2, ... 4 - k at their places. */
  function PackedLow(b: seq<Byte>, k: nat): Word
    requires |b| == 4 && k <= 4
  {
    seq(32, i requires 0 <= i < 32 => i < 8 * k && b[3 - i / 8][i % 8])
  }

  /** One step of the packing loop adds the next byte at its place. */
  lemma PackStep(b: seq<Byte>, k: nat)
    requires |b| == 4 && k < 4
    ensures Add(PackedLow(b, k), Shl(Widen(b[3 - k]), k * 8)) == PackedLow(b, k + 1)
  {
    var low, next := PackedLow(b, k), Shl(Widen(b[3 - k]), k * 8);
    assert And(low, next) == Zero();
    DisjointAddIsOr(low, next);
    forall i | 0 <= i < 32
      ensures Or(low, next)[i] == PackedLow(b, k + 1)[i]
    {
      if 8 * k <= i < 8 * k + 8 {
        assert i / 8 == k && i % 8 == i - k * 8;
      }
    }
  }

  /** UInt8ToUInt32: the first four bytes of the buffer, most significant first. */
  method UInt8ToUInt32(dataIn: array<Byte>) returns (dataOut: Word)
    requires dataIn.Length >= 4
    ensures dataOut == Pack(dataIn[..4])
  {
    ghost var b := dataIn[..4];
    dataOut := Zero();
    assert dataOut == PackedLow(b, 0);
    for i := 0 to 4
      invariant dataOut == PackedLow(b, i)
    {
      PackStep(b, i);
      assert dataIn[3 - i] == b[3 - i];
      dataOut := Add(dataOut, Shl(Widen(dataIn[3 - i]), i * 8));
    }
    assert PackedLow(b, 4) == Pack(b);
  }

  /** Shifting right twice is shifting right by the sum. */
  lemma ShrTwice(x: Word, a: nat, b: nat)
    requires a + b < 32
    ensures Shr(Shr(x, a), b) == Shr(x, a + b)
  {
  }

  /** Byte k of the unpacked word is the word shifted down by 8 * (3 - k) and cut to a byte. */
  lemma UnpackByte(w: Word, k: nat)
    requires k < 4
    ensures Unpack(w)[k] == Truncate(Shr(w, 8 * (3 - k)))
  {
  }

  /** UInt32ToUInt8: the word into the first four bytes of the buffer, most significant first. */
  method UInt32ToUInt8(dataOut: array<Byte>, dataIn: Word)
    requires dataOut.Length >= 4
    modifies dataOut
    ensures dataOut[..4] == Unpack(dataIn)
    ensures dataOut[4..] == old(dataOut[4..])
  {
    var w := dataIn;
    for i := 0 to 4
      invariant i < 4 ==> w == Shr(dataIn, 8 * i)
      invariant forall j :: 0 <= j < i ==> dataOut[3 - j] == Truncate(Shr(dataIn, 8 * j))
      invariant forall j :: 4 <= j < dataOut.Length ==> dataOut[j] == old(dataOut[j])
    {
      dataOut[3 - i] := Truncate(w);
      if i < 3 {
        ShrTwice(dataIn, 8 * i, 8);
      }
      w := Shr(w, 8);
    }
    forall k | 0 <= k < 4
      ensures dataOut[..4][k] == Unpack(dataIn)[k]
    {
      UnpackByte(dataIn, k);
      assert dataOut[3 - (3 - k)] == Truncate(Shr(dataIn, 8 * (3 - k)));
    }
  }

  /** Writing a word into a buffer and reading the buffer back gives the word. */
  method RoundTrip(buffer: array<Byte>, w: Word) returns (r: Word)
    requires buffer.Length >= 4
    modifies buffer
    ensures r == w
  {
    UInt32ToUInt8(buffer, w);
    r := UInt8ToUInt32(buffer);
    PackUnpack(w);
  }

  // ---------------------------------------------------------------------
  // _lrotl on a 64-bit unsigned long

  /** An unsigned long where it has 64 bits. */
  type Word64 = w: seq<bool> | |w| == 64 witness seq(64, (i: int) => false)

  /** The 32-bit word zero-extended to 64 bits. */
  function Widen64(w: Word): Word64
  {
    seq(64, i requires 0 <= i < 64 => i < 32 && w[i])
  }

  /** _lrotl on a 64-bit unsigned long. */
  function RotateLeft64(a: Word64, count: nat): Word64
  {
    seq(64, i requires 0 <= i < 64 => a[(i + 64 - count % 64) % 64])
  }

  /**
   * SetClWord where unsigned long has 64 bits (GCC on x86-64): the
   * zero-extended word is rotated in 64 bits and cut back to 32 bits.
   */
  function CleanerWordLp64(position: nat, nbit: nat): Word
    requires nbit < 32
  {
    RotateLeft64(Widen64(Sub(AllOnes(), Sub(Shl(One(), nbit), One()))), position)[..32]
  }

  /** ModifyUInt32 with that cleaner word. */
  function ModifiedLp64(word: Word, newTerm: Word, position: nat, nbit: nat): Word
    requires position < 32 && nbit < 32
  {
    Combine(word, Shl(newTerm, position), CleanerWordLp64(position, nbit))
  }

  /**
   * With the 64-bit rotation the bits below the field are 0 in the cleaner
   * word instead of 1, so the modification clears them: every bit below the
   * field comes back 0, whatever the word held there.
   */
  lemma Lp64ModifyClearsBitsBelowField(word: Word, newTerm: Word, position: nat, nbit: nat, i: nat)
    requires InWord(position, nbit) && i < position
    ensures !ModifiedLp64(word, newTerm, position, nbit)[i]
  {
    var c := CleanerWordLp64(position, nbit);
    assert !c[i];
    AddendsDisjoint(word, Shl(newTerm, position), c);
  }

  /** For example, writing 0 into bits 4 to 7 of 0xffffffff gives 0xffffff00, where the 32-bit rotation gives 0xffffff0f. */
  lemma Lp64Example()
    ensures !ModifiedLp64(AllOnes(), Zero(), 4, 4)[0]
    ensures Modified(AllOnes(), Zero(), 4, 4)[0]
  {
    Lp64ModifyClearsBitsBelowField(AllOnes(), Zero(), 4, 4, 0);
    ModifyKeepsOtherBits(AllOnes(), Zero(), 4, 4, 0);
  }
}
