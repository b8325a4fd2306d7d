// The tag that tells completion entries apart, kept in the low three bits of an
// eight-byte-aligned pointer (detail/work_type.hpp).
module WorkType {
  import opened Bits

  datatype WorkType = Common | Ignore | Schedule | Cancel

  /** The enumerator's value. */
  function Code(t: WorkType): nat {
    match t
    case Common => 0
    case Ignore => 1
    case Schedule => 2
    case Cancel => 3
  }

  const MASK := Pow2(3) - 1

  function Encode(ptr: nat, t: WorkType): nat {
    Or(ptr, Code(t))
  }

  /** The address and the tag's value in a 64-bit word. */
  function Decode(word: nat): (nat, nat)
    requires word < U64
  {
    (And(word, U64 - 1 - MASK), And(word, MASK))
  }

  lemma DecodeSplits(word: nat)
    requires word < U64
    ensures Decode(word) == (word - word % 8, word % 8)
  {
    Pow16And64();
    assert Pow2(3) == 8;
    AndMask(word, 3);
    AndHigh(word, 64, 3);
  }

  lemma TagFits(ptr: nat, code: nat)
    requires ptr < U64 && ptr % 8 == 0 && code < 8
    ensures ptr + code < U64 && (ptr + code) % 8 == code
  {
  }

  /** Every aligned pointer survives with every tag. */
  lemma RoundTrip(ptr: nat, t: WorkType)
    requires ptr < U64 && ptr % 8 == 0
    ensures Encode(ptr, t) < U64 && Decode(Encode(ptr, t)) == (ptr, Code(t))
  {
    assert Pow2(3) == 8;
    OrDisjoint(ptr, Code(t), 3);
    TagFits(ptr, Code(t));
    DecodeSplits(ptr + Code(t));
  }

  /** No two tagged pointers are alike, and an untagged operation is its own word. */
  lemma EncodeIsInjective(ptr: nat, t: WorkType, ptr': nat, u: WorkType)
    requires ptr < U64 && ptr % 8 == 0 && ptr' < U64 && ptr' % 8 == 0
    ensures Encode(ptr, t) == Encode(ptr', u) ==> ptr == ptr' && t == u
    ensures Encode(ptr, Common) == ptr
  {
    RoundTrip(ptr, t);
    RoundTrip(ptr', u);
    OrDisjoint(ptr, 0, 3);
  }

  /** Decoding loses nothing: it tells any two words apart. */
  lemma DecodeIsInjective(a: nat, b: nat)
    requires a < U64 && b < U64 && Decode(a) == Decode(b)
    ensures a == b
  {
    DecodeSplits(a);
    DecodeSplits(b);
  }

  /** A cancel message carries an already encoded operation as its pointer, and
      hands back exactly the word the operation was submitted with. */
  lemma CancelCarriesTheOperation(handle: nat)
    requires handle < U64 && handle % 8 == 0
    ensures var data := Encode(handle, Common);
            Encode(data, Cancel) < U64 && Decode(Encode(data, Cancel)) == (data, Code(Cancel))
  {
    OrDisjoint(handle, 0, 3);
    RoundTrip(handle, Cancel);
  }

  /** A tagged null pointer is told apart from every tagged object. */
  lemma NullIsDistinct(ptr: nat, t: WorkType, u: WorkType)
    requires 0 < ptr < U64 && ptr % 8 == 0
    ensures Encode(ptr, t) != Encode(0, u)
  {
    RoundTrip(ptr, t);
    RoundTrip(0, u);
  }
}
