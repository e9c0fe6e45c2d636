/** Machine words and the alignment helper used by every layout loop. */
module Words {

  /** One past the largest 32-bit unsigned value. */
  const TWO_TO_32: int := 0x1_0000_0000

  /** The 32-bit unsigned word an arithmetic result is stored as. */
  function Wrap32(x: int): (r: nat)
    ensures r < TWO_TO_32
    ensures 0 <= x < TWO_TO_32 ==> r == x
  {
    x % 0x1_0000_0000
  }

  /** The alignments the layout code asks for. */
  predicate IsAlignment(a: nat) {
    a == 4 || a == 8 || a == 16 || a == 64
  }

  /** How far a value is past the last multiple of `alignment`. */
  function Excess(value: nat, alignment: nat): (r: nat)
    requires IsAlignment(alignment)
    ensures r < alignment && r <= value
  {
    if alignment == 4 then value % 4
    else if alignment == 8 then value % 8
    else if alignment == 16 then value % 16
    else value % 64
  }

  /** Rounds up to a multiple of `alignment`; masking the low bits off is this for a power of two. */
  function AlignUp(value: nat, alignment: nat): (r: nat)
    requires IsAlignment(alignment)
    ensures value <= r < value + alignment
    ensures alignment == 4 ==> r % 4 == 0
    ensures alignment == 8 ==> r % 8 == 0
    ensures alignment == 16 ==> r % 16 == 0
    ensures alignment == 64 ==> r % 64 == 0
  {
    var excess := Excess(value, alignment);
    if excess == 0 then value else value - excess + alignment
  }

  /** The value of a 32-bit word read as a signed integer. */
  function ToInt32(word: nat): (r: int)
    requires word < TWO_TO_32
    ensures -0x8000_0000 <= r < 0x8000_0000
    ensures Wrap32(r) == word
  {
    if word < 0x8000_0000 then word else word - TWO_TO_32
  }
}

/** What every part of the model uses. */
module Wrappers {
  datatype Option<+T> = None | Some(value: T)

  predicate Distinct<T(==)>(s: seq<T>) {
    forall i, j :: 0 <= i < j < |s| ==> s[i] != s[j]
  }
}
