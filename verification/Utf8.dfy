/** Well-formed UTF-8, as table 3-7 of the Unicode Standard defines it. */
module Utf8 {
  import opened ByteStrings

  predicate Continues(b: Bytes, n: nat) {
    n <= |b| && forall i :: 0 <= i < n ==> 0x80 <= b[i] <= 0xBF
  }

  /** The length of the first scalar value, or 0 if there is none. */
  function FirstLength(b: Bytes): (n: nat)
    ensures n <= |b|
  {
    if b == [] then 0
    else if b[0] < 0x80 then 1
    else if 0xC2 <= b[0] <= 0xDF && Continues(b[1..], 1) then 2
    else if |b| >= 2 && 0xE0 <= b[0] <= 0xEF && Continues(b[1..], 2)
            && (b[0] == 0xE0 ==> b[1] >= 0xA0) && (b[0] == 0xED ==> b[1] <= 0x9F) then 3
    else if |b| >= 2 && 0xF0 <= b[0] <= 0xF4 && Continues(b[1..], 3)
            && (b[0] == 0xF0 ==> b[1] >= 0x90) && (b[0] == 0xF4 ==> b[1] <= 0x8F) then 4
    else 0
  }

  predicate IsUtf8(b: Bytes)
    decreases |b|
  {
    b == [] || (FirstLength(b) > 0 && IsUtf8(b[FirstLength(b)..]))
  }
}
