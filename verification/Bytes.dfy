/** Go strings are byte sequences, and so are the texts of this model. */
module Bytes {

  newtype byte = b: int | 0 <= b < 256

  type Text = seq<byte>

  const TAB: byte := 9
  const NEWLINE: byte := 10
  const RETURN: byte := 13
  const SPACE: byte := 32
  const HYPHEN: byte := 45

  /** Which of two bytes comes first in a file: the less significant or the more. */
  datatype Order = Little | Big

  /** The number in two bytes. */
  function Short(first: byte, second: byte, order: Order): (n: nat)
    ensures n < 0x1_0000
  {
    if order.Little? then first as int + 0x100 * second as int else 0x100 * first as int + second as int
  }

  /** Characters of ASCII as bytes. */
  function Word(s: string): (bytes: Text)
    requires forall i :: 0 <= i < |s| ==> s[i] < 128 as char
    ensures |bytes| == |s| && forall i :: 0 <= i < |s| ==> bytes[i] as int == s[i] as int
  {
    seq(|s|, i requires 0 <= i < |s| => (s[i] as int) as byte)
  }
}
