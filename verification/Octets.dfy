/** Bytes, written as the characters of the same codes, and numbers written in them most significant first. */
module Octets {
  type Bytes = string

  function Power256(k: nat): nat {
    if k == 0 then 1 else 256 * Power256(k - 1)
  }

  function BigEndian(n: nat, k: nat): (s: Bytes)
    ensures |s| == k
  {
    if k == 0 then "" else BigEndian(n / 256, k - 1) + [(n % 256) as char]
  }

  function Number(s: Bytes): nat {
    if s == "" then 0 else 256 * Number(s[..|s| - 1]) + s[|s| - 1] as int
  }

  lemma {:induction false} NumberReads(n: nat, k: nat)
    requires n < Power256(k)
    ensures Number(BigEndian(n, k)) == n
    decreases k
  {
    if k > 0 {
      NumberReads(n / 256, k - 1);
      var s := BigEndian(n, k);
      assert s[..|s| - 1] == BigEndian(n / 256, k - 1);
    }
  }

  const WORD := 0x1_0000_0000_0000_0000

  lemma WordFits()
    ensures Power256(8) == WORD
  {
    assert Power256(4) == 0x1_0000_0000;
  }

  lemma WordReads(n: nat)
    requires n < WORD
    ensures Number(BigEndian(n, 8)) == n
  {
    WordFits();
    NumberReads(n, 8);
  }
}
