/** Unicode code points as the program meets them: their UTF-8 form, and which are white space. */
module Runes {

  type Byte = b: nat | b < 256

  type Bytes = seq<Byte>

  /** A code point that can be encoded. */
  type Rune = r: nat | r < 0xD800 || 0xE000 <= r <= 0x10FFFF

  /** What stands for a byte that is not part of any encoding. */
  const REPLACEMENT: Rune := 0xFFFD

  /** The code points that the scanner of formatted text skips and the trimming of strings removes. */
  predicate IsSpace(r: nat) {
    || 0x09 <= r <= 0x0D || r == 0x20 || r == 0x85 || r == 0xA0 || r == 0x1680
    || 0x2000 <= r <= 0x200A || 0x2028 <= r <= 0x2029 || r == 0x202F || r == 0x205F || r == 0x3000
  }

  /** There are twenty-five of them. */
  lemma SpacesAre(r: nat)
    ensures IsSpace(r) <==>
              r in {9, 10, 11, 12, 13, 32, 133, 160, 5760, 8192, 8193, 8194, 8195, 8196, 8197, 8198, 8199, 8200,
                    8201, 8202, 8232, 8233, 8239, 8287, 12288}
  {
  }

  /** The number of bytes of an encoding. */
  function Width(r: nat): nat {
    if r < 0x80 then 1 else if r < 0x800 then 2 else if r < 0x10000 then 3 else 4
  }

  /** A byte that continues an encoding, with six bits of the code point. */
  function Low(r: nat): Byte {
    0x80 + r % 64
  }

  function EncodeRune(r: Rune): (s: Bytes)
    ensures |s| == Width(r)
  {
    if r < 0x80 then [r]
    else if r < 0x800 then [0xC0 + r / 64, Low(r)]
    else if r < 0x10000 then [0xE0 + r / 64 / 64, Low(r / 64), Low(r)]
    else [0xF0 + r / 64 / 64 / 64, Low(r / 64 / 64), Low(r / 64), Low(r)]
  }

  predicate Continues(b: Byte) {
    0x80 <= b < 0xC0
  }

  /** Six more bits of a code point. */
  function More(high: nat, b: Byte): int {
    high * 64 + (b - 0x80)
  }

  /** The second byte rules out what has a shorter encoding, surrogates, and what is too large. */
  predicate Second(first: Byte, b: Byte) {
    (if first == 0xE0 then 0xA0 else if first == 0xF0 then 0x90 else 0x80)
    <= b
    < (if first == 0xED then 0xA0 else if first == 0xF4 then 0x90 else 0xC0)
  }

  /** The first code point of a text, and the number of bytes it takes. */
  function DecodeRune(s: Bytes): (d: (Rune, nat))
    requires s != []
    ensures 0 < d.1 <= |s|
  {
    var b := s[0];
    if b < 0x80 then (b, 1)
    else if 0xC2 <= b < 0xE0 && |s| > 1 && Continues(s[1]) then
      (More(b - 0xC0, s[1]), 2)
    else if 0xE0 <= b < 0xF0 && |s| > 2 && Second(b, s[1]) && Continues(s[2]) then
      (More(More(b - 0xE0, s[1]), s[2]), 3)
    else if 0xF0 <= b < 0xF5 && |s| > 3 && Second(b, s[1]) && Continues(s[2]) && Continues(s[3]) then
      (More(More(More(b - 0xF0, s[1]), s[2]), s[3]), 4)
    else (REPLACEMENT, 1)
  }

  /** What was encoded is decoded, whatever follows. */
  lemma DecodeEncoded(r: Rune, rest: Bytes)
    ensures DecodeRune(EncodeRune(r) + rest) == (r, Width(r))
  {
    var s := EncodeRune(r);
    assert forall i :: 0 <= i < |s| ==> (s + rest)[i] == s[i];
  }

  /** A letter with an accent, the euro sign and a smiley. */
  lemma SampleRunes()
    ensures EncodeRune(0x41) == [0x41] && EncodeRune(0xE9) == [0xC3, 0xA9]
    ensures EncodeRune(0x20AC) == [0xE2, 0x82, 0xAC] && EncodeRune(0x1F600) == [0xF0, 0x9F, 0x98, 0x80]
  {
  }

  /** The next bytes are the encoding of a code point. */
  predicate StartsWell(s: Bytes)
    requires s != []
  {
    var d := DecodeRune(s);
    s[..d.1] == EncodeRune(d.0)
  }

  /** The length of a text in bytes. */
  function Utf8Length(s: string): nat {
    if s == "" then 0 else Width(s[0] as nat) + Utf8Length(s[1..])
  }
}
