/**
 * Bytes and the one byte-to-string conversion the plugin performs:
 * `String.fromCharCode(...new Uint8Array(buffer))`, which makes one UTF-16
 * code unit out of every byte (a Latin-1 reading, not a UTF-8 decode).
 */
module Buffers {

  newtype byte = x: int | 0 <= x < 256

  /** The code units of `s` all lie in 0..255, so each one is a byte. */
  ghost predicate IsByteString(s: string) {
    forall i :: 0 <= i < |s| ==> s[i] as int < 256
  }

  /** `String.fromCharCode(...bytes)`: the i-th code unit of the result is byte i. */
  function FromCharCodes(bytes: seq<byte>): (s: string)
    ensures |s| == |bytes|
    ensures forall i :: 0 <= i < |bytes| ==> s[i] as int == bytes[i] as int
  {
    if bytes == [] then "" else [bytes[0] as int as char] + FromCharCodes(bytes[1..])
  }

  /** The inverse reading: each code unit of a byte string taken back as a byte. */
  function CharCodes(s: string): (bytes: seq<byte>)
    requires IsByteString(s)
    ensures |bytes| == |s|
    ensures forall i :: 0 <= i < |s| ==> bytes[i] as int == s[i] as int
  {
    if s == [] then [] else [s[0] as int as byte] + CharCodes(s[1..])
  }

  /** Decoding never leaves the byte range, so the result can be read back. */
  lemma FromCharCodesIsByteString(bytes: seq<byte>)
    ensures IsByteString(FromCharCodes(bytes))
  {
  }

  /** Mapping the code units of the decoded string back gives the original bytes. */
  lemma CharCodesOfFromCharCodes(bytes: seq<byte>)
    ensures IsByteString(FromCharCodes(bytes))
    ensures CharCodes(FromCharCodes(bytes)) == bytes
  {
  }

  /** Conversely, a byte string is the decoding of its own code units. */
  lemma FromCharCodesOfCharCodes(s: string)
    requires IsByteString(s)
    ensures FromCharCodes(CharCodes(s)) == s
  {
  }
}
