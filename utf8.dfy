/**
 * Byte encoding of the header value the service attaches to every outbound
 * record: `String.getBytes(StandardCharsets.UTF_8)` of an ASCII literal.
 * For ASCII text UTF-8 is one byte per character with the same code.
 */
module Utf8 {

  newtype byte = b: int | 0 <= b < 256

  predicate IsAscii(s: string)
  {
    forall i :: 0 <= i < |s| ==> s[i] as int < 128
  }

  predicate IsAsciiBytes(bytes: seq<byte>)
  {
    forall i :: 0 <= i < |bytes| ==> bytes[i] < 128
  }

  /** `bytes` is the UTF-8 encoding of the ASCII string `s`: one byte per character, with its code. */
  ghost predicate EncodesAscii(s: string, bytes: seq<byte>)
  {
    |bytes| == |s| && forall i :: 0 <= i < |s| ==> bytes[i] as int == s[i] as int
  }

  /** Reads ASCII bytes back as text: the partner of EncodeAscii. */
  function DecodeAscii(bytes: seq<byte>): (s: string)
    requires IsAsciiBytes(bytes)
    ensures |s| == |bytes|
  {
    if bytes == [] then [] else [bytes[0] as int as char] + DecodeAscii(bytes[1..])
  }

  /** The UTF-8 encoding of an ASCII string: same length, same codes, and it decodes back to the text. */
  function EncodeAscii(s: string): (bytes: seq<byte>)
    requires IsAscii(s)
    ensures EncodesAscii(s, bytes)
    ensures IsAsciiBytes(bytes) && DecodeAscii(bytes) == s
  {
    if s == [] then [] else [s[0] as int as byte] + EncodeAscii(s[1..])
  }

  /** A byte sequence that agrees code by code with an ASCII string is that string's encoding. */
  lemma EncodingIsUnique(s: string, bytes: seq<byte>)
    requires IsAscii(s)
    requires EncodesAscii(s, bytes)
    ensures bytes == EncodeAscii(s)
  {
  }
}
