/** Bounds and patterns that the host places on text fields. */
module Texts {
  /** The length of a string encoded as UTF-8. */
  function Utf8Bytes(s: string): nat {
    if s == [] then 0
    else
      var n := s[0] as int;
      Utf8Bytes(s[1..]) + if n < 0x80 then 1 else if n < 0x800 then 2 else if n < 0x1_0000 then 3 else 4
  }

  predicate Bounded(s: string, maximum: nat) {
    s != "" && Utf8Bytes(s) <= maximum
  }

  predicate Alphanumeric(c: char) {
    'a' <= c <= 'z' || 'A' <= c <= 'Z' || '0' <= c <= '9'
  }

  predicate PortableSession(s: string) {
    && 1 <= |s| <= 64 && Alphanumeric(s[0])
    && forall i :: 0 < i < |s| ==> Alphanumeric(s[i]) || s[i] == '_' || s[i] == '-'
  }

  predicate Sha256(s: string) {
    |s| == 64 && forall i :: 0 <= i < |s| ==> '0' <= s[i] <= '9' || 'a' <= s[i] <= 'f'
  }
}
