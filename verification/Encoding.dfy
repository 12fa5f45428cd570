/** Unicode scalar values and their encoding in one to four bytes, as in section 3 of RFC 3629. */
module Encoding {

  predicate Scalar(cp: nat) { cp < 0xD800 || 0xE000 <= cp < 0x11_0000 }

  function Encode(cp: nat): (s: string)
    requires Scalar(cp)
    ensures 1 <= |s| <= 4
  {
    if cp < 0x80 then [cp as char]
    else if cp < 0x800 then [(0xC0 + cp / 0x40) as char, Trailer(cp)]
    else if cp < 0x1_0000 then [(0xE0 + cp / 0x1000) as char, Trailer(cp / 0x40), Trailer(cp)]
    else [(0xF0 + cp / 0x4_0000) as char, Trailer(cp / 0x1000), Trailer(cp / 0x40), Trailer(cp)]
  }

  /** A continuation byte with the six lowest bits. */
  function Trailer(bits: nat): char { (0x80 + bits % 0x40) as char }

  ghost predicate Scalars(cps: seq<nat>) { forall i :: 0 <= i < |cps| ==> Scalar(cps[i]) }

  function EncodeAll(cps: seq<nat>): string
    requires Scalars(cps)
  {
    if cps == [] then "" else Encode(cps[0]) + EncodeAll(cps[1..])
  }

  /** Two letters that are the same but for their case, among 'a'..'z' and 'A'..'Z'. */
  predicate OtherCase(c: char, d: char) {
    || ('a' <= c <= 'z' && d as int == c as int - 32)
    || ('A' <= c <= 'Z' && d as int == c as int + 32)
  }

  /** The same text but for the case of ASCII letters. */
  predicate SameButCase(a: string, b: string) {
    |a| == |b| && forall i :: 0 <= i < |a| ==> a[i] == b[i] || OtherCase(a[i], b[i])
  }
}
