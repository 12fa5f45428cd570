/**
 Text helpers. A Go string is a sequence of bytes; the model writes it as a Dafny
 string whose characters stand for those bytes (character codes 0..255).
 */
module Text {
  import opened Encoding

  /** Length in bytes of the white-space rune that s starts with, or 0. */
  function SpaceLength(s: string): (n: nat)
    ensures n <= |s|
  {
    if |s| >= 1 && (9 <= s[0] as int <= 13 || s[0] == ' ') then 1
    else if |s| >= 2 && s[0] as int == 0xC2 && (s[1] as int == 0x85 || s[1] as int == 0xA0) then 2
    else if |s| >= 3 && IsWideSpace(s[0] as int, s[1] as int, s[2] as int) then 3
    else 0
  }

  /** The three-byte encodings of U+1680, U+2000..200A, U+2028, U+2029, U+202F, U+205F and U+3000. */
  predicate IsWideSpace(a: int, b: int, c: int) {
    || (a == 0xE1 && b == 0x9A && c == 0x80)
    || (a == 0xE2 && b == 0x80 && (0x80 <= c <= 0x8A || c == 0xA8 || c == 0xA9 || c == 0xAF))
    || (a == 0xE2 && b == 0x81 && c == 0x9F)
    || (a == 0xE3 && b == 0x80 && c == 0x80)
  }

  /** Upper case for ASCII letters. */
  function Upper(s: string): string {
    seq(|s|, i requires 0 <= i < |s| => if 'a' <= s[i] <= 'z' then (s[i] as int - 32) as char else s[i])
  }

  /** Nothing is left of s after trimming white space. */
  predicate Blank(s: string) {
    s == "" || (SpaceLength(s) > 0 && Blank(s[SpaceLength(s)..]))
  }

  /** The code points of Unicode's White_Space property. */
  predicate WhiteSpace(cp: nat) {
    cp in {0x9, 0xA, 0xB, 0xC, 0xD, 0x20, 0x85, 0xA0, 0x1680, 0x2028, 0x2029, 0x202F, 0x205F, 0x3000}
    || 0x2000 <= cp <= 0x200A
  }

  ghost predicate AllWhiteSpace(cps: seq<nat>) { forall i :: 0 <= i < |cps| ==> WhiteSpace(cps[i]) }

  lemma SpaceIsEncoded(s: string) returns (cp: nat)
    requires SpaceLength(s) > 0
    ensures WhiteSpace(cp) && Scalar(cp) && Encode(cp) == s[..SpaceLength(s)]
  {
    var n := SpaceLength(s);
    if n == 1 {
      cp := s[0] as int;
    } else if n == 2 {
      cp := s[1] as int;
    } else {
      cp := (s[0] as int - 0xE0) * 0x1000 + (s[1] as int - 0x80) * 0x40 + (s[2] as int - 0x80);
    }
  }

  lemma EncodedIsSpace(cp: nat, rest: string)
    requires WhiteSpace(cp)
    ensures Scalar(cp) && SpaceLength(Encode(cp) + rest) == |Encode(cp)|
  {
    var s := Encode(cp) + rest;
    assert forall i :: 0 <= i < |Encode(cp)| ==> s[i] == Encode(cp)[i];
  }

  lemma WhiteSpaceIsScalar(cps: seq<nat>)
    requires AllWhiteSpace(cps)
    ensures Scalars(cps)
  {
  }

  lemma {:induction false} SpacesAreBlank(cps: seq<nat>)
    requires AllWhiteSpace(cps)
    ensures Scalars(cps) && Blank(EncodeAll(cps))
  {
    WhiteSpaceIsScalar(cps);
    if cps != [] {
      hide SpaceLength, Encode;
      SpacesAreBlank(cps[1..]);
      EncodedIsSpace(cps[0], EncodeAll(cps[1..]));
      var s := EncodeAll(cps);
      assert s[|Encode(cps[0])|..] == EncodeAll(cps[1..]);
    }
  }

  lemma {:induction false} BlankIsSpaces(s: string) returns (cps: seq<nat>)
    requires Blank(s)
    ensures AllWhiteSpace(cps) && Scalars(cps) && s == EncodeAll(cps)
  {
    hide SpaceLength, WhiteSpace, Encode;
    cps := [];
    if s != "" {
      var n := SpaceLength(s);
      var cp := SpaceIsEncoded(s);
      var rest := BlankIsSpaces(s[n..]);
      cps := [cp] + rest;
      assert cps[1..] == rest && s == s[..n] + s[n..];
    }
  }

  /** A text is blank exactly if it is an encoding of nothing but white-space code points. */
  lemma BlankMeansSpaces(s: string)
    ensures Blank(s) <==> exists cps :: AllWhiteSpace(cps) && Scalars(cps) && s == EncodeAll(cps)
  {
    if Blank(s) {
      var cps := BlankIsSpaces(s);
    }
    if cps :| AllWhiteSpace(cps) && Scalars(cps) && s == EncodeAll(cps) {
      SpacesAreBlank(cps);
    }
  }

  /** Folding to upper case makes two texts equal exactly if they differ in the case of ASCII letters only. */
  lemma UpperForgetsCase(a: string, b: string)
    ensures Upper(a) == Upper(b) <==> SameButCase(a, b)
  {
    if Upper(a) == Upper(b) {
      assert |a| == |Upper(a)| && |b| == |Upper(b)|;
      forall i | 0 <= i < |a| ensures a[i] == b[i] || OtherCase(a[i], b[i]) {
        assert Upper(a)[i] == Upper(b)[i];
      }
    }
    if SameButCase(a, b) {
      forall i | 0 <= i < |a| ensures Upper(a)[i] == Upper(b)[i] {
      }
    }
  }

  /** A word of capitals is what another text folds to exactly if they differ in case only. */
  lemma FoldsTo(s: string, capitals: string)
    requires forall i :: 0 <= i < |capitals| ==> !('a' <= capitals[i] <= 'z')
    ensures Upper(s) == capitals <==> SameButCase(s, capitals)
  {
    UpperKeepsCapitals(capitals);
    UpperForgetsCase(s, capitals);
  }

  /** Text without lower-case letters is its own upper case. */
  lemma UpperKeepsCapitals(w: string)
    requires forall i :: 0 <= i < |w| ==> !('a' <= w[i] <= 'z')
    ensures Upper(w) == w
  {
  }
}
