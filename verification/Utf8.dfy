/** UTF-8 validity as in section 4 of RFC 3629, and the two ways in which the program cuts a text short. */
module Utf8 {
  import opened Encoding

  predicate InRange(s: string, i: nat, low: int, high: int) {
    i < |s| && low <= s[i] as int <= high
  }

  predicate Tail(s: string, i: nat) { InRange(s, i, 0x80, 0xBF) }

  /** Length of the well-formed rune that s starts with, or 0 if there is none. */
  function RuneLength(s: string): (n: nat)
    ensures n <= |s| && n <= 4
    ensures forall i :: 1 <= i < n ==> Tail(s, i)
    ensures n > 0 ==> RuneStart(s[0])
  {
    if InRange(s, 0, 0, 0x7F) then 1
    else if InRange(s, 0, 0xC2, 0xDF) && Tail(s, 1) then 2
    else if InRange(s, 0, 0xE0, 0xE0) && InRange(s, 1, 0xA0, 0xBF) && Tail(s, 2) then 3
    else if InRange(s, 0, 0xE1, 0xEC) && Tail(s, 1) && Tail(s, 2) then 3
    else if InRange(s, 0, 0xED, 0xED) && InRange(s, 1, 0x80, 0x9F) && Tail(s, 2) then 3
    else if InRange(s, 0, 0xEE, 0xEF) && Tail(s, 1) && Tail(s, 2) then 3
    else if InRange(s, 0, 0xF0, 0xF0) && InRange(s, 1, 0x90, 0xBF) && Tail(s, 2) && Tail(s, 3) then 4
    else if InRange(s, 0, 0xF1, 0xF3) && Tail(s, 1) && Tail(s, 2) && Tail(s, 3) then 4
    else if InRange(s, 0, 0xF4, 0xF4) && InRange(s, 1, 0x80, 0x8F) && Tail(s, 2) && Tail(s, 3) then 4
    else 0
  }

  predicate Valid(s: string) {
    s == "" || (RuneLength(s) > 0 && Valid(s[RuneLength(s)..]))
  }

  /** The byte is not a continuation byte. */
  predicate RuneStart(c: char) { !(0x80 <= c as int <= 0xBF) }

  /** A prefix that keeps the first rune whole starts with the same rune; a shorter one starts with none. */
  lemma RuneOfPrefix(s: string, k: nat)
    requires RuneLength(s) > 0 && k <= |s|
    ensures RuneLength(s[..k]) == if k >= RuneLength(s) then RuneLength(s) else 0
  {
    assert forall i :: 0 <= i < k ==> s[..k][i] == s[i];
  }

  /** In valid text, cutting is safe exactly at the end and before the first byte of a rune. */
  lemma {:induction false} ValidPrefix(s: string, k: nat)
    requires Valid(s) && k <= |s|
    ensures Valid(s[..k]) <==> k == |s| || RuneStart(s[k])
    decreases |s|
  {
    if s != "" && k > 0 {
      var n := RuneLength(s);
      RuneOfPrefix(s, k);
      if k >= n {
        ValidPrefix(s[n..], k - n);
        assert s[..k][n..] == s[n..][..k - n];
      }
    }
  }

  /** In valid text, one of any four consecutive positions starts a rune. */
  lemma {:induction false} StartIsNear(s: string, k: nat) returns (j: nat)
    requires Valid(s) && k < |s|
    ensures j <= k <= j + 3 && RuneStart(s[j])
    decreases |s|
  {
    var n := RuneLength(s);
    if k < n {
      j := 0;
    } else {
      j := StartIsNear(s[n..], k - n);
      j := j + n;
    }
  }

  /** The last position up to the limit where a rune starts (or 0). */
  function LastStart(s: string, limit: nat): (k: nat)
    requires limit < |s|
    ensures k <= limit
    ensures k == 0 || RuneStart(s[k])
    ensures forall j :: k < j <= limit ==> !RuneStart(s[j])
  {
    if limit == 0 || RuneStart(s[limit]) then limit else LastStart(s, limit - 1)
  }

  /** The cut keeps the longest valid prefix within the limit and drops at most three bytes. */
  lemma CutIsMaximal(s: string, limit: nat)
    requires Valid(s) && limit < |s|
    ensures Valid(s[..LastStart(s, limit)])
    ensures forall k :: LastStart(s, limit) < k <= limit ==> !Valid(s[..k])
    ensures limit - LastStart(s, limit) <= 3
  {
    var cut := LastStart(s, limit);
    ValidPrefix(s, cut);
    assert cut == 0 ==> s[..cut] == "";
    forall k | cut < k <= limit ensures !Valid(s[..k]) {
      ValidPrefix(s, k);
    }
    var j := StartIsNear(s, limit);
  }

  /** Where a cell preview is cut: back from the limit to the start of a rune. */
  method PreviewCut(s: string, limit: nat) returns (end: nat)
    requires limit < |s|
    ensures end == LastStart(s, limit)
    ensures Valid(s) ==> Valid(s[..end]) && forall k :: end < k <= limit ==> !Valid(s[..k])
  {
    end := limit;
    while end > 0 && !RuneStart(s[end])
      invariant end <= limit && LastStart(s, end) == LastStart(s, limit)
    {
      end := end - 1;
    }
    if Valid(s) {
      CutIsMaximal(s, limit);
    }
  }

  lemma EmptyIsValid()
    ensures Valid("")
  {
  }

  /** How an oversized value is cut: shortened until what is left is valid. It is the cut that the preview makes. */
  method ShrinkUntilValid(s: string, limit: nat) returns (kept: string)
    requires Valid(s) && limit < |s|
    ensures kept == s[..LastStart(s, limit)]
    ensures Valid(kept) && |kept| <= limit <= |kept| + 3
    ensures forall k :: |kept| < k <= limit ==> !Valid(s[..k])
  {
    hide Valid, LastStart;
    EmptyIsValid();
    kept := s[..limit];
    while !Valid(kept)
      invariant |kept| <= limit && kept == s[..|kept|]
      invariant forall k :: |kept| < k <= limit ==> !Valid(s[..k])
      decreases |kept|
    {
      assert kept[..|kept| - 1] == s[..|kept| - 1];
      kept := kept[..|kept| - 1];
    }
    CutIsMaximal(s, limit);
    var cut := LastStart(s, limit);
    assert s[..cut] == kept;
  }

  /** The well-formed byte sequences of section 4 of RFC 3629. */
  predicate WellFormedBytes(e: string) {
    || (|e| == 1 && InRange(e, 0, 0, 0x7F))
    || (|e| == 2 && InRange(e, 0, 0xC2, 0xDF) && Tail(e, 1))
    || (|e| == 3 && InRange(e, 0, 0xE0, 0xEF) && Tail(e, 1) && Tail(e, 2)
        && (e[0] as int == 0xE0 ==> e[1] as int >= 0xA0) && (e[0] as int == 0xED ==> e[1] as int <= 0x9F))
    || (|e| == 4 && InRange(e, 0, 0xF0, 0xF4) && Tail(e, 1) && Tail(e, 2) && Tail(e, 3)
        && (e[0] as int == 0xF0 ==> e[1] as int >= 0x90) && (e[0] as int == 0xF4 ==> e[1] as int <= 0x8F))
  }

  lemma EncodedIsWellFormed(cp: nat)
    requires Scalar(cp)
    ensures WellFormedBytes(Encode(cp))
  {
  }

  lemma WellFormedIsRune(e: string, rest: string)
    requires WellFormedBytes(e)
    ensures RuneLength(e + rest) == |e|
  {
    assert forall i :: 0 <= i < |e| ==> (e + rest)[i] == e[i];
  }

  lemma EncodedIsRune(cp: nat, rest: string)
    requires Scalar(cp)
    ensures RuneLength(Encode(cp) + rest) == |Encode(cp)|
  {
    hide Encode, RuneLength, WellFormedBytes;
    EncodedIsWellFormed(cp);
    WellFormedIsRune(Encode(cp), rest);
  }

  lemma TwoBytes(a: int, b: int) returns (cp: nat)
    requires 0xC2 <= a <= 0xDF && 0x80 <= b <= 0xBF
    ensures Scalar(cp) && Encode(cp) == [a as char, b as char]
  {
    cp := (a - 0xC0) * 0x40 + (b - 0x80);
    assert cp / 0x40 == a - 0xC0 && cp % 0x40 == b - 0x80;
  }

  lemma ThreeBytes(a: int, b: int, c: int) returns (cp: nat)
    requires 0xE0 <= a <= 0xEF && 0x80 <= b <= 0xBF && 0x80 <= c <= 0xBF
    requires (a == 0xE0 ==> b >= 0xA0) && (a == 0xED ==> b <= 0x9F)
    ensures Scalar(cp) && Encode(cp) == [a as char, b as char, c as char]
  {
    cp := (a - 0xE0) * 0x1000 + (b - 0x80) * 0x40 + (c - 0x80);
    assert cp / 0x1000 == a - 0xE0 && cp / 0x40 == (a - 0xE0) * 0x40 + (b - 0x80) && cp % 0x40 == c - 0x80;
  }

  lemma SixBits(x: nat, y: nat)
    requires y < 0x40
    ensures (x * 0x40 + y) / 0x40 == x && (x * 0x40 + y) % 0x40 == y
  {
  }

  lemma Quarters(cp: nat)
    ensures cp / 0x1000 == cp / 0x40 / 0x40 && cp / 0x4_0000 == cp / 0x40 / 0x40 / 0x40
  {
  }

  lemma FourBytes(a: int, b: int, c: int, d: int) returns (cp: nat)
    requires 0xF0 <= a <= 0xF4 && 0x80 <= b <= 0xBF && 0x80 <= c <= 0xBF && 0x80 <= d <= 0xBF
    requires (a == 0xF0 ==> b >= 0x90) && (a == 0xF4 ==> b <= 0x8F)
    ensures Scalar(cp) && Encode(cp) == [a as char, b as char, c as char, d as char]
  {
    var high, low := (a - 0xF0) * 0x40 + (b - 0x80), (c - 0x80) * 0x40 + (d - 0x80);
    cp := high * 0x1000 + low;
    assert 0x10 <= high < 0x110 && 0 <= low < 0x1000;
    SixBits(high * 0x40 + (c - 0x80), d - 0x80);
    SixBits(high, c - 0x80);
    SixBits(a - 0xF0, b - 0x80);
    assert cp / 0x40 == high * 0x40 + (c - 0x80);
    Quarters(cp);
  }

  lemma RuneIsEncoded(s: string) returns (cp: nat)
    requires RuneLength(s) > 0
    ensures Scalar(cp) && Encode(cp) == s[..RuneLength(s)]
  {
    hide Encode;
    var n := RuneLength(s);
    if n == 1 {
      cp := s[0] as int;
      OneByte(cp);
    } else if n == 2 {
      cp := TwoBytes(s[0] as int, s[1] as int);
    } else if n == 3 {
      cp := ThreeBytes(s[0] as int, s[1] as int, s[2] as int);
    } else {
      cp := FourBytes(s[0] as int, s[1] as int, s[2] as int, s[3] as int);
    }
  }

  lemma OneByte(cp: nat)
    requires cp < 0x80
    ensures Encode(cp) == [cp as char]
  {
  }

  lemma {:induction false} EncodedIsValid(cps: seq<nat>)
    requires Scalars(cps)
    ensures Valid(EncodeAll(cps))
  {
    if cps != [] {
      hide RuneLength, Encode;
      EncodedIsValid(cps[1..]);
      EncodedIsRune(cps[0], EncodeAll(cps[1..]));
      assert EncodeAll(cps)[|Encode(cps[0])|..] == EncodeAll(cps[1..]);
    }
  }

  lemma {:induction false} ValidIsEncoded(s: string) returns (cps: seq<nat>)
    requires Valid(s)
    ensures Scalars(cps) && s == EncodeAll(cps)
  {
    hide RuneLength, Encode;
    cps := [];
    if s != "" {
      var n := RuneLength(s);
      var cp := RuneIsEncoded(s);
      var rest := ValidIsEncoded(s[n..]);
      cps := [cp] + rest;
      assert cps[1..] == rest && s == s[..n] + s[n..];
    }
  }

  /** A text is valid exactly if it encodes some sequence of Unicode scalar values. */
  lemma ValidMeansEncoded(s: string)
    ensures Valid(s) <==> exists cps :: Scalars(cps) && s == EncodeAll(cps)
  {
    if Valid(s) {
      var cps := ValidIsEncoded(s);
    }
    if cps :| Scalars(cps) && s == EncodeAll(cps) {
      EncodedIsValid(cps);
    }
  }
}
