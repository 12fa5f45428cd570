/** LIKE patterns, as in section 8.5 of ISO/IEC 9075:1992, and the escaping of literal text. */
module Like {

  /** Whether text matches the pattern, with `escape` announcing a literal character. */
  predicate Matches(text: string, pattern: string, escape: char)
    decreases |pattern| + |text|
  {
    if pattern == "" then text == ""
    else if pattern[0] == escape then
      |pattern| >= 2 && text != "" && text[0] == pattern[1] && Matches(text[1..], pattern[2..], escape)
    else if pattern[0] == '%' then
      Matches(text, pattern[1..], escape) || (text != "" && Matches(text[1..], pattern, escape))
    else text != "" && (pattern[0] == '_' || text[0] == pattern[0]) && Matches(text[1..], pattern[1..], escape)
  }

  /** Puts '!' before every character that a pattern would not take literally. */
  function Escape(value: string): string {
    if value == "" then ""
    else (if value[0] == '!' || value[0] == '%' || value[0] == '_' then ['!', value[0]] else [value[0]])
         + Escape(value[1..])
  }

  predicate OccursAt(text: string, value: string, i: int) {
    0 <= i <= |text| - |value| && text[i..i + |value|] == value
  }

  predicate Contains(text: string, value: string) {
    exists i :: 0 <= i <= |text| && OccursAt(text, value, i)
  }

  /** An escaped value followed by '%' matches exactly the texts that start with the value. */
  lemma {:induction false} EscapedPrefix(text: string, value: string)
    ensures Matches(text, Escape(value) + "%", '!') <==> value <= text
  {
    if value == "" {
      assert Escape(value) + "%" == "%";
      AnythingMatches(text);
    } else {
      var first, rest := value[0], Escape(value[1..]) + "%";
      if first == '!' || first == '%' || first == '_' {
        assert Escape(value) + "%" == ['!', first] + rest;
        assert (Escape(value) + "%")[2..] == rest;
      } else {
        assert Escape(value) + "%" == [first] + rest;
        assert (Escape(value) + "%")[1..] == rest;
      }
      if text != "" && text[0] == first {
        EscapedPrefix(text[1..], value[1..]);
        assert value <= text <==> value[1..] <= text[1..] by {
          if value[1..] <= text[1..] {
            assert text == [first] + text[1..] && value == [first] + value[1..];
          }
        }
      }
    }
  }

  lemma {:induction false} AnythingMatches(text: string)
    ensures Matches(text, "%", '!')
  {
    if text != "" {
      AnythingMatches(text[1..]);
    }
  }

  /** The pattern built for a "contains" filter matches a text exactly when the value occurs in it literally. */
  lemma {:induction false} LiteralContains(text: string, value: string)
    ensures Matches(text, "%" + Escape(value) + "%", '!') <==> Contains(text, value)
  {
    var pattern, tail := "%" + Escape(value) + "%", Escape(value) + "%";
    assert pattern == "%" + tail && pattern[1..] == tail;
    EscapedPrefix(text, value);
    ContainsNext(text, value);
    if text != "" {
      LiteralContains(text[1..], value);
    }
  }

  /** A value occurs at the start of a text or further on. */
  lemma ContainsNext(text: string, value: string)
    ensures Contains(text, value) <==> value <= text || (text != "" && Contains(text[1..], value))
  {
    if value <= text {
      assert OccursAt(text, value, 0);
    }
    if text != "" && Contains(text[1..], value) {
      var i :| 0 <= i <= |text[1..]| && OccursAt(text[1..], value, i);
      assert text[1..][i..i + |value|] == text[i + 1..i + 1 + |value|];
      assert OccursAt(text, value, i + 1);
    }
    if Contains(text, value) {
      var i :| 0 <= i <= |text| && OccursAt(text, value, i);
      if i > 0 {
        assert text[1..][i - 1..i - 1 + |value|] == text[i..i + |value|];
        assert OccursAt(text[1..], value, i - 1);
      }
    }
  }

  /** Escaping works character by character, and only on the three characters that patterns treat specially. */
  lemma EscapeMarks(a: string, c: char, b: string)
    ensures Escape("") == "" && Escape([c]) == if c in "!%_" then ['!', c] else [c]
    ensures Escape(a + b) == Escape(a) + Escape(b)
  {
    assert Escape([c]) == (if c == '!' || c == '%' || c == '_' then ['!', c] else [c]) + Escape([c][1..]);
    EscapeAppends(a, b);
  }

  lemma EscapeFirst(s: string)
    requires s != ""
    ensures Escape(s) == Escape([s[0]]) + Escape(s[1..])
  {
    assert [s[0]][1..] == "" && Escape("") == "";
  }

  lemma {:induction false} EscapeAppends(a: string, b: string)
    ensures Escape(a + b) == Escape(a) + Escape(b)
  {
    if a == "" {
      assert a + b == b;
    } else {
      hide Escape;
      EscapeFirst(a);
      EscapeFirst(a + b);
      assert (a + b)[1..] == a[1..] + b;
      EscapeAppends(a[1..], b);
    }
  }

  /** One pattern character at a time: any text, any one character, a character itself, an announced character. */
  lemma {:induction false} PatternCharacters(text: string, c: char)
    ensures Matches(text, "%", '!')
    ensures Matches(text, "_", '!') <==> |text| == 1
    ensures c !in "%_!" ==> (Matches(text, [c], '!') <==> text == [c])
    ensures Matches(text, ['!', c], '!') <==> text == [c]
  {
    AnythingMatches(text);
    var single, escaped := [c], ['!', c];
    assert single[1..] == "" && escaped[2..] == "" && "_"[1..] == "";
    if text != "" {
      assert text == [text[0]] + text[1..];
    }
  }
}
