/**
 What the guard on raw queries promises, said over literal words and characters: letter case
 never matters, and comments, escapes, second statements and unclosed quotes are refused.
 */
module GuardMeaning {
  import opened Wrappers
  import opened Encoding
  import opened QueryGuard
  import Sql
  import Text

  // ---------------------------------------------------------------- words

  ghost predicate ReadWord(w: string) {
    || SameButCase(w, "SELECT") || SameButCase(w, "WITH") || SameButCase(w, "SHOW") || SameButCase(w, "DESCRIBE")
    || SameButCase(w, "DESC") || SameButCase(w, "EXPLAIN")
  }

  ghost predicate ForbiddenWord(w: string) {
    || SameButCase(w, "INSERT") || SameButCase(w, "UPDATE") || SameButCase(w, "DELETE")
    || SameButCase(w, "REPLACE") || SameButCase(w, "CREATE") || SameButCase(w, "ALTER") || SameButCase(w, "DROP")
    || SameButCase(w, "TRUNCATE") || SameButCase(w, "CALL") || SameButCase(w, "DO") || SameButCase(w, "SET")
    || SameButCase(w, "COMMIT") || SameButCase(w, "ROLLBACK") || SameButCase(w, "START") || SameButCase(w, "BEGIN")
    || SameButCase(w, "GRANT") || SameButCase(w, "REVOKE") || SameButCase(w, "INTO") || SameButCase(w, "LOAD")
    || SameButCase(w, "LOCK") || SameButCase(w, "UNLOCK") || SameButCase(w, "FLUSH") || SameButCase(w, "RESET")
    || SameButCase(w, "RENAME") || SameButCase(w, "ANALYZE") || SameButCase(w, "OPTIMIZE")
    || SameButCase(w, "REPAIR")
  }

  lemma FoldedFirst(w: string)
    ensures Text.Upper(w) == "INSERT" <==> SameButCase(w, "INSERT")
    ensures Text.Upper(w) == "UPDATE" <==> SameButCase(w, "UPDATE")
    ensures Text.Upper(w) == "DELETE" <==> SameButCase(w, "DELETE")
    ensures Text.Upper(w) == "REPLACE" <==> SameButCase(w, "REPLACE")
    ensures Text.Upper(w) == "CREATE" <==> SameButCase(w, "CREATE")
    ensures Text.Upper(w) == "ALTER" <==> SameButCase(w, "ALTER")
    ensures Text.Upper(w) == "DROP" <==> SameButCase(w, "DROP")
    ensures Text.Upper(w) == "TRUNCATE" <==> SameButCase(w, "TRUNCATE")
    ensures Text.Upper(w) == "CALL" <==> SameButCase(w, "CALL")
  {
    hide Text.Upper, SameButCase;
    Text.FoldsTo(w, "INSERT");
    Text.FoldsTo(w, "UPDATE");
    Text.FoldsTo(w, "DELETE");
    Text.FoldsTo(w, "REPLACE");
    Text.FoldsTo(w, "CREATE");
    Text.FoldsTo(w, "ALTER");
    Text.FoldsTo(w, "DROP");
    Text.FoldsTo(w, "TRUNCATE");
    Text.FoldsTo(w, "CALL");
  }

  lemma FoldedNext(w: string)
    ensures Text.Upper(w) == "DO" <==> SameButCase(w, "DO")
    ensures Text.Upper(w) == "SET" <==> SameButCase(w, "SET")
    ensures Text.Upper(w) == "COMMIT" <==> SameButCase(w, "COMMIT")
    ensures Text.Upper(w) == "ROLLBACK" <==> SameButCase(w, "ROLLBACK")
    ensures Text.Upper(w) == "START" <==> SameButCase(w, "START")
    ensures Text.Upper(w) == "BEGIN" <==> SameButCase(w, "BEGIN")
    ensures Text.Upper(w) == "GRANT" <==> SameButCase(w, "GRANT")
    ensures Text.Upper(w) == "REVOKE" <==> SameButCase(w, "REVOKE")
    ensures Text.Upper(w) == "INTO" <==> SameButCase(w, "INTO")
  {
    hide Text.Upper, SameButCase;
    Text.FoldsTo(w, "DO");
    Text.FoldsTo(w, "SET");
    Text.FoldsTo(w, "COMMIT");
    Text.FoldsTo(w, "ROLLBACK");
    Text.FoldsTo(w, "START");
    Text.FoldsTo(w, "BEGIN");
    Text.FoldsTo(w, "GRANT");
    Text.FoldsTo(w, "REVOKE");
    Text.FoldsTo(w, "INTO");
  }

  lemma FoldedLast(w: string)
    ensures Text.Upper(w) == "LOAD" <==> SameButCase(w, "LOAD")
    ensures Text.Upper(w) == "LOCK" <==> SameButCase(w, "LOCK")
    ensures Text.Upper(w) == "UNLOCK" <==> SameButCase(w, "UNLOCK")
    ensures Text.Upper(w) == "FLUSH" <==> SameButCase(w, "FLUSH")
    ensures Text.Upper(w) == "RESET" <==> SameButCase(w, "RESET")
    ensures Text.Upper(w) == "RENAME" <==> SameButCase(w, "RENAME")
    ensures Text.Upper(w) == "ANALYZE" <==> SameButCase(w, "ANALYZE")
    ensures Text.Upper(w) == "OPTIMIZE" <==> SameButCase(w, "OPTIMIZE")
    ensures Text.Upper(w) == "REPAIR" <==> SameButCase(w, "REPAIR")
  {
    hide Text.Upper, SameButCase;
    Text.FoldsTo(w, "LOAD");
    Text.FoldsTo(w, "LOCK");
    Text.FoldsTo(w, "UNLOCK");
    Text.FoldsTo(w, "FLUSH");
    Text.FoldsTo(w, "RESET");
    Text.FoldsTo(w, "RENAME");
    Text.FoldsTo(w, "ANALYZE");
    Text.FoldsTo(w, "OPTIMIZE");
    Text.FoldsTo(w, "REPAIR");
  }

  lemma ReadWordsFold(w: string)
    ensures Text.Upper(w) in READ_WORDS <==> ReadWord(w)
  {
    hide Text.Upper, SameButCase;
    Text.FoldsTo(w, "SELECT");
    Text.FoldsTo(w, "WITH");
    Text.FoldsTo(w, "SHOW");
    Text.FoldsTo(w, "DESCRIBE");
    Text.FoldsTo(w, "DESC");
    Text.FoldsTo(w, "EXPLAIN");
  }

  lemma ForbiddenWordsFold(w: string)
    ensures Text.Upper(w) in FORBIDDEN_WORDS <==> ForbiddenWord(w)
  {
    hide Text.Upper, SameButCase;
    FoldedFirst(w);
    FoldedNext(w);
    FoldedLast(w);
  }

  /** The words of a text as they are written, outside quoted regions. */
  function BareTexts(ps: seq<Piece>): seq<string> {
    if ps == [] then [] else (if ps[0].Bare? then [ps[0].text] else []) + BareTexts(ps[1..])
  }

  lemma {:induction false} WordsAreFolded(ps: seq<Piece>)
    ensures |WordsOf(ps)| == |BareTexts(ps)|
    ensures forall i :: 0 <= i < |WordsOf(ps)| ==> WordsOf(ps)[i] == Text.Upper(BareTexts(ps)[i])
  {
    if ps != [] {
      WordsAreFolded(ps[1..]);
    }
  }

  /**
   A text of the grammar is accepted exactly if it is no longer than 8 MiB, its first word is
   one of six, and none of its words is one of twenty-seven, in whatever case they are written.
   */
  lemma WordsDecide(query: string, ps: seq<Piece>, tail: string)
    requires Decomposes(query, ps, tail)
    ensures Acceptable(query) <==>
            && |query| <= 8 * 1024 * 1024
            && BareTexts(ps) != [] && ReadWord(BareTexts(ps)[0])
            && forall i :: 0 <= i < |BareTexts(ps)| ==> !ForbiddenWord(BareTexts(ps)[i])
    ensures |query| > 8 * 1024 * 1024 ==> Verdict(query) == Some(TooLong)
    ensures |query| <= 8 * 1024 * 1024 && BareTexts(ps) == [] ==> Verdict(query) == Some(EmptyQuery)
    ensures |query| <= 8 * 1024 * 1024 && BareTexts(ps) != [] && !ReadWord(BareTexts(ps)[0]) ==>
              Verdict(query) == Some(NotARead)
  {
    hide Decomposes, Read, ReadWord, ForbiddenWord, Text.Upper;
    ReadsOnlyThis(query, ps, tail);
    WordsAreFolded(ps);
    VerdictIsAcceptance(query);
    NoneForbidden(WordsOf(ps));
    if BareTexts(ps) != [] {
      ReadWordsFold(BareTexts(ps)[0]);
    }
    forall i | 0 <= i < |BareTexts(ps)|
      ensures WordsOf(ps)[i] in FORBIDDEN_WORDS <==> ForbiddenWord(BareTexts(ps)[i])
    {
      ForbiddenWordsFold(BareTexts(ps)[i]);
    }
  }

  lemma ReadsOnlyThis(query: string, ps: seq<Piece>, tail: string)
    requires Decomposes(query, ps, tail)
    ensures Read(query) == Ok((ps, tail)) && ProperList(ps) && Ending(tail) && query == Rendered(ps) + tail
  {
    ReadComplete(ps, tail);
  }

  // ---------------------------------------------------------------- letter case

  lemma {:induction false} WordLengthAlike(s: string, t: string)
    requires SameButCase(s, t)
    ensures Sql.WordLength(s) == Sql.WordLength(t)
  {
    if s != "" {
      WordLengthAlike(s[1..], t[1..]);
    }
  }

  lemma {:induction false} BlankAlike(s: string, t: string)
    requires SameButCase(s, t)
    ensures Text.Blank(s) <==> Text.Blank(t)
  {
    assert Text.SpaceLength(s) == Text.SpaceLength(t);
    var n := Text.SpaceLength(s);
    if n > 0 {
      hide Text.SpaceLength;
      BlankAlike(s[n..], t[n..]);
    }
  }

  lemma {:induction false} RegionAlike(s: string, t: string, quote: char)
    requires SameButCase(s, t) && IsQuote(quote)
    ensures ReadRegion(s, quote).Err? ==> ReadRegion(t, quote) == ReadRegion(s, quote)
    ensures ReadRegion(s, quote).Ok? ==>
              ReadRegion(t, quote).Ok? && SameButCase(ReadRegion(s, quote).value.1, ReadRegion(t, quote).value.1)
  {
    if s != "" && !Escaping(s[0]) && !(s[0] == quote && (|s| == 1 || s[1] != quote)) {
      RegionAlike(if s[0] == quote then s[2..] else s[1..], if s[0] == quote then t[2..] else t[1..], quote);
    }
  }

  /** Two readings with the same refusal, or with the same words up to case. */
  ghost predicate SameReading(a: Reading, b: Reading) {
    if a.Err? then b == a else b.Ok? && WordsOf(a.value.0) == WordsOf(b.value.0)
  }

  lemma BehindAlike(p: Piece, q: Piece, a: Reading, b: Reading)
    requires SameReading(a, b) && (p.Bare? <==> q.Bare?) && (p.Bare? ==> Text.Upper(p.text) == Text.Upper(q.text))
    ensures SameReading(Behind(p, a), Behind(q, b))
  {
    if a.Ok? {
      assert ([p] + a.value.0)[1..] == a.value.0 && ([q] + b.value.0)[1..] == b.value.0;
    }
  }

  lemma SameKind(s: string, t: string)
    requires SameButCase(s, t) && s != ""
    ensures StartsBanned(s) <==> StartsBanned(t)
    ensures s[0] == ';' <==> t[0] == ';'
    ensures IsQuote(s[0]) <==> IsQuote(t[0])
    ensures IsQuote(s[0]) || s[0] == ';' ==> s[0] == t[0]
    ensures Sql.IsLetter(s[0]) <==> Sql.IsLetter(t[0])
  {
    if |s| >= 2 {
      assert s[..2] == [s[0], s[1]] && t[..2] == [t[0], t[1]];
    }
  }

  lemma {:induction false} ReadAlike(s: string, t: string)
    requires SameButCase(s, t)
    ensures SameReading(Read(s), Read(t))
    decreases |s|
  {
    hide Read, ReadRegion, Text.Blank, Text.Upper, WordsOf, StartsBanned, IsQuote, Sql.IsLetter, Sql.WordLength, Behind;
    StepLast(s);
    StepLast(t);
    if s != "" {
      SameKind(s, t);
      SameTails(s, t, 1);
      BlankAlike(s[1..], t[1..]);
      if StartsBanned(s) || s[0] == ';' {
        NoWords(s, t);
      } else if IsQuote(s[0]) {
        RegionAlike(s[1..], t[1..], s[0]);
        if ReadRegion(s[1..], s[0]).Ok? {
          var (x, rest) := ReadRegion(s[1..], s[0]).value;
          var (y, more) := ReadRegion(t[1..], s[0]).value;
          StepRegion(s, x, rest);
          StepRegion(t, y, more);
          ReadAlike(rest, more);
          BehindAlike(Region(s[0], x), Region(s[0], y), Read(rest), Read(more));
        }
      } else if Sql.IsLetter(s[0]) {
        var n := Sql.WordLength(s);
        WordLengthAlike(s, t);
        StepWord(s, n);
        StepWord(t, n);
        SameTails(s, t, n);
        ReadAlike(s[n..], t[n..]);
        Text.UpperForgetsCase(s[..n], t[..n]);
        BehindAlike(Bare(s[..n]), Bare(t[..n]), Read(s[n..]), Read(t[n..]));
      } else {
        StepOther(s);
        StepOther(t);
        ReadAlike(s[1..], t[1..]);
        BehindAlike(Other(s[0]), Other(t[0]), Read(s[1..]), Read(t[1..]));
      }
    }
  }

  lemma SameTails(s: string, t: string, n: nat)
    requires SameButCase(s, t) && n <= |s|
    ensures SameButCase(s[n..], t[n..]) && SameButCase(s[..n], t[..n])
  {
  }

  lemma NoWords(s: string, t: string)
    requires s != "" && (StartsBanned(s) || s[0] == ';') && t != ""
    ensures WordsOf([]) == []
  {
  }

  /** Changing the case of letters anywhere in a text never changes whether it is accepted. */
  lemma CaseIsIrrelevant(query: string, other: string)
    requires SameButCase(query, other)
    ensures Verdict(query) == Verdict(other)
    ensures Acceptable(query) <==> Acceptable(other)
  {
    hide Read, WordsOf, Acceptable, WordsVerdict;
    ReadAlike(query, other);
    VerdictIsAcceptance(query);
    VerdictIsAcceptance(other);
  }

  // ---------------------------------------------------------------- refused texts

  predicate Unprintable(c: char) { c as int == 0 || c == '\\' }

  ghost predicate NoneOf(s: string) { forall i :: 0 <= i < |s| ==> !Unprintable(s[i]) }

  lemma {:induction false} BlankHasNoMarks(s: string)
    requires Text.Blank(s)
    ensures forall i :: 0 <= i < |s| ==> s[i] as int != 0 && !(33 <= s[i] as int <= 126)
  {
    if s != "" {
      var n := Text.SpaceLength(s);
      assert forall i :: 0 <= i < n ==> s[i] as int != 0 && !(33 <= s[i] as int <= 126);
      hide Text.SpaceLength;
      BlankHasNoMarks(s[n..]);
      assert s == s[..n] + s[n..];
    }
  }

  lemma {:induction false} EncodedHasNone(content: string, quote: char)
    requires NoneOf(content) && IsQuote(quote)
    ensures NoneOf(Encoded(content, quote))
  {
    if content != "" {
      EncodedHasNone(content[1..], quote);
    }
  }

  lemma WrittenHasNone(p: Piece)
    requires Proper(p)
    ensures NoneOf(Written(p))
  {
    if p.Region? {
      EncodedHasNone(p.content, p.quote);
    }
  }

  lemma {:induction false} RenderedHasNone(ps: seq<Piece>)
    requires ProperList(ps)
    ensures NoneOf(Rendered(ps))
  {
    if ps != [] {
      assert ProperList(ps[1..]) by {
        assert forall i :: 0 <= i < |ps| - 1 ==> ps[1..][i] == ps[i + 1];
      }
      hide Written, Proper, Unprintable;
      WrittenHasNone(ps[0]);
      RenderedHasNone(ps[1..]);
    }
  }

  /** No accepted text holds a backslash or a NUL, in a quoted region or anywhere else. */
  lemma NoEscapesAccepted(query: string)
    requires Acceptable(query)
    ensures forall i :: 0 <= i < |query| ==> query[i] != '\\' && query[i] as int != 0
  {
    hide ProperList, Rendered, WordsOf, Text.Blank;
    var ps, tail :| Decomposes(query, ps, tail) && Allowed(WordsOf(ps));
    RenderedHasNone(ps);
    if tail != "" {
      BlankHasNoMarks(tail[1..]);
      assert tail == [tail[0]] + tail[1..];
    }
  }

  lemma RefusedAfter(ps: seq<Piece>, rest: string)
    requires ProperList(ps) && (ps != [] ==> EndsBefore(ps[|ps| - 1], rest)) && Read(rest).Err?
    ensures !Acceptable(Rendered(ps) + rest)
    ensures |Rendered(ps) + rest| <= MAX_QUERY_BYTES ==> Verdict(Rendered(ps) + rest) == Some(Read(rest).error)
  {
    hide Read, Acceptable, Rendered;
    ReadPrefix(ps, rest);
    VerdictIsAcceptance(Rendered(ps) + rest);
  }

  /** A comment outside quoted regions is refused, whatever comes before and after it. */
  lemma CommentsAreRefused(ps: seq<Piece>, rest: string)
    requires ProperList(ps) && (ps != [] ==> EndsBefore(ps[|ps| - 1], rest))
    requires |rest| > 0 && (rest[0] == '#' || (|rest| >= 2 && (rest[..2] == "--" || rest[..2] == "/*")))
    ensures !Acceptable(Rendered(ps) + rest)
    ensures |Rendered(ps) + rest| <= 8 * 1024 * 1024 ==> Verdict(Rendered(ps) + rest) == Some(Banned)
  {
    RefusedAfter(ps, rest);
  }

  /** Anything visible after the first semicolon outside quoted regions is refused. */
  lemma SecondStatementIsRefused(ps: seq<Piece>, more: string, i: nat)
    requires ProperList(ps) && i < |more| && 33 <= more[i] as int <= 126
    ensures !Acceptable(Rendered(ps) + (";" + more))
    ensures |Rendered(ps) + (";" + more)| <= 8 * 1024 * 1024 ==>
              Verdict(Rendered(ps) + (";" + more)) == Some(MultipleStatements)
  {
    var rest := ";" + more;
    assert rest[1..] == more && (|rest| >= 2 ==> rest[..2] == [';', more[0]]);
    if Text.Blank(more) {
      BlankHasNoMarks(more);
    }
    SemicolonEnds(ps, rest);
    RefusedAfter(ps, rest);
  }

  lemma SemicolonEnds(ps: seq<Piece>, rest: string)
    requires ProperList(ps) && rest != "" && rest[0] == ';'
    ensures ps != [] ==> EndsBefore(ps[|ps| - 1], rest)
  {
  }

  /** A quoted region that never closes is refused. */
  lemma UnclosedQuoteIsRefused(ps: seq<Piece>, quote: char, content: string)
    requires ProperList(ps) && quote in {'\'', '"', '`'} && quote !in content
    requires ps != [] ==> EndsBefore(ps[|ps| - 1], [quote] + content)
    ensures !Acceptable(Rendered(ps) + ([quote] + content))
    ensures Clean(content) && |Rendered(ps) + ([quote] + content)| <= 8 * 1024 * 1024 ==>
              Verdict(Rendered(ps) + ([quote] + content)) == Some(Unterminated)
  {
    var rest := [quote] + content;
    assert rest[1..] == content;
    NeverCloses(content, quote);
    NotBanned(rest);
    StepLast(rest);
    RefusedAfter(ps, rest);
  }

  lemma {:induction false} NeverCloses(content: string, quote: char)
    requires quote !in content
    ensures ReadRegion(content, quote).Err?
    ensures Clean(content) ==> ReadRegion(content, quote) == Err(Unterminated)
  {
    if content != "" {
      NeverCloses(content[1..], quote);
    }
  }

  /** The characters of words, by their ASCII codes: letters, the underscore and, after the first, digits. */
  lemma WordCharacters(c: char)
    ensures Sql.IsLetter(c) <==> 65 <= c as int <= 90 || 97 <= c as int <= 122 || c as int == 95
    ensures Sql.IsWordChar(c) <==> Sql.IsLetter(c) || 48 <= c as int <= 57
  {
  }
}
