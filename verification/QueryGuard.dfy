/** The lexical guard on raw read queries: a grammar of acceptable texts, and the scanner that decides it. */
module QueryGuard {
  import opened Wrappers
  import opened Sql
  import Text

  const MAX_QUERY_BYTES := 0x80_0000

  datatype GuardError =
    | TooLong | Banned | MultipleStatements | Unterminated | EmptyQuery | NotARead
    | Forbidden(word: string)

  const READ_WORDS := {"SELECT", "WITH", "SHOW", "DESCRIBE", "DESC", "EXPLAIN"}

  const FORBIDDEN_WORDS := {
    "INSERT", "UPDATE", "DELETE", "REPLACE", "CREATE", "ALTER", "DROP", "TRUNCATE", "CALL", "DO", "SET", "COMMIT",
    "ROLLBACK", "START", "BEGIN", "GRANT", "REVOKE", "INTO", "LOAD", "LOCK", "UNLOCK", "FLUSH", "RESET", "RENAME",
    "ANALYZE", "OPTIMIZE", "REPAIR"}

  // ---------------------------------------------------------------- the grammar

  /** A quoted region with its content, a word, or one other character. */
  datatype Piece = Region(quote: char, content: string) | Bare(text: string) | Other(c: char)

  predicate IsQuote(c: char) { c == '\'' || c == '"' || c == '`' }

  predicate Escaping(c: char) { c == '\\' || c as int == 0 }

  predicate Clean(content: string) { forall i :: 0 <= i < |content| ==> !Escaping(content[i]) }

  predicate IsBareWord(w: string) {
    w != "" && IsLetter(w[0]) && forall i :: 0 <= i < |w| ==> IsWordChar(w[i])
  }

  predicate Proper(p: Piece) {
    match p
    case Region(quote, content) => IsQuote(quote) && Clean(content)
    case Bare(text) => IsBareWord(text)
    case Other(c) => !Escaping(c) && c != '#' && c != ';' && !IsQuote(c) && !IsLetter(c)
  }

  /** Two pieces that stay two pieces when written next to each other, and do not start a comment. */
  predicate MayFollow(p: Piece, next: Piece) {
    match p
    case Region(quote, _) => !(next.Region? && next.quote == quote)
    case Bare(_) => !next.Bare? && !(next.Other? && IsWordChar(next.c))
    case Other(c) => !(c == '/' && next == Other('*')) && !(c == '-' && next == Other('-'))
  }

  predicate ProperList(ps: seq<Piece>) {
    && (forall i :: 0 <= i < |ps| ==> Proper(ps[i]))
    && (forall i :: 0 <= i < |ps| - 1 ==> MayFollow(ps[i], ps[i + 1]))
  }

  /** A quote inside a region is written twice. */
  function Encoded(content: string, quote: char): string {
    if content == "" then ""
    else (if content[0] == quote then [quote, quote] else [content[0]]) + Encoded(content[1..], quote)
  }

  function Written(p: Piece): string {
    match p
    case Region(quote, content) => [quote] + Encoded(content, quote) + [quote]
    case Bare(text) => text
    case Other(c) => [c]
  }

  function Rendered(ps: seq<Piece>): string {
    if ps == [] then "" else Written(ps[0]) + Rendered(ps[1..])
  }

  /** Nothing, or the first top-level semicolon with only white space after it. */
  predicate Ending(tail: string) { tail == "" || (tail[0] == ';' && Text.Blank(tail[1..])) }

  ghost predicate Decomposes(query: string, ps: seq<Piece>, tail: string) {
    ProperList(ps) && Ending(tail) && query == Rendered(ps) + tail
  }

  function WordsOf(ps: seq<Piece>): seq<string> {
    if ps == [] then []
    else (if ps[0].Bare? then [Text.Upper(ps[0].text)] else []) + WordsOf(ps[1..])
  }

  predicate Allowed(words: seq<string>) {
    words != [] && words[0] in READ_WORDS && forall i :: 0 <= i < |words| ==> words[i] !in FORBIDDEN_WORDS
  }

  /** The texts that the guard lets through. */
  ghost predicate Acceptable(query: string) {
    |query| <= MAX_QUERY_BYTES && exists ps, tail :: Decomposes(query, ps, tail) && Allowed(WordsOf(ps))
  }

  // ---------------------------------------------------------------- reading a text

  type Reading = Result<(seq<Piece>, string), GuardError>

  predicate StartsBanned(s: string)
    requires s != ""
  {
    Escaping(s[0]) || s[0] == '#' || (|s| >= 2 && (s[..2] == "/*" || s[..2] == "--"))
  }

  /** The content of a region whose opening quote has been read, and the text after it. */
  function ReadRegion(s: string, quote: char): (r: Result<(string, string), GuardError>)
    ensures r.Ok? ==> |r.value.1| < |s|
  {
    if s == "" then Err(Unterminated)
    else if Escaping(s[0]) then Err(Banned)
    else if s[0] == quote && (|s| == 1 || s[1] != quote) then Ok(("", s[1..]))
    else
      var r := ReadRegion(if s[0] == quote then s[2..] else s[1..], quote);
      if r.Err? then r else Ok(([s[0]] + r.value.0, r.value.1))
  }

  function Behind(p: Piece, r: Reading): Reading {
    if r.Err? then r else Ok(([p] + r.value.0, r.value.1))
  }

  function Read(s: string): Reading
    decreases |s|
  {
    if s == "" then Ok(([], ""))
    else if StartsBanned(s) then Err(Banned)
    else if s[0] == ';' then (if Text.Blank(s[1..]) then Ok(([], s)) else Err(MultipleStatements))
    else if IsQuote(s[0]) then
      var r := ReadRegion(s[1..], s[0]);
      if r.Err? then Err(r.error) else Behind(Region(s[0], r.value.0), Read(r.value.1))
    else if IsLetter(s[0]) then Behind(Bare(s[..WordLength(s)]), Read(s[WordLength(s)..]))
    else Behind(Other(s[0]), Read(s[1..]))
  }

  lemma StepRegion(s: string, content: string, rest: string)
    requires s != "" && !StartsBanned(s) && IsQuote(s[0]) && ReadRegion(s[1..], s[0]) == Ok((content, rest))
    ensures Read(s) == Behind(Region(s[0], content), Read(rest))
  {
  }

  lemma StepWord(s: string, n: nat)
    requires s != "" && !StartsBanned(s) && IsLetter(s[0]) && WordLength(s) == n
    ensures 1 <= n <= |s| && Read(s) == Behind(Bare(s[..n]), Read(s[n..]))
  {
  }

  lemma StepOther(s: string)
    requires s != "" && !StartsBanned(s) && s[0] != ';' && !IsQuote(s[0]) && !IsLetter(s[0])
    ensures Read(s) == Behind(Other(s[0]), Read(s[1..]))
  {
  }

  lemma StepLast(s: string)
    ensures s == "" ==> Read(s) == Ok(([], ""))
    ensures s != "" && StartsBanned(s) ==> Read(s) == Err(Banned)
    ensures s != "" && s[0] == ';' ==>
              Read(s) == if Text.Blank(s[1..]) then Ok(([], s)) else Err(MultipleStatements)
    ensures s != "" && !StartsBanned(s) && IsQuote(s[0]) && ReadRegion(s[1..], s[0]).Err? ==>
              Read(s) == Err(ReadRegion(s[1..], s[0]).error)
  {
  }

  lemma NotBanned(s: string)
    requires s != "" && (IsQuote(s[0]) || IsLetter(s[0]))
    ensures !StartsBanned(s)
  {
  }

  // ---------------------------------------------------------------- what is read is a decomposition

  lemma EncodedMore(c: char, content: string, quote: char)
    ensures Encoded([c] + content, quote) == (if c == quote then [quote, quote] else [c]) + Encoded(content, quote)
    ensures Encoded("", quote) == ""
  {
    assert ([c] + content)[1..] == content;
  }

  lemma {:induction false} RegionSound(s: string, quote: char)
    requires ReadRegion(s, quote).Ok?
    ensures var (content, rest) := ReadRegion(s, quote).value;
            Clean(content) && s == Encoded(content, quote) + [quote] + rest && (rest == "" || rest[0] != quote)
  {
    hide Encoded;
    EncodedMore(quote, "", quote);
    if s[0] == quote && (|s| == 1 || s[1] != quote) {
      assert s == [quote] + s[1..];
    } else {
      var head, next := if s[0] == quote then [quote, quote] else [s[0]], if s[0] == quote then s[2..] else s[1..];
      RegionSound(next, quote);
      var (content, rest) := ReadRegion(next, quote).value;
      EncodedMore(s[0], content, quote);
      assert s == head + next;
      assert head + (Encoded(content, quote) + [quote] + rest) == (head + Encoded(content, quote)) + [quote] + rest;
    }
  }

  lemma {:induction false} ReadSound(s: string)
    requires Read(s).Ok?
    ensures var (ps, tail) := Read(s).value; Decomposes(s, ps, tail)
    ensures var (ps, tail) := Read(s).value; s != "" && ps != [] ==> StartsAs(s, ps[0])
    ensures s != "" && Read(s).value.0 == [] ==> s[0] == ';'
    decreases |s|
  {
    hide Encoded, ReadRegion, WordLength, Decomposes, StartsAs, Text.Blank;
    if s == "" || s[0] == ';' {
      EndingAlone(s);
    } else if IsQuote(s[0]) {
      RegionSound(s[1..], s[0]);
      var (content, rest) := ReadRegion(s[1..], s[0]).value;
      ReadSound(rest);
      Compose(s, Region(s[0], content), rest);
    } else if IsLetter(s[0]) {
      var n := WordLength(s);
      ReadSound(s[n..]);
      assert s == s[..n] + s[n..];
      Compose(s, Bare(s[..n]), s[n..]);
    } else {
      ReadSound(s[1..]);
      assert s == [s[0]] + s[1..];
      Compose(s, Other(s[0]), s[1..]);
    }
  }

  /** The first character of a piece, as far as its neighbours care. */
  ghost predicate StartsAs(s: string, p: Piece) {
    s != "" &&
    match p
    case Region(quote, _) => s[0] == quote
    case Bare(text) => IsLetter(s[0])
    case Other(c) => s[0] == c
  }

  lemma Compose(s: string, p: Piece, rest: string)
    requires s != "" && !StartsBanned(s) && Proper(p) && s == Written(p) + rest
    requires Read(rest).Ok? && Read(s) == Behind(p, Read(rest))
    requires var (ps, tail) := Read(rest).value;
             Decomposes(rest, ps, tail) && (rest != "" && ps != [] ==> StartsAs(rest, ps[0]))
    requires p.Region? ==> rest == "" || rest[0] != p.quote
    requires p.Bare? ==> rest == "" || !IsWordChar(rest[0])
    ensures Decomposes(s, Read(s).value.0, Read(s).value.1) && StartsAs(s, p)
  {
    hide Read, Written, Ending, Proper, ProperList, Rendered;
    var (ps, tail) := Read(rest).value;
    FirstOf(p, rest);
    if ps != [] {
      RenderedIsNotEmpty(ps);
      Neighbours(s, p, rest, ps[0]);
    }
    Cons(p, ps);
    assert [p] + ps == Read(s).value.0;
    assert Written(p) + rest == Written(p) + Rendered(ps) + tail;
  }

  lemma Cons(p: Piece, ps: seq<Piece>)
    requires Proper(p) && ProperList(ps) && (ps != [] ==> MayFollow(p, ps[0]))
    ensures ProperList([p] + ps) && Rendered([p] + ps) == Written(p) + Rendered(ps)
  {
    hide Proper, MayFollow, Written;
    var all := [p] + ps;
    assert all[1..] == ps;
    assert forall i :: 1 <= i < |all| ==> all[i] == ps[i - 1];
  }

  lemma Neighbours(s: string, p: Piece, rest: string, next: Piece)
    requires s == Written(p) + rest && s != "" && rest != "" && !StartsBanned(s) && StartsAs(rest, next)
    requires p.Region? ==> rest[0] != p.quote
    requires p.Bare? ==> !IsWordChar(rest[0])
    ensures MayFollow(p, next)
  {
    if p.Other? {
      assert s[..2] == [p.c, rest[0]];
    }
  }

  lemma FirstOf(p: Piece, rest: string)
    requires Proper(p)
    ensures StartsAs(Written(p) + rest, p)
    ensures p.Other? ==> Written(p) + rest == [p.c] + rest
  {
  }

  lemma EndingAlone(tail: string)
    requires Ending(tail)
    ensures Decomposes(tail, [], tail)
  {
    assert Rendered([]) + tail == tail;
  }

  lemma RenderedIsNotEmpty(ps: seq<Piece>)
    requires ps != [] && ProperList(ps)
    ensures Rendered(ps) != "" && StartsAs(Rendered(ps), ps[0])
  {
  }

  // ---------------------------------------------------------------- every decomposition is read

  lemma {:induction false} RegionComplete(content: string, quote: char, rest: string)
    requires Clean(content) && !Escaping(quote) && (rest == "" || rest[0] != quote)
    ensures ReadRegion(Encoded(content, quote) + [quote] + rest, quote) == Ok((content, rest))
  {
    var s := Encoded(content, quote) + [quote] + rest;
    if content == "" {
      assert s == [quote] + rest && s[1..] == rest;
    } else {
      RegionComplete(content[1..], quote, rest);
      var next := Encoded(content[1..], quote) + [quote] + rest;
      assert s == (if content[0] == quote then [quote, quote] else [content[0]]) + next;
      assert (if content[0] == quote then s[2..] else s[1..]) == next;
      assert content == [content[0]] + content[1..];
    }
  }

  /** Text that cannot be mistaken for more of this piece. */
  predicate EndsBefore(p: Piece, rest: string) {
    rest == "" ||
    match p
    case Region(quote, _) => rest[0] != quote
    case Bare(_) => !IsWordChar(rest[0])
    case Other(c) => !(c == '/' && rest[0] == '*') && !(c == '-' && rest[0] == '-')
  }

  lemma NextPieceEnds(p: Piece, next: Piece, rest: string)
    requires Proper(p) && Proper(next) && MayFollow(p, next) && StartsAs(rest, next)
    ensures EndsBefore(p, rest)
  {
  }

  /** Reading a proper list of pieces leaves whatever follows it to be read on its own. */
  lemma {:induction false} ReadPrefix(ps: seq<Piece>, rest: string)
    requires ProperList(ps) && (ps != [] ==> EndsBefore(ps[|ps| - 1], rest))
    ensures Read(Rendered(ps) + rest) == Ahead(ps, Read(rest))
  {
    hide Read, Written, Proper, MayFollow, StartsAs, EndsBefore;
    if ps == [] {
      AheadOfNothing(Read(rest));
      assert Rendered(ps) + rest == rest;
    } else {
      var p, more := ps[0], Rendered(ps[1..]) + rest;
      assert ProperList(ps[1..]) by {
        assert forall i :: 0 <= i < |ps| - 1 ==> ps[1..][i] == ps[i + 1];
      }
      ReadPrefix(ps[1..], rest);
      if |ps| == 1 {
        assert more == rest;
      } else {
        RenderedIsNotEmpty(ps[1..]);
        StartsAsMore(Rendered(ps[1..]), rest, ps[1]);
        NextPieceEnds(p, ps[1], more);
      }
      assert Rendered(ps) + rest == Written(p) + more;
      ReadFirst(p, more);
      AheadFirst(ps, Read(rest));
    }
  }

  lemma StartsAsMore(s: string, rest: string, p: Piece)
    requires StartsAs(s, p)
    ensures StartsAs(s + rest, p)
  {
  }

  lemma AheadFirst(ps: seq<Piece>, r: Reading)
    requires ps != []
    ensures Behind(ps[0], Ahead(ps[1..], r)) == Ahead(ps, r)
  {
    if r.Ok? {
      assert [ps[0]] + (ps[1..] + r.value.0) == ps + r.value.0;
    }
  }

  lemma ReadComplete(ps: seq<Piece>, tail: string)
    requires ProperList(ps) && Ending(tail)
    ensures Read(Rendered(ps) + tail) == Ok((ps, tail))
  {
    hide Read, Rendered;
    ReadPrefix(ps, tail);
    ReadEnding(tail);
    assert ps + [] == ps;
  }

  lemma ReadEnding(tail: string)
    requires Ending(tail)
    ensures Read(tail) == Ok(([], tail))
  {
  }

  lemma ReadFirst(p: Piece, rest: string)
    requires Proper(p) && EndsBefore(p, rest)
    ensures Read(Written(p) + rest) == Behind(p, Read(rest))
  {
    hide Read, Written;
    match p
    case Region(quote, content) => ReadFirstRegion(quote, content, rest);
    case Bare(text) => ReadFirstWord(text, rest);
    case Other(c) => ReadFirstOther(c, rest);
  }

  lemma ReadFirstRegion(quote: char, content: string, rest: string)
    requires Proper(Region(quote, content)) && (rest == "" || rest[0] != quote)
    ensures Read(Written(Region(quote, content)) + rest) == Behind(Region(quote, content), Read(rest))
  {
    hide Encoded, ReadRegion, Read;
    var s := Written(Region(quote, content)) + rest;
    assert s[1..] == Encoded(content, quote) + [quote] + rest;
    RegionComplete(content, quote, rest);
    NotBanned(s);
    StepRegion(s, content, rest);
  }

  lemma ReadFirstWord(text: string, rest: string)
    requires IsBareWord(text) && (rest == "" || !IsWordChar(rest[0]))
    ensures Read(Written(Bare(text)) + rest) == Behind(Bare(text), Read(rest))
  {
    hide ReadRegion, Read, WordLength;
    var s := text + rest;
    WordLengthIs(s, |text|);
    assert s[..|text|] == text && s[|text|..] == rest;
    assert s[0] == text[0];
    NotBanned(s);
    StepWord(s, |text|);
  }

  lemma ReadFirstOther(c: char, rest: string)
    requires Proper(Other(c)) && (rest != "" ==> !(c == '/' && rest[0] == '*') && !(c == '-' && rest[0] == '-'))
    ensures Read(Written(Other(c)) + rest) == Behind(Other(c), Read(rest))
  {
    hide Read;
    var s := [c] + rest;
    assert s[1..] == rest && s[0] == c;
    assert |s| >= 2 ==> s[..2] == [c, rest[0]];
    StepOther(s);
  }

  // ---------------------------------------------------------------- the code

  function Verdict(query: string): Option<GuardError> {
    if |query| > MAX_QUERY_BYTES then Some(TooLong)
    else
      var r := Read(query);
      if r.Err? then Some(r.error)
      else WordsVerdict(WordsOf(r.value.0))
  }

  function FirstForbidden(words: seq<string>): Option<GuardError> {
    if words == [] then None
    else if words[0] in FORBIDDEN_WORDS then Some(Forbidden(words[0]))
    else FirstForbidden(words[1..])
  }

  function WordsVerdict(words: seq<string>): Option<GuardError> {
    if words == [] then Some(EmptyQuery)
    else if words[0] !in READ_WORDS then Some(NotARead)
    else FirstForbidden(words)
  }

  function Ahead(ps: seq<Piece>, r: Reading): Reading {
    if r.Err? then r else Ok((ps + r.value.0, r.value.1))
  }

  lemma {:induction false} WordsAppend(ps: seq<Piece>, p: Piece)
    ensures WordsOf(ps + [p]) == WordsOf(ps) + if p.Bare? then [Text.Upper(p.text)] else []
  {
    if ps == [] {
      assert ps + [p] == [p];
    } else {
      WordsAppend(ps[1..], p);
      assert (ps + [p])[1..] == ps[1..] + [p];
    }
  }

  lemma AheadMore(ps: seq<Piece>, p: Piece, r: Reading)
    ensures Ahead(ps, Behind(p, r)) == Ahead(ps + [p], r)
  {
    if r.Ok? {
      assert ps + ([p] + r.value.0) == ps + [p] + r.value.0;
    }
  }

  function AfterText(content: string, r: Result<(string, string), GuardError>): Result<(string, string), GuardError> {
    if r.Err? then r else Ok((content + r.value.0, r.value.1))
  }

  lemma AfterTextMore(content: string, c: char, r: Result<(string, string), GuardError>)
    ensures AfterText(content, AfterText([c], r)) == AfterText(content + [c], r)
    ensures AfterText("", r) == r
  {
    if r.Ok? {
      assert content + ([c] + r.value.0) == content + [c] + r.value.0;
      assert "" + r.value.0 == r.value.0;
    }
  }

  /** Skips a region: the position after its closing quote. */
  method SkipRegion(query: string, start: nat, quote: char)
    returns (i: nat, err: Option<GuardError>, ghost content: string)
    requires start <= |query| && !Escaping(quote)
    ensures start <= i <= |query|
    ensures err.Some? ==> ReadRegion(query[start..], quote) == Err(err.value)
    ensures err.None? ==> ReadRegion(query[start..], quote) == Ok((content, query[i..]))
  {
    i, err, content := start, None, "";
    AfterTextMore("", quote, ReadRegion(query[start..], quote));
    while i < |query|
      invariant start <= i <= |query|
      invariant ReadRegion(query[start..], quote) == AfterText(content, ReadRegion(query[i..], quote))
    {
      var rest := query[i..];
      if Escaping(query[i]) { return i, Some(Banned), ""; }
      if query[i] == quote {
        if i + 1 < |query| && query[i + 1] == quote {
          assert rest[2..] == query[i + 2..];
          AfterTextMore(content, quote, ReadRegion(query[i + 2..], quote));
          content := content + [quote];
          i := i + 2;
          continue;
        }
        assert rest[1..] == query[i + 1..] && content + "" == content;
        return i + 1, None, content;
      }
      assert rest[1..] == query[i + 1..];
      AfterTextMore(content, query[i], ReadRegion(query[i + 1..], quote));
      content := content + [query[i]];
      i := i + 1;
    }
    return i, Some(Unterminated), "";
  }

  method SkipWord(query: string, start: nat) returns (i: nat)
    requires start < |query|
    ensures start <= i <= |query| && i - start == WordLength(query[start..])
  {
    i := start;
    while i < |query| && IsWordChar(query[i])
      invariant start <= i <= |query|
      invariant forall k :: start <= k < i ==> IsWordChar(query[k])
    {
      i := i + 1;
    }
    WordLengthIs(query[start..], i - start);
  }

  method Scan(query: string) returns (words: seq<string>, err: Option<GuardError>)
    ensures err.Some? ==> Read(query) == Err(err.value)
    ensures err.None? ==> Read(query).Ok? && words == WordsOf(Read(query).value.0)
  {
    hide Read, ReadRegion, WordLength, WordsOf;
    words, err := [], None;
    var i := 0;
    ghost var ps: seq<Piece> := [];
    assert query[0..] == query;
    AheadOfNothing(Read(query));
    while i < |query|
      invariant 0 <= i <= |query|
      invariant Read(query) == Ahead(ps, Read(query[i..])) && words == WordsOf(ps)
      decreases |query| - i
    {
      ghost var rest := query[i..];
      var c := query[i];
      StepLast(rest);
      assert i + 1 < |query| ==> rest[..2] == query[i..i + 2];
      if Escaping(c) || c == '#' || (i + 1 < |query| && (query[i..i + 2] == "/*" || query[i..i + 2] == "--")) {
        return words, Some(Banned);
      }
      assert rest[1..] == query[i + 1..] && !StartsBanned(rest);
      if c == ';' {
        if !Text.Blank(query[i + 1..]) { return words, Some(MultipleStatements); }
        assert ps + [] == ps;
        return words, None;
      }
      if IsQuote(c) {
        var end, failure, content := SkipRegion(query, i + 1, c);
        if failure.Some? { return words, failure; }
        StepRegion(rest, content, query[end..]);
        AheadMore(ps, Region(c, content), Read(query[end..]));
        WordsAppend(ps, Region(c, content));
        ps, i := ps + [Region(c, content)], end;
      } else if IsLetter(c) {
        var end := SkipWord(query, i);
        assert rest[..end - i] == query[i..end] && rest[end - i..] == query[end..];
        StepWord(rest, end - i);
        words := words + [Text.Upper(query[i..end])];
        AheadMore(ps, Bare(query[i..end]), Read(query[end..]));
        WordsAppend(ps, Bare(query[i..end]));
        ps, i := ps + [Bare(query[i..end])], end;
      } else {
        StepOther(rest);
        AheadMore(ps, Other(c), Read(query[i + 1..]));
        WordsAppend(ps, Other(c));
        ps, i := ps + [Other(c)], i + 1;
      }
    }
    StepLast(query[i..]);
    assert query[i..] == "" && ps + [] == ps;
  }

  lemma AheadOfNothing(r: Reading)
    ensures Ahead([], r) == r && WordsOf([]) == []
  {
    if r.Ok? {
      assert [] + r.value.0 == r.value.0;
    }
  }

  /** Decides, for every text, whether it is acceptable, and with which refusal otherwise. */
  method ValidateQuery(query: string) returns (err: Option<GuardError>)
    ensures err == Verdict(query)
    ensures err.None? <==> Acceptable(query)
  {
    VerdictIsAcceptance(query);
    if |query| > MAX_QUERY_BYTES { return Some(TooLong); }
    var words;
    words, err := Scan(query);
    if err.Some? { return; }
    if |words| == 0 { return Some(EmptyQuery); }
    if words[0] !in READ_WORDS { return Some(NotARead); }
    assert words[0..] == words;
    for i := 0 to |words|
      invariant FirstForbidden(words) == FirstForbidden(words[i..])
    {
      assert words[i..][1..] == words[i + 1..];
      if words[i] in FORBIDDEN_WORDS { return Some(Forbidden(words[i])); }
    }
    return None;
  }

  // ---------------------------------------------------------------- the scanner decides the grammar

  lemma {:induction false} NoneForbidden(words: seq<string>)
    ensures FirstForbidden(words).None? <==> forall i :: 0 <= i < |words| ==> words[i] !in FORBIDDEN_WORDS
  {
    if words != [] {
      NoneForbidden(words[1..]);
      assert forall i :: 1 <= i < |words| ==> words[i] == words[1..][i - 1];
    }
  }

  /** The verdict is "accepted" exactly for the texts of the grammar. */
  lemma VerdictIsAcceptance(query: string)
    ensures Verdict(query).None? <==> Acceptable(query)
  {
    if Read(query).Ok? {
      ReadSound(query);
      NoneForbidden(WordsOf(Read(query).value.0));
    }
    forall ps, tail | Decomposes(query, ps, tail)
      ensures Read(query) == Ok((ps, tail))
    {
      ReadComplete(ps, tail);
    }
  }

  /**
   Replacing the content of a quoted region by other clean content never changes the verdict,
   whatever comes after the region: comments, escapes, further statements and regions that
   are never closed included.
   */
  lemma QuotedContentIsIrrelevant(before: seq<Piece>, quote: char, x: string, y: string, rest: string)
    requires ProperList(before + [Region(quote, x)]) && Clean(y) && EndsBefore(Region(quote, x), rest)
    requires |Rendered(before + [Region(quote, x)]) + rest| <= MAX_QUERY_BYTES
    requires |Rendered(before + [Region(quote, y)]) + rest| <= MAX_QUERY_BYTES
    ensures Verdict(Rendered(before + [Region(quote, y)]) + rest)
            == Verdict(Rendered(before + [Region(quote, x)]) + rest)
  {
    hide Read, Rendered, WordsOf, WordsVerdict, Clean;
    var a, b := before + [Region(quote, x)], before + [Region(quote, y)];
    RegionReplaced(before, quote, x, y);
    ReadPrefix(a, rest);
    ReadPrefix(b, rest);
    var r := Read(rest);
    if r.Ok? {
      SameWords(a + r.value.0, b + r.value.0);
    }
  }

  lemma RegionReplaced(before: seq<Piece>, quote: char, x: string, y: string)
    requires ProperList(before + [Region(quote, x)]) && Clean(y)
    ensures ProperList(before + [Region(quote, y)])
  {
    hide Clean;
    var a, b := before + [Region(quote, x)], before + [Region(quote, y)];
    assert Proper(a[|before|]);
    forall i | 0 <= i < |b| ensures Proper(b[i]) && (i < |b| - 1 ==> MayFollow(b[i], b[i + 1])) {
      assert Proper(a[i]) && (i < |a| - 1 ==> MayFollow(a[i], a[i + 1]));
    }
  }

  /** In particular no content of a region makes a refused text acceptable. */
  lemma QuotedContentNeverAdmits(before: seq<Piece>, quote: char, x: string, y: string, rest: string)
    requires ProperList(before + [Region(quote, x)]) && Clean(y) && EndsBefore(Region(quote, x), rest)
    requires |Rendered(before + [Region(quote, x)]) + rest| <= MAX_QUERY_BYTES
    requires |Rendered(before + [Region(quote, y)]) + rest| <= MAX_QUERY_BYTES
    ensures Acceptable(Rendered(before + [Region(quote, y)]) + rest)
            <==> Acceptable(Rendered(before + [Region(quote, x)]) + rest)
  {
    hide Verdict, Acceptable, Rendered, ProperList;
    QuotedContentIsIrrelevant(before, quote, x, y, rest);
    VerdictIsAcceptance(Rendered(before + [Region(quote, x)]) + rest);
    VerdictIsAcceptance(Rendered(before + [Region(quote, y)]) + rest);
  }

  lemma {:induction false} SameWords(a: seq<Piece>, b: seq<Piece>)
    requires |a| == |b| && forall i :: 0 <= i < |a| ==> a[i] == b[i] || (a[i].Region? && b[i].Region?)
    ensures WordsOf(a) == WordsOf(b)
  {
    if a != [] {
      SameWords(a[1..], b[1..]);
    }
  }
}
