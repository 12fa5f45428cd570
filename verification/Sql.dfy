/** The SQL that browsing uses: syntax, printed text, and a reader for that text. */
module Sql {
  import opened Wrappers

  datatype Op = Eq | Ne | Gt | Ge | Lt | Le

  /** A condition of the WHERE clause; `Like` and `Compare` stand for one placeholder. */
  datatype Condition =
    | Null(column: string, negated: bool)
    | Like(column: string, escape: char)
    | Compare(column: string, op: Op)

  datatype SortKey = SortKey(column: string, desc: bool)

  /** A SELECT with LIMIT ? OFFSET ? at its end. */
  datatype Select = Select(columns: seq<string>, schema: string, table: string, where: seq<Condition>,
                           order: seq<SortKey>)

  // ---------------------------------------------------------------- printing

  function Doubled(name: string): string {
    if name == "" then "" else (if name[0] == '`' then "``" else [name[0]]) + Doubled(name[1..])
  }

  function Quote(name: string): string { "`" + Doubled(name) + "`" }

  function Join(parts: seq<string>, separator: string): string {
    if parts == [] then ""
    else if |parts| == 1 then parts[0]
    else parts[0] + separator + Join(parts[1..], separator)
  }

  function OpText(op: Op): string {
    match op
    case Eq => "="
    case Ne => "<>"
    case Gt => ">"
    case Ge => ">="
    case Lt => "<"
    case Le => "<="
  }

  function ConditionText(c: Condition): string {
    match c
    case Null(column, negated) => Quote(column) + (if negated then " IS NOT NULL" else " IS NULL")
    case Like(column, escape) => Quote(column) + " LIKE ? ESCAPE '" + [escape] + "'"
    case Compare(column, op) => Quote(column) + " " + OpText(op) + " ?"
  }

  function KeyText(k: SortKey): string { Quote(k.column) + (if k.desc then " DESC" else " ASC") }

  function Quotes(names: seq<string>): seq<string> {
    seq(|names|, i requires 0 <= i < |names| => Quote(names[i]))
  }

  function ConditionTexts(where: seq<Condition>): seq<string> {
    seq(|where|, i requires 0 <= i < |where| => ConditionText(where[i]))
  }

  function KeyTexts(order: seq<SortKey>): seq<string> {
    seq(|order|, i requires 0 <= i < |order| => KeyText(order[i]))
  }

  function WhereText(where: seq<Condition>): string {
    if where == [] then "" else " WHERE " + Join(ConditionTexts(where), " AND ")
  }

  function Print(q: Select): string {
    "SELECT " + Join(Quotes(q.columns), ", ") + " FROM " + Quote(q.schema) + "." + Quote(q.table)
    + WhereText(q.where) + " ORDER BY " + Join(KeyTexts(q.order), ", ") + " LIMIT ? OFFSET ?"
  }

  // ---------------------------------------------------------------- lexical analysis

  datatype Token = Word(text: string) | Name(text: string) | Quoted(text: string) | Symbol(text: string)

  predicate IsLetter(c: char) { 'a' <= c <= 'z' || 'A' <= c <= 'Z' || c == '_' }

  predicate IsWordChar(c: char) { IsLetter(c) || '0' <= c <= '9' }

  function WordLength(s: string): (n: nat)
    ensures n <= |s|
    ensures forall i :: 0 <= i < n ==> IsWordChar(s[i])
    ensures n < |s| ==> !IsWordChar(s[n])
  {
    if s == "" || !IsWordChar(s[0]) then 0 else 1 + WordLength(s[1..])
  }

  /** The content of a quoted region whose opening quote has been read, and the text after its closing quote. */
  function Scan(s: string, quote: char): (r: Option<(string, string)>)
    ensures r.Some? ==> |r.value.1| < |s|
  {
    if s == "" then None
    else if s[0] == quote && (|s| == 1 || s[1] != quote) then Some(("", s[1..]))
    else
      var r := Scan(if s[0] == quote then s[2..] else s[1..], quote);
      if r.None? then None else Some(([s[0]] + r.value.0, r.value.1))
  }

  function Prepend(t: Token, ts: Option<seq<Token>>): Option<seq<Token>> {
    if ts.None? then None else Some([t] + ts.value)
  }

  function SymbolLength(s: string): (n: nat)
    requires s != ""
    ensures 1 <= n <= |s|
  {
    if |s| >= 2 && (s[..2] == "<>" || s[..2] == "<=" || s[..2] == ">=") then 2 else 1
  }

  function Lex(s: string): Option<seq<Token>>
    decreases |s|
  {
    if s == "" then Some([])
    else if s[0] == ' ' then Lex(s[1..])
    else if IsLetter(s[0]) then Prepend(Word(s[..WordLength(s)]), Lex(s[WordLength(s)..]))
    else if s[0] == '`' || s[0] == '\'' then
      var r := Scan(s[1..], s[0]);
      if r.None? then None
      else Prepend(if s[0] == '`' then Name(r.value.0) else Quoted(r.value.0), Lex(r.value.1))
    else Prepend(Symbol(s[..SymbolLength(s)]), Lex(s[SymbolLength(s)..]))
  }

  // ---------------------------------------------------------------- reading

  const COMMA := Symbol(",")
  const MARK := Symbol("?")

  function ReadNames(ts: seq<Token>): Option<(seq<string>, seq<Token>)> {
    if ts == [] || !ts[0].Name? then None
    else if |ts| >= 2 && ts[1] == COMMA then
      var r := ReadNames(ts[2..]);
      if r.None? then None else Some(([ts[0].text] + r.value.0, r.value.1))
    else Some(([ts[0].text], ts[1..]))
  }

  function ReadOp(t: Token): Option<Op> {
    if t == Symbol("=") then Some(Eq)
    else if t == Symbol("<>") then Some(Ne)
    else if t == Symbol(">") then Some(Gt)
    else if t == Symbol(">=") then Some(Ge)
    else if t == Symbol("<") then Some(Lt)
    else if t == Symbol("<=") then Some(Le)
    else None
  }

  function ReadCondition(ts: seq<Token>): (r: Option<(Condition, seq<Token>)>)
    ensures r.Some? ==> |r.value.1| < |ts|
  {
    if |ts| < 3 || !ts[0].Name? then None
    else if ts[1] == Word("IS") && ts[2] == Word("NULL") then Some((Null(ts[0].text, false), ts[3..]))
    else if |ts| >= 4 && ts[1] == Word("IS") && ts[2] == Word("NOT") && ts[3] == Word("NULL") then
      Some((Null(ts[0].text, true), ts[4..]))
    else if |ts| >= 5 && ts[1] == Word("LIKE") && ts[2] == MARK && ts[3] == Word("ESCAPE") && ts[4].Quoted?
            && |ts[4].text| == 1
    then Some((Like(ts[0].text, ts[4].text[0]), ts[5..]))
    else if ReadOp(ts[1]).Some? && ts[2] == MARK then Some((Compare(ts[0].text, ReadOp(ts[1]).value), ts[3..]))
    else None
  }

  function ReadConditions(ts: seq<Token>): Option<(seq<Condition>, seq<Token>)>
    decreases |ts|
  {
    var c := ReadCondition(ts);
    if c.None? then None
    else if c.value.1 != [] && c.value.1[0] == Word("AND") then
      var r := ReadConditions(c.value.1[1..]);
      if r.None? then None else Some(([c.value.0] + r.value.0, r.value.1))
    else Some(([c.value.0], c.value.1))
  }

  function ReadKeys(ts: seq<Token>): Option<(seq<SortKey>, seq<Token>)> {
    if |ts| < 2 || !ts[0].Name? || (ts[1] != Word("ASC") && ts[1] != Word("DESC")) then None
    else
      var key := SortKey(ts[0].text, ts[1] == Word("DESC"));
      if |ts| >= 3 && ts[2] == COMMA then
        var r := ReadKeys(ts[3..]);
        if r.None? then None else Some(([key] + r.value.0, r.value.1))
      else Some(([key], ts[2..]))
  }

  const PAGE_TOKENS := [Word("LIMIT"), MARK, Word("OFFSET"), MARK]

  function ReadOrder(names: seq<string>, schema: string, table: string, where: seq<Condition>,
                     ts: seq<Token>): Option<Select> {
    if |ts| < 2 || ts[0] != Word("ORDER") || ts[1] != Word("BY") then None
    else
      var keys := ReadKeys(ts[2..]);
      if keys.None? || keys.value.1 != PAGE_TOKENS then None
      else Some(Select(names, schema, table, where, keys.value.0))
  }

  function ReadSelect(ts: seq<Token>): Option<Select> {
    if ts == [] || ts[0] != Word("SELECT") then None
    else
      var names := ReadNames(ts[1..]);
      if names.None? then None
      else
        var r := names.value.1;
        if |r| < 4 || r[0] != Word("FROM") || !r[1].Name? || r[2] != Symbol(".") || !r[3].Name? then None
        else if |r| >= 5 && r[4] == Word("WHERE") then
          var where := ReadConditions(r[5..]);
          if where.None? then None
          else ReadOrder(names.value.0, r[1].text, r[3].text, where.value.0, where.value.1)
        else ReadOrder(names.value.0, r[1].text, r[3].text, [], r[4..])
  }

  function Parse(text: string): Option<Select> {
    var ts := Lex(text);
    if ts.None? then None else ReadSelect(ts.value)
  }

  // ---------------------------------------------------------------- the tokens of a printed query

  function NameTokens(names: seq<string>): seq<Token> {
    if names == [] then []
    else if |names| == 1 then [Name(names[0])]
    else [Name(names[0]), COMMA] + NameTokens(names[1..])
  }

  function ConditionTokens(c: Condition): seq<Token> {
    match c
    case Null(column, negated) =>
      [Name(column), Word("IS")] + (if negated then [Word("NOT"), Word("NULL")] else [Word("NULL")])
    case Like(column, escape) => [Name(column), Word("LIKE"), MARK, Word("ESCAPE"), Quoted([escape])]
    case Compare(column, op) => [Name(column), Symbol(OpText(op)), MARK]
  }

  function ConditionsTokens(where: seq<Condition>): seq<Token> {
    if where == [] then []
    else if |where| == 1 then ConditionTokens(where[0])
    else ConditionTokens(where[0]) + [Word("AND")] + ConditionsTokens(where[1..])
  }

  function KeyTokens(k: SortKey): seq<Token> { [Name(k.column), Word(if k.desc then "DESC" else "ASC")] }

  function KeysTokens(order: seq<SortKey>): seq<Token> {
    if order == [] then []
    else if |order| == 1 then KeyTokens(order[0])
    else KeyTokens(order[0]) + [COMMA] + KeysTokens(order[1..])
  }

  function WhereTokens(where: seq<Condition>): seq<Token> {
    if where == [] then [] else [Word("WHERE")] + ConditionsTokens(where)
  }

  function Tokens(q: Select): seq<Token> {
    [Word("SELECT")] + NameTokens(q.columns) + [Word("FROM"), Name(q.schema), Symbol("."), Name(q.table)]
    + WhereTokens(q.where) + [Word("ORDER"), Word("BY")] + KeysTokens(q.order) + PAGE_TOKENS
  }

  /**
   Queries that the printer is asked to print: something to select, something to order by,
   usable escape characters.
   */
  predicate Printable(q: Select) {
    && q.columns != [] && q.order != []
    && forall i :: 0 <= i < |q.where| && q.where[i].Like? ==> q.where[i].escape != '\''
  }

  // ---------------------------------------------------------------- printed text has these tokens

  /** The rest of a text after something that a further backtick would have prolonged. */
  predicate Apart(rest: string) { rest == "" || rest[0] != '`' }

  predicate WordEnds(rest: string) { rest == "" || !IsWordChar(rest[0]) }

  predicate AllLetters(w: string) { w != "" && forall i :: 0 <= i < |w| ==> IsLetter(w[i]) }

  /** A text consists of these tokens followed by the tokens of the rest. */
  ghost predicate Yields(text: string, ts: seq<Token>, rest: string) {
    Lex(rest).Some? ==> Lex(text).Some? && Lex(text).value == ts + Lex(rest).value
  }

  lemma {:induction false} ScanDoubled(name: string, rest: string)
    requires Apart(rest)
    ensures Scan(Doubled(name) + "`" + rest, '`') == Some((name, rest))
  {
    var s := Doubled(name) + "`" + rest;
    if name == "" {
      assert s == "`" + rest && s[1..] == rest;
    } else {
      ScanDoubled(name[1..], rest);
      var tail := Doubled(name[1..]) + "`" + rest;
      assert s == (if name[0] == '`' then "``" else [name[0]]) + tail;
      assert (if name[0] == '`' then s[2..] else s[1..]) == tail;
      assert name == [name[0]] + name[1..];
    }
  }

  lemma Chain(text: string, a: seq<Token>, middle: string, b: seq<Token>, rest: string)
    requires Yields(text, a, middle) && Yields(middle, b, rest)
    ensures Yields(text, a + b, rest)
  {
    hide Lex;
  }

  lemma LexName(name: string, rest: string)
    requires Apart(rest)
    ensures Yields(Quote(name) + rest, [Name(name)], rest)
  {
    ScanDoubled(name, rest);
    var s := Quote(name) + rest;
    assert s[1..] == Doubled(name) + "`" + rest;
  }

  lemma {:induction false} WordLengthIs(s: string, n: nat)
    requires n <= |s| && (forall i :: 0 <= i < n ==> IsWordChar(s[i])) && (n < |s| ==> !IsWordChar(s[n]))
    ensures WordLength(s) == n
  {
    if n > 0 {
      WordLengthIs(s[1..], n - 1);
    }
  }

  lemma LexWord(w: string, rest: string)
    requires AllLetters(w) && WordEnds(rest)
    ensures Yields(w + rest, [Word(w)], rest)
  {
    var s := w + rest;
    WordLengthIs(s, |w|);
    assert s[..|w|] == w && s[|w|..] == rest;
  }

  lemma LexSpace(rest: string)
    ensures Lex(" " + rest) == Lex(rest)
  {
    assert (" " + rest)[1..] == rest;
  }

  /** A space, a word, and what follows. */
  lemma LexSpacedWord(w: string, rest: string)
    requires AllLetters(w) && WordEnds(rest)
    ensures Yields(" " + w + rest, [Word(w)], rest)
  {
    hide Lex;
    assert " " + w + rest == " " + (w + rest);
    LexSpace(w + rest);
    LexWord(w, rest);
  }

  /** A space, a word, a space, and what follows. */
  lemma LexWordAndSpace(w: string, rest: string)
    requires AllLetters(w)
    ensures Yields(" " + w + (" " + rest), [Word(w)], rest)
  {
    hide Lex;
    LexSpacedWord(w, " " + rest);
    LexSpace(rest);
  }

  lemma JoinOne(part: string, separator: string)
    ensures Join([part], separator) == part
  {
  }

  lemma JoinFirst(parts: seq<string>, separator: string)
    requires |parts| > 1
    ensures Join(parts, separator) == parts[0] + separator + Join(parts[1..], separator)
  {
  }

  lemma LexSymbol(sym: string, rest: string)
    requires sym in {",", ".", "?", "=", "<>", ">", ">=", "<", "<="}
    requires rest == "" || rest[0] == ' ' || (sym in {",", ".", "?"})
    ensures Yields(sym + rest, [Symbol(sym)], rest)
  {
    var s := sym + rest;
    assert s[..|sym|] == sym && s[|sym|..] == rest;
    assert s[0] == sym[0];
    if |sym| == 2 {
      assert s[..2] == sym;
    } else if |s| >= 2 {
      assert s[..2] == [sym[0], rest[0]];
    }
    assert SymbolLength(s) == |sym|;
  }

  lemma LexCommaAndSpace(rest: string)
    ensures Yields(", " + rest, [COMMA], rest)
  {
    hide Lex;
    assert ", " + rest == "," + (" " + rest);
    LexSymbol(",", " " + rest);
    LexSpace(rest);
  }

  lemma {:induction false} LexNames(names: seq<string>, rest: string)
    requires names != [] && Apart(rest)
    ensures Yields(Join(Quotes(names), ", ") + rest, NameTokens(names), rest)
  {
    hide Lex, Join, Quote, Yields;
    if |names| == 1 {
      assert Quotes(names) == [Quote(names[0])];
      JoinOne(Quote(names[0]), ", ");
      LexName(names[0], rest);
    } else {
      var tail := Join(Quotes(names[1..]), ", ") + rest;
      var text := Join(Quotes(names), ", ") + rest;
      LexNames(names[1..], rest);
      assert Quotes(names)[1..] == Quotes(names[1..]);
      JoinFirst(Quotes(names), ", ");
      assert text == Quote(names[0]) + (", " + tail);
      LexName(names[0], ", " + tail);
      LexCommaAndSpace(tail);
      Chain(text, [Name(names[0])], ", " + tail, [COMMA], tail);
      Chain(text, [Name(names[0])] + [COMMA], tail, NameTokens(names[1..]), rest);
      assert [Name(names[0])] + [COMMA] == [Name(names[0]), COMMA];
    }
  }

  /** What can follow a condition: the word AND or the ORDER BY clause, after a space. */
  predicate Spaced(rest: string) { rest != "" && rest[0] == ' ' }

  lemma LexNot(rest: string)
    requires Spaced(rest)
    ensures Yields(" IS NOT NULL" + rest, [Word("IS"), Word("NOT"), Word("NULL")], rest)
  {
    hide Lex;
    var s2 := " " + "NULL" + rest;
    var s1 := " " + "NOT" + s2;
    assert " IS NOT NULL" + rest == " " + "IS" + s1;
    LexSpacedWord("IS", s1);
    LexSpacedWord("NOT", s2);
    LexSpacedWord("NULL", rest);
  }

  lemma LexIs(rest: string)
    requires Spaced(rest)
    ensures Yields(" IS NULL" + rest, [Word("IS"), Word("NULL")], rest)
  {
    hide Lex;
    var s1 := " " + "NULL" + rest;
    assert " IS NULL" + rest == " " + "IS" + s1;
    LexSpacedWord("IS", s1);
    LexSpacedWord("NULL", rest);
  }

  lemma LexNull(column: string, negated: bool, rest: string)
    requires Spaced(rest)
    ensures Yields(ConditionText(Null(column, negated)) + rest, ConditionTokens(Null(column, negated)), rest)
  {
    hide Lex, Yields, Quote;
    var text := ConditionText(Null(column, negated)) + rest;
    var tail := (if negated then " IS NOT NULL" else " IS NULL") + rest;
    assert text == Quote(column) + tail;
    LexName(column, tail);
    if negated {
      LexNot(rest);
      Chain(text, [Name(column)], tail, [Word("IS"), Word("NOT"), Word("NULL")], rest);
      assert [Name(column)] + [Word("IS"), Word("NOT"), Word("NULL")] == ConditionTokens(Null(column, true));
    } else {
      LexIs(rest);
      Chain(text, [Name(column)], tail, [Word("IS"), Word("NULL")], rest);
      assert [Name(column)] + [Word("IS"), Word("NULL")] == ConditionTokens(Null(column, false));
    }
  }

  lemma LexQuotedChar(c: char, rest: string)
    requires c != '\'' && Spaced(rest)
    ensures Yields("'" + [c] + "'" + rest, [Quoted([c])], rest)
  {
    var s := "'" + [c] + "'" + rest;
    var t := "'" + rest;
    assert s[1..] == [c] + t && ([c] + t)[1..] == t;
    assert t[1..] == rest && t[1] == ' ';
    assert Scan(t, '\'') == Some(("", rest));
    assert [c] + "" == [c];
    assert Scan(s[1..], '\'') == Some(([c], rest));
  }

  lemma LexLike(column: string, escape: char, rest: string)
    requires escape != '\'' && Spaced(rest)
    ensures Yields(ConditionText(Like(column, escape)) + rest, ConditionTokens(Like(column, escape)), rest)
  {
    hide Lex;
    var s4 := "'" + [escape] + "'" + rest;
    var s3 := " " + "ESCAPE" + (" " + s4);
    var s2 := "?" + s3;
    var s1 := " " + "LIKE" + (" " + s2);
    assert ConditionText(Like(column, escape)) + rest == Quote(column) + s1;
    LexName(column, s1);
    LexSpacedWord("LIKE", " " + s2);
    LexSpace(s2);
    LexSymbol("?", s3);
    LexSpacedWord("ESCAPE", " " + s4);
    LexSpace(s4);
    LexQuotedChar(escape, rest);
  }

  lemma LexCompare(column: string, op: Op, rest: string)
    requires Spaced(rest)
    ensures Yields(ConditionText(Compare(column, op)) + rest, ConditionTokens(Compare(column, op)), rest)
  {
    hide Lex;
    var s2 := "?" + rest;
    var s1 := OpText(op) + (" " + s2);
    assert ConditionText(Compare(column, op)) + rest == Quote(column) + (" " + s1);
    LexName(column, " " + s1);
    LexSpace(s1);
    LexSymbol(OpText(op), " " + s2);
    LexSpace(s2);
    LexSymbol("?", rest);
  }

  lemma LexCondition(c: Condition, rest: string)
    requires Spaced(rest) && (c.Like? ==> c.escape != '\'')
    ensures Yields(ConditionText(c) + rest, ConditionTokens(c), rest)
  {
    hide Lex;
    match c
    case Null(column, negated) => LexNull(column, negated, rest);
    case Like(column, escape) => LexLike(column, escape, rest);
    case Compare(column, op) => LexCompare(column, op, rest);
  }

  lemma {:induction false} LexConditions(where: seq<Condition>, rest: string)
    requires where != [] && Spaced(rest)
    requires forall i :: 0 <= i < |where| && where[i].Like? ==> where[i].escape != '\''
    ensures Yields(Join(ConditionTexts(where), " AND ") + rest, ConditionsTokens(where), rest)
  {
    hide Lex, Join, ConditionText, ConditionTokens, Yields;
    if |where| == 1 {
      assert ConditionTexts(where) == [ConditionText(where[0])];
      JoinOne(ConditionText(where[0]), " AND ");
      LexCondition(where[0], rest);
    } else {
      var tail := Join(ConditionTexts(where[1..]), " AND ") + rest;
      var text := Join(ConditionTexts(where), " AND ") + rest;
      var first := ConditionTokens(where[0]);
      LexConditions(where[1..], rest);
      assert ConditionTexts(where)[1..] == ConditionTexts(where[1..]);
      JoinFirst(ConditionTexts(where), " AND ");
      var more := " " + "AND" + (" " + tail);
      assert text == ConditionText(where[0]) + more;
      LexCondition(where[0], more);
      LexWordAndSpace("AND", tail);
      Chain(text, first, more, [Word("AND")], tail);
      Chain(text, first + [Word("AND")], tail, ConditionsTokens(where[1..]), rest);
    }
  }

  lemma LexKey(k: SortKey, rest: string)
    requires WordEnds(rest)
    ensures Yields(KeyText(k) + rest, KeyTokens(k), rest)
  {
    hide Lex;
    var word := if k.desc then "DESC" else "ASC";
    assert KeyText(k) + rest == Quote(k.column) + (" " + word + rest);
    LexName(k.column, " " + word + rest);
    LexSpacedWord(word, rest);
  }

  lemma {:induction false} LexKeys(order: seq<SortKey>, rest: string)
    requires order != [] && Spaced(rest)
    ensures Yields(Join(KeyTexts(order), ", ") + rest, KeysTokens(order), rest)
  {
    hide Lex, Join, KeyText, KeyTokens, Yields;
    if |order| == 1 {
      assert KeyTexts(order) == [KeyText(order[0])];
      JoinOne(KeyText(order[0]), ", ");
      LexKey(order[0], rest);
    } else {
      var tail := Join(KeyTexts(order[1..]), ", ") + rest;
      var text := Join(KeyTexts(order), ", ") + rest;
      var first := KeyTokens(order[0]);
      LexKeys(order[1..], rest);
      assert KeyTexts(order)[1..] == KeyTexts(order[1..]);
      JoinFirst(KeyTexts(order), ", ");
      assert text == KeyText(order[0]) + (", " + tail);
      LexKey(order[0], ", " + tail);
      LexCommaAndSpace(tail);
      Chain(text, first, ", " + tail, [COMMA], tail);
      Chain(text, first + [COMMA], tail, KeysTokens(order[1..]), rest);
    }
  }

  lemma LexPage()
    ensures Lex(" LIMIT ? OFFSET ?").Some? && Lex(" LIMIT ? OFFSET ?").value == PAGE_TOKENS
  {
    hide Lex;
    assert " LIMIT ? OFFSET ?" == " " + "LIMIT" + (" " + ("?" + (" " + "OFFSET" + (" " + ("?" + "")))));
    LexSpacedWord("LIMIT", " " + ("?" + (" " + "OFFSET" + (" " + ("?" + "")))));
    LexSpace("?" + (" " + "OFFSET" + (" " + ("?" + ""))));
    LexSymbol("?", " " + "OFFSET" + (" " + ("?" + "")));
    LexSpacedWord("OFFSET", " " + ("?" + ""));
    LexSpace("?" + "");
    LexSymbol("?", "");
    LexNothing();
  }

  lemma LexNothing()
    ensures Lex("").Some? && Lex("").value == []
  {
  }

  lemma LexTail(order: seq<SortKey>)
    requires order != []
    ensures var t := Lex(" ORDER BY " + Join(KeyTexts(order), ", ") + " LIMIT ? OFFSET ?");
            t.Some? && t.value == [Word("ORDER"), Word("BY")] + KeysTokens(order) + PAGE_TOKENS
  {
    hide Lex;
    var keys := Join(KeyTexts(order), ", ") + " LIMIT ? OFFSET ?";
    assert " ORDER BY " + Join(KeyTexts(order), ", ") + " LIMIT ? OFFSET ?"
           == " " + "ORDER" + (" " + "BY" + (" " + keys));
    LexSpacedWord("ORDER", " " + "BY" + (" " + keys));
    LexSpacedWord("BY", " " + keys);
    LexSpace(keys);
    LexKeys(order, " LIMIT ? OFFSET ?");
    LexPage();
  }

  lemma WhereSplits(conditions: string, rest: string)
    ensures " WHERE " + conditions + rest == " " + "WHERE" + (" " + (conditions + rest))
  {
    assert " WHERE " == " " + "WHERE" + " ";
  }

  lemma LexWhere(where: seq<Condition>, rest: string)
    requires Spaced(rest)
    requires forall i :: 0 <= i < |where| && where[i].Like? ==> where[i].escape != '\''
    ensures Yields(WhereText(where) + rest, WhereTokens(where), rest)
  {
    if where == [] {
      assert WhereText(where) + rest == rest;
    } else {
      hide Lex, Join, ConditionTexts, ConditionsTokens, Yields;
      var conditions := Join(ConditionTexts(where), " AND ") + rest;
      var text := WhereText(where) + rest;
      WhereSplits(Join(ConditionTexts(where), " AND "), rest);
      LexWordAndSpace("WHERE", conditions);
      LexConditions(where, rest);
      Chain(text, [Word("WHERE")], conditions, ConditionsTokens(where), rest);
    }
  }

  lemma LexFrom(schema: string, table: string, rest: string)
    requires Spaced(rest)
    ensures Yields(" FROM " + Quote(schema) + "." + Quote(table) + rest,
                   [Word("FROM"), Name(schema), Symbol("."), Name(table)], rest)
  {
    hide Lex;
    var s2 := Quote(table) + rest;
    var s1 := Quote(schema) + ("." + s2);
    assert " FROM " + Quote(schema) + "." + Quote(table) + rest == " " + "FROM" + (" " + s1);
    LexSpacedWord("FROM", " " + s1);
    LexSpace(s1);
    LexName(schema, "." + s2);
    LexSymbol(".", s2);
    LexName(table, rest);
  }

  lemma WhereIsSpaced(where: seq<Condition>, rest: string)
    requires Spaced(rest)
    ensures Spaced(WhereText(where) + rest)
  {
  }

  lemma PrintedParts(q: Select)
    ensures Print(q) ==
            "SELECT" + (" " + (Join(Quotes(q.columns), ", ") + (" FROM " + Quote(q.schema) + "." + Quote(q.table)
              + (WhereText(q.where) + (" ORDER BY " + Join(KeyTexts(q.order), ", ") + " LIMIT ? OFFSET ?")))))
  {
    hide Join, Quotes, Quote, WhereText, KeyTexts;
    assert "SELECT " == "SELECT" + " ";
  }

  lemma LexPrinted(q: Select)
    requires Printable(q)
    ensures Lex(Print(q)).Some? && Lex(Print(q)).value == Tokens(q)
  {
    hide Lex, Join, Quotes, Quote, WhereText, KeyTexts, NameTokens, WhereTokens, KeysTokens, Print;
    var s4 := " ORDER BY " + Join(KeyTexts(q.order), ", ") + " LIMIT ? OFFSET ?";
    var s3 := WhereText(q.where) + s4;
    var s2 := " FROM " + Quote(q.schema) + "." + Quote(q.table) + s3;
    var s1 := Join(Quotes(q.columns), ", ") + s2;
    PrintedParts(q);
    LexWord("SELECT", " " + s1);
    LexSpace(s1);
    LexNames(q.columns, s2);
    WhereIsSpaced(q.where, s4);
    LexFrom(q.schema, q.table, s3);
    LexWhere(q.where, s4);
    LexTail(q.order);
  }

  // ---------------------------------------------------------------- reading those tokens back

  lemma ReadOneName(name: string, rest: seq<Token>)
    requires rest == [] || rest[0] != COMMA
    ensures ReadNames([Name(name)] + rest) == Some(([name], rest))
  {
    assert ([Name(name)] + rest)[1..] == rest;
  }

  lemma ReadNextName(name: string, rest: seq<Token>)
    requires ReadNames(rest).Some?
    ensures ReadNames([Name(name), COMMA] + rest) == Some(([name] + ReadNames(rest).value.0, ReadNames(rest).value.1))
  {
    assert ([Name(name), COMMA] + rest)[2..] == rest;
  }

  lemma {:induction false} ReadBackNames(names: seq<string>, rest: seq<Token>)
    requires names != [] && (rest == [] || rest[0] != COMMA)
    ensures ReadNames(NameTokens(names) + rest) == Some((names, rest))
  {
    hide ReadNames;
    if |names| == 1 {
      ReadOneName(names[0], rest);
      assert [names[0]] == names;
    } else {
      ReadBackNames(names[1..], rest);
      var tail := NameTokens(names[1..]) + rest;
      ReadNextName(names[0], tail);
      assert NameTokens(names) + rest == [Name(names[0]), COMMA] + tail;
      assert [names[0]] + names[1..] == names;
    }
  }

  lemma ReadBackCondition(c: Condition, rest: seq<Token>)
    ensures ReadCondition(ConditionTokens(c) + rest) == Some((c, rest))
  {
    var ts := ConditionTokens(c) + rest;
    assert ts[|ConditionTokens(c)|..] == rest;
    assert forall i :: 0 <= i < |ConditionTokens(c)| ==> ts[i] == ConditionTokens(c)[i];
  }

  lemma ReadOneCondition(c: Condition, rest: seq<Token>)
    requires rest == [] || rest[0] != Word("AND")
    ensures ReadConditions(ConditionTokens(c) + rest) == Some(([c], rest))
  {
    hide ReadCondition, ConditionTokens;
    ReadBackCondition(c, rest);
  }

  lemma ReadNextCondition(c: Condition, rest: seq<Token>)
    requires ReadConditions(rest).Some?
    ensures ReadConditions(ConditionTokens(c) + ([Word("AND")] + rest)) ==
            Some(([c] + ReadConditions(rest).value.0, ReadConditions(rest).value.1))
  {
    hide ReadCondition, ConditionTokens;
    var more := [Word("AND")] + rest;
    ReadBackCondition(c, more);
    assert more[1..] == rest;
  }

  lemma {:induction false} ReadBackConditions(where: seq<Condition>, rest: seq<Token>)
    requires where != [] && (rest == [] || rest[0] != Word("AND"))
    ensures ReadConditions(ConditionsTokens(where) + rest) == Some((where, rest))
  {
    hide ReadConditions, ConditionTokens;
    if |where| == 1 {
      ReadOneCondition(where[0], rest);
      assert [where[0]] == where;
    } else {
      var tail := ConditionsTokens(where[1..]) + rest;
      ReadBackConditions(where[1..], rest);
      ReadNextCondition(where[0], tail);
      assert ConditionsTokens(where) + rest == ConditionTokens(where[0]) + ([Word("AND")] + tail);
      assert [where[0]] + where[1..] == where;
    }
  }

  lemma ReadOneKey(k: SortKey, rest: seq<Token>)
    requires rest == [] || rest[0] != COMMA
    ensures ReadKeys(KeyTokens(k) + rest) == Some(([k], rest))
  {
    var word := Word(if k.desc then "DESC" else "ASC");
    var ts := KeyTokens(k) + rest;
    assert ts == [Name(k.column), word] + rest && ts[2..] == rest;
    assert rest != [] ==> ts[2] == rest[0];
    assert "ASC"[0] != "DESC"[0];
    assert SortKey(ts[0].text, ts[1] == Word("DESC")) == k;
  }

  lemma ReadNextKey(k: SortKey, rest: seq<Token>)
    requires ReadKeys(rest).Some?
    ensures ReadKeys(KeyTokens(k) + ([COMMA] + rest)) == Some(([k] + ReadKeys(rest).value.0, ReadKeys(rest).value.1))
  {
    var word := Word(if k.desc then "DESC" else "ASC");
    var ts := KeyTokens(k) + ([COMMA] + rest);
    assert ts == [Name(k.column), word, COMMA] + rest && ts[3..] == rest;
    assert "ASC"[0] != "DESC"[0];
    assert SortKey(ts[0].text, ts[1] == Word("DESC")) == k;
  }

  lemma {:induction false} ReadBackKeys(order: seq<SortKey>, rest: seq<Token>)
    requires order != [] && (rest == [] || rest[0] != COMMA)
    ensures ReadKeys(KeysTokens(order) + rest) == Some((order, rest))
  {
    hide ReadKeys, KeyTokens;
    if |order| == 1 {
      ReadOneKey(order[0], rest);
      assert [order[0]] == order;
    } else {
      var tail := KeysTokens(order[1..]) + rest;
      ReadBackKeys(order[1..], rest);
      ReadNextKey(order[0], tail);
      assert KeysTokens(order) + rest == KeyTokens(order[0]) + ([COMMA] + tail);
      assert [order[0]] + order[1..] == order;
    }
  }

  lemma ReadBackOrder(q: Select)
    requires q.order != []
    ensures ReadOrder(q.columns, q.schema, q.table, q.where,
                      [Word("ORDER"), Word("BY")] + KeysTokens(q.order) + PAGE_TOKENS) == Some(q)
  {
    hide ReadKeys, KeysTokens;
    var ts := [Word("ORDER"), Word("BY")] + KeysTokens(q.order) + PAGE_TOKENS;
    assert ts[2..] == KeysTokens(q.order) + PAGE_TOKENS;
    ReadBackKeys(q.order, PAGE_TOKENS);
  }

  lemma ReadBack(q: Select)
    requires Printable(q)
    ensures ReadSelect(Tokens(q)) == Some(q)
  {
    hide ReadNames, NameTokens, ReadConditions, ConditionsTokens, ReadOrder, KeysTokens;
    var order := [Word("ORDER"), Word("BY")] + KeysTokens(q.order) + PAGE_TOKENS;
    var from := [Word("FROM"), Name(q.schema), Symbol("."), Name(q.table)] + (WhereTokens(q.where) + order);
    var names := NameTokens(q.columns) + from;
    assert Tokens(q) == [Word("SELECT")] + names;
    assert Tokens(q)[1..] == names;
    ReadBackNames(q.columns, from);
    ReadBackOrder(q);
    if q.where == [] {
      assert from[4..] == order;
      assert from[4] == Word("ORDER");
    } else {
      assert from[5..] == ConditionsTokens(q.where) + order;
      ReadBackConditions(q.where, order);
    }
  }

  /** The printed text means exactly the query it was printed from, whatever its names contain. */
  lemma RoundTrip(q: Select)
    requires Printable(q)
    ensures Parse(Print(q)) == Some(q)
  {
    LexPrinted(q);
    ReadBack(q);
  }

  // ---------------------------------------------------------------- placeholders

  function Marks(ts: seq<Token>): nat {
    if ts == [] then 0 else (if ts[0] == MARK then 1 else 0) + Marks(ts[1..])
  }

  function Slots(where: seq<Condition>): nat {
    if where == [] then 0 else (if where[0].Null? then 0 else 1) + Slots(where[1..])
  }

  lemma {:induction false} MarksAppend(a: seq<Token>, b: seq<Token>)
    ensures Marks(a + b) == Marks(a) + Marks(b)
  {
    if a == [] {
      assert a + b == b;
    } else {
      MarksAppend(a[1..], b);
      assert (a + b)[1..] == a[1..] + b;
    }
  }

  lemma {:induction false} Unmarked(ts: seq<Token>)
    requires forall i :: 0 <= i < |ts| ==> ts[i] != MARK
    ensures Marks(ts) == 0
  {
    if ts != [] {
      Unmarked(ts[1..]);
    }
  }

  lemma {:induction false} NamesUnmarked(names: seq<string>)
    ensures forall i :: 0 <= i < |NameTokens(names)| ==> NameTokens(names)[i] != MARK
  {
    if |names| >= 2 {
      NamesUnmarked(names[1..]);
    }
  }

  lemma {:induction false} KeysUnmarked(order: seq<SortKey>)
    ensures forall i :: 0 <= i < |KeysTokens(order)| ==> KeysTokens(order)[i] != MARK
  {
    if |order| >= 2 {
      KeysUnmarked(order[1..]);
    }
  }

  /** One mark between tokens that are not marks. */
  lemma OneMark(a: seq<Token>, b: seq<Token>)
    requires forall i :: 0 <= i < |a| ==> a[i] != MARK
    requires forall i :: 0 <= i < |b| ==> b[i] != MARK
    ensures Marks(a + [MARK] + b) == 1
  {
    Unmarked(a);
    Unmarked(b);
    MarksAppend(a, [MARK]);
    MarksAppend(a + [MARK], b);
  }

  lemma ConditionMarks(c: Condition)
    ensures Marks(ConditionTokens(c)) == if c.Null? then 0 else 1
  {
    match c
    case Null(column, negated) =>
      Unmarked(ConditionTokens(c));
    case Like(column, escape) =>
      OneMark([Name(column), Word("LIKE")], [Word("ESCAPE"), Quoted([escape])]);
      assert ConditionTokens(c) == [Name(column), Word("LIKE")] + [MARK] + [Word("ESCAPE"), Quoted([escape])];
    case Compare(column, op) =>
      OneMark([Name(column), Symbol(OpText(op))], []);
      assert ConditionTokens(c) == [Name(column), Symbol(OpText(op))] + [MARK] + [];
  }

  lemma {:induction false} ConditionsMarks(where: seq<Condition>)
    ensures Marks(ConditionsTokens(where)) == Slots(where)
  {
    if |where| == 1 {
      ConditionMarks(where[0]);
    } else if |where| >= 2 {
      ConditionMarks(where[0]);
      ConditionsMarks(where[1..]);
      MarksAppend(ConditionTokens(where[0]), [Word("AND")]);
      MarksAppend(ConditionTokens(where[0]) + [Word("AND")], ConditionsTokens(where[1..]));
    }
  }

  lemma WhereMarks(where: seq<Condition>)
    ensures Marks(WhereTokens(where)) == Slots(where)
  {
    if where != [] {
      ConditionsMarks(where);
      MarksAppend([Word("WHERE")], ConditionsTokens(where));
    }
  }

  function Front(q: Select): seq<Token> {
    [Word("SELECT")] + NameTokens(q.columns) + [Word("FROM"), Name(q.schema), Symbol("."), Name(q.table)]
  }

  function Back(q: Select): seq<Token> {
    [Word("ORDER"), Word("BY")] + KeysTokens(q.order) + [Word("LIMIT")]
  }

  lemma TokenParts(q: Select)
    ensures Tokens(q) == Front(q) + WhereTokens(q.where) + (Back(q) + [MARK] + [Word("OFFSET")] + [MARK])
  {
    hide NameTokens, KeysTokens, WhereTokens;
  }

  lemma FrontUnmarked(q: Select)
    ensures forall i :: 0 <= i < |Front(q)| ==> Front(q)[i] != MARK
    ensures forall i :: 0 <= i < |Back(q)| ==> Back(q)[i] != MARK
  {
    hide NameTokens, KeysTokens;
    NamesUnmarked(q.columns);
    KeysUnmarked(q.order);
  }

  /** Outside quoted regions the printed text has one question mark per parameter of the query, and no other. */
  lemma PlaceholdersMatch(q: Select)
    requires Printable(q)
    ensures Lex(Print(q)).Some? && Marks(Lex(Print(q)).value) == Slots(q.where) + 2
  {
    hide Lex, Print, Tokens, Front, Back, WhereTokens, Marks, Slots;
    LexPrinted(q);
    TokenParts(q);
    FrontUnmarked(q);
    Unmarked(Front(q));
    WhereMarks(q.where);
    OneMark(Back(q), [Word("OFFSET")]);
    OneMark([], []);
    assert [] + [MARK] + [] == [MARK];
    var last := Back(q) + [MARK] + [Word("OFFSET")];
    MarksAppend(last, [MARK]);
    MarksAppend(Front(q), WhereTokens(q.where));
    MarksAppend(Front(q) + WhereTokens(q.where), last + [MARK]);
  }
}
