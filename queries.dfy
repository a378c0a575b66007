/**
 * The SQL text each search callback sends. The view name or keyword is
 * pasted into the text as it is: nothing binds it as a parameter and
 * nothing escapes it.
 */
module Queries {
  import opened Wrappers

  const SelectAll := "select * from "
  const TitleSearch := "f_offers_by_title_kw"
  const CompanySearch := "f_offers_by_company_kw"

  /** The three job boards the boards dropdown offers. */
  const BoardViews := ["v_jobboard_data_offers_2w", "v_jobboard_extended_targets_2w", "v_jobboard_sofia_all_1w"]

  /** Boards tab: select everything from the chosen view. */
  function BoardsQuery(view: string): (q: string)
    ensures |q| == |SelectAll| + |view|
    ensures q[..|SelectAll|] == SelectAll && q[|SelectAll|..] == view
  {
    SelectAll + view
  }

  /** The prefix of a keyword search up to and including the opening quote. */
  function CallPrefix(fn: string): string {
    SelectAll + fn + "('"
  }

  /** `select * from fn('keyword')`. */
  function KeywordCall(fn: string, keyword: string): (q: string)
    ensures |q| == |CallPrefix(fn)| + |keyword| + 2
    ensures q[..|CallPrefix(fn)|] == CallPrefix(fn)
    ensures q[|CallPrefix(fn)|..|q| - 2] == keyword
    ensures q[|q| - 2..] == "')"
  {
    CallPrefix(fn) + keyword + "')"
  }

  /**
   * Jobs tab: full-text search over job titles. A keyword without a
   * single quote reaches the search function as its whole argument.
   */
  function JobsQuery(keyword: string): (q: string)
    ensures |CallPrefix(TitleSearch)| <= |q|
    ensures '\'' !in keyword ==> ReadArgument(TitleSearch, q) == Some((keyword, ")"))
  {
    ArgumentIsKeywordIffNoQuote(TitleSearch, keyword);
    KeywordCall(TitleSearch, keyword)
  }

  /**
   * Companies tab: full-text search over company names. A keyword without
   * a single quote reaches the search function as its whole argument.
   */
  function CompaniesQuery(keyword: string): (q: string)
    ensures |CallPrefix(CompanySearch)| <= |q|
    ensures '\'' !in keyword ==> ReadArgument(CompanySearch, q) == Some((keyword, ")"))
  {
    ArgumentIsKeywordIffNoQuote(CompanySearch, keyword);
    KeywordCall(CompanySearch, keyword)
  }

  /** Different keywords give different query text. */
  lemma KeywordCallInjective(fn: string, k1: string, k2: string)
    requires KeywordCall(fn, k1) == KeywordCall(fn, k2)
    ensures k1 == k2
  {
  }

  /** The three views of the dropdown give three different queries. */
  lemma BoardViewsGiveDistinctQueries(i: nat, j: nat)
    requires i < j < |BoardViews|
    ensures BoardsQuery(BoardViews[i]) != BoardsQuery(BoardViews[j])
  {
    assert BoardsQuery(BoardViews[i])[|SelectAll|..] == BoardViews[i];
    assert BoardsQuery(BoardViews[j])[|SelectAll|..] == BoardViews[j];
  }

  /** A title search and a company search never send the same text. */
  lemma JobsAndCompaniesQueriesDiffer(k1: string, k2: string)
    ensures JobsQuery(k1) != CompaniesQuery(k2)
  {
    var at := |SelectAll| + 12;
    assert JobsQuery(k1)[at] == CallPrefix(TitleSearch)[at] == 't';
    assert CompaniesQuery(k2)[at] == CallPrefix(CompanySearch)[at] == 'c';
  }

  /**
   * How PostgreSQL reads a string literal whose opening quote it has just
   * passed: two quotes in a row stand for one quote of the text, and a
   * single quote closes it. The result is the literal's text and the SQL
   * that follows the closing quote, or None when the input ends first (a
   * syntax error). PostgreSQL joins a further literal that follows after
   * whitespace holding a newline (comments count as whitespace); that
   * joining is not modelled, so the text read here is the first part.
   */
  function ReadLiteral(s: string): (r: Option<(string, string)>)
    ensures r.Some? ==> |r.value.0| + 1 + |r.value.1| <= |s|
  {
    if s == [] then None
    else if s[0] == '\'' && |s| >= 2 && s[1] == '\'' then
      var rest := ReadLiteral(s[2..]);
      if rest.None? then None else Some((['\''] + rest.value.0, rest.value.1))
    else if s[0] == '\'' then Some(([], s[1..]))
    else
      var rest := ReadLiteral(s[1..]);
      if rest.None? then None else Some(([s[0]] + rest.value.0, rest.value.1))
  }

  /** A literal that meets no quote never ends: the query is a syntax error. */
  lemma {:induction false} UnterminatedLiteral(s: string)
    requires '\'' !in s
    ensures ReadLiteral(s).None?
  {
    if s != [] {
      assert s[0] != '\'' && '\'' !in s[1..];
      UnterminatedLiteral(s[1..]);
    }
  }

  /** The string literal the database reads as the search function's argument, and the SQL after it. */
  function ReadArgument(fn: string, q: string): Option<(string, string)>
    requires |CallPrefix(fn)| <= |q|
  {
    ReadLiteral(q[|CallPrefix(fn)|..])
  }

  /**
   * A literal whose text holds a quote consumed a doubled quote for it,
   * so its raw text is longer than its text.
   */
  lemma {:induction false} QuotedLiteralIsShorter(s: string)
    requires ReadLiteral(s).Some? && '\'' in ReadLiteral(s).value.0
    ensures |ReadLiteral(s).value.0| + 1 + |ReadLiteral(s).value.1| < |s|
  {
    if s[0] == '\'' && |s| >= 2 && s[1] == '\'' {
      assert ReadLiteral(s[2..]).Some?;
    } else {
      assert s[0] != '\'';
      var (inner, rest) := ReadLiteral(s[1..]).value;
      assert ReadLiteral(s).value == ([s[0]] + inner, rest);
      assert '\'' in inner;
      QuotedLiteralIsShorter(s[1..]);
    }
  }

  /**
   * The database reads the keyword as the whole search argument, with only
   * `)` after it, exactly when the keyword holds no single quote; a quote
   * either ends the literal early, so that the rest of the keyword becomes
   * SQL text, or pairs with the next quote and stands for one.
   */
  lemma ArgumentIsKeywordIffNoQuote(fn: string, keyword: string)
    ensures ReadArgument(fn, KeywordCall(fn, keyword)) == Some((keyword, ")")) <==> '\'' !in keyword
  {
    var q := KeywordCall(fn, keyword);
    var rest := q[|CallPrefix(fn)|..];
    assert rest == keyword + "')";
    if '\'' !in keyword {
      LiteralEndsAtQuote(keyword, "')");
    } else if ReadLiteral(rest).Some? && ReadLiteral(rest).value.0 == keyword {
      QuotedLiteralIsShorter(rest);
    }
  }

  /** A literal whose text holds no quote ends at the single quote that follows it. */
  lemma {:induction false} LiteralEndsAtQuote(text: string, tail: string)
    requires '\'' !in text && tail != [] && tail[0] == '\''
    requires |tail| < 2 || tail[1] != '\''
    ensures ReadLiteral(text + tail) == Some((text, tail[1..]))
  {
    if text == [] {
      assert text + tail == tail;
    } else {
      assert (text + tail)[0] == text[0] && (text + tail)[1..] == text[1..] + tail;
      LiteralEndsAtQuote(text[1..], tail);
      assert [text[0]] + text[1..] == text;
    }
  }

  /** The database starts reading the argument at the keyword, followed by the closing `')`. */
  lemma ArgumentText(fn: string, keyword: string)
    ensures ReadArgument(fn, KeywordCall(fn, keyword)) == ReadLiteral(keyword + "')")
  {
    var q := KeywordCall(fn, keyword);
    assert q[|CallPrefix(fn)|..] == keyword + "')";
  }

  /** Text without a quote at the head of a literal is kept as it is. */
  lemma {:induction false} PlainTextIsKept(text: string, tail: string)
    requires '\'' !in text && ReadLiteral(tail).Some?
    ensures ReadLiteral(text + tail) == Some((text + ReadLiteral(tail).value.0, ReadLiteral(tail).value.1))
  {
    if text != [] {
      assert (text + tail)[0] == text[0] && (text + tail)[1..] == text[1..] + tail;
      PlainTextIsKept(text[1..], tail);
      assert [text[0]] + (text[1..] + ReadLiteral(tail).value.0) == text + ReadLiteral(tail).value.0;
    } else {
      assert text + tail == tail;
      assert text + ReadLiteral(tail).value.0 == ReadLiteral(tail).value.0;
    }
  }

  /** Text without a quote in front of a literal that never ends leaves it unended. */
  lemma {:induction false} PlainTextBeforeOpenLiteral(text: string, tail: string)
    requires '\'' !in text && ReadLiteral(tail).None?
    ensures ReadLiteral(text + tail).None?
  {
    if text != [] {
      assert (text + tail)[0] == text[0] && (text + tail)[1..] == text[1..] + tail;
      PlainTextBeforeOpenLiteral(text[1..], tail);
    } else {
      assert text + tail == tail;
    }
  }

  /**
   * A keyword ending in one unpaired quote, such as `x'`: that quote pairs
   * with the closing quote of the call, the literal never ends, and the
   * database reads no argument (PostgreSQL reports a syntax error).
   */
  lemma TrailingQuoteLeavesLiteralOpen(word: string)
    requires '\'' !in word
    ensures ReadArgument(TitleSearch, JobsQuery(word + "'")).None?
  {
    ArgumentText(TitleSearch, word + "'");
    var escaped := "'')";
    UnterminatedLiteral(")");
    assert escaped[0] == '\'' && escaped[1] == '\'' && escaped[2..] == ")";
    assert ReadLiteral(escaped).None?;
    PlainTextBeforeOpenLiteral(word, escaped);
    assert (word + "'") + "')" == word + escaped;
  }

  /**
   * A character that may start the whitespace or comment between two
   * literals PostgreSQL joins: a space, a tab, a line or page break, or
   * the first character of a `--` line comment or of a block comment.
   */
  predicate MaySeparateLiterals(c: char) {
    c == ' ' || '\t' <= c <= '\r' || c == '-' || c == '/'
  }

  /**
   * A keyword that closes the literal turns into SQL of its own: with
   * `x'); drop table jobs; --` the argument is `x` and
   * `); drop table jobs; --')` is read as SQL.
   */
  lemma QuoteInKeywordEscapesLiteral(word: string, sql: string)
    requires '\'' !in word && |sql| >= 2 && sql[0] == '\'' && sql[1] != '\'' && !MaySeparateLiterals(sql[1])
    ensures ReadArgument(TitleSearch, JobsQuery(word + sql)) == Some((word, sql[1..] + "')"))
  {
    ArgumentText(TitleSearch, word + sql);
    LiteralEndsAtQuote(word, sql + "')");
    assert (word + sql) + "')" == word + (sql + "')");
    assert (sql + "')")[1..] == sql[1..] + "')";
  }

  /** A doubled quote in the keyword reaches the search function as one quote. */
  lemma DoubledQuoteInKeyword(before: string, after: string)
    requires '\'' !in before && '\'' !in after
    ensures ReadArgument(TitleSearch, JobsQuery(before + "''" + after)) == Some((before + "'" + after, ")"))
  {
    var keyword := before + "''" + after;
    ArgumentText(TitleSearch, keyword);
    var escaped := "''" + after + "')";
    LiteralEndsAtQuote(after, "')");
    assert escaped[0] == '\'' && escaped[1] == '\'' && escaped[2..] == after + "')";
    assert ReadLiteral(escaped) == Some((['\''] + after, ")"));
    PlainTextIsKept(before, escaped);
    assert keyword + "')" == before + escaped;
    assert before + (['\''] + after) == before + "'" + after;
  }
}
