/** Reference readers for the SQL text the dialects generate. They are not
    part of the client; they say what a database makes of that text, so that
    the lemmas can state what the generated SQL means. */
module SqlSyntax {
  import opened Wrappers
  import opened Text

  /** Reads a quoted token at the start of s, as SQL reads both string
      literals (q is a single quote) and delimited identifiers (q is a double
      quote): an opening q, then characters in which qq stands for one q, then
      a closing q. Gives the token's value and the text after it. */
  function ReadQuoted(s: string, q: char): Option<(string, string)> {
    if s != [] && s[0] == q then ReadQuotedBody(s[1..], q) else None
  }

  function ReadQuotedBody(s: string, q: char): Option<(string, string)>
    decreases |s|
  {
    if s == [] then None
    else if s[0] == q then
      if |s| >= 2 && s[1] == q then
        match ReadQuotedBody(s[2..], q)
        case None => None
        case Some(p) => Some(([q] + p.0, p.1))
      else Some(("", s[1..]))
    else
      match ReadQuotedBody(s[1..], q)
      case None => None
      case Some(p) => Some(([s[0]] + p.0, p.1))
  }

  /** A standard SQL string literal. */
  function ReadLiteral(s: string): Option<(string, string)> {
    ReadQuoted(s, '\'')
  }

  /** Wrapping in q with every q doubled is read back exactly, and the reader
      stops exactly at the closing q, provided the text after it does not
      start with q (which would pair up with the closing q). */
  lemma {:induction false} QuotedReadsBack(text: string, q: char, rest: string)
    requires rest == [] || rest[0] != q
    ensures ReadQuoted([q] + Double(text, q) + [q] + rest, q) == Some((text, rest))
  {
    var s := [q] + Double(text, q) + [q] + rest;
    assert s[1..] == Double(text, q) + [q] + rest;
    QuotedBodyReadsBack(text, q, rest);
  }

  lemma {:induction false} QuotedBodyReadsBack(text: string, q: char, rest: string)
    requires rest == [] || rest[0] != q
    ensures ReadQuotedBody(Double(text, q) + [q] + rest, q) == Some((text, rest))
    decreases |text|
  {
    var s := Double(text, q) + [q] + rest;
    if text == [] {
      assert s == [q] + rest;
      assert s[1..] == rest;
    } else {
      QuotedBodyReadsBack(text[1..], q, rest);
      var tail := Double(text[1..], q) + [q] + rest;
      if text[0] == q {
        assert s == [q, q] + tail;
        assert s[2..] == tail;
        assert [q] + text[1..] == text;
      } else {
        assert s == [text[0]] + tail;
        assert s[1..] == tail;
        assert [text[0]] + text[1..] == text;
      }
    }
  }

  /** Reads the pagination clause " LIMIT <digits> OFFSET <digits>" back
      into its two numbers. */
  function ReadPagination(s: string): Option<(int, int)> {
    match StripPrefix(s, " LIMIT ")
    case None => None
    case Some(afterLimit) =>
      match SplitAt(afterLimit, ' ')
      case None => None
      case Some(p) =>
        match StripPrefix(p.1, "OFFSET ")
        case None => None
        case Some(d2) =>
          if p.0 != [] && AllDigits(p.0) && d2 != [] && AllDigits(d2)
          then Some((DigitsValue(p.0) as int, DigitsValue(d2) as int))
          else None
  }

  lemma ReadPaginationOf(limit: nat, offset: nat)
    ensures ReadPagination(" LIMIT " + NatToString(limit) + " OFFSET " + NatToString(offset))
            == Some((limit, offset))
  {
    var d1, d2 := NatToString(limit), NatToString(offset);
    NatToStringDigits(limit);
    NatToStringDigits(offset);
    var s := " LIMIT " + d1 + " OFFSET " + d2;
    assert s == " LIMIT " + (d1 + " OFFSET " + d2);
    StripPrefixAppend(" LIMIT ", d1 + " OFFSET " + d2);
    assert ' ' !in d1;
    assert d1 + " OFFSET " + d2 == d1 + [' '] + ("OFFSET " + d2);
    SplitAtFirst(d1, ' ', "OFFSET " + d2);
    StripPrefixAppend("OFFSET ", d2);
  }
}
