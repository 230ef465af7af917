/** DialectUtils.java: the string-literal quoting shared by the dialects. */
module DialectUtils {
  import opened Wrappers
  import opened Text
  import opened SqlSyntax

  /** quoteStringLiteral: wraps in single quotes, doubling every single quote. */
  function QuoteStringLiteral(literal: string): string {
    "'" + Double(literal, '\'') + "'"
  }

  /** The literal starts and ends with a quote, is as long as the input plus
      two plus one per quote in it, and undoubling its body gives the input. */
  lemma QuoteStringLiteralShape(literal: string)
    ensures var r := QuoteStringLiteral(literal);
      && |r| == |literal| + 2 + Count(literal, '\'')
      && r[0] == '\'' && r[|r| - 1] == '\''
      && Undouble(r[1..|r| - 1], '\'') == literal
  {
    var r := QuoteStringLiteral(literal);
    DoubleLength(literal, '\'');
    assert r[1..|r| - 1] == Double(literal, '\'');
    UndoubleDouble(literal, '\'');
  }

  /** Different inputs give different literals. */
  lemma QuoteStringLiteralInjective(a: string, b: string)
    requires QuoteStringLiteral(a) == QuoteStringLiteral(b)
    ensures a == b
  {
    QuoteStringLiteralShape(a);
    QuoteStringLiteralShape(b);
  }

  /** Input without quotes is only wrapped. */
  lemma QuoteStringLiteralNoQuote(literal: string)
    requires '\'' !in literal
    ensures QuoteStringLiteral(literal) == "'" + literal + "'"
  {
    ReplaceCharAbsent(literal, '\'', "''");
  }

  /** Reading the generated literal back, as SQL does, gives exactly the input
      and stops exactly at its end: whatever quotes the input holds, it cannot
      end the literal early. (The text that follows must not itself start with
      a quote, which would join the closing quote into a pair.) */
  lemma QuoteStringLiteralReadsBack(literal: string, rest: string)
    requires rest == [] || rest[0] != '\''
    ensures ReadLiteral(QuoteStringLiteral(literal) + rest) == Some((literal, rest))
  {
    assert QuoteStringLiteral(literal) + rest == ['\''] + Double(literal, '\'') + ['\''] + rest;
    QuotedReadsBack(literal, '\'', rest);
  }
}
