/** Printing and parsing with the scanners and printers of strings and integers. */
module JsonRoundTrip {
  import opened JsonGrammar
  import opened JsonAutomaton
  import opened JsonDom
  import opened JsonTexts
  import opened JsonWriter
  import opened JsonNumbers
  import S = JsonStrings

  /** The reader's configuration with the modelled scanners; doubles remain a parameter. */
  function Reader(comments: bool, trailingCommas: bool, stopWhenDone: bool, doubles: DoubleScanner): Config {
    WithNumbers(Config.Config(comments, trailingCommas, stopWhenDone, (log: seq<Event>) => true, S.StringAt, doubles), doubles)
  }

  lemma StringsAreRead(c: Config, w: Printers)
    requires c.strings == S.StringAt && w.str == S.Quoted
    ensures ReadsStrings(c, w)
  {
    hide S.StringAt, S.Quoted;
    forall t: string
      ensures ReadsString(c, w, t)
    {
      QuotedStarts(t);
      forall a: string, b: string
        ensures c.strings(a + w.str(t) + b, |a|) == Token(|a| + |w.str(t)|, t)
      {
        S.StringsReadBack(a, t, b);
      }
    }
  }

  lemma QuotedStarts(t: string)
    ensures S.Quoted(t) != "" && S.Quoted(t)[0] == '"'
  {
  }

  /** The round trip: every document whose numbers are integers is printed as a text that both
      parsers read back as that document, whatever the strings and names in it, and with all
      combinations of the parsers' flags. */
  lemma DocumentsAreReadBack(comments: bool, trailingCommas: bool, stopWhenDone: bool, doubles: DoubleScanner, w: Printers, v: Value)
    requires GoodDoubles(doubles) && w.str == S.Quoted && PrintsIntegers(w)
    requires All(v, (n: Number) => n.Integer? && IsStored(n))
    ensures var c, s := Reader(comments, trailingCommas, stopWhenDone, doubles), Text(w, v);
            && Good(c)
            && Parse(c, s).Ok? && HandleAll([], Parse(c, s).log) == Stack([v])
            && IterativeParse(c, s).Ok? && HandleAll([], IterativeParse(c, s).log) == Stack([v])
  {
    hide Parse, IterativeParse, NumberAt, Text, All, S.StringAt, S.Quoted, IsStored;
    var c := Reader(comments, trailingCommas, stopWhenDone, doubles);
    S.StringScannerIsGood();
    StringsAreRead(c, w);
    IntegerDocumentsRoundTrip(c, doubles, w, v);
  }
}
