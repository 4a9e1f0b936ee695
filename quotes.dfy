/**
 * The quote rotation of src/hooks/useKCDQuote.ts: one index into a fixed list
 * of three quotes, advanced modulo the list's length.
 */
module Quotes {

  const QuoteList: seq<string> := [
    "Hi, I'm Kent C. Dodds. I help people make the world better through quality software.",
    "The more your tests resemble the way your software is used, the more confidence they can give you.",
    "Write tests. Not too many. Mostly integration."
  ]

  /** The index one `nextQuote` moves to: the following quote, or the first after the last. */
  function Next(i: nat): (j: nat)
    requires i < |QuoteList|
    ensures j < |QuoteList|
    ensures i + 1 < |QuoteList| ==> j == i + 1
    ensures i + 1 == |QuoteList| ==> j == 0
  {
    (i + 1) % |QuoteList|
  }

  /** The index after `n` advances from `i`. */
  function Advance(i: nat, n: nat): (j: nat)
    requires i < |QuoteList|
    ensures j < |QuoteList|
    decreases n
  {
    if n == 0 then i else Advance(Next(i), n - 1)
  }

  /** `n` advances shift the index by `n`, modulo the number of quotes. */
  lemma {:induction false} AdvanceShifts(i: nat, n: nat)
    requires i < |QuoteList|
    ensures Advance(i, n) == (i + n) % |QuoteList|
    decreases n
  {
    if n > 0 {
      AdvanceShifts(Next(i), n - 1);
    }
  }

  /** As many advances as there are quotes come back to the starting index. */
  lemma FullCycle(i: nat)
    requires i < |QuoteList|
    ensures Advance(i, |QuoteList|) == i
  {
    AdvanceShifts(i, |QuoteList|);
  }

  /** The hook's `quoteIndex` state cell. */
  class QuoteCursor {
    var quoteIndex: nat

    ghost predicate Valid()
      reads this
    {
      quoteIndex < |QuoteList|
    }

    constructor ()
      ensures Valid() && quoteIndex == 0
      ensures CurrentQuote() == QuoteList[0]
    {
      quoteIndex := 0;
    }

    /** `currentQuote`, read on every render. */
    function CurrentQuote(): string
      reads this
      requires Valid()
    {
      QuoteList[quoteIndex]
    }

    method NextQuote()
      requires Valid()
      modifies this
      ensures Valid()
      ensures quoteIndex == Next(old(quoteIndex))
      ensures CurrentQuote() == QuoteList[Next(old(quoteIndex))]
    {
      quoteIndex := (quoteIndex + 1) % |QuoteList|;
    }
  }

  /** From a fresh cursor: one advance shows the second quote; a full round shows the first again. */
  method Rotate()
  {
    var c := new QuoteCursor();
    assert c.CurrentQuote() == QuoteList[0];
    c.NextQuote();
    assert c.CurrentQuote() == QuoteList[1];
    c.NextQuote();
    c.NextQuote();
    assert c.CurrentQuote() == QuoteList[0];
  }
}
