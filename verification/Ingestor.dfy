/** Normalization: one parsed message becomes a tick with the symbol's next sequence number.

    The same code serves the live feed and the silver rebuild. Parsing JSON, decimals and timestamps
    is not modelled: a line's `Parsed` value is an input.
 */
module Ingestor {
  import opened Models

  /** What the price, size and time fields of a message turn into. */
  datatype Quote =
    | NoPrice
    | InvalidPrice
    | Unreadable   // a field that makes the code raise before a number is drawn
    | Refused      // readable, but the tick's own validation raises, after its number was drawn
    | Priced(price: real, size: Option<real>, time: int)

  datatype Parsed =
    | NotJson
    | NotAnObject
    | Message(kind: string, product: Option<Symbol>, quote: Quote)

  datatype Outcome =
    | Rejected
    | Raised
    | Accepted(tick: Tick)

  function NextSequence(sequences: map<Symbol, nat>, symbol: Symbol): nat {
    (if symbol in sequences then sequences[symbol] else 0) + 1
  }

  /** A rejected or unreadable message consumes no number; one that the tick's validation refuses does. */
  function Normalize(sequences: map<Symbol, nat>, product: Option<Symbol>, quote: Quote): (map<Symbol, nat>, Outcome) {
    if product.None? || quote.NoPrice? || quote.InvalidPrice? then
      (sequences, Rejected)
    else if quote.Unreadable? then
      (sequences, Raised)
    else
      var n := NextSequence(sequences, product.value);
      var outcome :=
        if quote.Refused? then Raised else Accepted(Tick(product.value, n, quote.price, quote.size, quote.time));
      (sequences[product.value := n], outcome)
  }

  class AsyncIngestor {
    var sequences: map<Symbol, nat>

    constructor ()
      ensures sequences == map[]
    {
      sequences := map[];
    }

    method NormalizeMessage(product: Option<Symbol>, quote: Quote) returns (outcome: Outcome)
      modifies this
      ensures (sequences, outcome) == Normalize(old(sequences), product, quote)
      ensures outcome.Accepted? <==> product.Some? && quote.Priced?
      ensures outcome.Raised? <==> product.Some? && (quote.Unreadable? || quote.Refused?)
      ensures outcome.Accepted? ==>
                outcome.tick == Tick(product.value, NextSequence(old(sequences), product.value), quote.price,
                                     quote.size, quote.time)
      ensures forall symbol :: NextSequence(sequences, symbol)
                            == NextSequence(old(sequences), symbol)
                               + if product == Some(symbol) && (quote.Priced? || quote.Refused?) then 1 else 0
    {
      if product.None? || quote.NoPrice? {
        return Rejected;
      }
      match quote {
        case InvalidPrice =>
          outcome := Rejected;
        case Unreadable =>
          outcome := Raised;
        case Refused =>
          sequences := sequences[product.value := NextSequence(sequences, product.value)];
          outcome := Raised;
        case Priced(price, size, time) =>
          var sequence := NextSequence(sequences, product.value);
          sequences := sequences[product.value := sequence];
          outcome := Accepted(Tick(product.value, sequence, price, size, time));
      }
    }
  }
}
