/** The two tables stores: observed ticks, and the simulated book with its ground-truth log.
    Only what their callers rely on is modelled: append, filter by symbol and time, delete by
    sequence, and `ON CONFLICT DO NOTHING` on the fill's primary key.
 */
module Stores {
  import opened Models
  import opened Frames
  import opened SequenceGaps

  function TickTime(tick: Tick): int {
    tick.time
  }

  function FillTime(fill: Fill): int {
    fill.time
  }

  function PositionTime(position: Position): int {
    position.time
  }

  // ---------- What a query selects ----------

  function TickIn(symbol: Symbol, start: int, end: int): Tick -> bool {
    (t: Tick) => t.symbol == symbol && start <= t.time <= end
  }

  function FillIn(symbol: Symbol, start: int, end: int): Fill -> bool {
    (f: Fill) => f.symbol == symbol && start <= f.time <= end
  }

  function PositionIn(symbol: Symbol, start: int, end: int): Position -> bool {
    (p: Position) => p.symbol == symbol && start <= p.time <= end
  }

  function TicksBetween(rows: seq<Tick>, symbol: Symbol, start: int, end: int): seq<Tick> {
    Keep(rows, TickIn(symbol, start, end))
  }

  function FillsBetween(rows: seq<Fill>, symbol: Symbol, start: int, end: int): seq<Fill> {
    Keep(rows, FillIn(symbol, start, end))
  }

  function PositionsBetween(rows: seq<Position>, symbol: Symbol, start: int, end: int): seq<Position> {
    Keep(rows, PositionIn(symbol, start, end))
  }

  // ---------- Deleting by sequence ----------

  function NotAmong(symbol: Symbol, sequences: set<int>): Tick -> bool {
    (t: Tick) => !(t.symbol == symbol && t.sequence in sequences)
  }

  function KeepOthers(rows: seq<Tick>, symbol: Symbol, sequences: set<int>): seq<Tick> {
    Keep(rows, NotAmong(symbol, sequences))
  }

  /** The sequence of each deleted row, as `RETURNING sequence` lists them. */
  function Returning(rows: seq<Tick>, symbol: Symbol, sequences: set<int>): seq<int> {
    if rows == [] then
      []
    else
      var last := rows[|rows| - 1];
      Returning(rows[..|rows| - 1], symbol, sequences)
      + if last.symbol == symbol && last.sequence in sequences then [last.sequence] else []
  }

  lemma {:induction false} ReturningLists(rows: seq<Tick>, symbol: Symbol, sequences: set<int>, q: int)
    ensures q in Returning(rows, symbol, sequences)
       <==> q in sequences && exists t :: t in rows && t.symbol == symbol && t.sequence == q
  {
    if rows != [] {
      assert rows == rows[..|rows| - 1] + [rows[|rows| - 1]];
      ReturningLists(rows[..|rows| - 1], symbol, sequences, q);
    }
  }

  lemma DeletedAre(rows: seq<Tick>, symbol: Symbol, sequences: seq<int>)
    ensures forall t :: t in KeepOthers(rows, symbol, Elements(sequences))
                   <==> t in rows && !(t.symbol == symbol && t.sequence in sequences)
    ensures forall q :: q in Returning(rows, symbol, Elements(sequences))
                   <==> q in sequences && exists t :: t in rows && t.symbol == symbol && t.sequence == q
  {
    forall t
      ensures t in KeepOthers(rows, symbol, Elements(sequences))
         <==> t in rows && !(t.symbol == symbol && t.sequence in sequences)
    {
      KeepSelects(rows, NotAmong(symbol, Elements(sequences)), t);
    }
    forall q
      ensures q in Returning(rows, symbol, Elements(sequences))
         <==> q in sequences && exists t :: t in rows && t.symbol == symbol && t.sequence == q
    {
      ReturningLists(rows, symbol, Elements(sequences), q);
    }
  }

  class TickStore {
    var rows: seq<Tick>

    constructor ()
      ensures rows == []
    {
      rows := [];
    }

    method WriteTicksBatch(ticks: seq<Tick>) returns (written: nat)
      modifies this
      ensures rows == old(rows) + ticks && written == |ticks|
    {
      rows := rows + ticks;
      written := |ticks|;
    }

    method DeleteSequences(symbol: Symbol, sequences: seq<int>) returns (deleted: seq<int>)
      modifies this
      ensures rows == KeepOthers(old(rows), symbol, Elements(sequences))
      ensures deleted == Returning(old(rows), symbol, Elements(sequences))
      ensures forall t :: t in rows <==> t in old(rows) && !(t.symbol == symbol && t.sequence in sequences)
      ensures forall q :: q in deleted
                     <==> q in sequences && exists t :: t in old(rows) && t.symbol == symbol && t.sequence == q
    {
      DeletedAre(rows, symbol, sequences);
      var wanted := Elements(sequences);
      var kept := [];
      deleted := [];
      for i := 0 to |rows|
        invariant rows == old(rows)
        invariant kept == KeepOthers(rows[..i], symbol, wanted)
        invariant deleted == Returning(rows[..i], symbol, wanted)
      {
        assert rows[..i + 1][..i] == rows[..i];
        if rows[i].symbol == symbol && rows[i].sequence in wanted {
          deleted := deleted + [rows[i].sequence];
        } else {
          kept := kept + [rows[i]];
        }
      }
      assert rows[..|rows|] == rows;
      rows := kept;
    }

    method ReadTicks(symbol: Symbol, start: int, end: int) returns (ticks: seq<Tick>)
      ensures InOrder(ticks, TickTime)
      ensures Permutation(ticks, TicksBetween(rows, symbol, start, end))
      ensures forall t :: t in ticks <==> t in rows && t.symbol == symbol && start <= t.time <= end
    {
      ticks := SortBy(TicksBetween(rows, symbol, start, end), TickTime);
      SameMembers(ticks, TicksBetween(rows, symbol, start, end));
      forall t
        ensures t in ticks <==> t in rows && t.symbol == symbol && start <= t.time <= end
      {
        KeepSelects(rows, TickIn(symbol, start, end), t);
      }
    }
  }

  class BookStore {
    var fills: seq<Fill>
    var positions: seq<Position>
    var planted: seq<Planted>

    constructor ()
      ensures fills == [] && positions == [] && planted == []
    {
      fills, positions, planted := [], [], [];
    }

    /** A fill whose id is already stored is ignored. */
    method WriteFill(fill: Fill)
      modifies this`fills
      ensures fills == InsertFill(old(fills), fill)
      ensures (exists f :: f in old(fills) && f.fillId == fill.fillId) ==> fills == old(fills)
      ensures (forall f | f in old(fills) :: f.fillId != fill.fillId) ==> fills == old(fills) + [fill]
    {
      if !Known(fills, fill.fillId) {
        fills := fills + [fill];
      }
    }

    method WritePosition(position: Position)
      modifies this`positions
      ensures positions == old(positions) + [position]
    {
      positions := positions + [position];
    }

    method LogPlanted(anomaly: Planted)
      modifies this`planted
      ensures planted == old(planted) + [anomaly]
    {
      planted := planted + [anomaly];
    }

    method ReadFills(symbol: Symbol, start: int, end: int) returns (r: seq<Fill>)
      ensures InOrder(r, FillTime)
      ensures Permutation(r, FillsBetween(fills, symbol, start, end))
      ensures forall f :: f in r <==> f in fills && f.symbol == symbol && start <= f.time <= end
    {
      r := SortBy(FillsBetween(fills, symbol, start, end), FillTime);
      SameMembers(r, FillsBetween(fills, symbol, start, end));
      forall f
        ensures f in r <==> f in fills && f.symbol == symbol && start <= f.time <= end
      {
        KeepSelects(fills, FillIn(symbol, start, end), f);
      }
    }

    method ReadPositions(symbol: Symbol, start: int, end: int) returns (r: seq<Position>)
      ensures InOrder(r, PositionTime)
      ensures Permutation(r, PositionsBetween(positions, symbol, start, end))
      ensures forall p :: p in r <==> p in positions && p.symbol == symbol && start <= p.time <= end
    {
      r := SortBy(PositionsBetween(positions, symbol, start, end), PositionTime);
      SameMembers(r, PositionsBetween(positions, symbol, start, end));
      forall p
        ensures p in r <==> p in positions && p.symbol == symbol && start <= p.time <= end
      {
        KeepSelects(positions, PositionIn(symbol, start, end), p);
      }
    }
  }

  predicate Known(fills: seq<Fill>, id: FillId) {
    exists f | f in fills :: f.fillId == id
  }

  function InsertFill(fills: seq<Fill>, fill: Fill): seq<Fill> {
    if Known(fills, fill.fillId) then fills else fills + [fill]
  }
}
