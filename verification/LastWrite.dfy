/**
  Logs of single-cell writes. Refs, HEAD and the pack set all change by assigning one cell
  at a time, so what a log leaves in a cell is the last value it wrote there.
 */
module LastWrite {

  datatype Write<+K, +V> = Write(cell: K, value: V)

  /** The content of `cell` after `log`, starting from `initial`. */
  function Final<K(==), V>(log: seq<Write<K, V>>, cell: K, initial: V): V {
    if log == [] then initial
    else if log[|log| - 1].cell == cell then log[|log| - 1].value
    else Final(log[..|log| - 1], cell, initial)
  }

  predicate Touches<K(==), V>(log: seq<Write<K, V>>, cell: K) {
    exists i | 0 <= i < |log| :: log[i].cell == cell
  }

  lemma {:induction false} FinalConcat<K, V>(a: seq<Write<K, V>>, b: seq<Write<K, V>>, cell: K, initial: V)
    ensures Final(a + b, cell, initial) == Final(b, cell, Final(a, cell, initial))
    decreases |b|
  {
    if b == [] {
      assert a + b == a;
    } else {
      assert (a + b)[..|a + b| - 1] == a + b[..|b| - 1];
      FinalConcat(a, b[..|b| - 1], cell, initial);
    }
  }

  /** A log that touches the cell forgets what was there; one that does not leaves it alone. */
  lemma {:induction false} TouchedOrKept<K, V>(log: seq<Write<K, V>>, cell: K, initial: V, other: V)
    ensures Touches(log, cell) ==> Final(log, cell, initial) == Final(log, cell, other)
    ensures !Touches(log, cell) ==> Final(log, cell, initial) == initial
    decreases |log|
  {
    if log != [] && log[|log| - 1].cell != cell {
      var init := log[..|log| - 1];
      TouchedOrKept(init, cell, initial, other);
      if Touches(log, cell) {
        var i :| 0 <= i < |log| && log[i].cell == cell;
        assert init[i].cell == cell;
      }
    }
  }

  /** Replaying a log over a cell that already saw any part `log[..k]` of it changes nothing. */
  lemma ReplayAbsorbs<K, V>(log: seq<Write<K, V>>, k: nat, cell: K, initial: V)
    requires k <= |log|
    ensures Final(log, cell, Final(log[..k], cell, initial)) == Final(log, cell, initial)
  {
    TouchedOrKept(log, cell, initial, Final(log[..k], cell, initial));
    if !Touches(log, cell) {
      assert !Touches(log[..k], cell);
      TouchedOrKept(log[..k], cell, initial, initial);
    }
  }
}
