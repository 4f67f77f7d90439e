/**
 * The linear undo/redo history of whole-circuit snapshots
 * (src/SuperConductingCircuitBuilder/caretaker.py).
 *
 * The history is a list and the cursor an integer that every operation moves
 * before it looks anything up. Lookups follow Python's list semantics, so a
 * negative cursor below -1 reads from the end of the list and a negative
 * truncation point cuts entries off the end.
 */
module Caretakers {
  import opened Options

  /** What `undo` and `redo` hand back: a snapshot, or `UndoRedoException`. */
  datatype Outcome<T> = Restored(snapshot: T) | UndoRedoException

  /** Python's `s[i]`: negative indices count from the end; `None` where Python raises IndexError. */
  function PyIndex<T>(s: seq<T>, i: int): Option<T>
  {
    if 0 <= i < |s| then Some(s[i])
    else if -|s| <= i < 0 then Some(s[|s| + i])
    else None
  }

  /** Python's `s[:i]`. */
  function PyPrefix<T>(s: seq<T>, i: int): seq<T>
  {
    if i >= |s| then s
    else if i >= 0 then s[..i]
    else if i >= -|s| then s[..|s| + i]
    else []
  }

  /** The caretaker's state: `history` and the cursor `idx`. */
  datatype History<T> = History(entries: seq<T>, cursor: int)

  /** `restore(index)`: `None` where Python raises IndexError (index -1, or out of range). */
  function RestoreAt<T>(entries: seq<T>, index: int): Option<T>
  {
    if index == -1 then None else PyIndex(entries, index)
  }

  /** `undo`/`redo` turn an IndexError into `UndoRedoException`. */
  function Caught<T>(r: Option<T>): Outcome<T>
  {
    if r.Some? then Restored(r.value) else UndoRedoException
  }

  /** `add_snapshot`: advance the cursor, cut the history at the cursor if it lies inside, append. */
  function SnapshotStep<T>(h: History<T>, s: T): History<T>
  {
    var i := h.cursor + 1;
    History((if i < |h.entries| then PyPrefix(h.entries, i) else h.entries) + [s], i)
  }

  /** `undo`: move the cursor back one and restore there; the cursor is not put back on failure. */
  function UndoStep<T>(h: History<T>): (History<T>, Outcome<T>)
  {
    (History(h.entries, h.cursor - 1), Caught(RestoreAt(h.entries, h.cursor - 1)))
  }

  /** `redo`: move the cursor forward one and restore there; the cursor is not put back on failure. */
  function RedoStep<T>(h: History<T>): (History<T>, Outcome<T>)
  {
    (History(h.entries, h.cursor + 1), Caught(RestoreAt(h.entries, h.cursor + 1)))
  }

  /** The state after `add_snapshot` is called with each of ss in turn. */
  function SnapshotAll<T>(h: History<T>, ss: seq<T>): History<T>
    decreases |ss|
  {
    if ss == [] then h else SnapshotAll(SnapshotStep(h, ss[0]), ss[1..])
  }

  /** The state and the outcomes after k calls of `undo`. */
  function UndoRun<T>(h: History<T>, k: nat): (History<T>, seq<Outcome<T>>)
    decreases k
  {
    if k == 0 then (h, [])
    else
      var (h1, r) := UndoStep(h);
      var (h2, rs) := UndoRun(h1, k - 1);
      (h2, [r] + rs)
  }

  /**
   * With the cursor inside the history, `add_snapshot` advances it by one,
   * keeps the entries up to the old cursor, drops every later one and puts
   * the snapshot last, at the new cursor.
   */
  lemma SnapshotWithinHistory<T>(h: History<T>, s: T)
    requires -1 <= h.cursor < |h.entries|
    ensures SnapshotStep(h, s).cursor == h.cursor + 1
    ensures |SnapshotStep(h, s).entries| == h.cursor + 2
    ensures SnapshotStep(h, s).entries == h.entries[..h.cursor + 1] + [s]
  {
  }

  /** A `redo` straight after `add_snapshot` (cursor inside the history) fails and leaves the cursor past the end. */
  lemma RedoFailsAfterSnapshot<T>(h: History<T>, s: T)
    requires -1 <= h.cursor < |h.entries|
    ensures RedoStep(SnapshotStep(h, s)).1 == UndoRedoException
    ensures RedoStep(SnapshotStep(h, s)).0.cursor == |SnapshotStep(h, s).entries|
  {
    SnapshotWithinHistory(h, s);
  }

  /** `undo` with a cursor of at least 1 moves back one and returns the entry there. */
  lemma UndoWithinHistory<T>(h: History<T>)
    requires 1 <= h.cursor <= |h.entries|
    ensures UndoStep(h) == (History(h.entries, h.cursor - 1), Restored(h.entries[h.cursor - 1]))
  {
  }

  /** `undo` from cursor 0 raises, and the cursor is left at -1, not restored. */
  lemma UndoAtFirstEntry<T>(h: History<T>)
    requires h.cursor == 0
    ensures UndoStep(h) == (History(h.entries, -1), UndoRedoException)
  {
  }

  /** `redo` below the last entry moves forward one and returns the entry there. */
  lemma RedoWithinHistory<T>(h: History<T>)
    requires -1 <= h.cursor && h.cursor + 1 < |h.entries|
    ensures RedoStep(h) == (History(h.entries, h.cursor + 1), Restored(h.entries[h.cursor + 1]))
  {
  }

  /** `redo` at the last entry raises and leaves the cursor one past the end. */
  lemma RedoAtLastEntry<T>(h: History<T>)
    requires h.cursor == |h.entries| - 1
    ensures RedoStep(h) == (History(h.entries, |h.entries|), UndoRedoException)
  {
  }

  /** For i in [-1, len), `restore(i)` fails exactly when i is -1 and otherwise returns `history[i]`. */
  lemma RestoreInRange<T>(entries: seq<T>, i: int)
    requires -1 <= i < |entries|
    ensures RestoreAt(entries, i).None? <==> i == -1
    ensures i >= 0 ==> RestoreAt(entries, i) == Some(entries[i])
  {
  }

  /** Snapshots pushed on a fresh caretaker make up the whole history, with the cursor on the last one. */
  lemma {:induction false} SnapshotsFromFresh<T>(ss: seq<T>)
    ensures SnapshotAll(History([], -1), ss) == History(ss, |ss| - 1)
  {
    SnapshotsAppend([], ss);
  }

  lemma {:induction false} SnapshotsAppend<T>(done: seq<T>, ss: seq<T>)
    ensures SnapshotAll(History(done, |done| - 1), ss) == History(done + ss, |done| + |ss| - 1)
    decreases |ss|
  {
    if ss != [] {
      assert SnapshotStep(History(done, |done| - 1), ss[0]) == History(done + [ss[0]], |done|);
      SnapshotsAppend(done + [ss[0]], ss[1..]);
      assert done + [ss[0]] + ss[1..] == done + ss;
    }
  }

  /**
   * From cursor c inside the history, the first c calls of `undo` succeed and
   * return the entries c-1, c-2, ..., 0; the next one raises.
   */
  lemma {:induction false} UndoRunFrom<T>(entries: seq<T>, c: nat, k: nat)
    requires c < |entries| && k <= c + 1
    ensures |UndoRun(History(entries, c), k).1| == k
    ensures forall j :: 0 <= j < k && j < c ==> UndoRun(History(entries, c), k).1[j] == Restored(entries[c - 1 - j])
    ensures k == c + 1 ==> UndoRun(History(entries, c), k).1[c] == UndoRedoException
    ensures UndoRun(History(entries, c), k).0 == History(entries, c - k)
  {
    if k > 0 {
      if c == 0 {
        assert UndoRun(History(entries, -1), 0).1 == [];
      } else {
        UndoRunFrom(entries, c - 1, k - 1);
        var rs := UndoRun(History(entries, c - 1), k - 1).1;
        assert UndoRun(History(entries, c), k).1 == [Restored(entries[c - 1])] + rs;
      }
    }
  }

  /** After n >= 1 snapshots on a fresh caretaker, `undo` succeeds exactly n-1 times, then raises. */
  lemma UndoCountAfterSnapshots<T>(ss: seq<T>)
    requires |ss| >= 1
    ensures var outs := UndoRun(SnapshotAll(History([], -1), ss), |ss|).1;
      |outs| == |ss| &&
      (forall j :: 0 <= j < |ss| - 1 ==> outs[j].Restored?) &&
      outs[|ss| - 1] == UndoRedoException
  {
    SnapshotsFromFresh(ss);
    UndoRunFrom(ss, |ss| - 1, |ss|);
  }

  /**
   * Because a failed `undo` leaves the cursor at -1, a second `undo` moves it
   * to -2 and Python's negative indexing returns the second-to-last snapshot.
   */
  lemma SecondUndoReadsFromTheEnd<T>(entries: seq<T>)
    requires |entries| >= 2
    ensures UndoStep(History(entries, 0)).1 == UndoRedoException
    ensures UndoStep(UndoStep(History(entries, 0)).0).1 == Restored(entries[|entries| - 2])
  {
  }

  /**
   * Because a failed `redo` leaves the cursor past the end, the next
   * `add_snapshot` puts the cursor past the end again, and an `undo` then
   * returns the snapshot just pushed.
   */
  lemma SnapshotAfterFailedRedo<T>(h: History<T>, s: T)
    requires h.cursor == |h.entries| - 1
    ensures var h2 := SnapshotStep(RedoStep(h).0, s);
      h2.cursor == |h2.entries| && UndoStep(h2).1 == Restored(s)
  {
  }

  class Caretaker<T> {
    var history: seq<T>
    var idx: int

    function State(): History<T>
      reads this
    {
      History(history, idx)
    }

    constructor ()
      ensures history == [] && idx == -1
    {
      history := [];
      idx := -1;
    }

    method AddSnapshot(snapshot: T)
      modifies this
      ensures State() == SnapshotStep(old(State()), snapshot)
    {
      idx := idx + 1;
      if idx < |history| {
        history := PyPrefix(history, idx);
      }
      history := history + [snapshot];
    }

    method Undo() returns (r: Outcome<T>)
      modifies this
      ensures (State(), r) == UndoStep(old(State()))
    {
      idx := idx - 1;
      var found := Restore(idx);
      if found.Some? {
        r := Restored(found.value);
      } else {
        r := UndoRedoException;
      }
    }

    method Redo() returns (r: Outcome<T>)
      modifies this
      ensures (State(), r) == RedoStep(old(State()))
    {
      idx := idx + 1;
      var found := Restore(idx);
      if found.Some? {
        r := Restored(found.value);
      } else {
        r := UndoRedoException;
      }
    }

    /** Look up `history[index]` without changing anything; index -1 is refused. */
    method Restore(index: int) returns (r: Option<T>)
      ensures r == RestoreAt(history, index)
      ensures -1 <= index < |history| ==> (r.None? <==> index == -1)
    {
      if index == -1 {
        r := None;
      } else if 0 <= index < |history| {
        r := Some(history[index]);
      } else if -|history| <= index < 0 {
        r := Some(history[|history| + index]);
      } else {
        r := None;
      }
    }
  }
}
