/**
 * The undo/redo history of the freehand sketch editor
 * (frontend/src/components/SketchEditor.jsx): a list of canvas snapshots
 * and a cursor into it. The pure state machine comes first, with the
 * properties the editor relies on; the `Editor` class then performs the
 * same updates on its fields and is proved against it.
 */
module SketchEditor {

  /** A canvas snapshot, the data URL the canvas produces; its content plays no role here. */
  type Snapshot = string

  /** The snapshot list and the cursor `historyStep`. */
  datatype History = History(snapshots: seq<Snapshot>, step: int)

  /**
   * The cursor points at a snapshot, or is -1 exactly while nothing has
   * been saved yet.
   */
  predicate Inv(h: History) {
    && -1 <= h.step < |h.snapshots|
    && (h.step == -1 <==> h.snapshots == [])
  }

  /** The state before anything is saved. */
  const Empty := History([], -1)

  /** The undo button is enabled. */
  predicate CanUndo(h: History) {
    h.step > 0
  }

  /** The redo button is enabled. */
  predicate CanRedo(h: History) {
    h.step < |h.snapshots| - 1
  }

  /** The snapshot the cursor points at, which the canvas shows. */
  function Current(h: History): Snapshot
    requires Inv(h) && h.step >= 0
  {
    h.snapshots[h.step]
  }

  /**
   * `saveToHistory`: everything after the cursor is dropped, the new
   * snapshot is appended and becomes the current one, and nothing is left
   * to redo.
   */
  function Saved(h: History, snap: Snapshot): (r: History)
    requires Inv(h)
    ensures Inv(r)
    ensures r.step >= 0 && Current(r) == snap
    ensures !CanRedo(r)
    ensures |r.snapshots| == h.step + 2 && r.snapshots[..h.step + 1] == h.snapshots[..h.step + 1]
  {
    var kept := h.snapshots[..h.step + 1];
    History(kept + [snap], |kept|)
  }

  /** `undo`: with an earlier snapshot, the cursor moves back to it; otherwise nothing changes. */
  function Undone(h: History): (r: History)
    requires Inv(h)
    ensures Inv(r) && r.snapshots == h.snapshots
    ensures CanUndo(h) ==> r.step >= 0 && Current(r) == h.snapshots[h.step - 1] && CanRedo(r)
    ensures !CanUndo(h) ==> r == h
  {
    if h.step > 0 then History(h.snapshots, h.step - 1) else h
  }

  /** `redo`: with a later snapshot, the cursor moves forward to it; otherwise nothing changes. */
  function Redone(h: History): (r: History)
    requires Inv(h)
    ensures Inv(r) && r.snapshots == h.snapshots
    ensures CanRedo(h) ==> r.step >= 0 && Current(r) == h.snapshots[h.step + 1] && CanUndo(r) == (h.step >= 0)
    ensures !CanRedo(h) ==> r == h
  {
    if h.step < |h.snapshots| - 1 then History(h.snapshots, h.step + 1) else h
  }

  /** Redoing an undo restores the state. */
  lemma UndoThenRedo(h: History)
    requires Inv(h) && CanUndo(h)
    ensures Redone(Undone(h)) == h
  {
  }

  /** Undoing a redo restores the state, once something has been saved. */
  lemma RedoThenUndo(h: History)
    requires Inv(h) && CanRedo(h) && h.step >= 0
    ensures Undone(Redone(h)) == h
  {
  }

  /**
   * Saving after an undo discards every snapshot that was ahead of the
   * cursor: the list is the snapshots up to the one undone to, then the
   * new one.
   */
  lemma SaveAfterUndo(h: History, snap: Snapshot)
    requires Inv(h) && CanUndo(h)
    ensures Saved(Undone(h), snap).snapshots == h.snapshots[..h.step] + [snap]
    ensures |Saved(Undone(h), snap).snapshots| <= |h.snapshots|
  {
  }

  /** With nothing to redo, a save adds exactly one snapshot at the end and keeps all the others. */
  lemma SaveAppends(h: History, snap: Snapshot)
    requires Inv(h) && !CanRedo(h)
    ensures Saved(h, snap).snapshots == h.snapshots + [snap]
  {
    assert h.snapshots[..h.step + 1] == h.snapshots;
  }

  /**
   * The state after a sequence of button presses, `true` for undo and
   * `false` for redo: undo and redo never change the snapshot list, only a
   * save does, and the cursor stays on it.
   */
  function Moved(h: History, moves: seq<bool>): (r: History)
    requires Inv(h)
    ensures Inv(r) && r.snapshots == h.snapshots
    decreases |moves|
  {
    if moves == [] then h
    else
      var before := Moved(h, moves[..|moves| - 1]);
      if moves[|moves| - 1] then Undone(before) else Redone(before)
  }

  /** The editor: the history state plus the `isDrawing` flag. */
  class Editor {
    var snapshots: seq<Snapshot>
    var step: int
    var drawing: bool

    function State(): History
      reads this
    {
      History(snapshots, step)
    }

    predicate Valid()
      reads this
    {
      Inv(State())
    }

    /** A fresh editor: empty history, cursor -1, not drawing. */
    constructor()
      ensures Valid() && State() == Empty && !drawing
    {
      snapshots := [];
      step := -1;
      drawing := false;
    }

    /** `saveToHistory` with the canvas's current snapshot. */
    method SaveToHistory(snap: Snapshot)
      requires Valid()
      modifies this
      ensures Valid() && State() == Saved(old(State()), snap) && drawing == old(drawing)
    {
      var kept := snapshots[..step + 1];
      kept := kept + [snap];
      snapshots := kept;
      step := |kept| - 1;
    }

    /** `undo`. */
    method Undo()
      requires Valid()
      modifies this
      ensures Valid() && State() == Undone(old(State())) && drawing == old(drawing)
    {
      if step > 0 {
        step := step - 1;
      }
    }

    /** `redo`. */
    method Redo()
      requires Valid()
      modifies this
      ensures Valid() && State() == Redone(old(State())) && drawing == old(drawing)
    {
      if step < |snapshots| - 1 {
        step := step + 1;
      }
    }

    /** `startDrawing`: a stroke begins; the history is untouched. */
    method StartDrawing()
      requires Valid()
      modifies this
      ensures Valid() && State() == old(State()) && drawing
    {
      drawing := true;
    }

    /** `stopDrawing`: ends a stroke in progress and saves the canvas once; without one it does nothing. */
    method StopDrawing(snap: Snapshot)
      requires Valid()
      modifies this
      ensures Valid() && !drawing
      ensures State() == if old(drawing) then Saved(old(State()), snap) else old(State())
    {
      if drawing {
        drawing := false;
        SaveToHistory(snap);
      }
    }

    /** `clearCanvas`: the canvas is filled white and that blank canvas is saved. */
    method ClearCanvas(blank: Snapshot)
      requires Valid()
      modifies this
      ensures Valid() && State() == Saved(old(State()), blank) && drawing == old(drawing)
    {
      SaveToHistory(blank);
    }
  }
}
