/**
  The snapshot-and-revert wrapper `Restorable<T>`, the `Entity` handle it is
  handed out behind, and the two factories.

  The wrapped type supplies two capabilities. Its `save()` side effect is
  recorded as an event in a `SaveLog`; its `toString()` is passed to the
  rendering functions as `render`.
 */
module Restorables {

  /** The `save()` calls made on values of type `T`, oldest first. */
  class SaveLog<T> {
    ghost var events: seq<T>

    constructor ()
      ensures events == []
    {
      events := [];
    }

    /** `x.save()`: one persistence event for the value `x`. */
    method Record(x: T)
      modifies this
      ensures events == old(events) + [x]
    {
      events := events + [x];
    }
  }

  /**
    A working copy `actual` and a snapshot `original`. Both are values, so the
    wrapper never shares storage with its caller; `original` is a constant,
    so no operation can write it after construction.
   */
  class Restorable<T(==)> {
    var actual: T
    const original: T

    constructor (value: T)
      ensures actual == value && original == value
      ensures !IsChanged()
    {
      actual := value;
      original := value;
    }

    /** Whether the working copy has diverged from the snapshot. */
    predicate IsChanged()
      reads this
    {
      actual != original
    }

    /** Copies the snapshot back over the working copy. */
    method Restore()
      modifies this
      ensures actual == original && !IsChanged()
      ensures old(!IsChanged()) ==> unchanged(this)
    {
      actual := original;
    }

    /** An in-place change made through the mutable `value()` reference. */
    method Mutate(edit: T -> T)
      modifies this
      ensures actual == edit(old(actual))
      ensures IsChanged() <==> edit(old(actual)) != original
    {
      actual := edit(actual);
    }

    /** Persists the working copy, never the snapshot. */
    method Save(log: SaveLog<T>)
      modifies log
      ensures log.events == old(log.events) + [actual]
    {
      log.Record(actual);
    }

    /** Renders the working copy, never the snapshot. */
    function ToString(render: T -> string): string
      reads this
    {
      render(actual)
    }
  }

  /**
    An unchanged wrapper renders its snapshot, and, for a rendering that tells
    values apart, any change to the working copy shows in the rendering.
   */
  lemma RenderingShowsChange<T>(r: Restorable<T>, render: T -> string)
    requires forall x, y :: render(x) == render(y) ==> x == y
    ensures r.IsChanged() <==> r.ToString(render) != render(r.original)
  {
  }

  /**
    The `Entity` view of a wrapper: only `Save` and `ToString` are reachable
    through it. It owns the wrapper it forwards to.
   */
  class Entity<T(==)> {
    const target: Restorable<T>

    constructor (target: Restorable<T>)
      ensures this.target == target
    {
      this.target := target;
    }

    method Save(log: SaveLog<T>)
      modifies log
      ensures log.events == old(log.events) + [target.actual]
    {
      target.Save(log);
    }

    function ToString(render: T -> string): string
      reads this, target
    {
      target.ToString(render)
    }
  }

  /**
    `makeRestorable`: saves the sample once, then snapshots a copy of it. The
    snapshot is the value that was just persisted.
   */
  method MakeRestorable<T(==)>(sample: T, log: SaveLog<T>) returns (r: Restorable<T>)
    modifies log
    ensures fresh(r)
    ensures log.events == old(log.events) + [sample]
    ensures r.original == log.events[|log.events| - 1]
    ensures r.actual == sample && r.original == sample && !r.IsChanged()
  {
    log.Record(sample);
    r := new Restorable(sample);
  }

  /**
    `makeEntity`: `makeRestorable` followed by boxing the new wrapper behind
    `Entity`, which owns it exclusively.
   */
  method MakeEntity<T(==)>(sample: T, log: SaveLog<T>) returns (e: Entity<T>)
    modifies log
    ensures fresh(e) && fresh(e.target)
    ensures log.events == old(log.events) + [sample]
    ensures e.target.actual == sample && e.target.original == sample
    ensures forall render: T -> string :: e.ToString(render) == render(sample)
  {
    var r := MakeRestorable(sample, log);
    e := new Entity(r);
  }
}
