/**
 * A mutable box that may hold an object: it can be filled once it is
 * found empty, by a given value or by a supplier, and can hand its object
 * to a closure. A closure's calls are returned as the list of arguments it
 * received; a supplier's calls are counted.
 */
module Optional {
  import opened Wrappers

  class Optional<T> {
    /** The held object (`object` in the source); only `OrElse` and `OrElseGet` write it. */
    var obj: Option<T>

    constructor (obj: Option<T>)
      ensures this.obj == obj
    {
      this.obj := obj;
    }

    /** Whether the box holds an object. */
    predicate IsPresent(): (r: bool)
      reads this`obj
      ensures r <==> obj != None
    {
      obj.Some?
    }

    /**
     * Hands the object to the closure once when present, and never when
     * empty; returns the same box and leaves its object as it was.
     */
    method IfPresent() returns (same: Optional<T>, calledWith: seq<T>)
      ensures same == this
      ensures IsPresent() <==> |calledWith| == 1
      ensures !IsPresent() <==> calledWith == []
      ensures IsPresent() ==> calledWith == [obj.value]
    {
      if !IsPresent() {
        return this, [];
      }
      calledWith := [obj.value];
      same := this;
    }

    /** Stores `newObject` when the box is empty; a present object stays. Returns the same box. */
    method OrElse(newObject: T) returns (same: Optional<T>)
      modifies this`obj
      ensures same == this
      ensures IsPresent()
      ensures old(IsPresent()) ==> obj == old(obj)
      ensures !old(IsPresent()) ==> obj == Some(newObject)
    {
      if IsPresent() {
        return this;
      }
      obj := Some(newObject);
      same := this;
    }

    /**
     * Calls the supplier and stores its result when the box is empty; a
     * present object stays and the supplier is not called. Returns the same
     * box.
     */
    method OrElseGet(supplier: () -> T) returns (same: Optional<T>, calls: nat)
      modifies this`obj
      ensures same == this
      ensures IsPresent()
      ensures old(IsPresent()) ==> obj == old(obj) && calls == 0
      ensures !old(IsPresent()) ==> obj == Some(supplier()) && calls == 1
    {
      if IsPresent() {
        return this, 0;
      }
      obj := Some(supplier());
      same := this;
      calls := 1;
    }
  }

  /** An empty box. */
  method Empty<T>() returns (box: Optional<T>)
    ensures fresh(box)
    ensures !box.IsPresent()
  {
    box := new Optional(None);
  }

  /** Once `OrElse` has filled the box, a second `OrElse` or `OrElseGet` changes nothing. */
  method OrElseTwice<T>(box: Optional<T>, first: T, second: T, supplier: () -> T) returns (calls: nat)
    modifies box`obj
    ensures box.obj == if old(box.IsPresent()) then old(box.obj) else Some(first)
    ensures calls == 0
  {
    var same := box.OrElse(first);
    ghost var filled := box.obj;
    same := same.OrElse(second);
    assert box.obj == filled;
    same, calls := same.OrElseGet(supplier);
  }

  /**
   * An example run: an empty box hands nothing to the closure, is filled by
   * `OrElse(7)`, ignores `OrElse(9)`, and then hands 7 to the closure.
   */
  method FillRun() returns (before: seq<int>, after: seq<int>, held: int)
    ensures before == [] && after == [7] && held == 7
  {
    var box := Empty<int>();
    var same;
    same, before := box.IfPresent();
    same := box.OrElse(7);
    same := box.OrElse(9);
    same, after := box.IfPresent();
    held := box.obj.value;
  }
}
