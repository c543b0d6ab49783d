/**
 * Memory views. A `MemObject` names a one-dimensional device buffer and
 * exposes `extent` of its elements starting at `offset`. The buffer's
 * contents live outside this module (the matmul launch passes them beside the
 * view); here a buffer is its identity, its element count and its element type.
 */
module MemObjects {

  /** An element type: a name, its size in bytes, and whether it is `const`-qualified. */
  datatype ElemType = ElemType(name: string, size: nat, isConst: bool)

  /** A device buffer: which allocation, how many elements, of what type. */
  datatype Buffer = Buffer(id: nat, count: nat, elem: ElemType)

  /**
   * `buffer.reinterpret<E>()` for a type of the same size: the same
   * allocation and element count seen through another element type.
   */
  function Reinterpret(b: Buffer, e: ElemType): (r: Buffer)
    requires e.size == b.elem.size
    ensures r.id == b.id && r.count == b.count && r.elem == e
  {
    Buffer(b.id, b.count, e)
  }

  /** How an accessor may touch the buffer. */
  datatype AccessMode = Read | ReadWrite | Write

  /** A ranged accessor: `extent` elements of `buffer` from `offset`, with a mode. */
  datatype Accessor = Accessor(buffer: Buffer, mode: AccessMode, extent: nat, offset: nat) {
    /** The accessed range lies inside the buffer. */
    predicate InBuffer() {
      offset + extent <= buffer.count
    }
  }

  /**
   * A view of `extent` elements of `buffer` starting at `offset`. The raw
   * constructor stores its arguments unchecked; `MakeMemObject` is the
   * checking factory.
   */
  datatype MemObject = MemObject(buffer: Buffer, extent: nat, offset: nat) {

    /** The view's invariant: it does not reach past the end of its buffer. */
    predicate Valid() {
      extent + offset <= buffer.count
    }

    /** `get_count()`: the number of elements of the underlying buffer. */
    function GetCount(): (c: nat)
      ensures c == buffer.count
    {
      buffer.count
    }

    /** `read_accessor`: a read accessor over exactly this view's range. */
    function ReadAccessor(): (a: Accessor)
      ensures a.buffer == buffer && a.mode == Read
      ensures a.extent == extent && a.offset == offset
      ensures Valid() ==> a.InBuffer()
    {
      Accessor(buffer, Read, extent, offset)
    }

    /** `read_write_accessor`: only for views of a non-`const` element type. */
    function ReadWriteAccessor(): (a: Accessor)
      requires !buffer.elem.isConst
      ensures a.buffer == buffer && a.mode == ReadWrite
      ensures a.extent == extent && a.offset == offset
      ensures Valid() ==> a.InBuffer()
    {
      Accessor(buffer, ReadWrite, extent, offset)
    }

    /** `write_accessor`: only for views of a non-`const` element type. */
    function WriteAccessor(): (a: Accessor)
      requires !buffer.elem.isConst
      ensures a.buffer == buffer && a.mode == Write
      ensures a.extent == extent && a.offset == offset
      ensures Valid() ==> a.InBuffer()
    {
      Accessor(buffer, Write, extent, offset)
    }

    /** `as_const`: the same data, extent and offset, seen as `const` elements. */
    function AsConst(): (r: MemObject)
      ensures r.buffer.id == buffer.id && r.buffer.count == buffer.count
      ensures r.buffer.elem == buffer.elem.(isConst := true)
      ensures r.extent == extent && r.offset == offset
      ensures Valid() ==> r.Valid()
    {
      MemObject(Reinterpret(buffer, buffer.elem.(isConst := true)), extent, offset)
    }

    /**
     * `cast<E>`: allowed only for an element type of the same size; it goes
     * through the factory, so the view must satisfy the factory's check.
     */
    function Cast(e: ElemType): (r: MemObject)
      requires e.size == buffer.elem.size
      requires Valid()
      ensures r.buffer.id == buffer.id && r.buffer.count == buffer.count && r.buffer.elem == e
      ensures r.extent == extent && r.offset == offset
      ensures r.Valid()
    {
      MakeMemObject(Reinterpret(buffer, e), extent, offset)
    }
  }

  /**
   * `make_mem_object`: the factory asserts that the buffer holds at least
   * `extent + offset` elements, and stores its arguments unchanged. The
   * source's default `offset = 0` is passed explicitly here.
   */
  function MakeMemObject(buffer: Buffer, extent: nat, offset: nat): (r: MemObject)
    requires buffer.count >= extent + offset
    ensures r.buffer == buffer && r.extent == extent && r.offset == offset
    ensures r.Valid() && r.GetCount() == buffer.count
  {
    MemObject(buffer, extent, offset)
  }

  /** Every accessor of a valid view stays inside the buffer, and all three agree on the range. */
  lemma AccessorsAgree(v: MemObject)
    requires v.Valid() && !v.buffer.elem.isConst
    ensures v.ReadAccessor().InBuffer()
    ensures v.ReadAccessor().(mode := ReadWrite) == v.ReadWriteAccessor()
    ensures v.ReadAccessor().(mode := Write) == v.WriteAccessor()
  {
  }

  /** Only the factory checks the invariant: the raw constructor accepts a view past the end. */
  lemma RawConstructorUnchecked(e: ElemType)
    ensures !MemObject(Buffer(0, 0, e), 1, 0).Valid()
  {
  }
}
