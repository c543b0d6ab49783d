/**
 * The filter-transform dispatch of the im2col convolution. Forward and
 * filter-backprop convolutions use the user's filter as it is, so their
 * transform is an empty host task that only joins the incoming events. The
 * input-backprop convolution needs the filter mirrored into a scratch buffer:
 * the dispatch builds a read-only view of the original filter and a writable
 * view of the scratch filter, both `window_rows * window_cols * channels *
 * features` elements long, and hands them to the library's mirroring launcher,
 * whose status and event it returns unchanged. That launcher's body is not part
 * of this model, so it is a parameter here.
 */
module FilterTransform {
  import opened Runtime
  import opened Conv2D
  import opened MemObjects

  /** A raw device pointer: an allocation and the element it points at. */
  datatype DevicePointer = DevicePointer(buffer: Buffer, offset: nat)

  /** The pointers of one convolution's tensors, as the backend hands them around. */
  datatype FullPointerSet = FullPointerSet(
    input: DevicePointer,
    originalFilter: DevicePointer,
    filter: DevicePointer,
    output: DevicePointer)
  {
    /** The original filter is read-only; the scratch filter is writable. */
    predicate WellTyped() {
      originalFilter.buffer.elem.isConst && !filter.buffer.elem.isConst
    }
  }

  /** The library's mirroring launcher: source view, destination view, params, events. */
  type MirrorLauncher = (MemObject, MemObject, Conv2DParams, seq<Event>) -> SNNStatus

  /** Number of filter elements: `window_rows * window_cols * channels * features`. */
  function FilterSize(params: Conv2DParams): nat
  {
    params.windowRows * params.windowCols * params.channels * params.features
  }

  /**
   * The backend's `_get_mem_object_internal`: a view over `size` elements
   * starting at the pointer. The caller allocated the pointed-to buffer, so
   * the view fits.
   */
  function GetMemObjectInternal(p: DevicePointer, size: nat): (v: MemObject)
    requires p.offset + size <= p.buffer.count
    ensures v.Valid() && v.buffer == p.buffer && v.extent == size && v.offset == p.offset
  {
    MakeMemObject(p.buffer, size, p.offset)
  }

  /** Both filter allocations can hold a whole filter at their pointers. */
  predicate FiltersAllocated(pointers: FullPointerSet, params: Conv2DParams) {
    && pointers.originalFilter.offset + FilterSize(params) <= pointers.originalFilter.buffer.count
    && pointers.filter.offset + FilterSize(params) <= pointers.filter.buffer.count
  }

  /**
   * The source and destination of the mirroring: the original filter read-only,
   * the scratch filter writable, each exactly one filter long.
   */
  function FilterViews(pointers: FullPointerSet, params: Conv2DParams): (views: (MemObject, MemObject))
    requires pointers.WellTyped() && FiltersAllocated(pointers, params)
    ensures views.0.buffer == pointers.originalFilter.buffer && views.0.offset == pointers.originalFilter.offset
    ensures views.1.buffer == pointers.filter.buffer && views.1.offset == pointers.filter.offset
    ensures views.0.extent == FilterSize(params) && views.1.extent == FilterSize(params)
    ensures views.0.buffer.elem.isConst && !views.1.buffer.elem.isConst
    ensures views.0.Valid() && views.1.Valid()
  {
    var size := FilterSize(params);
    (GetMemObjectInternal(pointers.originalFilter, size), GetMemObjectInternal(pointers.filter, size))
  }

  /**
   * `launch_filter_transform`: one overload for input backprop, the other for
   * every other direction.
   */
  function LaunchFilterTransform(
    convType: ConvType, pointers: FullPointerSet, params: Conv2DParams,
    mirror: MirrorLauncher, events: seq<Event>): (r: SNNStatus)
    requires convType == InputBackprop ==> pointers.WellTyped() && FiltersAllocated(pointers, params)
    ensures convType != InputBackprop ==> r == SNNStatus(Event(EmptyHostTask, events), OK)
    ensures convType == InputBackprop ==>
      var views := FilterViews(pointers, params); r == mirror(views.0, views.1, params, events)
  {
    match convType
    case InputBackprop =>
      var views := FilterViews(pointers, params);
      mirror(views.0, views.1, params, events)
    case _ =>
      SNNStatus(Event(EmptyHostTask, events), OK)
  }

  /**
   * The no-op transform touches neither filter: its result is the same for any
   * pointer set and any mirroring launcher.
   */
  lemma NoOpIgnoresFilters(
    convType: ConvType, p: FullPointerSet, q: FullPointerSet, params: Conv2DParams,
    mirror: MirrorLauncher, mirror': MirrorLauncher, events: seq<Event>)
    requires convType != InputBackprop
    ensures LaunchFilterTransform(convType, p, params, mirror, events)
         == LaunchFilterTransform(convType, q, params, mirror', events)
  {
  }
}
