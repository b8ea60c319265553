/** Pointer wrappers and the rectangle test of src/type_utils.h. */
module TypeUtils {
  import opened Types

  /** A raw C pointer: null, or the address of a value. */
  datatype Ptr<T> = Null | Address(target: T)

  /** `std::unique_ptr<T, decltype(&free)>`: converts to true when it holds a
      non-null pointer. */
  datatype UniquePtr<T> = UniquePtr(ptr: Ptr<T>) {
    predicate AsBool() { ptr.Address? }
  }

  /** The owning `Cptr<T>` wrapper. Its `explicit operator bool` compares the
      held pointer with null the other way round from `unique_ptr`. */
  datatype Cptr<T> = Cptr(data: Ptr<T>) {
    predicate AsBool() { data == Null }
  }

  /** `Cptr::operator bool` is true exactly for a null pointer, the inverse of
      what a `unique_ptr` holding the same pointer reports. */
  lemma CptrBoolIsInverted<T>(p: Ptr<T>)
    ensures Cptr(p).AsBool() <==> p.Null?
    ensures Cptr(p).AsBool() == !UniquePtr(p).AsBool()
  {
  }

  /** The single-pointer overload of `PtrWrap`: take ownership of `ptr`. */
  function PtrWrap<T>(ptr: Ptr<T>): (r: UniquePtr<T>)
    ensures r.ptr == ptr
    ensures r.AsBool() <==> ptr.Address?
  {
    UniquePtr(ptr)
  }

  /** The pair overload of `PtrWrap`: wrap the pointer of a (reply, ok) pair
      and pass the ok flag through untouched. */
  function PtrWrapPair<T, A>(pair: (Ptr<T>, A)): (r: (UniquePtr<T>, A))
    ensures r.0 == PtrWrap(pair.0)
    ensures r.1 == pair.1
  {
    (PtrWrap(pair.0), pair.1)
  }

  /** The sums `top_left + size` must not leave the int32 range: the source
      computes them in `int32_t`, where an overflow is undefined. */
  predicate NoOverflow(topLeft: Vector2D, size: Vector2D) {
    IsInt32(topLeft.x + size.x) && IsInt32(topLeft.y + size.y)
  }

  /** Whether `pos` lies in the rectangle at `topLeft` of extent `size`; both
      the near and the far edges belong to the rectangle. */
  predicate IsInRect(pos: Vector2D, topLeft: Vector2D, size: Vector2D)
    requires NoOverflow(topLeft, size)
  {
    pos.x >= topLeft.x && pos.x <= topLeft.x + size.x && pos.y >= topLeft.y && pos.y <= topLeft.y + size.y
  }

  /** The rectangle as the set of its lattice points, for comparison. */
  ghost function RectPoints(topLeft: Vector2D, size: Vector2D): set<(int, int)> {
    set x: int, y: int | topLeft.x <= x <= topLeft.x + size.x && topLeft.y <= y <= topLeft.y + size.y :: (x, y)
  }

  /** `IsInRect` is membership in the closed rectangle. */
  lemma IsInRectIsMembership(pos: Vector2D, topLeft: Vector2D, size: Vector2D)
    requires NoOverflow(topLeft, size)
    ensures IsInRect(pos, topLeft, size) <==> (pos.x as int, pos.y as int) in RectPoints(topLeft, size)
  {
  }

  /** For a non-negative size both corners are inside: the far edge is
      inclusive, not half-open. */
  lemma CornersInside(topLeft: Vector2D, size: Vector2D)
    requires NoOverflow(topLeft, size)
    requires size.x >= 0 && size.y >= 0
    ensures IsInRect(topLeft, topLeft, size)
    ensures IsInRect(Vector2D(topLeft.x + size.x, topLeft.y + size.y), topLeft, size)
  {
  }

  /** A negative width or height leaves no point inside the rectangle. */
  lemma NegativeSizeIsEmpty(pos: Vector2D, topLeft: Vector2D, size: Vector2D)
    requires NoOverflow(topLeft, size)
    requires size.x < 0 || size.y < 0
    ensures !IsInRect(pos, topLeft, size)
  {
  }

}
