/** Plain records shared by the whole window manager (src/types.h,
    src/monitor.h) and the fixed-width integers of the X11 wire protocol. */
module Types {

  type uint8 = x: int | 0 <= x < 0x100
  type uint16 = x: int | 0 <= x < 0x1_0000
  type uint32 = x: int | 0 <= x < 0x1_0000_0000
  type int16 = x: int | -0x8000 <= x < 0x8000
  type int32 = x: int | -0x8000_0000 <= x < 0x8000_0000

  predicate IsInt32(x: int) { -0x8000_0000 <= x < 0x8000_0000 }

  /** Server-side identifiers: `xcb_window_t` and `xcb_atom_t` are both CARD32. */
  type Window = uint32
  type AtomId = uint32

  /** `XCB_NONE`: the null window and the null atom. */
  const NONE: uint32 := 0

  datatype Padding = Padding(top: int, right: int, bottom: int, left: int)

  datatype Layout = Tiled | Monocle

  datatype Vector2D = Vector2D(x: int32, y: int32)

  /** One physical output as recorded by the monitor registry. */
  datatype Monitor = Monitor(name: string, primary: bool, position: Vector2D, size: Vector2D)

}
