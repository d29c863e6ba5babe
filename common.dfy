/** Shared vocabulary of the field-control model: an optional value, one
    pixel colour, and the unsigned 32-bit millisecond arithmetic the building
    firmware debounces with. */
module Common {

  datatype Option<T> = None | Some(value: T)

  /** One pixel of an LED strip, as the `[r, g, b]` triples the controller
      publishes and the firmware parses. */
  datatype Rgb = Rgb(r: int, g: int, b: int)

  const TWO_TO_32: int := 0x1_0000_0000

  /** The value range of `uint32_t` (and of `unsigned long` on the AVR). */
  newtype u32 = x: int | 0 <= x < 0x1_0000_0000

  /** `a - b` on two unsigned 32-bit operands: the mathematical difference
      reduced modulo 2^32, so a clock that wrapped still yields the time
      elapsed since `b`. */
  function Sub32(a: u32, b: u32): (d: u32)
    ensures a >= b ==> d as int == a as int - b as int
    ensures a < b ==> d as int == a as int - b as int + TWO_TO_32
  {
    ((a as int - b as int) % TWO_TO_32) as u32
  }

  /** The debounce rule of both ball-drop routines: an edge at time `now`
      is taken when strictly more than `window` milliseconds have passed
      since the last accepted edge at `last`. */
  predicate Accepts(now: u32, last: u32, window: u32)
  {
    Sub32(now, last) > window
  }

  /** Within the window after an accepted edge every further edge is
      rejected, and once the window has passed the next one is taken, also
      across a wrap of the millisecond clock. */
  lemma AcceptsAfterWindow(last: u32, elapsed: int, window: u32)
    requires 0 <= elapsed < TWO_TO_32
    ensures var now := ((last as int + elapsed) % TWO_TO_32) as u32;
            Accepts(now, last, window) <==> elapsed > window as int
  {
    var now := ((last as int + elapsed) % TWO_TO_32) as u32;
    if last as int + elapsed < TWO_TO_32 {
      assert now as int == last as int + elapsed;
    } else {
      assert now as int == last as int + elapsed - TWO_TO_32;
    }
  }
}
