/** The macros FD_KEY, FD_ONLY and FD_EVENT, which pack a file descriptor and
    an event into the key of the waiting tree. */
module FdKeys {

  datatype Event = RD | WR

  const WIDTH := 0x1_0000_0000

  function Number(e: Event): int { if e == RD then 0 else 1 }

  /** ((int64_t) fd << 32) | e */
  function FdKey(fd: int, e: Event): int { fd * WIDTH + Number(e) }

  /** An arithmetic shift to the right by 32 bits rounds down. */
  function FdOnly(key: int): int { key / WIDTH }

  /** The conversion to int32_t keeps the low half, as a signed number. */
  function FdEvent(key: int): int {
    var low := key % WIDTH;
    if low < WIDTH / 2 then low else low - WIDTH
  }

  /** Both halves come back, also for fd = -1. */
  lemma Unpack(fd: int, e: Event)
    ensures FdOnly(FdKey(fd, e)) == fd && FdEvent(FdKey(fd, e)) == Number(e)
    ensures FdKey(fd, e) >= 0 <==> fd >= 0
  {
    assert fd * WIDTH + Number(e) == WIDTH * fd + Number(e);
  }

  /** Key order is the lexicographic order of (fd, event). */
  lemma KeyOrder(fd: int, e: Event, fd': int, e': Event)
    ensures FdKey(fd, e) < FdKey(fd', e') <==> fd < fd' || (fd == fd' && e == RD && e' == WR)
    ensures FdKey(fd, e) == FdKey(fd', e') <==> fd == fd' && e == e'
  {
    Unpack(fd, e);
    Unpack(fd', e');
    if fd < fd' {
      assert fd * WIDTH + WIDTH <= fd' * WIDTH;
    } else if fd' < fd {
      assert fd' * WIDTH + WIDTH <= fd * WIDTH;
    }
  }

  /** On 64-bit words the or of FD_KEY is an addition. */
  lemma OrAdds(fd: bv64, e: bv64)
    requires e < 0x1_0000_0000
    ensures (fd << 32) | e == (fd << 32) + e
  {
  }
}
