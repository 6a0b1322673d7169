/** The memory address decoder: the 16-bit data address space is cut into
    three backing stores and an unmapped top window.

      [0x0000, 0x8000)  data ROM, 32768 words, read-only
      [0x8000, 0xF800)  data RAM, 30720 words
      [0xF800, 0xFC00)  the active I/O buffer, 1024 words
      [0xFC00, 0x10000) unmapped: every access faults */
module Memory {
  import opened Words

  const DataRomSize: nat := 32 * 1024
  const DataRamSize: nat := 30 * 1024
  const IoRamSize: nat := 1 * 1024

  /** The backing store an address selects, and the offset into it. */
  datatype Region =
    | DataRom(index: nat)
    | DataRam(index: nat)
    | IoRam(index: nat)
    | Unmapped

  /** A memory access that cannot complete. */
  datatype Fault =
    | RomWrite(address: Word)
    | ReadOutOfBounds(address: Word)
    | WriteOutOfBounds(address: Word)

  /** Address decoding. Within each range the offset is the distance from the
      range's base; the hardware takes it by masking (`& 0x7fff` for RAM,
      `& 0x03ff` for I/O), which gives the same number there. */
  function Route(address: Word): (r: Region)
    ensures r.DataRom? <==> address < 0x8000
    ensures r.DataRam? <==> 0x8000 <= address < 0xF800
    ensures r.IoRam? <==> 0xF800 <= address < 0xFC00
    ensures r.Unmapped? <==> 0xFC00 <= address
    ensures r.DataRom? ==> r.index == address && r.index < DataRomSize
    ensures r.DataRam? ==> r.index == address - 0x8000 && r.index < DataRamSize
    ensures r.IoRam? ==> r.index == address - 0xF800 && r.index < IoRamSize
  {
    if address < 0x8000 then DataRom(address)
    else if address < 0xF800 then DataRam(address % 0x8000)
    else if address < 0xFC00 then IoRam(address % 0x400)
    else Unmapped
  }

  /** No two addresses share a cell: the ranges do not overlap and within a
      range the offset determines the address. */
  lemma RouteInjective(x: Word, y: Word)
    requires !Route(x).Unmapped? && Route(x) == Route(y)
    ensures x == y
  {
  }

  /** Every cell of every backing store is reached, by exactly the address
      at its offset from the range's base. */
  lemma RouteCoversStores(i: nat)
    ensures i < DataRomSize ==> Route(i) == DataRom(i)
    ensures i < DataRamSize ==> Route(0x8000 + i) == DataRam(i)
    ensures i < IoRamSize ==> Route(0xF800 + i) == IoRam(i)
  {
  }
}
