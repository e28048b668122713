/** Frames as bytes, and the two ways the sources read a 16-bit field out of them. */
module Packets {
  type Packet = seq<bv8>

  /** The byte at offset `i`.  Reads past the end give zero, so that every lemma below holds of every
      byte string; for a frame long enough for its own headers no such read takes place. */
  function Byte(p: Packet, i: nat): bv8 {
    if i < |p| then p[i] else 0
  }

  /** A 16-bit field in wire order, as `parser.p4` reads it. */
  function Be16(p: Packet, i: nat): bv16 {
    ((Byte(p, i) as bv16) << 8) | (Byte(p, i + 1) as bv16)
  }

  /** A 16-bit load into a W register, as the compiled stages read it: the first byte is the low one. */
  function Le16(p: Packet, i: nat): bv16 {
    ((Byte(p, i + 1) as bv16) << 8) | (Byte(p, i) as bv16)
  }
}
