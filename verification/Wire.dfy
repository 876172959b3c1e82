/** The integers the protocol and SQLite share. */
module Wire {
  /** Epochs, versions, tokens, sizes and timestamps fit a signed 64-bit integer. */
  const MAX_WIRE_INT: nat := 0x7FFF_FFFF_FFFF_FFFF
}
