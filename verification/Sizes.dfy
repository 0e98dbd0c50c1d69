/** Sizes shared by the layers: a sector of a drive, the unit the driver transfers at most, and a huge page or block. */
module Sizes {
  const SECTOR: nat := 512
  const BLKSZ: nat := 4096
  const TWO_MB: nat := 2 * 1024 * 1024
}
