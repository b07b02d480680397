/** Constants shared by the builder, the mapper and the reader. */
module Consts {
  const SECTOR_SIZE: int := 512
  const SECTORS_PER_CLUSTER: int := 256
  const CLUSTER_SIZE: int := SECTOR_SIZE * SECTORS_PER_CLUSTER
  const HEAP_ALIGNMENT: int := 2048
  const PARTITION_START: int := 0
  const BOOT_SECTORS: int := 12
  const MAX_IMAGE_BYTES: int := 2047 * 0x4000_0000

  const FAT_EOC: int := 0xFFFF_FFFF
  const FAT_FIRST_RESERVED: int := 0xFFFF_FFF8
  const FAT_ENTRIES_PER_SECTOR: int := 128

  const ENTRY_BITMAP: int := 0x81
  const ENTRY_UPCASE: int := 0x82
  const ENTRY_VOLUME_LABEL: int := 0x83
  const ENTRY_FILE: int := 0x85
  const ENTRY_STREAM: int := 0xC0
  const ENTRY_FILENAME: int := 0xC1

  const UPCASE_TABLE_BYTES: int := 131072

  function CeilDiv(x: int, m: int): (r: int)
    requires m > 0
  {
    (x + m - 1) / m
  }

  function Max(a: int, b: int): int { if a < b then b else a }

  function Min(a: int, b: int): int { if a < b then a else b }
}
