/** Page-table entries as the swap probes read them. */
module SwapEntries {
  import opened Words

  const SWAP_BIT: nat := 0x4000_0000_0000_0000
  const SLOT_LIMIT: nat := 0x80_0000_0000_0000
  const CLUSTER_SLOTS: nat := 512

  /** Bit 62 set and bit 63 clear. */
  predicate IsSwap(v: u64) {
    v / SWAP_BIT == 1
  }

  /** The low 55 bits: five of type, the rest the offset. */
  function SlotOf(v: u64): (s: nat)
    ensures s < SLOT_LIMIT
  {
    v % SLOT_LIMIT
  }

  function TypeOf(v: u64): nat {
    SlotOf(v) % 32
  }

  function OffsetOf(v: u64): nat {
    SlotOf(v) / 32
  }

  function ClusterOf(v: u64): nat {
    OffsetOf(v) / CLUSTER_SLOTS
  }
}
