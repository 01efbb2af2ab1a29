// Machine words, as far as their width matters.

module Words {
  const U16 := 0x1_0000
  const U32 := 0x1_0000_0000

  // What doubling a 32-bit capacity yields, in code/virtio-gpu.c and code/fuse-9p.c.
  function Grown(cap: nat): nat {
    var twice := cap * 2 % U32;
    if twice == 0 then 4 else twice
  }

  // Doubling makes room exactly while it does not wrap.
  lemma GrowthIsExact(cap: nat)
    requires cap < U32
    ensures Grown(cap) > cap <==> cap < 0x8000_0000
  {
  }
}
