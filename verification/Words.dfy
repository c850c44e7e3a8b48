/** Where 32-bit and 64-bit unsigned words wrap around. */
module Words {
  const W32: nat := 0x1_0000_0000
  const W64: nat := 0x1_0000_0000_0000_0000
}
