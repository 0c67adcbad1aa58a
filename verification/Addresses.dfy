/** Where the parts of a guest lie in its physical memory: the address constants of include/boot.hpp. */
module Addresses {
  const REALMODE_IVT_START := 0x0
  const BOOT_PARAMS_ADDR := 0x1_0000
  const COMMANDLINE_ADDR := 0x2_0000
  const BOOT_PAGETABLE_BASE := 0x3_0000
  const EBDA_START := 0x9_fc00
  const VGARAM_START := 0xa_0000
  const MBBIOS_START := 0xf_0000
  const MBBIOS_SIZE := 0xffff
  const HIGHMEM_BASE := 0x10_0000
  const INITRAMFS_ADDR := 0xf00_0000
  const TSS_BASE := 0xf800_0000
  const APIC_BASE := 0xfee0_0000
}
