/**
 The string hash of src/libdowse/hashmap.c: the byte-at-a-time CRC-32 against the shift register
 it optimises.
 */
module Crc32 {
  import opened Wrappers

  // ---- the shift register: one bit at a time ---------------------------------------

  function Xor(x: bv32, y: bv32): bv32 { x ^ y }
  function Half(r: bv32): bv32 { r >> 1 }
  predicate Odd(r: bv32) { r & 1 == 1 }

  /** One shift of the register.  The polynomial is taken backwards, lowest term in the top bit. */
  function Shift(r: bv32): bv32 {
    if Odd(r) then Xor(Half(r), 0xEDB88320) else Half(r)
  }

  function EightSteps(r: bv32): bv32 {
    Shift(Shift(Shift(Shift(Shift(Shift(Shift(Shift(r))))))))
  }

  /** Feed a byte string through the register: xor a byte in, then shift eight times. */
  function Register(s: seq<Byte>): bv32 {
    if s == [] then 0 else EightSteps(Xor(Register(s[..|s| - 1]), s[|s| - 1].bits as bv32))
  }

  /** A 32-bit value in an unsigned long. */
  function Wide(r: bv32): bv64 { r as bv64 }

  // ---- the table ----------------------------------------------------------------

  /** crc32_tab, sixteen entries to a row. */
  function Tab(i: bv8): bv64 {
    if i < 0x10 then Tab0(i)
    else if i < 0x20 then Tab1(i)
    else if i < 0x30 then Tab2(i)
    else if i < 0x40 then Tab3(i)
    else if i < 0x50 then Tab4(i)
    else if i < 0x60 then Tab5(i)
    else if i < 0x70 then Tab6(i)
    else if i < 0x80 then Tab7(i)
    else if i < 0x90 then Tab8(i)
    else if i < 0xa0 then Tab9(i)
    else if i < 0xb0 then TabA(i)
    else if i < 0xc0 then TabB(i)
    else if i < 0xd0 then TabC(i)
    else if i < 0xe0 then TabD(i)
    else if i < 0xf0 then TabE(i)
    else TabF(i)
  }

  function Tab0(i: bv8): bv64 {
    if i == 0x00 then 0x00000000 else if i == 0x01 then 0x77073096
    else if i == 0x02 then 0xee0e612c else if i == 0x03 then 0x990951ba
    else if i == 0x04 then 0x076dc419 else if i == 0x05 then 0x706af48f
    else if i == 0x06 then 0xe963a535 else if i == 0x07 then 0x9e6495a3
    else if i == 0x08 then 0x0edb8832 else if i == 0x09 then 0x79dcb8a4
    else if i == 0x0a then 0xe0d5e91e else if i == 0x0b then 0x97d2d988
    else if i == 0x0c then 0x09b64c2b else if i == 0x0d then 0x7eb17cbd
    else if i == 0x0e then 0xe7b82d07 else 0x90bf1d91
  }

  function Tab1(i: bv8): bv64 {
    if i == 0x10 then 0x1db71064 else if i == 0x11 then 0x6ab020f2
    else if i == 0x12 then 0xf3b97148 else if i == 0x13 then 0x84be41de
    else if i == 0x14 then 0x1adad47d else if i == 0x15 then 0x6ddde4eb
    else if i == 0x16 then 0xf4d4b551 else if i == 0x17 then 0x83d385c7
    else if i == 0x18 then 0x136c9856 else if i == 0x19 then 0x646ba8c0
    else if i == 0x1a then 0xfd62f97a else if i == 0x1b then 0x8a65c9ec
    else if i == 0x1c then 0x14015c4f else if i == 0x1d then 0x63066cd9
    else if i == 0x1e then 0xfa0f3d63 else 0x8d080df5
  }

  function Tab2(i: bv8): bv64 {
    if i == 0x20 then 0x3b6e20c8 else if i == 0x21 then 0x4c69105e
    else if i == 0x22 then 0xd56041e4 else if i == 0x23 then 0xa2677172
    else if i == 0x24 then 0x3c03e4d1 else if i == 0x25 then 0x4b04d447
    else if i == 0x26 then 0xd20d85fd else if i == 0x27 then 0xa50ab56b
    else if i == 0x28 then 0x35b5a8fa else if i == 0x29 then 0x42b2986c
    else if i == 0x2a then 0xdbbbc9d6 else if i == 0x2b then 0xacbcf940
    else if i == 0x2c then 0x32d86ce3 else if i == 0x2d then 0x45df5c75
    else if i == 0x2e then 0xdcd60dcf else 0xabd13d59
  }

  function Tab3(i: bv8): bv64 {
    if i == 0x30 then 0x26d930ac else if i == 0x31 then 0x51de003a
    else if i == 0x32 then 0xc8d75180 else if i == 0x33 then 0xbfd06116
    else if i == 0x34 then 0x21b4f4b5 else if i == 0x35 then 0x56b3c423
    else if i == 0x36 then 0xcfba9599 else if i == 0x37 then 0xb8bda50f
    else if i == 0x38 then 0x2802b89e else if i == 0x39 then 0x5f058808
    else if i == 0x3a then 0xc60cd9b2 else if i == 0x3b then 0xb10be924
    else if i == 0x3c then 0x2f6f7c87 else if i == 0x3d then 0x58684c11
    else if i == 0x3e then 0xc1611dab else 0xb6662d3d
  }

  function Tab4(i: bv8): bv64 {
    if i == 0x40 then 0x76dc4190 else if i == 0x41 then 0x01db7106
    else if i == 0x42 then 0x98d220bc else if i == 0x43 then 0xefd5102a
    else if i == 0x44 then 0x71b18589 else if i == 0x45 then 0x06b6b51f
    else if i == 0x46 then 0x9fbfe4a5 else if i == 0x47 then 0xe8b8d433
    else if i == 0x48 then 0x7807c9a2 else if i == 0x49 then 0x0f00f934
    else if i == 0x4a then 0x9609a88e else if i == 0x4b then 0xe10e9818
    else if i == 0x4c then 0x7f6a0dbb else if i == 0x4d then 0x086d3d2d
    else if i == 0x4e then 0x91646c97 else 0xe6635c01
  }

  function Tab5(i: bv8): bv64 {
    if i == 0x50 then 0x6b6b51f4 else if i == 0x51 then 0x1c6c6162
    else if i == 0x52 then 0x856530d8 else if i == 0x53 then 0xf262004e
    else if i == 0x54 then 0x6c0695ed else if i == 0x55 then 0x1b01a57b
    else if i == 0x56 then 0x8208f4c1 else if i == 0x57 then 0xf50fc457
    else if i == 0x58 then 0x65b0d9c6 else if i == 0x59 then 0x12b7e950
    else if i == 0x5a then 0x8bbeb8ea else if i == 0x5b then 0xfcb9887c
    else if i == 0x5c then 0x62dd1ddf else if i == 0x5d then 0x15da2d49
    else if i == 0x5e then 0x8cd37cf3 else 0xfbd44c65
  }

  function Tab6(i: bv8): bv64 {
    if i == 0x60 then 0x4db26158 else if i == 0x61 then 0x3ab551ce
    else if i == 0x62 then 0xa3bc0074 else if i == 0x63 then 0xd4bb30e2
    else if i == 0x64 then 0x4adfa541 else if i == 0x65 then 0x3dd895d7
    else if i == 0x66 then 0xa4d1c46d else if i == 0x67 then 0xd3d6f4fb
    else if i == 0x68 then 0x4369e96a else if i == 0x69 then 0x346ed9fc
    else if i == 0x6a then 0xad678846 else if i == 0x6b then 0xda60b8d0
    else if i == 0x6c then 0x44042d73 else if i == 0x6d then 0x33031de5
    else if i == 0x6e then 0xaa0a4c5f else 0xdd0d7cc9
  }

  function Tab7(i: bv8): bv64 {
    if i == 0x70 then 0x5005713c else if i == 0x71 then 0x270241aa
    else if i == 0x72 then 0xbe0b1010 else if i == 0x73 then 0xc90c2086
    else if i == 0x74 then 0x5768b525 else if i == 0x75 then 0x206f85b3
    else if i == 0x76 then 0xb966d409 else if i == 0x77 then 0xce61e49f
    else if i == 0x78 then 0x5edef90e else if i == 0x79 then 0x29d9c998
    else if i == 0x7a then 0xb0d09822 else if i == 0x7b then 0xc7d7a8b4
    else if i == 0x7c then 0x59b33d17 else if i == 0x7d then 0x2eb40d81
    else if i == 0x7e then 0xb7bd5c3b else 0xc0ba6cad
  }

  function Tab8(i: bv8): bv64 {
    if i == 0x80 then 0xedb88320 else if i == 0x81 then 0x9abfb3b6
    else if i == 0x82 then 0x03b6e20c else if i == 0x83 then 0x74b1d29a
    else if i == 0x84 then 0xead54739 else if i == 0x85 then 0x9dd277af
    else if i == 0x86 then 0x04db2615 else if i == 0x87 then 0x73dc1683
    else if i == 0x88 then 0xe3630b12 else if i == 0x89 then 0x94643b84
    else if i == 0x8a then 0x0d6d6a3e else if i == 0x8b then 0x7a6a5aa8
    else if i == 0x8c then 0xe40ecf0b else if i == 0x8d then 0x9309ff9d
    else if i == 0x8e then 0x0a00ae27 else 0x7d079eb1
  }

  function Tab9(i: bv8): bv64 {
    if i == 0x90 then 0xf00f9344 else if i == 0x91 then 0x8708a3d2
    else if i == 0x92 then 0x1e01f268 else if i == 0x93 then 0x6906c2fe
    else if i == 0x94 then 0xf762575d else if i == 0x95 then 0x806567cb
    else if i == 0x96 then 0x196c3671 else if i == 0x97 then 0x6e6b06e7
    else if i == 0x98 then 0xfed41b76 else if i == 0x99 then 0x89d32be0
    else if i == 0x9a then 0x10da7a5a else if i == 0x9b then 0x67dd4acc
    else if i == 0x9c then 0xf9b9df6f else if i == 0x9d then 0x8ebeeff9
    else if i == 0x9e then 0x17b7be43 else 0x60b08ed5
  }

  function TabA(i: bv8): bv64 {
    if i == 0xa0 then 0xd6d6a3e8 else if i == 0xa1 then 0xa1d1937e
    else if i == 0xa2 then 0x38d8c2c4 else if i == 0xa3 then 0x4fdff252
    else if i == 0xa4 then 0xd1bb67f1 else if i == 0xa5 then 0xa6bc5767
    else if i == 0xa6 then 0x3fb506dd else if i == 0xa7 then 0x48b2364b
    else if i == 0xa8 then 0xd80d2bda else if i == 0xa9 then 0xaf0a1b4c
    else if i == 0xaa then 0x36034af6 else if i == 0xab then 0x41047a60
    else if i == 0xac then 0xdf60efc3 else if i == 0xad then 0xa867df55
    else if i == 0xae then 0x316e8eef else 0x4669be79
  }

  function TabB(i: bv8): bv64 {
    if i == 0xb0 then 0xcb61b38c else if i == 0xb1 then 0xbc66831a
    else if i == 0xb2 then 0x256fd2a0 else if i == 0xb3 then 0x5268e236
    else if i == 0xb4 then 0xcc0c7795 else if i == 0xb5 then 0xbb0b4703
    else if i == 0xb6 then 0x220216b9 else if i == 0xb7 then 0x5505262f
    else if i == 0xb8 then 0xc5ba3bbe else if i == 0xb9 then 0xb2bd0b28
    else if i == 0xba then 0x2bb45a92 else if i == 0xbb then 0x5cb36a04
    else if i == 0xbc then 0xc2d7ffa7 else if i == 0xbd then 0xb5d0cf31
    else if i == 0xbe then 0x2cd99e8b else 0x5bdeae1d
  }

  function TabC(i: bv8): bv64 {
    if i == 0xc0 then 0x9b64c2b0 else if i == 0xc1 then 0xec63f226
    else if i == 0xc2 then 0x756aa39c else if i == 0xc3 then 0x026d930a
    else if i == 0xc4 then 0x9c0906a9 else if i == 0xc5 then 0xeb0e363f
    else if i == 0xc6 then 0x72076785 else if i == 0xc7 then 0x05005713
    else if i == 0xc8 then 0x95bf4a82 else if i == 0xc9 then 0xe2b87a14
    else if i == 0xca then 0x7bb12bae else if i == 0xcb then 0x0cb61b38
    else if i == 0xcc then 0x92d28e9b else if i == 0xcd then 0xe5d5be0d
    else if i == 0xce then 0x7cdcefb7 else 0x0bdbdf21
  }

  function TabD(i: bv8): bv64 {
    if i == 0xd0 then 0x86d3d2d4 else if i == 0xd1 then 0xf1d4e242
    else if i == 0xd2 then 0x68ddb3f8 else if i == 0xd3 then 0x1fda836e
    else if i == 0xd4 then 0x81be16cd else if i == 0xd5 then 0xf6b9265b
    else if i == 0xd6 then 0x6fb077e1 else if i == 0xd7 then 0x18b74777
    else if i == 0xd8 then 0x88085ae6 else if i == 0xd9 then 0xff0f6a70
    else if i == 0xda then 0x66063bca else if i == 0xdb then 0x11010b5c
    else if i == 0xdc then 0x8f659eff else if i == 0xdd then 0xf862ae69
    else if i == 0xde then 0x616bffd3 else 0x166ccf45
  }

  function TabE(i: bv8): bv64 {
    if i == 0xe0 then 0xa00ae278 else if i == 0xe1 then 0xd70dd2ee
    else if i == 0xe2 then 0x4e048354 else if i == 0xe3 then 0x3903b3c2
    else if i == 0xe4 then 0xa7672661 else if i == 0xe5 then 0xd06016f7
    else if i == 0xe6 then 0x4969474d else if i == 0xe7 then 0x3e6e77db
    else if i == 0xe8 then 0xaed16a4a else if i == 0xe9 then 0xd9d65adc
    else if i == 0xea then 0x40df0b66 else if i == 0xeb then 0x37d83bf0
    else if i == 0xec then 0xa9bcae53 else if i == 0xed then 0xdebb9ec5
    else if i == 0xee then 0x47b2cf7f else 0x30b5ffe9
  }

  function TabF(i: bv8): bv64 {
    if i == 0xf0 then 0xbdbdf21c else if i == 0xf1 then 0xcabac28a
    else if i == 0xf2 then 0x53b39330 else if i == 0xf3 then 0x24b4a3a6
    else if i == 0xf4 then 0xbad03605 else if i == 0xf5 then 0xcdd70693
    else if i == 0xf6 then 0x54de5729 else if i == 0xf7 then 0x23d967bf
    else if i == 0xf8 then 0xb3667a2e else if i == 0xf9 then 0xc4614ab8
    else if i == 0xfa then 0x5d681b02 else if i == 0xfb then 0x2a6f2b94
    else if i == 0xfc then 0xb40bbe37 else if i == 0xfd then 0xc30c8ea1
    else if i == 0xfe then 0x5a05df1b else 0x2d02ef8d
  }

  // ---- every table entry is eight shift/xor steps ---------------------------------

  lemma Steps0()
    ensures EightSteps(0x00) == 0x00000000 && EightSteps(0x01) == 0x77073096 && EightSteps(0x02) == 0xee0e612c
    ensures EightSteps(0x03) == 0x990951ba
    ensures EightSteps(0x04) == 0x076dc419 && EightSteps(0x05) == 0x706af48f && EightSteps(0x06) == 0xe963a535
    ensures EightSteps(0x07) == 0x9e6495a3
    ensures EightSteps(0x08) == 0x0edb8832 && EightSteps(0x09) == 0x79dcb8a4 && EightSteps(0x0a) == 0xe0d5e91e
    ensures EightSteps(0x0b) == 0x97d2d988
    ensures EightSteps(0x0c) == 0x09b64c2b && EightSteps(0x0d) == 0x7eb17cbd && EightSteps(0x0e) == 0xe7b82d07
    ensures EightSteps(0x0f) == 0x90bf1d91
  {}

  lemma Row0(i: bv8)
    requires i < 0x10
    ensures Tab0(i) == Wide(EightSteps(i as bv32))
  {
    hide EightSteps;
    Steps0();
  }

  lemma Steps1()
    ensures EightSteps(0x10) == 0x1db71064 && EightSteps(0x11) == 0x6ab020f2 && EightSteps(0x12) == 0xf3b97148
    ensures EightSteps(0x13) == 0x84be41de
    ensures EightSteps(0x14) == 0x1adad47d && EightSteps(0x15) == 0x6ddde4eb && EightSteps(0x16) == 0xf4d4b551
    ensures EightSteps(0x17) == 0x83d385c7
    ensures EightSteps(0x18) == 0x136c9856 && EightSteps(0x19) == 0x646ba8c0 && EightSteps(0x1a) == 0xfd62f97a
    ensures EightSteps(0x1b) == 0x8a65c9ec
    ensures EightSteps(0x1c) == 0x14015c4f && EightSteps(0x1d) == 0x63066cd9 && EightSteps(0x1e) == 0xfa0f3d63
    ensures EightSteps(0x1f) == 0x8d080df5
  {}

  lemma Row1(i: bv8)
    requires 0x10 <= i && i < 0x20
    ensures Tab1(i) == Wide(EightSteps(i as bv32))
  {
    hide EightSteps;
    Steps1();
  }

  lemma Steps2()
    ensures EightSteps(0x20) == 0x3b6e20c8 && EightSteps(0x21) == 0x4c69105e && EightSteps(0x22) == 0xd56041e4
    ensures EightSteps(0x23) == 0xa2677172
    ensures EightSteps(0x24) == 0x3c03e4d1 && EightSteps(0x25) == 0x4b04d447 && EightSteps(0x26) == 0xd20d85fd
    ensures EightSteps(0x27) == 0xa50ab56b
    ensures EightSteps(0x28) == 0x35b5a8fa && EightSteps(0x29) == 0x42b2986c && EightSteps(0x2a) == 0xdbbbc9d6
    ensures EightSteps(0x2b) == 0xacbcf940
    ensures EightSteps(0x2c) == 0x32d86ce3 && EightSteps(0x2d) == 0x45df5c75 && EightSteps(0x2e) == 0xdcd60dcf
    ensures EightSteps(0x2f) == 0xabd13d59
  {}

  lemma Row2(i: bv8)
    requires 0x20 <= i && i < 0x30
    ensures Tab2(i) == Wide(EightSteps(i as bv32))
  {
    hide EightSteps;
    Steps2();
  }

  lemma Steps3()
    ensures EightSteps(0x30) == 0x26d930ac && EightSteps(0x31) == 0x51de003a && EightSteps(0x32) == 0xc8d75180
    ensures EightSteps(0x33) == 0xbfd06116
    ensures EightSteps(0x34) == 0x21b4f4b5 && EightSteps(0x35) == 0x56b3c423 && EightSteps(0x36) == 0xcfba9599
    ensures EightSteps(0x37) == 0xb8bda50f
    ensures EightSteps(0x38) == 0x2802b89e && EightSteps(0x39) == 0x5f058808 && EightSteps(0x3a) == 0xc60cd9b2
    ensures EightSteps(0x3b) == 0xb10be924
    ensures EightSteps(0x3c) == 0x2f6f7c87 && EightSteps(0x3d) == 0x58684c11 && EightSteps(0x3e) == 0xc1611dab
    ensures EightSteps(0x3f) == 0xb6662d3d
  {}

  lemma Row3(i: bv8)
    requires 0x30 <= i && i < 0x40
    ensures Tab3(i) == Wide(EightSteps(i as bv32))
  {
    hide EightSteps;
    Steps3();
  }

  lemma Steps4()
    ensures EightSteps(0x40) == 0x76dc4190 && EightSteps(0x41) == 0x01db7106 && EightSteps(0x42) == 0x98d220bc
    ensures EightSteps(0x43) == 0xefd5102a
    ensures EightSteps(0x44) == 0x71b18589 && EightSteps(0x45) == 0x06b6b51f && EightSteps(0x46) == 0x9fbfe4a5
    ensures EightSteps(0x47) == 0xe8b8d433
    ensures EightSteps(0x48) == 0x7807c9a2 && EightSteps(0x49) == 0x0f00f934 && EightSteps(0x4a) == 0x9609a88e
    ensures EightSteps(0x4b) == 0xe10e9818
    ensures EightSteps(0x4c) == 0x7f6a0dbb && EightSteps(0x4d) == 0x086d3d2d && EightSteps(0x4e) == 0x91646c97
    ensures EightSteps(0x4f) == 0xe6635c01
  {}

  lemma Row4(i: bv8)
    requires 0x40 <= i && i < 0x50
    ensures Tab4(i) == Wide(EightSteps(i as bv32))
  {
    hide EightSteps;
    Steps4();
  }

  lemma Steps5()
    ensures EightSteps(0x50) == 0x6b6b51f4 && EightSteps(0x51) == 0x1c6c6162 && EightSteps(0x52) == 0x856530d8
    ensures EightSteps(0x53) == 0xf262004e
    ensures EightSteps(0x54) == 0x6c0695ed && EightSteps(0x55) == 0x1b01a57b && EightSteps(0x56) == 0x8208f4c1
    ensures EightSteps(0x57) == 0xf50fc457
    ensures EightSteps(0x58) == 0x65b0d9c6 && EightSteps(0x59) == 0x12b7e950 && EightSteps(0x5a) == 0x8bbeb8ea
    ensures EightSteps(0x5b) == 0xfcb9887c
    ensures EightSteps(0x5c) == 0x62dd1ddf && EightSteps(0x5d) == 0x15da2d49 && EightSteps(0x5e) == 0x8cd37cf3
    ensures EightSteps(0x5f) == 0xfbd44c65
  {}

  lemma Row5(i: bv8)
    requires 0x50 <= i && i < 0x60
    ensures Tab5(i) == Wide(EightSteps(i as bv32))
  {
    hide EightSteps;
    Steps5();
  }

  lemma Steps6()
    ensures EightSteps(0x60) == 0x4db26158 && EightSteps(0x61) == 0x3ab551ce && EightSteps(0x62) == 0xa3bc0074
    ensures EightSteps(0x63) == 0xd4bb30e2
    ensures EightSteps(0x64) == 0x4adfa541 && EightSteps(0x65) == 0x3dd895d7 && EightSteps(0x66) == 0xa4d1c46d
    ensures EightSteps(0x67) == 0xd3d6f4fb
    ensures EightSteps(0x68) == 0x4369e96a && EightSteps(0x69) == 0x346ed9fc && EightSteps(0x6a) == 0xad678846
    ensures EightSteps(0x6b) == 0xda60b8d0
    ensures EightSteps(0x6c) == 0x44042d73 && EightSteps(0x6d) == 0x33031de5 && EightSteps(0x6e) == 0xaa0a4c5f
    ensures EightSteps(0x6f) == 0xdd0d7cc9
  {}

  lemma Row6(i: bv8)
    requires 0x60 <= i && i < 0x70
    ensures Tab6(i) == Wide(EightSteps(i as bv32))
  {
    hide EightSteps;
    Steps6();
  }

  lemma Steps7()
    ensures EightSteps(0x70) == 0x5005713c && EightSteps(0x71) == 0x270241aa && EightSteps(0x72) == 0xbe0b1010
    ensures EightSteps(0x73) == 0xc90c2086
    ensures EightSteps(0x74) == 0x5768b525 && EightSteps(0x75) == 0x206f85b3 && EightSteps(0x76) == 0xb966d409
    ensures EightSteps(0x77) == 0xce61e49f
    ensures EightSteps(0x78) == 0x5edef90e && EightSteps(0x79) == 0x29d9c998 && EightSteps(0x7a) == 0xb0d09822
    ensures EightSteps(0x7b) == 0xc7d7a8b4
    ensures EightSteps(0x7c) == 0x59b33d17 && EightSteps(0x7d) == 0x2eb40d81 && EightSteps(0x7e) == 0xb7bd5c3b
    ensures EightSteps(0x7f) == 0xc0ba6cad
  {}

  lemma Row7(i: bv8)
    requires 0x70 <= i && i < 0x80
    ensures Tab7(i) == Wide(EightSteps(i as bv32))
  {
    hide EightSteps;
    Steps7();
  }

  lemma Steps8()
    ensures EightSteps(0x80) == 0xedb88320 && EightSteps(0x81) == 0x9abfb3b6 && EightSteps(0x82) == 0x03b6e20c
    ensures EightSteps(0x83) == 0x74b1d29a
    ensures EightSteps(0x84) == 0xead54739 && EightSteps(0x85) == 0x9dd277af && EightSteps(0x86) == 0x04db2615
    ensures EightSteps(0x87) == 0x73dc1683
    ensures EightSteps(0x88) == 0xe3630b12 && EightSteps(0x89) == 0x94643b84 && EightSteps(0x8a) == 0x0d6d6a3e
    ensures EightSteps(0x8b) == 0x7a6a5aa8
    ensures EightSteps(0x8c) == 0xe40ecf0b && EightSteps(0x8d) == 0x9309ff9d && EightSteps(0x8e) == 0x0a00ae27
    ensures EightSteps(0x8f) == 0x7d079eb1
  {}

  lemma Row8(i: bv8)
    requires 0x80 <= i && i < 0x90
    ensures Tab8(i) == Wide(EightSteps(i as bv32))
  {
    hide EightSteps;
    Steps8();
  }

  lemma Steps9()
    ensures EightSteps(0x90) == 0xf00f9344 && EightSteps(0x91) == 0x8708a3d2 && EightSteps(0x92) == 0x1e01f268
    ensures EightSteps(0x93) == 0x6906c2fe
    ensures EightSteps(0x94) == 0xf762575d && EightSteps(0x95) == 0x806567cb && EightSteps(0x96) == 0x196c3671
    ensures EightSteps(0x97) == 0x6e6b06e7
    ensures EightSteps(0x98) == 0xfed41b76 && EightSteps(0x99) == 0x89d32be0 && EightSteps(0x9a) == 0x10da7a5a
    ensures EightSteps(0x9b) == 0x67dd4acc
    ensures EightSteps(0x9c) == 0xf9b9df6f && EightSteps(0x9d) == 0x8ebeeff9 && EightSteps(0x9e) == 0x17b7be43
    ensures EightSteps(0x9f) == 0x60b08ed5
  {}

  lemma Row9(i: bv8)
    requires 0x90 <= i && i < 0xa0
    ensures Tab9(i) == Wide(EightSteps(i as bv32))
  {
    hide EightSteps;
    Steps9();
  }

  lemma StepsA()
    ensures EightSteps(0xa0) == 0xd6d6a3e8 && EightSteps(0xa1) == 0xa1d1937e && EightSteps(0xa2) == 0x38d8c2c4
    ensures EightSteps(0xa3) == 0x4fdff252
    ensures EightSteps(0xa4) == 0xd1bb67f1 && EightSteps(0xa5) == 0xa6bc5767 && EightSteps(0xa6) == 0x3fb506dd
    ensures EightSteps(0xa7) == 0x48b2364b
    ensures EightSteps(0xa8) == 0xd80d2bda && EightSteps(0xa9) == 0xaf0a1b4c && EightSteps(0xaa) == 0x36034af6
    ensures EightSteps(0xab) == 0x41047a60
    ensures EightSteps(0xac) == 0xdf60efc3 && EightSteps(0xad) == 0xa867df55 && EightSteps(0xae) == 0x316e8eef
    ensures EightSteps(0xaf) == 0x4669be79
  {}

  lemma RowA(i: bv8)
    requires 0xa0 <= i && i < 0xb0
    ensures TabA(i) == Wide(EightSteps(i as bv32))
  {
    hide EightSteps;
    StepsA();
  }

  lemma StepsB()
    ensures EightSteps(0xb0) == 0xcb61b38c && EightSteps(0xb1) == 0xbc66831a && EightSteps(0xb2) == 0x256fd2a0
    ensures EightSteps(0xb3) == 0x5268e236
    ensures EightSteps(0xb4) == 0xcc0c7795 && EightSteps(0xb5) == 0xbb0b4703 && EightSteps(0xb6) == 0x220216b9
    ensures EightSteps(0xb7) == 0x5505262f
    ensures EightSteps(0xb8) == 0xc5ba3bbe && EightSteps(0xb9) == 0xb2bd0b28 && EightSteps(0xba) == 0x2bb45a92
    ensures EightSteps(0xbb) == 0x5cb36a04
    ensures EightSteps(0xbc) == 0xc2d7ffa7 && EightSteps(0xbd) == 0xb5d0cf31 && EightSteps(0xbe) == 0x2cd99e8b
    ensures EightSteps(0xbf) == 0x5bdeae1d
  {}

  lemma RowB(i: bv8)
    requires 0xb0 <= i && i < 0xc0
    ensures TabB(i) == Wide(EightSteps(i as bv32))
  {
    hide EightSteps;
    StepsB();
  }

  lemma StepsC()
    ensures EightSteps(0xc0) == 0x9b64c2b0 && EightSteps(0xc1) == 0xec63f226 && EightSteps(0xc2) == 0x756aa39c
    ensures EightSteps(0xc3) == 0x026d930a
    ensures EightSteps(0xc4) == 0x9c0906a9 && EightSteps(0xc5) == 0xeb0e363f && EightSteps(0xc6) == 0x72076785
    ensures EightSteps(0xc7) == 0x05005713
    ensures EightSteps(0xc8) == 0x95bf4a82 && EightSteps(0xc9) == 0xe2b87a14 && EightSteps(0xca) == 0x7bb12bae
    ensures EightSteps(0xcb) == 0x0cb61b38
    ensures EightSteps(0xcc) == 0x92d28e9b && EightSteps(0xcd) == 0xe5d5be0d && EightSteps(0xce) == 0x7cdcefb7
    ensures EightSteps(0xcf) == 0x0bdbdf21
  {}

  lemma RowC(i: bv8)
    requires 0xc0 <= i && i < 0xd0
    ensures TabC(i) == Wide(EightSteps(i as bv32))
  {
    hide EightSteps;
    StepsC();
  }

  lemma StepsD()
    ensures EightSteps(0xd0) == 0x86d3d2d4 && EightSteps(0xd1) == 0xf1d4e242 && EightSteps(0xd2) == 0x68ddb3f8
    ensures EightSteps(0xd3) == 0x1fda836e
    ensures EightSteps(0xd4) == 0x81be16cd && EightSteps(0xd5) == 0xf6b9265b && EightSteps(0xd6) == 0x6fb077e1
    ensures EightSteps(0xd7) == 0x18b74777
    ensures EightSteps(0xd8) == 0x88085ae6 && EightSteps(0xd9) == 0xff0f6a70 && EightSteps(0xda) == 0x66063bca
    ensures EightSteps(0xdb) == 0x11010b5c
    ensures EightSteps(0xdc) == 0x8f659eff && EightSteps(0xdd) == 0xf862ae69 && EightSteps(0xde) == 0x616bffd3
    ensures EightSteps(0xdf) == 0x166ccf45
  {}

  lemma RowD(i: bv8)
    requires 0xd0 <= i && i < 0xe0
    ensures TabD(i) == Wide(EightSteps(i as bv32))
  {
    hide EightSteps;
    StepsD();
  }

  lemma StepsE()
    ensures EightSteps(0xe0) == 0xa00ae278 && EightSteps(0xe1) == 0xd70dd2ee && EightSteps(0xe2) == 0x4e048354
    ensures EightSteps(0xe3) == 0x3903b3c2
    ensures EightSteps(0xe4) == 0xa7672661 && EightSteps(0xe5) == 0xd06016f7 && EightSteps(0xe6) == 0x4969474d
    ensures EightSteps(0xe7) == 0x3e6e77db
    ensures EightSteps(0xe8) == 0xaed16a4a && EightSteps(0xe9) == 0xd9d65adc && EightSteps(0xea) == 0x40df0b66
    ensures EightSteps(0xeb) == 0x37d83bf0
    ensures EightSteps(0xec) == 0xa9bcae53 && EightSteps(0xed) == 0xdebb9ec5 && EightSteps(0xee) == 0x47b2cf7f
    ensures EightSteps(0xef) == 0x30b5ffe9
  {}

  lemma RowE(i: bv8)
    requires 0xe0 <= i && i < 0xf0
    ensures TabE(i) == Wide(EightSteps(i as bv32))
  {
    hide EightSteps;
    StepsE();
  }

  lemma StepsF()
    ensures EightSteps(0xf0) == 0xbdbdf21c && EightSteps(0xf1) == 0xcabac28a && EightSteps(0xf2) == 0x53b39330
    ensures EightSteps(0xf3) == 0x24b4a3a6
    ensures EightSteps(0xf4) == 0xbad03605 && EightSteps(0xf5) == 0xcdd70693 && EightSteps(0xf6) == 0x54de5729
    ensures EightSteps(0xf7) == 0x23d967bf
    ensures EightSteps(0xf8) == 0xb3667a2e && EightSteps(0xf9) == 0xc4614ab8 && EightSteps(0xfa) == 0x5d681b02
    ensures EightSteps(0xfb) == 0x2a6f2b94
    ensures EightSteps(0xfc) == 0xb40bbe37 && EightSteps(0xfd) == 0xc30c8ea1 && EightSteps(0xfe) == 0x5a05df1b
    ensures EightSteps(0xff) == 0x2d02ef8d
  {}

  lemma RowF(i: bv8)
    requires 0xf0 <= i
    ensures TabF(i) == Wide(EightSteps(i as bv32))
  {
    hide EightSteps;
    StepsF();
  }

  lemma TableIsEightSteps(i: bv8)
    ensures Tab(i) == Wide(EightSteps(i as bv32))
  {
    hide Wide, EightSteps, Tab0, Tab1, Tab2, Tab3, Tab4, Tab5, Tab6;
    hide Tab7, Tab8, Tab9, TabA, TabB, TabC, TabD, TabE, TabF;
    if i < 0x10 {
      Row0(i);
    } else if i < 0x20 {
      Row1(i);
    } else if i < 0x30 {
      Row2(i);
    } else if i < 0x40 {
      Row3(i);
    } else if i < 0x50 {
      Row4(i);
    } else if i < 0x60 {
      Row5(i);
    } else if i < 0x70 {
      Row6(i);
    } else if i < 0x80 {
      Row7(i);
    } else if i < 0x90 {
      Row8(i);
    } else if i < 0xa0 {
      Row9(i);
    } else if i < 0xb0 {
      RowA(i);
    } else if i < 0xc0 {
      RowB(i);
    } else if i < 0xd0 {
      RowC(i);
    } else if i < 0xe0 {
      RowD(i);
    } else if i < 0xf0 {
      RowE(i);
    } else {
      RowF(i);
    }
  }

  // ---- eight steps at once ------------------------------------------------------------

  lemma HalfXor(x: bv32, y: bv32)
    ensures Half(Xor(x, y)) == Xor(Half(x), Half(y))
  {}

  lemma OddXor(x: bv32, y: bv32)
    ensures Odd(Xor(x, y)) <==> Odd(x) != Odd(y)
  {}

  lemma XorComm(x: bv32, y: bv32)
    ensures Xor(x, y) == Xor(y, x)
  {}

  lemma XorAssoc(x: bv32, y: bv32, z: bv32)
    ensures Xor(Xor(x, y), z) == Xor(x, Xor(y, z))
  {}

  lemma XorSelf(x: bv32, p: bv32)
    ensures Xor(p, p) == 0 && Xor(x, 0) == x
  {}

  lemma XorCancels(a: bv32, b: bv32, p: bv32)
    ensures Xor(Xor(a, p), Xor(b, p)) == Xor(a, b)
    ensures Xor(Xor(a, p), b) == Xor(Xor(a, b), p) && Xor(a, Xor(b, p)) == Xor(Xor(a, b), p)
  {
    hide Xor;
    XorComm(p, b);
    XorAssoc(a, p, b);
    XorAssoc(a, b, p);
    XorAssoc(a, p, Xor(b, p));
    XorAssoc(b, p, p);
    XorComm(p, Xor(b, p));
    XorSelf(b, p);
  }

  lemma ShiftLinear(x: bv32, y: bv32)
    ensures Shift(Xor(x, y)) == Xor(Shift(x), Shift(y))
  {
    hide Xor, Half, Odd;
    HalfXor(x, y);
    OddXor(x, y);
    XorCancels(Half(x), Half(y), 0xEDB88320);
  }

  lemma EightStepsLinear(x: bv32, y: bv32)
    ensures EightSteps(Xor(x, y)) == Xor(EightSteps(x), EightSteps(y))
  {
    hide Shift, Xor;
    var x1, y1 := Shift(x), Shift(y);
    ShiftLinear(x, y);
    var x2, y2 := Shift(x1), Shift(y1);
    ShiftLinear(x1, y1);
    var x3, y3 := Shift(x2), Shift(y2);
    ShiftLinear(x2, y2);
    var x4, y4 := Shift(x3), Shift(y3);
    ShiftLinear(x3, y3);
    var x5, y5 := Shift(x4), Shift(y4);
    ShiftLinear(x4, y4);
    var x6, y6 := Shift(x5), Shift(y5);
    ShiftLinear(x5, y5);
    var x7, y7 := Shift(x6), Shift(y6);
    ShiftLinear(x6, y6);
    ShiftLinear(x7, y7);
  }

  function LowByte(r: bv32): bv8 { (r & 0xFF) as bv8 }
  function HighPart(r: bv32): bv32 { r & 0xFFFF_FF00 }
  function ByteDown(r: bv32): bv32 { r >> 8 }

  /** A register whose low byte is clear just moves down by a byte. */
  lemma EightStepsHigh(r: bv32)
    ensures EightSteps(HighPart(r)) == ByteDown(r)
  {}

  lemma SplitLow(r: bv32)
    ensures r == Xor(LowByte(r) as bv32, HighPart(r))
  {}

  /** The loop body: the table entry for the low byte, and the rest of the register moved down. */
  function TableStep(c: bv64, b: Byte): bv64 { Xor64(Tab(Index(c, b.bits)), ByteDown64(c)) }
  function Index(c: bv64, b: bv8): bv8 { ((c ^ (b as bv64)) & 0xFF) as bv8 }
  function ByteDown64(c: bv64): bv64 { c >> 8 }
  function Xor64(x: bv64, y: bv64): bv64 { x ^ y }

  lemma IndexIsLowByte(r: bv32, b: bv8)
    ensures Index(Wide(r), b) == LowByte(Xor(r, b as bv32))
  {}

  lemma ByteDownIgnoresLow(r: bv32, b: bv8)
    ensures ByteDown(Xor(r, b as bv32)) == ByteDown(r)
  {}

  lemma RawByteDown(r: bv32)
    ensures (r as bv64) >> 8 == (r >> 8) as bv64
  {}

  lemma RawByteDownOf(r: bv32, w: bv64, d: bv32)
    requires w == (r as bv64) && d == r >> 8
    ensures w >> 8 == d as bv64
  {
    RawByteDown(r);
  }

  lemma WideByteDown(r: bv32)
    ensures ByteDown64(Wide(r)) == Wide(ByteDown(r))
  {
    hide *;
    WideIs(r);
    WideIs(ByteDown(r));
    ByteDownIs(r, Wide(r));
    RawByteDownOf(r, Wide(r), ByteDown(r));
  }

  lemma WideIs(r: bv32)
    ensures Wide(r) == r as bv64
  {}

  lemma ByteDownIs(r: bv32, c: bv64)
    ensures ByteDown(r) == r >> 8 && ByteDown64(c) == c >> 8
  {}

  lemma WideXor(x: bv32, y: bv32)
    ensures Xor64(Wide(x), Wide(y)) == Wide(Xor(x, y))
  {}

  lemma TableStepIsEightSteps(r: bv32, b: Byte)
    ensures TableStep(Wide(r), b) == Wide(EightSteps(Xor(r, b.bits as bv32)))
  {
    hide Tab, Index, ByteDown64, Xor64, Wide, EightSteps, Xor, LowByte, HighPart, ByteDown;
    var x := Xor(r, b.bits as bv32);
    IndexIsLowByte(r, b.bits);
    TableIsEightSteps(LowByte(x));
    SplitLow(x);
    EightStepsLinear(LowByte(x) as bv32, HighPart(x));
    EightStepsHigh(x);
    ByteDownIgnoresLow(r, b.bits);
    WideByteDown(r);
    WideXor(EightSteps(LowByte(x) as bv32), ByteDown(x));
  }

  lemma WideIsNarrow(r: bv32)
    ensures Wide(r) & 0xFFFF_FFFF == Wide(r) && Wide(0) == 0
  {}

  /**
   crc32.  The table-driven loop computes the shift register's value, and its unsigned long
   accumulator never leaves the low 32 bits.
   */
  method Crc(s: seq<Byte>) returns (crc: bv64)
    ensures crc == Wide(Register(s)) && crc & 0xFFFF_FFFF == crc
  {
    hide Wide, EightSteps, Xor, TableStep;
    crc := 0;
    WideIsNarrow(Register(s));
    for i := 0 to |s|
      invariant crc == Wide(Register(s[..i]))
    {
      TableStepIsEightSteps(Register(s[..i]), s[i]);
      assert s[..i + 1][..i] == s[..i];
      crc := TableStep(crc, s[i]);
    }
    assert s[..|s|] == s;
  }
}
