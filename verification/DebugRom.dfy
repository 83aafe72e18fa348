/** The two debug ROM images, word by word (debug_rom/debug_rom.h and debug_rom_one_scratch.h). */
module DebugRom {
  import opened RiscV

  const SIZE_TWO: nat := 40
  const SIZE_ONE: nat := 28

  /** Words the address bits that reach the image tell apart; the image repeats beyond them. */
  function Span(snd: bool): (n: nat)
    ensures n == 64 || n == 32
  {
    if snd then 64 else 32
  }

  function Word(snd: bool, k: nat): bv32 {
    if snd then WordTwo(k) else WordOne(k)
  }

  function WordTwo(k: nat): bv32 {
    match k
    case 0 => 0x0180006f
    case 2 => 0x0840006f
    case 4 => 0x0500006f
    case 6 => 0x0ff0000f
    case 7 => 0x7b241073
    case 8 => 0x7b351073
    case 9 => 0x00000517
    case 10 => 0x00c55513
    case 11 => 0x00c51513
    case 12 => 0xf1402473
    case 13 => 0x10852023
    case 14 => 0x00a40433
    case 15 => 0x40044403
    case 16 => 0x00147413
    case 17 => 0x02041c63
    case 18 => 0xf1402473
    case 19 => 0x00a40433
    case 20 => 0x40044403
    case 21 => 0x00247413
    case 22 => 0xfa0418e3
    case 23 => 0xfd5ff06f
    case 24 => 0x00000517
    case 25 => 0x00c55513
    case 26 => 0x00c51513
    case 27 => 0x10052c23
    case 28 => 0x7b302573
    case 29 => 0x7b202473
    case 30 => 0x00100073
    case 31 => 0x10052423
    case 32 => 0x7b302573
    case 33 => 0x7b202473
    case 34 => 0xa79ff06f
    case 35 => 0xf1402473
    case 36 => 0x10852823
    case 37 => 0x7b302573
    case 38 => 0x7b202473
    case 39 => 0x7b200073
    case _ => if k < SIZE_TWO then ENC_NOP else 0
  }

  function WordOne(k: nat): bv32 {
    match k
    case 0 => 0x0180006f
    case 2 => 0x0580006f
    case 4 => 0x0380006f
    case 6 => 0x0ff0000f
    case 7 => 0x7b241073
    case 8 => 0xf1402473
    case 9 => 0x10802023
    case 10 => 0x40044403
    case 11 => 0x00147413
    case 12 => 0x02041263
    case 13 => 0xf1402473
    case 14 => 0x40044403
    case 15 => 0x00247413
    case 16 => 0xfc0414e3
    case 17 => 0xfddff06f
    case 18 => 0x10002c23
    case 19 => 0x7b202473
    case 20 => 0x00100073
    case 21 => 0x10002423
    case 22 => 0x7b202473
    case 23 => 0xaa5ff06f
    case 24 => 0xf1402473
    case 25 => 0x10802823
    case 26 => 0x7b202473
    case 27 => 0x7b200073
    case _ => if k < SIZE_ONE then ENC_NOP else 0
  }
}
