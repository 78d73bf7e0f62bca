/** The band-limited kernel: one impulse response per sub-sample phase, and one past the last. */
module Kernel {

  const PHASES: nat := 32
  const WIDTH: nat := 16
  const UNIT: int := 65536

  function Impulse(phase: nat): (row: seq<int>)
    requires phase <= PHASES
    ensures |row| == WIDTH
  {
    match phase
    case 0 => [19, -105, 316, -687, 1438, -1152, 10673, 44532, 10673, -1152, 1438, -687, 316, -105, 19, 0]
    case 1 => [18, -100, 298, -633, 1292, -892, 9449, 44479, 11943, -1404, 1579, -737, 333, -109, 20, 0]
    case 2 => [17, -94, 278, -577, 1143, -627, 8272, 44329, 13253, -1646, 1714, -782, 347, -112, 21, 0]
    case 3 => [16, -89, 257, -518, 992, -360, 7148, 44078, 14600, -1873, 1841, -822, 359, -114, 21, 0]
    case 4 => [15, -82, 235, -458, 840, -94, 6078, 43731, 15978, -2082, 1959, -857, 368, -116, 21, 0]
    case 5 => [13, -76, 212, -396, 689, 167, 5065, 43287, 17383, -2269, 2066, -885, 375, -116, 21, 0]
    case 6 => [12, -69, 188, -334, 539, 423, 4112, 42749, 18809, -2432, 2161, -906, 378, -115, 21, 0]
    case 7 => [11, -62, 164, -272, 393, 669, 3221, 42118, 20252, -2567, 2244, -920, 377, -112, 20, 0]
    case 8 => [9, -55, 141, -211, 251, 905, 2391, 41399, 21704, -2669, 2312, -925, 374, -109, 19, 0]
    case 9 => [8, -48, 117, -151, 114, 1128, 1626, 40596, 23161, -2737, 2364, -922, 366, -104, 18, 0]
    case 10 => [7, -41, 94, -93, -17, 1337, 924, 39711, 24616, -2765, 2400, -910, 354, -97, 16, 0]
    case 11 => [6, -34, 71, -36, -141, 1530, 287, 38750, 26063, -2752, 2418, -889, 339, -89, 13, 0]
    case 12 => [5, -28, 50, 17, -258, 1706, -285, 37717, 27496, -2694, 2418, -858, 319, -79, 10, 0]
    case 13 => [4, -22, 29, 68, -366, 1864, -795, 36618, 28909, -2587, 2398, -818, 295, -68, 7, 0]
    case 14 => [3, -16, 10, 115, -465, 2003, -1241, 35454, 30296, -2430, 2359, -767, 267, -56, 3, 1]
    case 15 => [2, -10, -9, 159, -555, 2122, -1626, 34233, 31650, -2218, 2300, -706, 235, -41, -1, 1]
    case 16 => [2, -5, -26, 199, -636, 2221, -1951, 32963, 32965, -1951, 2221, -636, 199, -26, -5, 2]
    case 17 => [1, -1, -41, 235, -706, 2300, -2218, 31650, 34233, -1626, 2122, -555, 159, -9, -10, 2]
    case 18 => [1, 3, -56, 267, -767, 2359, -2430, 30296, 35454, -1241, 2003, -465, 115, 10, -16, 3]
    case 19 => [0, 7, -68, 295, -818, 2398, -2587, 28909, 36618, -795, 1864, -366, 68, 29, -22, 4]
    case 20 => [0, 10, -79, 319, -858, 2418, -2694, 27496, 37717, -285, 1706, -258, 17, 50, -28, 5]
    case 21 => [0, 13, -89, 339, -889, 2418, -2752, 26063, 38750, 287, 1530, -141, -36, 71, -34, 6]
    case 22 => [0, 16, -97, 354, -910, 2400, -2765, 24616, 39711, 924, 1337, -17, -93, 94, -41, 7]
    case 23 => [0, 18, -104, 366, -922, 2364, -2737, 23161, 40596, 1626, 1128, 114, -151, 117, -48, 8]
    case 24 => [0, 19, -109, 374, -925, 2312, -2669, 21704, 41399, 2391, 905, 251, -211, 141, -55, 9]
    case 25 => [0, 20, -112, 377, -920, 2244, -2567, 20252, 42118, 3221, 669, 393, -272, 164, -62, 11]
    case 26 => [0, 21, -115, 378, -906, 2161, -2432, 18809, 42749, 4112, 423, 539, -334, 188, -69, 12]
    case 27 => [0, 21, -116, 375, -885, 2066, -2269, 17383, 43287, 5065, 167, 689, -396, 212, -76, 13]
    case 28 => [0, 21, -116, 368, -857, 1959, -2082, 15978, 43731, 6078, -94, 840, -458, 235, -82, 15]
    case 29 => [0, 21, -114, 359, -822, 1841, -1873, 14600, 44078, 7148, -360, 992, -518, 257, -89, 16]
    case 30 => [0, 21, -112, 347, -782, 1714, -1646, 13253, 44329, 8272, -627, 1143, -577, 278, -94, 17]
    case 31 => [0, 20, -109, 333, -737, 1579, -1404, 11943, 44479, 9449, -892, 1292, -633, 298, -100, 18]
    case _ => [0, 19, -105, 316, -687, 1438, -1152, 10673, 44532, 10673, -1152, 1438, -687, 316, -105, 19]
  }

  function Sum16(s: seq<int>): int
    requires |s| == 16
  {
    s[0] + s[1] + s[2] + s[3] + s[4] + s[5] + s[6] + s[7] + s[8] + s[9] + s[10] + s[11] + s[12] + s[13] + s[14] + s[15]
  }

  /** Each row sums to exactly one unit. */
  lemma RowSum(phase: nat)
    requires phase <= PHASES
    ensures Sum16(Impulse(phase)) == UNIT
  {
    hide *;
    if phase < 11 { LowRowSum(phase); } else if phase < 22 { MiddleRowSum(phase); } else { HighRowSum(phase); }
  }

  lemma LowRowSum(phase: nat)
    requires phase < 11
    ensures Sum16(Impulse(phase)) == UNIT
  {
    match phase {
      case 0 => assert Sum16(Impulse(0)) == UNIT;
      case 1 => assert Sum16(Impulse(1)) == UNIT;
      case 2 => assert Sum16(Impulse(2)) == UNIT;
      case 3 => assert Sum16(Impulse(3)) == UNIT;
      case 4 => assert Sum16(Impulse(4)) == UNIT;
      case 5 => assert Sum16(Impulse(5)) == UNIT;
      case 6 => assert Sum16(Impulse(6)) == UNIT;
      case 7 => assert Sum16(Impulse(7)) == UNIT;
      case 8 => assert Sum16(Impulse(8)) == UNIT;
      case 9 => assert Sum16(Impulse(9)) == UNIT;
      case _ => assert Sum16(Impulse(10)) == UNIT;
    }
  }

  lemma MiddleRowSum(phase: nat)
    requires 11 <= phase < 22
    ensures Sum16(Impulse(phase)) == UNIT
  {
    match phase {
      case 11 => assert Sum16(Impulse(11)) == UNIT;
      case 12 => assert Sum16(Impulse(12)) == UNIT;
      case 13 => assert Sum16(Impulse(13)) == UNIT;
      case 14 => assert Sum16(Impulse(14)) == UNIT;
      case 15 => assert Sum16(Impulse(15)) == UNIT;
      case 16 => assert Sum16(Impulse(16)) == UNIT;
      case 17 => assert Sum16(Impulse(17)) == UNIT;
      case 18 => assert Sum16(Impulse(18)) == UNIT;
      case 19 => assert Sum16(Impulse(19)) == UNIT;
      case 20 => assert Sum16(Impulse(20)) == UNIT;
      case _ => assert Sum16(Impulse(21)) == UNIT;
    }
  }

  lemma HighRowSum(phase: nat)
    requires 22 <= phase <= PHASES
    ensures Sum16(Impulse(phase)) == UNIT
  {
    match phase {
      case 22 => assert Sum16(Impulse(22)) == UNIT;
      case 23 => assert Sum16(Impulse(23)) == UNIT;
      case 24 => assert Sum16(Impulse(24)) == UNIT;
      case 25 => assert Sum16(Impulse(25)) == UNIT;
      case 26 => assert Sum16(Impulse(26)) == UNIT;
      case 27 => assert Sum16(Impulse(27)) == UNIT;
      case 28 => assert Sum16(Impulse(28)) == UNIT;
      case 29 => assert Sum16(Impulse(29)) == UNIT;
      case 30 => assert Sum16(Impulse(30)) == UNIT;
      case 31 => assert Sum16(Impulse(31)) == UNIT;
      case _ => assert Sum16(Impulse(32)) == UNIT;
    }
  }
}
