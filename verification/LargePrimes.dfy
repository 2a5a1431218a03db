/** The large prime factors of the periods, each by a number of known order. */
module LargePrimes {
  import opened Primes

  lemma Prime61681()
    ensures IsPrime(61681)
  {
    hide IsPrime, Residue, Escapes;
    ResidueOne(28922, 61681);
    PrimeByTrial(257);
    Climb(61681, 28922, 1, 28922, 2, 26043, 4, 55254, 8, 41740, 16, 47755, 32, 8412);
    Climb(61681, 28922, 32, 8412, 64, 13637, 128, 61235, 256, 13873, 257, 1, 257, 1);
    Away(61681, 28922, 1, 28922, 54001);
    PrimeByFactors(61681, 28922, [257], 257, 257, 257, 257);
  }

  lemma Prime65537()
    ensures IsPrime(65537)
  {
    hide IsPrime, Residue, Escapes;
    ResidueOne(15028, 65537);
    TwoIsPrime();
    Climb(65537, 15028, 1, 15028, 2, 282, 4, 13987, 8, 8224, 16, 65529, 32, 64);
    Climb(65537, 15028, 32, 64, 64, 4096, 128, 65281, 256, 65536, 512, 1, 512, 1);
    Climb(65537, 15028, 1, 15028, 2, 282, 4, 13987, 8, 8224, 16, 65529, 32, 64);
    Climb(65537, 15028, 32, 64, 64, 4096, 128, 65281, 256, 65536, 256, 65536, 256, 65536);
    Away(65537, 15028, 256, 65536, 32768);
    PrimeByFactors(65537, 15028, [2, 2, 2, 2, 2, 2, 2, 2, 2], 512, 2, 2, 2);
  }

  lemma Prime121369()
    ensures IsPrime(121369)
  {
    hide IsPrime, Residue, Escapes;
    ResidueOne(49099, 121369);
    PrimeByTrial(389);
    Climb(121369, 49099, 1, 49099, 2, 80723, 3, 113882, 6, 104060, 12, 62789, 24, 29294);
    Climb(121369, 49099, 24, 29294, 48, 59606, 96, 40499, 97, 72074, 194, 68276, 388, 71624);
    Climb(121369, 49099, 388, 71624, 389, 1, 389, 1, 389, 1, 389, 1, 389, 1);
    Away(121369, 49099, 1, 49099, 106683);
    PrimeByFactors(121369, 49099, [389], 389, 389, 389, 389);
  }

  lemma Prime122921()
    ensures IsPrime(122921)
  {
    hide IsPrime, Residue, Escapes;
    ResidueOne(84711, 122921);
    PrimeByTrial(439);
    Climb(122921, 84711, 1, 84711, 2, 71383, 3, 72560, 6, 1328, 12, 42690, 13, 99691);
    Climb(122921, 84711, 13, 99691, 26, 9710, 27, 79399, 54, 74795, 108, 34394, 109, 76592);
    Climb(122921, 84711, 109, 76592, 218, 52660, 219, 78170, 438, 23069, 439, 1, 439, 1);
    Away(122921, 84711, 1, 84711, 17397);
    PrimeByFactors(122921, 84711, [439], 439, 439, 439, 439);
  }

  lemma Prime131071()
    ensures IsPrime(131071)
  {
    hide IsPrime, Residue, Escapes;
    ResidueOne(8119, 131071);
    TwoIsPrime();
    PrimeByTrial(257);
    Climb(131071, 8119, 1, 8119, 2, 120519, 4, 65425, 8, 44978, 16, 70670, 32, 50587);
    Climb(131071, 8119, 32, 50587, 64, 14365, 128, 47471, 256, 123209, 257, 131070, 514, 1);
    Climb(131071, 8119, 1, 8119, 2, 120519, 4, 65425, 8, 44978, 16, 70670, 32, 50587);
    Climb(131071, 8119, 32, 50587, 64, 14365, 128, 47471, 256, 123209, 257, 131070, 257, 131070);
    Away(131071, 8119, 257, 131070, 65535);
    Climb(131071, 8119, 1, 8119, 2, 120519, 2, 120519, 2, 120519, 2, 120519, 2, 120519);
    Away(131071, 8119, 2, 120519, 53581);
    PrimeByFactors(131071, 8119, [2, 257], 514, 2, 257, 257);
  }

  lemma Prime174763()
    ensures IsPrime(174763)
  {
    hide IsPrime, Residue, Escapes;
    ResidueOne(113642, 174763);
    PrimeByTrial(7);
    PrimeByTrial(73);
    Climb(174763, 113642, 1, 113642, 2, 42753, 3, 125026, 6, 173667, 7, 54387, 14, 81994);
    Climb(174763, 113642, 14, 81994, 15, 123277, 30, 3012, 31, 103750, 62, 59804, 63, 62624);
    Climb(174763, 113642, 63, 62624, 126, 83656, 127, 77478, 254, 80960, 255, 58185, 510, 160152);
    Climb(174763, 113642, 510, 160152, 511, 1, 511, 1, 511, 1, 511, 1, 511, 1);
    Climb(174763, 113642, 1, 113642, 2, 42753, 4, 147555, 8, 153959, 9, 160459, 18, 131706);
    Climb(174763, 113642, 18, 131706, 36, 19345, 72, 61442, 73, 85625, 73, 85625, 73, 85625);
    Away(174763, 113642, 73, 85625, 54890);
    Climb(174763, 113642, 1, 113642, 2, 42753, 3, 125026, 6, 173667, 7, 54387, 7, 54387);
    Away(174763, 113642, 7, 54387, 30736);
    PrimeByFactors(174763, 113642, [7, 73], 511, 7, 73, 73);
  }

  lemma Prime178481()
    ensures IsPrime(178481)
  {
    hide IsPrime, Residue, Escapes;
    ResidueOne(56811, 178481);
    PrimeByTrial(5);
    PrimeByTrial(97);
    Climb(178481, 56811, 1, 56811, 2, 17798, 3, 27313, 6, 127870, 7, 67389, 14, 6757);
    Climb(178481, 56811, 14, 6757, 15, 137777, 30, 154974, 60, 1873, 120, 116990, 121, 43412);
    Climb(178481, 56811, 121, 43412, 242, 20865, 484, 33066, 485, 1, 485, 1, 485, 1);
    Climb(178481, 56811, 1, 56811, 2, 17798, 3, 27313, 6, 127870, 12, 92490, 24, 162732);
    Climb(178481, 56811, 24, 162732, 48, 120892, 96, 137460, 97, 160867, 97, 160867, 97, 160867);
    Away(178481, 56811, 97, 160867, 105741);
    Climb(178481, 56811, 1, 56811, 2, 17798, 4, 143510, 5, 113011, 5, 113011, 5, 113011);
    Away(178481, 56811, 5, 113011, 123171);
    PrimeByFactors(178481, 56811, [5, 97], 485, 5, 97, 97);
  }

  lemma Prime262657()
    ensures IsPrime(262657)
  {
    hide IsPrime, Residue, Escapes;
    ResidueOne(783, 262657);
    PrimeByTrial(3);
    PrimeByTrial(19);
    Climb(262657, 783, 1, 783, 2, 87775, 4, 195501, 8, 107646, 16, 22447, 32, 91683);
    Climb(262657, 783, 32, 91683, 64, 223175, 128, 221686, 256, 244611, 512, 226093, 513, 1);
    Climb(262657, 783, 1, 783, 2, 87775, 4, 195501, 5, 210909, 10, 67389, 20, 200448);
    Climb(262657, 783, 20, 200448, 21, 144555, 42, 207733, 84, 30131, 85, 216100, 170, 108685);
    Climb(262657, 783, 170, 108685, 171, 262144, 171, 262144, 171, 262144, 171, 262144, 171, 262144);
    Away(262657, 783, 171, 262144, 175275);
    Climb(262657, 783, 1, 783, 2, 87775, 3, 174348, 6, 193151, 12, 33835, 13, 227105);
    Climb(262657, 783, 13, 227105, 26, 39220, 27, 241048, 27, 241048, 27, 241048, 27, 241048);
    Away(262657, 783, 27, 241048, 35892);
    PrimeByFactors(262657, 783, [3, 3, 3, 19], 513, 3, 19, 19);
  }

  lemma Prime524287()
    ensures IsPrime(524287)
  {
    hide IsPrime, Residue, Escapes;
    ResidueOne(10394, 524287);
    PrimeByTrial(19);
    PrimeByTrial(73);
    Climb(524287, 10394, 1, 10394, 2, 32114, 4, 36467, 5, 502784, 10, 482162, 20, 328417);
    Climb(524287, 10394, 20, 328417, 21, 457928, 42, 30368, 43, 24218, 86, 358658, 172, 172653);
    Climb(524287, 10394, 172, 172653, 173, 445168, 346, 353668, 692, 331773, 693, 212963, 1386, 316721);
    Climb(524287, 10394, 1386, 316721, 1387, 1, 1387, 1, 1387, 1, 1387, 1, 1387, 1);
    Climb(524287, 10394, 1, 10394, 2, 32114, 4, 36467, 8, 250257, 9, 183451, 18, 286871);
    Climb(524287, 10394, 18, 286871, 36, 261686, 72, 340378, 73, 256, 73, 256, 73, 256);
    Away(524287, 10394, 73, 256, 374197);
    Climb(524287, 10394, 1, 10394, 2, 32114, 4, 36467, 8, 250257, 9, 183451, 18, 286871);
    Climb(524287, 10394, 18, 286871, 19, 117005, 19, 117005, 19, 117005, 19, 117005, 19, 117005);
    Away(524287, 10394, 19, 117005, 130543);
    PrimeByFactors(524287, 10394, [19, 73], 1387, 19, 73, 73);
  }

  lemma Prime599479()
    ensures IsPrime(599479)
  {
    hide IsPrime, Residue, Escapes;
    ResidueOne(380952, 599479);
    PrimeByTrial(3);
    PrimeByTrial(293);
    Climb(599479, 380952, 1, 380952, 2, 152068, 3, 555050, 6, 451173, 12, 384605, 13, 378965);
    Climb(599479, 380952, 13, 378965, 26, 284590, 27, 551488, 54, 537242, 108, 210350, 109, 295791);
    Climb(599479, 380952, 109, 295791, 218, 154068, 219, 521241, 438, 504054, 439, 61960, 878, 577563);
    Climb(599479, 380952, 878, 577563, 879, 1, 879, 1, 879, 1, 879, 1, 879, 1);
    Climb(599479, 380952, 1, 380952, 2, 152068, 4, 373678, 8, 402651, 9, 213585, 18, 598241);
    Climb(599479, 380952, 18, 598241, 36, 333686, 72, 316094, 73, 493716, 146, 133508, 292, 76957);
    Climb(599479, 380952, 292, 76957, 293, 2048, 293, 2048, 293, 2048, 293, 2048, 293, 2048);
    Away(599479, 380952, 293, 2048, 199143);
    Climb(599479, 380952, 1, 380952, 2, 152068, 3, 555050, 3, 555050, 3, 555050, 3, 555050);
    Away(599479, 380952, 3, 555050, 401798);
    PrimeByFactors(599479, 380952, [3, 293], 879, 3, 293, 293);
  }

  lemma Prime2099863()
    ensures IsPrime(2099863)
  {
    hide IsPrime, Residue, Escapes;
    ResidueOne(420121, 2099863);
    PrimeByTrial(2713);
    Climb(2099863, 420121, 1, 420121, 2, 1869902, 4, 1211592, 5, 51980, 10, 1496582, 20, 1809664);
    Climb(2099863, 420121, 20, 1809664, 21, 1451564, 42, 1914088, 84, 1102220, 168, 590572, 169, 286584);
    Climb(2099863, 420121, 169, 286584, 338, 547400, 339, 1439366, 678, 1349307, 1356, 1962263, 2712, 1395192);
    Climb(2099863, 420121, 2712, 1395192, 2713, 1, 2713, 1, 2713, 1, 2713, 1, 2713, 1);
    Away(2099863, 420121, 1, 420121, 1609800);
    PrimeByFactors(2099863, 420121, [2713], 2713, 2713, 2713, 2713);
  }

  lemma Prime2796203()
    ensures IsPrime(2796203)
  {
    hide IsPrime, Residue, Escapes;
    ResidueOne(1804337, 2796203);
    PrimeByTrial(23);
    PrimeByTrial(89);
    Climb(2796203, 1804337, 1, 1804337, 2, 1671857, 3, 2111958, 6, 582111, 7, 663532, 14, 1367862);
    Climb(2796203, 1804337, 14, 1367862, 15, 1458529, 30, 340689, 31, 500673, 62, 2242588, 63, 1939059);
    Climb(2796203, 1804337, 63, 1939059, 126, 1887095, 127, 2160697, 254, 1091934, 255, 1099146, 510, 53542);
    Climb(2796203, 1804337, 510, 53542, 511, 1794207, 1022, 2519648, 1023, 783533, 2046, 816221, 2047, 1);
    Climb(2796203, 1804337, 1, 1804337, 2, 1671857, 4, 1736228, 5, 408771, 10, 1027770, 11, 1608890);
    Climb(2796203, 1804337, 11, 1608890, 22, 825113, 44, 344938, 88, 989991, 89, 1398101, 89, 1398101);
    Away(2796203, 1804337, 89, 1398101, 932067);
    Climb(2796203, 1804337, 1, 1804337, 2, 1671857, 4, 1736228, 5, 408771, 10, 1027770, 11, 1608890);
    Climb(2796203, 1804337, 11, 1608890, 22, 825113, 23, 2347994, 23, 2347994, 23, 2347994, 23, 2347994);
    Away(2796203, 1804337, 23, 2347994, 2790320);
    PrimeByFactors(2796203, 1804337, [23, 89], 2047, 23, 89, 89);
  }

  lemma Prime13264529()
    ensures IsPrime(13264529)
  {
    hide IsPrime, Residue, Escapes;
    ResidueOne(7279366, 13264529);
    TwoIsPrime();
    PrimeByTrial(569);
    Climb(13264529, 7279366, 1, 7279366, 2, 2383698, 4, 9248235, 8, 8448877, 16, 8753643, 17, 4419340);
    Climb(13264529, 7279366, 17, 4419340, 34, 6181290, 35, 3310985, 70, 5768356, 71, 7036889, 142, 6852950);
    Climb(13264529, 7279366, 142, 6852950, 284, 4687819, 568, 9962823, 569, 5309929, 1138, 11116590, 2276, 13264528);
    Climb(13264529, 7279366, 2276, 13264528, 4552, 1, 4552, 1, 4552, 1, 4552, 1, 4552, 1);
    Climb(13264529, 7279366, 1, 7279366, 2, 2383698, 4, 9248235, 8, 8448877, 16, 8753643, 17, 4419340);
    Climb(13264529, 7279366, 17, 4419340, 34, 6181290, 35, 3310985, 70, 5768356, 71, 7036889, 142, 6852950);
    Climb(13264529, 7279366, 142, 6852950, 284, 4687819, 568, 9962823, 569, 5309929, 1138, 11116590, 2276, 13264528);
    Away(13264529, 7279366, 2276, 13264528, 6632264);
    Climb(13264529, 7279366, 1, 7279366, 2, 2383698, 4, 9248235, 8, 8448877, 8, 8448877, 8, 8448877);
    Away(13264529, 7279366, 8, 8448877, 459681);
    PrimeByFactors(13264529, 7279366, [2, 2, 2, 569], 4552, 2, 569, 569);
  }

  lemma Prime164511353()
    ensures IsPrime(164511353)
  {
    hide IsPrime, Residue, Escapes;
    ResidueOne(130974670, 164511353);
    TwoIsPrime();
    PrimeByTrial(8501);
    Climb(164511353, 130974670, 1, 130974670, 2, 97484744, 4, 134093437, 8, 91411219, 16, 118624672, 32, 105694641);
    Climb(164511353, 130974670, 32, 105694641, 33, 145671169, 66, 41228055, 132, 162433841, 264, 100764189, 265,
      132496173);
    Climb(164511353, 130974670, 265, 132496173, 530, 52189847, 531, 96543395, 1062, 11096764, 2124, 107460372, 2125,
      68930011);
    Climb(164511353, 130974670, 2125, 68930011, 4250, 94484558, 8500, 75418320, 8501, 164511352, 17002, 1, 17002, 1);
    Climb(164511353, 130974670, 1, 130974670, 2, 97484744, 4, 134093437, 8, 91411219, 16, 118624672, 32, 105694641);
    Climb(164511353, 130974670, 32, 105694641, 33, 145671169, 66, 41228055, 132, 162433841, 264, 100764189, 265,
      132496173);
    Climb(164511353, 130974670, 265, 132496173, 530, 52189847, 531, 96543395, 1062, 11096764, 2124, 107460372, 2125,
      68930011);
    Climb(164511353, 130974670, 2125, 68930011, 4250, 94484558, 8500, 75418320, 8501, 164511352, 8501, 164511352,
      8501, 164511352);
    Away(164511353, 130974670, 8501, 164511352, 82255676);
    Climb(164511353, 130974670, 1, 130974670, 2, 97484744, 2, 97484744, 2, 97484744, 2, 97484744, 2, 97484744);
    Away(164511353, 130974670, 2, 97484744, 108246280);
    PrimeByFactors(164511353, 130974670, [2, 8501], 17002, 2, 8501, 8501);
  }

  lemma Prime616318177()
    ensures IsPrime(616318177)
  {
    hide IsPrime, Residue, Escapes;
    ResidueOne(23700741, 616318177);
    PrimeByTrial(37);
    PrimeByTrial(1039);
    Climb(616318177, 23700741, 1, 23700741, 2, 411067741, 4, 300440628, 8, 547103519, 9, 1104897, 18, 487390149);
    Climb(616318177, 23700741, 18, 487390149, 36, 509508673, 37, 273249159, 74, 390961042, 75, 565834949, 150,
      526041974);
    Climb(616318177, 23700741, 150, 526041974, 300, 13309728, 600, 525818874, 1200, 399831802, 1201, 147666276, 2402,
      593902654);
    Climb(616318177, 23700741, 2402, 593902654, 4804, 428609748, 4805, 420656380, 9610, 286239700, 19220, 591117737,
      19221, 529577421);
    Climb(616318177, 23700741, 19221, 529577421, 38442, 66316935, 38443, 1, 38443, 1, 38443, 1, 38443, 1);
    Climb(616318177, 23700741, 1, 23700741, 2, 411067741, 4, 300440628, 8, 547103519, 16, 574236176, 32, 55871936);
    Climb(616318177, 23700741, 32, 55871936, 64, 94746901, 128, 237828425, 129, 62838042, 258, 238126465, 259,
      209059085);
    Climb(616318177, 23700741, 259, 209059085, 518, 414714657, 519, 538710306, 1038, 546374778, 1039, 64, 1039, 64);
    Away(616318177, 23700741, 1039, 64, 283702018);
    Climb(616318177, 23700741, 1, 23700741, 2, 411067741, 4, 300440628, 8, 547103519, 9, 1104897, 18, 487390149);
    Climb(616318177, 23700741, 18, 487390149, 36, 509508673, 37, 273249159, 37, 273249159, 37, 273249159, 37,
      273249159);
    Away(616318177, 23700741, 37, 273249159, 258647477);
    PrimeByFactors(616318177, 23700741, [37, 1039], 38443, 37, 1039, 1039);
  }

  lemma Mersenne31Power49981()
    ensures Residue(1415456845, 49981, 2147483647) == 1
  {
    hide Residue;
    ResidueOne(1415456845, 2147483647);
    Climb(2147483647, 1415456845, 1, 1415456845, 2, 1585447249, 3, 985436668, 6, 139684394, 12, 600666757, 24,
      71327099);
    Climb(2147483647, 1415456845, 24, 71327099, 48, 935771982, 96, 401308868, 97, 755976524, 194, 1942040556, 195,
      1435252672);
    Climb(2147483647, 1415456845, 195, 1435252672, 390, 1062265765, 780, 1725946765, 1560, 1788795154, 1561,
      1184155415, 3122, 139995840);
    Climb(2147483647, 1415456845, 3122, 139995840, 3123, 20110126, 6246, 899849189, 6247, 263509629, 12494,
      2070584010, 12495, 918871420);
    Climb(2147483647, 1415456845, 12495, 918871420, 24990, 1290706360, 49980, 294145118, 49981, 1, 49981, 1, 49981,
      1);
  }

  lemma Mersenne31Power331()
    ensures Escapes(Residue(1415456845, 331, 2147483647), 2147483647)
  {
    hide Residue, Escapes;
    ResidueOne(1415456845, 2147483647);
    Climb(2147483647, 1415456845, 1, 1415456845, 2, 1585447249, 4, 314981779, 5, 60384542, 10, 971413525, 20,
      340127895);
    Climb(2147483647, 1415456845, 20, 340127895, 40, 783776375, 41, 1523528604, 82, 1897674508, 164, 308936698, 165,
      735062482);
    Climb(2147483647, 1415456845, 165, 735062482, 330, 387194597, 331, 556613938, 331, 556613938, 331, 556613938, 331,
      556613938);
    Away(2147483647, 1415456845, 331, 556613938, 2069584139);
  }

  lemma Mersenne31Power151()
    ensures Escapes(Residue(1415456845, 151, 2147483647), 2147483647)
  {
    hide Residue, Escapes;
    ResidueOne(1415456845, 2147483647);
    Climb(2147483647, 1415456845, 1, 1415456845, 2, 1585447249, 4, 314981779, 8, 2096387776, 9, 1877498741, 18,
      1016268772);
    Climb(2147483647, 1415456845, 18, 1016268772, 36, 213959514, 37, 1073001432, 74, 1108114199, 75, 989291688, 150,
      518897567);
    Climb(2147483647, 1415456845, 150, 518897567, 151, 272122089, 151, 272122089, 151, 272122089, 151, 272122089, 151,
      272122089);
    Away(2147483647, 1415456845, 151, 272122089, 411595504);
  }

  lemma Prime2147483647()
    ensures IsPrime(2147483647)
  {
    hide IsPrime, Residue, Escapes;
    PrimeByTrial(151);
    PrimeByTrial(331);
    Mersenne31Power49981();
    Mersenne31Power331();
    Mersenne31Power151();
    PrimeByFactors(2147483647, 1415456845, [151, 331], 49981, 151, 331, 331);
  }

  lemma Mersenne49Power3652406()
    ensures Residue(1680540727523, 3652406, 4432676798593) == 1
  {
    hide Residue;
    ResidueOne(1680540727523, 4432676798593);
    Climb(4432676798593, 1680540727523, 1, 1680540727523, 2, 1797478131546, 3, 3119571522567, 6, 80651247972, 12,
      3016740454393, 13, 3112781705019);
    Climb(4432676798593, 1680540727523, 13, 3112781705019, 26, 3964498126873, 27, 288484232811, 54, 4122215895990, 55,
      262567832984, 110, 991061688868);
    Climb(4432676798593, 1680540727523, 110, 991061688868, 111, 572481682090, 222, 2735942736357, 444, 648689505055,
      445, 1438851697968, 890, 17580984122);
    Climb(4432676798593, 1680540727523, 890, 17580984122, 891, 542417492552, 1782, 206525713571, 1783, 1379658204056,
      3566, 2795677232302, 7132, 3590233312240);
    Climb(4432676798593, 1680540727523, 7132, 3590233312240, 7133, 2188634384619, 14266, 3475970513573, 14267,
      3419827745694, 28534, 1558361914470, 57068, 47522837797);
    Climb(4432676798593, 1680540727523, 57068, 47522837797, 114136, 2709816397256, 114137, 2587885795215, 228274,
      1584138711610, 228275, 31136394053, 456550, 1172277698785);
    Climb(4432676798593, 1680540727523, 456550, 1172277698785, 913100, 3624774751186, 913101, 2572023434986, 1826202,
      739981953574, 1826203, 4432676798592, 3652406, 1);
  }

  lemma Mersenne49Power1826203()
    ensures Escapes(Residue(1680540727523, 1826203, 4432676798593), 4432676798593)
  {
    hide Residue, Escapes;
    ResidueOne(1680540727523, 4432676798593);
    Climb(4432676798593, 1680540727523, 1, 1680540727523, 2, 1797478131546, 3, 3119571522567, 6, 80651247972, 12,
      3016740454393, 13, 3112781705019);
    Climb(4432676798593, 1680540727523, 13, 3112781705019, 26, 3964498126873, 27, 288484232811, 54, 4122215895990, 55,
      262567832984, 110, 991061688868);
    Climb(4432676798593, 1680540727523, 110, 991061688868, 111, 572481682090, 222, 2735942736357, 444, 648689505055,
      445, 1438851697968, 890, 17580984122);
    Climb(4432676798593, 1680540727523, 890, 17580984122, 891, 542417492552, 1782, 206525713571, 1783, 1379658204056,
      3566, 2795677232302, 7132, 3590233312240);
    Climb(4432676798593, 1680540727523, 7132, 3590233312240, 7133, 2188634384619, 14266, 3475970513573, 14267,
      3419827745694, 28534, 1558361914470, 57068, 47522837797);
    Climb(4432676798593, 1680540727523, 57068, 47522837797, 114136, 2709816397256, 114137, 2587885795215, 228274,
      1584138711610, 228275, 31136394053, 456550, 1172277698785);
    Climb(4432676798593, 1680540727523, 456550, 1172277698785, 913100, 3624774751186, 913101, 2572023434986, 1826202,
      739981953574, 1826203, 4432676798592, 1826203, 4432676798592);
    Away(4432676798593, 1680540727523, 1826203, 4432676798592, 2216338399296);
  }

  lemma Mersenne49Power10838()
    ensures Escapes(Residue(1680540727523, 10838, 4432676798593), 4432676798593)
  {
    hide Residue, Escapes;
    ResidueOne(1680540727523, 4432676798593);
    Climb(4432676798593, 1680540727523, 1, 1680540727523, 2, 1797478131546, 4, 4119856396574, 5, 3749594686338, 10,
      1215604388578, 20, 3905548226730);
    Climb(4432676798593, 1680540727523, 20, 3905548226730, 21, 1797037209108, 42, 127314509500, 84, 4276775135207,
      168, 1951243261786, 169, 2417266221636);
    Climb(4432676798593, 1680540727523, 169, 2417266221636, 338, 427416042313, 676, 2011668515139, 677, 4294010846541,
      1354, 1635495412083, 2708, 2237649683505);
    Climb(4432676798593, 1680540727523, 2708, 2237649683505, 2709, 2988005630514, 5418, 3177660430217, 5419,
      3276462294480, 10838, 3775557490990, 10838, 3775557490990);
    Away(4432676798593, 1680540727523, 10838, 3775557490990, 3040131958471);
  }

  lemma Mersenne49Power674()
    ensures Escapes(Residue(1680540727523, 674, 4432676798593), 4432676798593)
  {
    hide Residue, Escapes;
    ResidueOne(1680540727523, 4432676798593);
    Climb(4432676798593, 1680540727523, 1, 1680540727523, 2, 1797478131546, 4, 4119856396574, 5, 3749594686338, 10,
      1215604388578, 20, 3905548226730);
    Climb(4432676798593, 1680540727523, 20, 3905548226730, 21, 1797037209108, 42, 127314509500, 84, 4276775135207,
      168, 1951243261786, 336, 1197303590811);
    Climb(4432676798593, 1680540727523, 336, 1197303590811, 337, 871035339162, 674, 2826252775584, 674, 2826252775584,
      674, 2826252775584, 674, 2826252775584);
    Away(4432676798593, 1680540727523, 674, 2826252775584, 3807207840568);
  }

  lemma Prime4432676798593()
    ensures IsPrime(4432676798593)
  {
    hide IsPrime, Residue, Escapes;
    TwoIsPrime();
    PrimeByTrial(337);
    PrimeByTrial(5419);
    Mersenne49Power3652406();
    Mersenne49Power1826203();
    Mersenne49Power10838();
    Mersenne49Power674();
    PrimeByFactors(4432676798593, 1680540727523, [2, 337, 5419], 3652406, 2, 337, 5419);
  }

  /** Too small for trial division by eight numbers. */
  lemma SmallPrimes()
    ensures IsPrime(11) && IsPrime(13) && IsPrime(17)
  {
  }
}
