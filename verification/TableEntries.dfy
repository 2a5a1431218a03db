/** Every mask of the table has full period: for each of them the prime factors of 2^w - 1, and
    where the register stands after 2^w - 1 clocks and after the parts of them. */
module TableEntries {
  import opened Bits
  import opened LargePrimes
  import opened Primes
  import opened RegisterWords
  import opened ShiftOrbits
  import opened TableCycles

  lemma Parts3()
    ensures Comes(Terms(2, 1, 1, 1), 3) && !Comes(Terms(2, 1, 1, 1), 1)
  {
    var t := Terms(2, 1, 1, 1);
    Returns(t, 2, 1, 1, 1, 49, 3, 3);
    Leaves(t, 2, 1, 1, 1, 49, 1, 1);
  }

  lemma Cycle3()
    ensures FullPeriod(MaskTable(3), 2)
  {
    hide Comes, FullPeriod, IsPrime, MaskOf, Pow2;
    Parts3(); Powers0();
    PrimeByTrial(3);
    MaskSum(Terms(2, 1, 1, 1));
    FullCycle(Terms(2, 1, 1, 1), [3], 3);
  }

  lemma Parts4()
    ensures Comes(Terms(3, 2, 2, 2), 7) && !Comes(Terms(3, 2, 2, 2), 1)
  {
    var t := Terms(3, 2, 2, 2);
    Returns(t, 3, 2, 2, 2, 49, 7, 7);
    Leaves(t, 3, 2, 2, 2, 49, 1, 1);
  }

  lemma Cycle4()
    ensures FullPeriod(MaskTable(4), 3)
  {
    hide Comes, FullPeriod, IsPrime, MaskOf, Pow2;
    Parts4(); Powers0();
    PrimeByTrial(7);
    MaskSum(Terms(3, 2, 2, 2));
    FullCycle(Terms(3, 2, 2, 2), [7], 7);
  }

  lemma Parts5()
    ensures Comes(Terms(4, 3, 3, 3), 15) && !Comes(Terms(4, 3, 3, 3), 5) && !Comes(Terms(4, 3, 3, 3), 3)
  {
    var t := Terms(4, 3, 3, 3);
    Returns(t, 4, 3, 3, 3, 49, 15, 15);
    Leaves(t, 4, 3, 3, 3, 49, 5, 5);
    Leaves(t, 4, 3, 3, 3, 49, 3, 3);
  }

  lemma Cycle5()
    ensures FullPeriod(MaskTable(5), 4)
  {
    hide Comes, FullPeriod, IsPrime, MaskOf, Pow2;
    Parts5(); Powers0();
    PrimeByTrial(3); PrimeByTrial(5);
    MaskSum(Terms(4, 3, 3, 3));
    FullCycle(Terms(4, 3, 3, 3), [3, 5], 15);
  }

  lemma Parts6()
    ensures Comes(Terms(5, 3, 3, 3), 31) && !Comes(Terms(5, 3, 3, 3), 1)
  {
    var t := Terms(5, 3, 3, 3);
    Returns(t, 5, 3, 3, 3, 49, 31, 31);
    Leaves(t, 5, 3, 3, 3, 49, 1, 1);
  }

  lemma Cycle6()
    ensures FullPeriod(MaskTable(6), 5)
  {
    hide Comes, FullPeriod, IsPrime, MaskOf, Pow2;
    Parts6(); Powers0();
    PrimeByTrial(31);
    MaskSum(Terms(5, 3, 3, 3));
    FullCycle(Terms(5, 3, 3, 3), [31], 31);
  }

  lemma Parts7()
    ensures Comes(Terms(6, 5, 5, 5), 63) && !Comes(Terms(6, 5, 5, 5), 21) && !Comes(Terms(6, 5, 5, 5), 9)
  {
    var t := Terms(6, 5, 5, 5);
    Returns(t, 6, 5, 5, 5, 49, 63, 63);
    Leaves(t, 6, 5, 5, 5, 49, 21, 21);
    Leaves(t, 6, 5, 5, 5, 49, 9, 9);
  }

  lemma Cycle7()
    ensures FullPeriod(MaskTable(7), 6)
  {
    hide Comes, FullPeriod, IsPrime, MaskOf, Pow2;
    Parts7(); Powers0();
    PrimeByTrial(3); PrimeByTrial(7);
    MaskSum(Terms(6, 5, 5, 5));
    FullCycle(Terms(6, 5, 5, 5), [3, 3, 7], 63);
  }

  lemma Parts8()
    ensures Comes(Terms(7, 6, 6, 6), 127) && !Comes(Terms(7, 6, 6, 6), 1)
  {
    var t := Terms(7, 6, 6, 6);
    Returns(t, 7, 6, 6, 6, 49, 127, 127);
    Leaves(t, 7, 6, 6, 6, 49, 1, 1);
  }

  lemma Cycle8()
    ensures FullPeriod(MaskTable(8), 7)
  {
    hide Comes, FullPeriod, IsPrime, MaskOf, Pow2;
    Parts8(); Powers0();
    PrimeByTrial(127);
    MaskSum(Terms(7, 6, 6, 6));
    FullCycle(Terms(7, 6, 6, 6), [127], 127);
  }

  lemma Parts9()
    ensures Comes(Terms(8, 4, 5, 6), 255) && !Comes(Terms(8, 4, 5, 6), 85) && !Comes(Terms(8, 4, 5, 6), 51) &&
      !Comes(Terms(8, 4, 5, 6), 15)
  {
    var t := Terms(8, 4, 5, 6);
    Returns(t, 8, 4, 5, 6, 49, 255, 255);
    Leaves(t, 8, 4, 5, 6, 49, 85, 85);
    Leaves(t, 8, 4, 5, 6, 49, 51, 51);
    Leaves(t, 8, 4, 5, 6, 49, 15, 15);
  }

  lemma Cycle9()
    ensures FullPeriod(MaskTable(9), 8)
  {
    hide Comes, FullPeriod, IsPrime, MaskOf, Pow2;
    Parts9(); Powers0();
    PrimeByTrial(3); PrimeByTrial(5); SmallPrimes();
    MaskSum(Terms(8, 4, 5, 6));
    FullCycle(Terms(8, 4, 5, 6), [3, 5, 17], 255);
  }

  lemma Parts10()
    ensures Comes(Terms(9, 5, 5, 5), 511) && !Comes(Terms(9, 5, 5, 5), 73) && !Comes(Terms(9, 5, 5, 5), 7)
  {
    var t := Terms(9, 5, 5, 5);
    Returns(t, 9, 5, 5, 5, 49, 511, 511);
    Leaves(t, 9, 5, 5, 5, 49, 73, 73);
    Leaves(t, 9, 5, 5, 5, 49, 7, 7);
  }

  lemma Cycle10()
    ensures FullPeriod(MaskTable(10), 9)
  {
    hide Comes, FullPeriod, IsPrime, MaskOf, Pow2;
    Parts10(); Powers0();
    PrimeByTrial(7); PrimeByTrial(73);
    MaskSum(Terms(9, 5, 5, 5));
    FullCycle(Terms(9, 5, 5, 5), [7, 73], 511);
  }

  lemma Parts11()
    ensures Comes(Terms(10, 7, 7, 7), 1023) && !Comes(Terms(10, 7, 7, 7), 341) && !Comes(Terms(10, 7, 7, 7), 93) &&
      !Comes(Terms(10, 7, 7, 7), 33)
  {
    var t := Terms(10, 7, 7, 7);
    Returns(t, 10, 7, 7, 7, 49, 1023, 1023);
    Leaves(t, 10, 7, 7, 7, 49, 341, 341);
    Leaves(t, 10, 7, 7, 7, 49, 93, 93);
    Leaves(t, 10, 7, 7, 7, 49, 33, 33);
  }

  lemma Cycle11()
    ensures FullPeriod(MaskTable(11), 10)
  {
    hide Comes, FullPeriod, IsPrime, MaskOf, Pow2;
    Parts11(); Powers0(); Powers10();
    PrimeByTrial(3); SmallPrimes(); PrimeByTrial(31);
    MaskSum(Terms(10, 7, 7, 7));
    FullCycle(Terms(10, 7, 7, 7), [3, 11, 31], 1023);
  }

  lemma Parts12()
    ensures Comes(Terms(11, 9, 9, 9), 2047) && !Comes(Terms(11, 9, 9, 9), 89) && !Comes(Terms(11, 9, 9, 9), 23)
  {
    var t := Terms(11, 9, 9, 9);
    Returns(t, 11, 9, 9, 9, 49, 2047, 2047);
    Leaves(t, 11, 9, 9, 9, 49, 89, 89);
    Leaves(t, 11, 9, 9, 9, 49, 23, 23);
  }

  lemma Cycle12()
    ensures FullPeriod(MaskTable(12), 11)
  {
    hide Comes, FullPeriod, IsPrime, MaskOf, Pow2;
    Parts12(); Powers0(); Powers10();
    PrimeByTrial(23); PrimeByTrial(89);
    MaskSum(Terms(11, 9, 9, 9));
    FullCycle(Terms(11, 9, 9, 9), [23, 89], 2047);
  }

  lemma Parts13A()
    ensures Comes(Terms(12, 4, 10, 11), 4095) && !Comes(Terms(12, 4, 10, 11), 1365) && !Comes(Terms(12, 4, 10, 11),
      819) && !Comes(Terms(12, 4, 10, 11), 585)
  {
    var t := Terms(12, 4, 10, 11);
    Returns(t, 12, 4, 10, 11, 8, 4095, 4095);
    Leaves(t, 12, 4, 10, 11, 8, 1365, 1365);
    Leaves(t, 12, 4, 10, 11, 8, 819, 819);
    Leaves(t, 12, 4, 10, 11, 8, 585, 585);
  }

  lemma Parts13B()
    ensures !Comes(Terms(12, 4, 10, 11), 315)
  {
    var t := Terms(12, 4, 10, 11);
    Leaves(t, 12, 4, 10, 11, 8, 315, 315);
  }

  lemma Cycle13()
    ensures FullPeriod(MaskTable(13), 12)
  {
    hide Comes, FullPeriod, IsPrime, MaskOf, Pow2;
    Parts13A(); Parts13B(); Powers0(); Powers10();
    PrimeByTrial(3); PrimeByTrial(5); PrimeByTrial(7); SmallPrimes();
    MaskSum(Terms(12, 4, 10, 11));
    FullCycle(Terms(12, 4, 10, 11), [3, 3, 5, 7, 13], 4095);
  }

  lemma Parts14()
    ensures Comes(Terms(13, 8, 11, 12), 8191) && !Comes(Terms(13, 8, 11, 12), 1)
  {
    var t := Terms(13, 8, 11, 12);
    Returns(t, 13, 8, 11, 12, 49, 8191, 8191);
    Leaves(t, 13, 8, 11, 12, 49, 1, 1);
  }

  lemma Cycle14()
    ensures FullPeriod(MaskTable(14), 13)
  {
    hide Comes, FullPeriod, IsPrime, MaskOf, Pow2;
    Parts14(); Powers0(); Powers10();
    PrimeByTrial(8191);
    MaskSum(Terms(13, 8, 11, 12));
    FullCycle(Terms(13, 8, 11, 12), [8191], 8191);
  }

  lemma Parts15()
    ensures Comes(Terms(14, 2, 12, 13), 16383) && !Comes(Terms(14, 2, 12, 13), 5461) && !Comes(Terms(14, 2, 12, 13),
      381) && !Comes(Terms(14, 2, 12, 13), 129)
  {
    var t := Terms(14, 2, 12, 13);
    Returns(t, 14, 2, 12, 13, 4, 16383, 16383);
    Leaves(t, 14, 2, 12, 13, 4, 5461, 5461);
    Leaves(t, 14, 2, 12, 13, 4, 381, 381);
    Leaves(t, 14, 2, 12, 13, 4, 129, 129);
  }

  lemma Cycle15()
    ensures FullPeriod(MaskTable(15), 14)
  {
    hide Comes, FullPeriod, IsPrime, MaskOf, Pow2;
    Parts15(); Powers0(); Powers10();
    PrimeByTrial(3); PrimeByTrial(43); PrimeByTrial(127);
    MaskSum(Terms(14, 2, 12, 13));
    FullCycle(Terms(14, 2, 12, 13), [3, 43, 127], 16383);
  }

  lemma Parts16()
    ensures Comes(Terms(15, 14, 14, 14), 32767) && !Comes(Terms(15, 14, 14, 14), 4681) && !Comes(Terms(15, 14, 14,
      14), 1057) && !Comes(Terms(15, 14, 14, 14), 217)
  {
    var t := Terms(15, 14, 14, 14);
    Returns(t, 15, 14, 14, 14, 49, 32767, 32767);
    Leaves(t, 15, 14, 14, 14, 49, 4681, 4681);
    Leaves(t, 15, 14, 14, 14, 49, 1057, 1057);
    Leaves(t, 15, 14, 14, 14, 49, 217, 217);
  }

  lemma Cycle16()
    ensures FullPeriod(MaskTable(16), 15)
  {
    hide Comes, FullPeriod, IsPrime, MaskOf, Pow2;
    Parts16(); Powers10();
    PrimeByTrial(7); PrimeByTrial(31); PrimeByTrial(151);
    MaskSum(Terms(15, 14, 14, 14));
    FullCycle(Terms(15, 14, 14, 14), [7, 31, 151], 32767);
  }

  lemma Parts17A()
    ensures Comes(Terms(16, 11, 13, 14), 65535) && !Comes(Terms(16, 11, 13, 14), 21845) && !Comes(Terms(16, 11, 13,
      14), 13107) && !Comes(Terms(16, 11, 13, 14), 3855)
  {
    var t := Terms(16, 11, 13, 14);
    Returns(t, 16, 11, 13, 14, 49, 65535, 65535);
    Leaves(t, 16, 11, 13, 14, 49, 21845, 21845);
    Leaves(t, 16, 11, 13, 14, 49, 13107, 13107);
    Leaves(t, 16, 11, 13, 14, 49, 3855, 3855);
  }

  lemma Parts17B()
    ensures !Comes(Terms(16, 11, 13, 14), 255)
  {
    var t := Terms(16, 11, 13, 14);
    Leaves(t, 16, 11, 13, 14, 49, 255, 255);
  }

  lemma Cycle17()
    ensures FullPeriod(MaskTable(17), 16)
  {
    hide Comes, FullPeriod, IsPrime, MaskOf, Pow2;
    Parts17A(); Parts17B(); Powers10();
    PrimeByTrial(3); PrimeByTrial(5); SmallPrimes(); PrimeByTrial(257);
    MaskSum(Terms(16, 11, 13, 14));
    FullCycle(Terms(16, 11, 13, 14), [3, 5, 17, 257], 65535);
  }

  lemma Parts18()
    ensures Comes(Terms(17, 14, 14, 14), 131071) && !Comes(Terms(17, 14, 14, 14), 1)
  {
    var t := Terms(17, 14, 14, 14);
    Returns(t, 17, 14, 14, 14, 49, 131071, 131071);
    Leaves(t, 17, 14, 14, 14, 49, 1, 1);
  }

  lemma Cycle18()
    ensures FullPeriod(MaskTable(18), 17)
  {
    hide Comes, FullPeriod, IsPrime, MaskOf, Pow2;
    Parts18(); Powers10();
    Prime131071();
    MaskSum(Terms(17, 14, 14, 14));
    FullCycle(Terms(17, 14, 14, 14), [131071], 131071);
  }

  lemma Parts19A()
    ensures Comes(Terms(18, 11, 11, 11), 262143) && !Comes(Terms(18, 11, 11, 11), 87381) && !Comes(Terms(18, 11, 11,
      11), 37449) && !Comes(Terms(18, 11, 11, 11), 13797)
  {
    var t := Terms(18, 11, 11, 11);
    Returns(t, 18, 11, 11, 11, 49, 262143, 262143);
    Leaves(t, 18, 11, 11, 11, 49, 87381, 87381);
    Leaves(t, 18, 11, 11, 11, 49, 37449, 37449);
    Leaves(t, 18, 11, 11, 11, 49, 13797, 13797);
  }

  lemma Parts19B()
    ensures !Comes(Terms(18, 11, 11, 11), 3591)
  {
    var t := Terms(18, 11, 11, 11);
    Leaves(t, 18, 11, 11, 11, 49, 3591, 3591);
  }

  lemma Factors19A()
    ensures Factors([3, 3, 3, 7], 189)
  {
    hide IsPrime;
    PrimeByTrial(3); PrimeByTrial(7);
  }

  lemma Factors19B()
    ensures Factors([19, 73], 1387)
  {
    hide IsPrime;
    PrimeByTrial(19); PrimeByTrial(73);
  }

  lemma Factors19()
    ensures Factors([3, 3, 3, 7, 19, 73], 262143)
  {
    hide Factors;
    Factors19A(); Factors19B();
    FactorsJoin([3, 3, 3, 7], 189, [19, 73], 1387);
    assert [3, 3, 3, 7] + [19, 73] == [3, 3, 3, 7, 19, 73];
  }

  lemma Cycle19()
    ensures FullPeriod(MaskTable(19), 18)
  {
    hide Comes, Factors, FullPeriod, MaskOf, Pow2;
    Parts19A(); Parts19B(); Factors19(); Powers10();
    MaskSum(Terms(18, 11, 11, 11));
    FullCycle(Terms(18, 11, 11, 11), [3, 3, 3, 7, 19, 73], 262143);
  }

  lemma Parts20()
    ensures Comes(Terms(19, 14, 17, 18), 524287) && !Comes(Terms(19, 14, 17, 18), 1)
  {
    var t := Terms(19, 14, 17, 18);
    Returns(t, 19, 14, 17, 18, 49, 524287, 524287);
    Leaves(t, 19, 14, 17, 18, 49, 1, 1);
  }

  lemma Cycle20()
    ensures FullPeriod(MaskTable(20), 19)
  {
    hide Comes, FullPeriod, IsPrime, MaskOf, Pow2;
    Parts20(); Powers10();
    Prime524287();
    MaskSum(Terms(19, 14, 17, 18));
    FullCycle(Terms(19, 14, 17, 18), [524287], 524287);
  }

  lemma Parts21A()
    ensures Comes(Terms(20, 17, 17, 17), 1048575) && !Comes(Terms(20, 17, 17, 17), 349525) && !Comes(Terms(20, 17, 17,
      17), 209715)
  {
    var t := Terms(20, 17, 17, 17);
    Returns(t, 20, 17, 17, 17, 49, 1048575, 1048575);
    Leaves(t, 20, 17, 17, 17, 49, 349525, 349525);
    Leaves(t, 20, 17, 17, 17, 49, 209715, 209715);
  }

  lemma Parts21B()
    ensures !Comes(Terms(20, 17, 17, 17), 95325) && !Comes(Terms(20, 17, 17, 17), 33825) && !Comes(Terms(20, 17, 17,
      17), 25575)
  {
    var t := Terms(20, 17, 17, 17);
    Leaves(t, 20, 17, 17, 17, 49, 95325, 95325);
    Leaves(t, 20, 17, 17, 17, 49, 33825, 33825);
    Leaves(t, 20, 17, 17, 17, 49, 25575, 25575);
  }

  lemma Factors21A()
    ensures Factors([3, 5, 5, 11], 825)
  {
    hide IsPrime;
    PrimeByTrial(3); PrimeByTrial(5); SmallPrimes();
  }

  lemma Factors21B()
    ensures Factors([31, 41], 1271)
  {
    hide IsPrime;
    PrimeByTrial(31); PrimeByTrial(41);
  }

  lemma Factors21()
    ensures Factors([3, 5, 5, 11, 31, 41], 1048575)
  {
    hide Factors;
    Factors21A(); Factors21B();
    FactorsJoin([3, 5, 5, 11], 825, [31, 41], 1271);
    assert [3, 5, 5, 11] + [31, 41] == [3, 5, 5, 11, 31, 41];
  }

  lemma Cycle21()
    ensures FullPeriod(MaskTable(21), 20)
  {
    hide Comes, Factors, FullPeriod, MaskOf, Pow2;
    Parts21A(); Parts21B(); Factors21(); Powers10(); Powers20();
    MaskSum(Terms(20, 17, 17, 17));
    FullCycle(Terms(20, 17, 17, 17), [3, 5, 5, 11, 31, 41], 1048575);
  }

  lemma Parts22A()
    ensures Comes(Terms(21, 19, 19, 19), 2097151) && !Comes(Terms(21, 19, 19, 19), 299593) && !Comes(Terms(21, 19, 19,
      19), 16513)
  {
    var t := Terms(21, 19, 19, 19);
    Returns(t, 21, 19, 19, 19, 49, 2097151, 2097151);
    Leaves(t, 21, 19, 19, 19, 49, 299593, 299593);
    Leaves(t, 21, 19, 19, 19, 49, 16513, 16513);
  }

  lemma Parts22B()
    ensures !Comes(Terms(21, 19, 19, 19), 6223)
  {
    var t := Terms(21, 19, 19, 19);
    Leaves(t, 21, 19, 19, 19, 49, 6223, 6223);
  }

  lemma Cycle22()
    ensures FullPeriod(MaskTable(22), 21)
  {
    hide Comes, FullPeriod, IsPrime, MaskOf, Pow2;
    Parts22A(); Parts22B(); Powers10(); Powers20();
    PrimeByTrial(7); PrimeByTrial(127); PrimeByTrial(337);
    MaskSum(Terms(21, 19, 19, 19));
    FullCycle(Terms(21, 19, 19, 19), [7, 7, 127, 337], 2097151);
  }

  lemma Parts23A()
    ensures Comes(Terms(22, 21, 21, 21), 4194303) && !Comes(Terms(22, 21, 21, 21), 1398101) && !Comes(Terms(22, 21,
      21, 21), 182361)
  {
    var t := Terms(22, 21, 21, 21);
    Returns(t, 22, 21, 21, 21, 49, 4194303, 4194303);
    Leaves(t, 22, 21, 21, 21, 49, 1398101, 1398101);
    Leaves(t, 22, 21, 21, 21, 49, 182361, 182361);
  }

  lemma Parts23B()
    ensures !Comes(Terms(22, 21, 21, 21), 47127) && !Comes(Terms(22, 21, 21, 21), 6141)
  {
    var t := Terms(22, 21, 21, 21);
    Leaves(t, 22, 21, 21, 21, 49, 47127, 47127);
    Leaves(t, 22, 21, 21, 21, 49, 6141, 6141);
  }

  lemma Cycle23()
    ensures FullPeriod(MaskTable(23), 22)
  {
    hide Comes, FullPeriod, IsPrime, MaskOf, Pow2;
    Parts23A(); Parts23B(); Powers20();
    PrimeByTrial(3); PrimeByTrial(23); PrimeByTrial(89); PrimeByTrial(683);
    MaskSum(Terms(22, 21, 21, 21));
    FullCycle(Terms(22, 21, 21, 21), [3, 23, 89, 683], 4194303);
  }

  lemma Parts24()
    ensures Comes(Terms(23, 18, 18, 18), 8388607) && !Comes(Terms(23, 18, 18, 18), 178481) && !Comes(Terms(23, 18, 18,
      18), 47)
  {
    var t := Terms(23, 18, 18, 18);
    Returns(t, 23, 18, 18, 18, 49, 8388607, 8388607);
    Leaves(t, 23, 18, 18, 18, 49, 178481, 178481);
    Leaves(t, 23, 18, 18, 18, 49, 47, 47);
  }

  lemma Cycle24()
    ensures FullPeriod(MaskTable(24), 23)
  {
    hide Comes, FullPeriod, IsPrime, MaskOf, Pow2;
    Parts24(); Powers10(); Powers20();
    PrimeByTrial(47); Prime178481();
    MaskSum(Terms(23, 18, 18, 18));
    FullCycle(Terms(23, 18, 18, 18), [47, 178481], 8388607);
  }

  lemma Parts25A()
    ensures Comes(Terms(24, 20, 21, 23), 16777215) && !Comes(Terms(24, 20, 21, 23), 5592405) && !Comes(Terms(24, 20,
      21, 23), 3355443)
  {
    var t := Terms(24, 20, 21, 23);
    Returns(t, 24, 20, 21, 23, 49, 16777215, 16777215);
    Leaves(t, 24, 20, 21, 23, 49, 5592405, 5592405);
    Leaves(t, 24, 20, 21, 23, 49, 3355443, 3355443);
  }

  lemma Parts25B()
    ensures !Comes(Terms(24, 20, 21, 23), 2396745) && !Comes(Terms(24, 20, 21, 23), 1290555) && !Comes(Terms(24, 20,
      21, 23), 986895)
  {
    var t := Terms(24, 20, 21, 23);
    Leaves(t, 24, 20, 21, 23, 49, 2396745, 2396745);
    Leaves(t, 24, 20, 21, 23, 49, 1290555, 1290555);
    Leaves(t, 24, 20, 21, 23, 49, 986895, 986895);
  }

  lemma Parts25C()
    ensures !Comes(Terms(24, 20, 21, 23), 69615)
  {
    var t := Terms(24, 20, 21, 23);
    Leaves(t, 24, 20, 21, 23, 49, 69615, 69615);
  }

  lemma Factors25A()
    ensures Factors([3, 3, 5, 7], 315)
  {
    hide IsPrime;
    PrimeByTrial(3); PrimeByTrial(5); PrimeByTrial(7);
  }

  lemma Factors25B()
    ensures Factors([13, 17, 241], 53261)
  {
    hide IsPrime;
    SmallPrimes(); PrimeByTrial(241);
  }

  lemma Factors25()
    ensures Factors([3, 3, 5, 7, 13, 17, 241], 16777215)
  {
    hide Factors;
    Factors25A(); Factors25B();
    FactorsJoin([3, 3, 5, 7], 315, [13, 17, 241], 53261);
    assert [3, 3, 5, 7] + [13, 17, 241] == [3, 3, 5, 7, 13, 17, 241];
  }

  lemma Cycle25()
    ensures FullPeriod(MaskTable(25), 24)
  {
    hide Comes, Factors, FullPeriod, MaskOf, Pow2;
    Parts25A(); Parts25B(); Parts25C(); Factors25(); Powers10(); Powers20();
    MaskSum(Terms(24, 20, 21, 23));
    FullCycle(Terms(24, 20, 21, 23), [3, 3, 5, 7, 13, 17, 241], 16777215);
  }

  lemma Parts26A()
    ensures Comes(Terms(25, 22, 22, 22), 33554431) && !Comes(Terms(25, 22, 22, 22), 1082401) && !Comes(Terms(25, 22,
      22, 22), 55831)
  {
    var t := Terms(25, 22, 22, 22);
    Returns(t, 25, 22, 22, 22, 49, 33554431, 33554431);
    Leaves(t, 25, 22, 22, 22, 49, 1082401, 1082401);
    Leaves(t, 25, 22, 22, 22, 49, 55831, 55831);
  }

  lemma Parts26B()
    ensures !Comes(Terms(25, 22, 22, 22), 18631)
  {
    var t := Terms(25, 22, 22, 22);
    Leaves(t, 25, 22, 22, 22, 49, 18631, 18631);
  }

  lemma Cycle26()
    ensures FullPeriod(MaskTable(26), 25)
  {
    hide Comes, FullPeriod, IsPrime, MaskOf, Pow2;
    Parts26A(); Parts26B(); Powers20();
    PrimeByTrial(31); PrimeByTrial(601); PrimeByTrial(1801);
    MaskSum(Terms(25, 22, 22, 22));
    FullCycle(Terms(25, 22, 22, 22), [31, 601, 1801], 33554431);
  }

  lemma Parts27A()
    ensures Comes(Terms(26, 20, 24, 25), 67108863) && !Comes(Terms(26, 20, 24, 25), 22369621) && !Comes(Terms(26, 20,
      24, 25), 24573)
  {
    var t := Terms(26, 20, 24, 25);
    Returns(t, 26, 20, 24, 25, 49, 67108863, 67108863);
    Leaves(t, 26, 20, 24, 25, 49, 22369621, 22369621);
    Leaves(t, 26, 20, 24, 25, 49, 24573, 24573);
  }

  lemma Parts27B()
    ensures !Comes(Terms(26, 20, 24, 25), 8193)
  {
    var t := Terms(26, 20, 24, 25);
    Leaves(t, 26, 20, 24, 25, 49, 8193, 8193);
  }

  lemma Cycle27()
    ensures FullPeriod(MaskTable(27), 26)
  {
    hide Comes, FullPeriod, IsPrime, MaskOf, Pow2;
    Parts27A(); Parts27B(); Powers10(); Powers20();
    PrimeByTrial(3); PrimeByTrial(2731); PrimeByTrial(8191);
    MaskSum(Terms(26, 20, 24, 25));
    FullCycle(Terms(26, 20, 24, 25), [3, 2731, 8191], 67108863);
  }

  lemma Parts28A()
    ensures Comes(Terms(27, 22, 25, 26), 134217727) && !Comes(Terms(27, 22, 25, 26), 19173961) && !Comes(Terms(27, 22,
      25, 26), 1838599)
  {
    var t := Terms(27, 22, 25, 26);
    Returns(t, 27, 22, 25, 26, 49, 134217727, 134217727);
    Leaves(t, 27, 22, 25, 26, 49, 19173961, 19173961);
    Leaves(t, 27, 22, 25, 26, 49, 1838599, 1838599);
  }

  lemma Parts28B()
    ensures !Comes(Terms(27, 22, 25, 26), 511)
  {
    var t := Terms(27, 22, 25, 26);
    Leaves(t, 27, 22, 25, 26, 49, 511, 511);
  }

  lemma Cycle28()
    ensures FullPeriod(MaskTable(28), 27)
  {
    hide Comes, FullPeriod, IsPrime, MaskOf, Pow2;
    Parts28A(); Parts28B(); Powers20();
    PrimeByTrial(7); PrimeByTrial(73); Prime262657();
    MaskSum(Terms(27, 22, 25, 26));
    FullCycle(Terms(27, 22, 25, 26), [7, 73, 262657], 134217727);
  }

  lemma Parts29A()
    ensures Comes(Terms(28, 25, 25, 25), 268435455) && !Comes(Terms(28, 25, 25, 25), 89478485) && !Comes(Terms(28, 25,
      25, 25), 53687091)
  {
    var t := Terms(28, 25, 25, 25);
    Returns(t, 28, 25, 25, 25, 49, 268435455, 268435455);
    Leaves(t, 28, 25, 25, 25, 49, 89478485, 89478485);
    Leaves(t, 28, 25, 25, 25, 49, 53687091, 53687091);
  }

  lemma Parts29B()
    ensures !Comes(Terms(28, 25, 25, 25), 9256395) && !Comes(Terms(28, 25, 25, 25), 6242685) && !Comes(Terms(28, 25,
      25, 25), 2375535)
  {
    var t := Terms(28, 25, 25, 25);
    Leaves(t, 28, 25, 25, 25, 49, 9256395, 9256395);
    Leaves(t, 28, 25, 25, 25, 49, 6242685, 6242685);
    Leaves(t, 28, 25, 25, 25, 49, 2375535, 2375535);
  }

  lemma Parts29C()
    ensures !Comes(Terms(28, 25, 25, 25), 2113665)
  {
    var t := Terms(28, 25, 25, 25);
    Leaves(t, 28, 25, 25, 25, 49, 2113665, 2113665);
  }

  lemma Factors29A()
    ensures Factors([3, 5, 29, 43], 18705)
  {
    hide IsPrime;
    PrimeByTrial(3); PrimeByTrial(5); PrimeByTrial(29); PrimeByTrial(43);
  }

  lemma Factors29B()
    ensures Factors([113, 127], 14351)
  {
    hide IsPrime;
    PrimeByTrial(113); PrimeByTrial(127);
  }

  lemma Factors29()
    ensures Factors([3, 5, 29, 43, 113, 127], 268435455)
  {
    hide Factors;
    Factors29A(); Factors29B();
    FactorsJoin([3, 5, 29, 43], 18705, [113, 127], 14351);
    assert [3, 5, 29, 43] + [113, 127] == [3, 5, 29, 43, 113, 127];
  }

  lemma Cycle29()
    ensures FullPeriod(MaskTable(29), 28)
  {
    hide Comes, Factors, FullPeriod, MaskOf, Pow2;
    Parts29A(); Parts29B(); Parts29C(); Factors29(); Powers20();
    MaskSum(Terms(28, 25, 25, 25));
    FullCycle(Terms(28, 25, 25, 25), [3, 5, 29, 43, 113, 127], 268435455);
  }

  lemma Parts30A()
    ensures Comes(Terms(29, 27, 27, 27), 536870911) && !Comes(Terms(29, 27, 27, 27), 2304167) && !Comes(Terms(29, 27,
      27, 27), 486737)
  {
    var t := Terms(29, 27, 27, 27);
    Returns(t, 29, 27, 27, 27, 49, 536870911, 536870911);
    Leaves(t, 29, 27, 27, 27, 49, 2304167, 2304167);
    Leaves(t, 29, 27, 27, 27, 49, 486737, 486737);
  }

  lemma Parts30B()
    ensures !Comes(Terms(29, 27, 27, 27), 256999)
  {
    var t := Terms(29, 27, 27, 27);
    Leaves(t, 29, 27, 27, 27, 49, 256999, 256999);
  }

  lemma Cycle30()
    ensures FullPeriod(MaskTable(30), 29)
  {
    hide Comes, FullPeriod, IsPrime, MaskOf, Pow2;
    Parts30A(); Parts30B(); Powers20();
    PrimeByTrial(233); PrimeByTrial(1103); PrimeByTrial(2089);
    MaskSum(Terms(29, 27, 27, 27));
    FullCycle(Terms(29, 27, 27, 27), [233, 1103, 2089], 536870911);
  }

  lemma Parts31A()
    ensures Comes(Terms(30, 24, 26, 29), 1073741823) && !Comes(Terms(30, 24, 26, 29), 357913941)
  {
    var t := Terms(30, 24, 26, 29);
    Returns(t, 30, 24, 26, 29, 49, 1073741823, 1073741823);
    Leaves(t, 30, 24, 26, 29, 49, 357913941, 357913941);
  }

  lemma Parts31B()
    ensures !Comes(Terms(30, 24, 26, 29), 153391689) && !Comes(Terms(30, 24, 26, 29), 97612893)
  {
    var t := Terms(30, 24, 26, 29);
    Leaves(t, 30, 24, 26, 29, 49, 153391689, 153391689);
    Leaves(t, 30, 24, 26, 29, 49, 97612893, 97612893);
  }

  lemma Parts31C()
    ensures !Comes(Terms(30, 24, 26, 29), 34636833) && !Comes(Terms(30, 24, 26, 29), 7110873)
  {
    var t := Terms(30, 24, 26, 29);
    Leaves(t, 30, 24, 26, 29, 49, 34636833, 34636833);
    Leaves(t, 30, 24, 26, 29, 49, 7110873, 7110873);
  }

  lemma Parts31D()
    ensures !Comes(Terms(30, 24, 26, 29), 3243933)
  {
    var t := Terms(30, 24, 26, 29);
    Leaves(t, 30, 24, 26, 29, 49, 3243933, 3243933);
  }

  lemma Factors31A()
    ensures Factors([3, 3, 7, 11], 693)
  {
    hide IsPrime;
    PrimeByTrial(3); PrimeByTrial(7); SmallPrimes();
  }

  lemma Factors31B()
    ensures Factors([31, 151, 331], 1549411)
  {
    hide IsPrime;
    PrimeByTrial(31); PrimeByTrial(151); PrimeByTrial(331);
  }

  lemma Factors31()
    ensures Factors([3, 3, 7, 11, 31, 151, 331], 1073741823)
  {
    hide Factors;
    Factors31A(); Factors31B();
    FactorsJoin([3, 3, 7, 11], 693, [31, 151, 331], 1549411);
    assert [3, 3, 7, 11] + [31, 151, 331] == [3, 3, 7, 11, 31, 151, 331];
  }

  lemma Cycle31()
    ensures FullPeriod(MaskTable(31), 30)
  {
    hide Comes, Factors, FullPeriod, MaskOf, Pow2;
    Parts31A(); Parts31B(); Parts31C(); Parts31D(); Factors31(); Powers20(); Powers30();
    MaskSum(Terms(30, 24, 26, 29));
    FullCycle(Terms(30, 24, 26, 29), [3, 3, 7, 11, 31, 151, 331], 1073741823);
  }

  lemma Parts32()
    ensures Comes(Terms(31, 28, 28, 28), 2147483647) && !Comes(Terms(31, 28, 28, 28), 1)
  {
    var t := Terms(31, 28, 28, 28);
    Returns(t, 31, 28, 28, 28, 49, 2147483647, 2147483647);
    Leaves(t, 31, 28, 28, 28, 49, 1, 1);
  }

  lemma Cycle32()
    ensures FullPeriod(MaskTable(32), 31)
  {
    hide Comes, FullPeriod, IsPrime, MaskOf, Pow2;
    Parts32(); Powers20(); Powers30();
    Prime2147483647();
    MaskSum(Terms(31, 28, 28, 28));
    FullCycle(Terms(31, 28, 28, 28), [2147483647], 2147483647);
  }

  lemma Parts33A()
    ensures Comes(Terms(32, 25, 26, 30), 4294967295) && !Comes(Terms(32, 25, 26, 30), 1431655765)
  {
    var t := Terms(32, 25, 26, 30);
    Returns(t, 32, 25, 26, 30, 49, 4294967295, 4294967295);
    Leaves(t, 32, 25, 26, 30, 49, 1431655765, 1431655765);
  }

  lemma Parts33B()
    ensures !Comes(Terms(32, 25, 26, 30), 858993459) && !Comes(Terms(32, 25, 26, 30), 252645135)
  {
    var t := Terms(32, 25, 26, 30);
    Leaves(t, 32, 25, 26, 30, 49, 858993459, 858993459);
    Leaves(t, 32, 25, 26, 30, 49, 252645135, 252645135);
  }

  lemma Parts33C()
    ensures !Comes(Terms(32, 25, 26, 30), 16711935) && !Comes(Terms(32, 25, 26, 30), 65535)
  {
    var t := Terms(32, 25, 26, 30);
    Leaves(t, 32, 25, 26, 30, 49, 16711935, 16711935);
    Leaves(t, 32, 25, 26, 30, 49, 65535, 65535);
  }

  lemma Cycle33()
    ensures FullPeriod(MaskTable(33), 32)
  {
    hide Comes, FullPeriod, IsPrime, MaskOf, Pow2;
    Parts33A(); Parts33B(); Parts33C(); Powers20(); Powers30();
    PrimeByTrial(3); PrimeByTrial(5); SmallPrimes(); PrimeByTrial(257); Prime65537();
    MaskSum(Terms(32, 25, 26, 30));
    FullCycle(Terms(32, 25, 26, 30), [3, 5, 17, 257, 65537], 4294967295);
  }

  lemma Parts34A()
    ensures Comes(Terms(33, 20, 20, 20), 8589934591) && !Comes(Terms(33, 20, 20, 20), 1227133513)
  {
    var t := Terms(33, 20, 20, 20);
    Returns(t, 33, 20, 20, 20, 49, 8589934591, 8589934591);
    Leaves(t, 33, 20, 20, 20, 49, 1227133513, 1227133513);
  }

  lemma Parts34B()
    ensures !Comes(Terms(33, 20, 20, 20), 373475417) && !Comes(Terms(33, 20, 20, 20), 96516119)
  {
    var t := Terms(33, 20, 20, 20);
    Leaves(t, 33, 20, 20, 20, 49, 373475417, 373475417);
    Leaves(t, 33, 20, 20, 20, 49, 96516119, 96516119);
  }

  lemma Parts34C()
    ensures !Comes(Terms(33, 20, 20, 20), 14329)
  {
    var t := Terms(33, 20, 20, 20);
    Leaves(t, 33, 20, 20, 20, 49, 14329, 14329);
  }

  lemma Cycle34()
    ensures FullPeriod(MaskTable(34), 33)
  {
    hide Comes, FullPeriod, IsPrime, MaskOf, Pow2;
    Parts34A(); Parts34B(); Parts34C(); Powers10(); Powers30();
    PrimeByTrial(7); PrimeByTrial(23); PrimeByTrial(89); Prime599479();
    MaskSum(Terms(33, 20, 20, 20));
    FullCycle(Terms(33, 20, 20, 20), [7, 23, 89, 599479], 8589934591);
  }

  lemma Parts35A()
    ensures Comes(Terms(34, 26, 30, 31), 17179869183) && !Comes(Terms(34, 26, 30, 31), 5726623061)
  {
    var t := Terms(34, 26, 30, 31);
    Returns(t, 34, 26, 30, 31, 49, 17179869183, 17179869183);
    Leaves(t, 34, 26, 30, 31, 49, 5726623061, 5726623061);
  }

  lemma Parts35B()
    ensures !Comes(Terms(34, 26, 30, 31), 393213) && !Comes(Terms(34, 26, 30, 31), 131073)
  {
    var t := Terms(34, 26, 30, 31);
    Leaves(t, 34, 26, 30, 31, 49, 393213, 393213);
    Leaves(t, 34, 26, 30, 31, 49, 131073, 131073);
  }

  lemma Cycle35()
    ensures FullPeriod(MaskTable(35), 34)
  {
    hide Comes, FullPeriod, IsPrime, MaskOf, Pow2;
    Parts35A(); Parts35B(); Powers20(); Powers30();
    PrimeByTrial(3); PrimeByTrial(43691); Prime131071();
    MaskSum(Terms(34, 26, 30, 31));
    FullCycle(Terms(34, 26, 30, 31), [3, 43691, 131071], 17179869183);
  }

  lemma Parts36A()
    ensures Comes(Terms(35, 33, 33, 33), 34359738367) && !Comes(Terms(35, 33, 33, 33), 1108378657)
  {
    var t := Terms(35, 33, 33, 33);
    Returns(t, 35, 33, 33, 33, 49, 34359738367, 34359738367);
    Leaves(t, 35, 33, 33, 33, 49, 1108378657, 1108378657);
  }

  lemma Parts36B()
    ensures !Comes(Terms(35, 33, 33, 33), 483939977) && !Comes(Terms(35, 33, 33, 33), 270549121)
  {
    var t := Terms(35, 33, 33, 33);
    Leaves(t, 35, 33, 33, 33, 49, 483939977, 483939977);
    Leaves(t, 35, 33, 33, 33, 49, 270549121, 270549121);
  }

  lemma Parts36C()
    ensures !Comes(Terms(35, 33, 33, 33), 279527)
  {
    var t := Terms(35, 33, 33, 33);
    Leaves(t, 35, 33, 33, 33, 49, 279527, 279527);
  }

  lemma Cycle36()
    ensures FullPeriod(MaskTable(36), 35)
  {
    hide Comes, FullPeriod, IsPrime, MaskOf, Pow2;
    Parts36A(); Parts36B(); Parts36C(); Powers30();
    PrimeByTrial(31); PrimeByTrial(71); PrimeByTrial(127); Prime122921();
    MaskSum(Terms(35, 33, 33, 33));
    FullCycle(Terms(35, 33, 33, 33), [31, 71, 127, 122921], 34359738367);
  }

  lemma Parts37A()
    ensures Comes(Terms(36, 25, 25, 25), 68719476735) && !Comes(Terms(36, 25, 25, 25), 22906492245)
  {
    var t := Terms(36, 25, 25, 25);
    Returns(t, 36, 25, 25, 25, 49, 68719476735, 68719476735);
    Leaves(t, 36, 25, 25, 25, 49, 22906492245, 22906492245);
  }

  lemma Parts37B()
    ensures !Comes(Terms(36, 25, 25, 25), 13743895347) && !Comes(Terms(36, 25, 25, 25), 9817068105)
  {
    var t := Terms(36, 25, 25, 25);
    Leaves(t, 36, 25, 25, 25, 49, 13743895347, 13743895347);
    Leaves(t, 36, 25, 25, 25, 49, 9817068105, 9817068105);
  }

  lemma Parts37C()
    ensures !Comes(Terms(36, 25, 25, 25), 5286113595) && !Comes(Terms(36, 25, 25, 25), 3616814565)
  {
    var t := Terms(36, 25, 25, 25);
    Leaves(t, 36, 25, 25, 25, 49, 5286113595, 5286113595);
    Leaves(t, 36, 25, 25, 25, 49, 3616814565, 3616814565);
  }

  lemma Parts37D()
    ensures !Comes(Terms(36, 25, 25, 25), 1857283155) && !Comes(Terms(36, 25, 25, 25), 941362695)
  {
    var t := Terms(36, 25, 25, 25);
    Leaves(t, 36, 25, 25, 25, 49, 1857283155, 1857283155);
    Leaves(t, 36, 25, 25, 25, 49, 941362695, 941362695);
  }

  lemma Parts37E()
    ensures !Comes(Terms(36, 25, 25, 25), 630453915)
  {
    var t := Terms(36, 25, 25, 25);
    Leaves(t, 36, 25, 25, 25, 49, 630453915, 630453915);
  }

  lemma Factors37A()
    ensures Factors([3, 3, 3, 5], 135)
  {
    hide IsPrime;
    PrimeByTrial(3); PrimeByTrial(5);
  }

  lemma Factors37B()
    ensures Factors([7, 13, 19, 37], 63973)
  {
    hide IsPrime;
    PrimeByTrial(7); SmallPrimes(); PrimeByTrial(19); PrimeByTrial(37);
  }

  lemma Factors37C()
    ensures Factors([73, 109], 7957)
  {
    hide IsPrime;
    PrimeByTrial(73); PrimeByTrial(109);
  }

  lemma Factors37()
    ensures Factors([3, 3, 3, 5, 7, 13, 19, 37, 73, 109], 68719476735)
  {
    hide Factors;
    Factors37A(); Factors37B(); Factors37C();
    FactorsJoin([3, 3, 3, 5], 135, [7, 13, 19, 37], 63973);
    assert [3, 3, 3, 5] + [7, 13, 19, 37] == [3, 3, 3, 5, 7, 13, 19, 37];
    FactorsJoin([3, 3, 3, 5, 7, 13, 19, 37], 8636355, [73, 109], 7957);
    assert [3, 3, 3, 5, 7, 13, 19, 37] + [73, 109] == [3, 3, 3, 5, 7, 13, 19, 37, 73, 109];
  }

  lemma Cycle37()
    ensures FullPeriod(MaskTable(37), 36)
  {
    hide Comes, Factors, FullPeriod, MaskOf, Pow2;
    Parts37A(); Parts37B(); Parts37C(); Parts37D(); Parts37E(); Factors37(); Powers20(); Powers30();
    MaskSum(Terms(36, 25, 25, 25));
    FullCycle(Terms(36, 25, 25, 25), [3, 3, 3, 5, 7, 13, 19, 37, 73, 109], 68719476735);
  }

  lemma Parts38A()
    ensures Comes(Terms(37, 31, 33, 36), 137438953471) && !Comes(Terms(37, 31, 33, 36), 616318177)
  {
    var t := Terms(37, 31, 33, 36);
    Returns(t, 37, 31, 33, 36, 49, 137438953471, 137438953471);
    Leaves(t, 37, 31, 33, 36, 49, 616318177, 616318177);
  }

  lemma Parts38B()
    ensures !Comes(Terms(37, 31, 33, 36), 223)
  {
    var t := Terms(37, 31, 33, 36);
    Leaves(t, 37, 31, 33, 36, 49, 223, 223);
  }

  lemma Cycle38()
    ensures FullPeriod(MaskTable(38), 37)
  {
    hide Comes, FullPeriod, IsPrime, MaskOf, Pow2;
    Parts38A(); Parts38B(); Powers30();
    PrimeByTrial(223); Prime616318177();
    MaskSum(Terms(37, 31, 33, 36));
    FullCycle(Terms(37, 31, 33, 36), [223, 616318177], 137438953471);
  }

  lemma Parts39A()
    ensures Comes(Terms(38, 32, 33, 37), 274877906943) && !Comes(Terms(38, 32, 33, 37), 91625968981)
  {
    var t := Terms(38, 32, 33, 37);
    Returns(t, 38, 32, 33, 37, 49, 274877906943, 274877906943);
    Leaves(t, 38, 32, 33, 37, 49, 91625968981, 91625968981);
  }

  lemma Parts39B()
    ensures !Comes(Terms(38, 32, 33, 37), 1572861) && !Comes(Terms(38, 32, 33, 37), 524289)
  {
    var t := Terms(38, 32, 33, 37);
    Leaves(t, 38, 32, 33, 37, 49, 1572861, 1572861);
    Leaves(t, 38, 32, 33, 37, 49, 524289, 524289);
  }

  lemma Cycle39()
    ensures FullPeriod(MaskTable(39), 38)
  {
    hide Comes, FullPeriod, IsPrime, MaskOf, Pow2;
    Parts39A(); Parts39B(); Powers30();
    PrimeByTrial(3); Prime174763(); Prime524287();
    MaskSum(Terms(38, 32, 33, 37));
    FullCycle(Terms(38, 32, 33, 37), [3, 174763, 524287], 274877906943);
  }

  lemma Parts40A()
    ensures Comes(Terms(39, 35, 35, 35), 549755813887) && !Comes(Terms(39, 35, 35, 35), 78536544841)
  {
    var t := Terms(39, 35, 35, 35);
    Returns(t, 39, 35, 35, 35, 49, 549755813887, 549755813887);
    Leaves(t, 39, 35, 35, 35, 49, 78536544841, 78536544841);
  }

  lemma Parts40B()
    ensures !Comes(Terms(39, 35, 35, 35), 6958934353) && !Comes(Terms(39, 35, 35, 35), 67117057)
  {
    var t := Terms(39, 35, 35, 35);
    Leaves(t, 39, 35, 35, 35, 49, 6958934353, 6958934353);
    Leaves(t, 39, 35, 35, 35, 49, 67117057, 67117057);
  }

  lemma Parts40C()
    ensures !Comes(Terms(39, 35, 35, 35), 4529623)
  {
    var t := Terms(39, 35, 35, 35);
    Leaves(t, 39, 35, 35, 35, 49, 4529623, 4529623);
  }

  lemma Cycle40()
    ensures FullPeriod(MaskTable(40), 39)
  {
    hide Comes, FullPeriod, IsPrime, MaskOf, Pow2;
    Parts40A(); Parts40B(); Parts40C(); Powers30();
    PrimeByTrial(7); PrimeByTrial(79); PrimeByTrial(8191); Prime121369();
    MaskSum(Terms(39, 35, 35, 35));
    FullCycle(Terms(39, 35, 35, 35), [7, 79, 8191, 121369], 549755813887);
  }

  lemma Parts41A()
    ensures Comes(Terms(40, 35, 36, 37), 1099511627775) && !Comes(Terms(40, 35, 36, 37), 366503875925)
  {
    var t := Terms(40, 35, 36, 37);
    Returns(t, 40, 35, 36, 37, 49, 1099511627775, 1099511627775);
    Leaves(t, 40, 35, 36, 37, 49, 366503875925, 366503875925);
  }

  lemma Parts41B()
    ensures !Comes(Terms(40, 35, 36, 37), 219902325555) && !Comes(Terms(40, 35, 36, 37), 99955602525)
  {
    var t := Terms(40, 35, 36, 37);
    Leaves(t, 40, 35, 36, 37, 49, 219902325555, 219902325555);
    Leaves(t, 40, 35, 36, 37, 49, 99955602525, 99955602525);
  }

  lemma Parts41C()
    ensures !Comes(Terms(40, 35, 36, 37), 64677154575) && !Comes(Terms(40, 35, 36, 37), 35468117025)
  {
    var t := Terms(40, 35, 36, 37);
    Leaves(t, 40, 35, 36, 37, 49, 64677154575, 64677154575);
    Leaves(t, 40, 35, 36, 37, 49, 35468117025, 35468117025);
  }

  lemma Parts41D()
    ensures !Comes(Terms(40, 35, 36, 37), 26817356775) && !Comes(Terms(40, 35, 36, 37), 17825775)
  {
    var t := Terms(40, 35, 36, 37);
    Leaves(t, 40, 35, 36, 37, 49, 26817356775, 26817356775);
    Leaves(t, 40, 35, 36, 37, 49, 17825775, 17825775);
  }

  lemma Factors41A()
    ensures Factors([3, 5, 5, 11], 825)
  {
    hide IsPrime;
    PrimeByTrial(3); PrimeByTrial(5); SmallPrimes();
  }

  lemma Factors41B()
    ensures Factors([17, 31, 41, 61681], 1332741367)
  {
    hide IsPrime;
    SmallPrimes(); PrimeByTrial(31); PrimeByTrial(41); Prime61681();
  }

  lemma Factors41()
    ensures Factors([3, 5, 5, 11, 17, 31, 41, 61681], 1099511627775)
  {
    hide Factors;
    Factors41A(); Factors41B();
    FactorsJoin([3, 5, 5, 11], 825, [17, 31, 41, 61681], 1332741367);
    assert [3, 5, 5, 11] + [17, 31, 41, 61681] == [3, 5, 5, 11, 17, 31, 41, 61681];
  }

  lemma Cycle41()
    ensures FullPeriod(MaskTable(41), 40)
  {
    hide Comes, Factors, FullPeriod, MaskOf, Pow2;
    Parts41A(); Parts41B(); Parts41C(); Parts41D(); Factors41(); Powers30(); Powers40();
    MaskSum(Terms(40, 35, 36, 37));
    FullCycle(Terms(40, 35, 36, 37), [3, 5, 5, 11, 17, 31, 41, 61681], 1099511627775);
  }

  lemma Parts42A()
    ensures Comes(Terms(41, 38, 38, 38), 2199023255551) && !Comes(Terms(41, 38, 38, 38), 164511353)
  {
    var t := Terms(41, 38, 38, 38);
    Returns(t, 41, 38, 38, 38, 49, 2199023255551, 2199023255551);
    Leaves(t, 41, 38, 38, 38, 49, 164511353, 164511353);
  }

  lemma Parts42B()
    ensures !Comes(Terms(41, 38, 38, 38), 13367)
  {
    var t := Terms(41, 38, 38, 38);
    Leaves(t, 41, 38, 38, 38, 49, 13367, 13367);
  }

  lemma Cycle42()
    ensures FullPeriod(MaskTable(42), 41)
  {
    hide Comes, FullPeriod, IsPrime, MaskOf, Pow2;
    Parts42A(); Parts42B(); Powers30(); Powers40();
    PrimeByTrial(13367); Prime164511353();
    MaskSum(Terms(41, 38, 38, 38));
    FullCycle(Terms(41, 38, 38, 38), [13367, 164511353], 2199023255551);
  }

  lemma Parts43A()
    ensures Comes(Terms(42, 35, 37, 40), 4398046511103) && !Comes(Terms(42, 35, 37, 40), 1466015503701)
  {
    var t := Terms(42, 35, 37, 40);
    Returns(t, 42, 35, 37, 40, 49, 4398046511103, 4398046511103);
    Leaves(t, 42, 35, 37, 40, 49, 1466015503701, 1466015503701);
  }

  lemma Parts43B()
    ensures !Comes(Terms(42, 35, 37, 40), 628292358729) && !Comes(Terms(42, 35, 37, 40), 102280151421)
  {
    var t := Terms(42, 35, 37, 40);
    Leaves(t, 42, 35, 37, 40, 49, 628292358729, 628292358729);
    Leaves(t, 42, 35, 37, 40, 49, 102280151421, 102280151421);
  }

  lemma Parts43C()
    ensures !Comes(Terms(42, 35, 37, 40), 34630287489) && !Comes(Terms(42, 35, 37, 40), 13050583119)
  {
    var t := Terms(42, 35, 37, 40);
    Leaves(t, 42, 35, 37, 40, 49, 34630287489, 34630287489);
    Leaves(t, 42, 35, 37, 40, 49, 13050583119, 13050583119);
  }

  lemma Parts43D()
    ensures !Comes(Terms(42, 35, 37, 40), 811597437)
  {
    var t := Terms(42, 35, 37, 40);
    Leaves(t, 42, 35, 37, 40, 49, 811597437, 811597437);
  }

  lemma Factors43A()
    ensures Factors([3, 3, 7, 7], 441)
  {
    hide IsPrime;
    PrimeByTrial(3); PrimeByTrial(7);
  }

  lemma Factors43B()
    ensures Factors([43, 127, 337, 5419], 9972894583)
  {
    hide IsPrime;
    PrimeByTrial(43); PrimeByTrial(127); PrimeByTrial(337); PrimeByTrial(5419);
  }

  lemma Factors43()
    ensures Factors([3, 3, 7, 7, 43, 127, 337, 5419], 4398046511103)
  {
    hide Factors;
    Factors43A(); Factors43B();
    FactorsJoin([3, 3, 7, 7], 441, [43, 127, 337, 5419], 9972894583);
    assert [3, 3, 7, 7] + [43, 127, 337, 5419] == [3, 3, 7, 7, 43, 127, 337, 5419];
  }

  lemma Cycle43()
    ensures FullPeriod(MaskTable(43), 42)
  {
    hide Comes, Factors, FullPeriod, MaskOf, Pow2;
    Parts43A(); Parts43B(); Parts43C(); Parts43D(); Factors43(); Powers30(); Powers40();
    MaskSum(Terms(42, 35, 37, 40));
    FullCycle(Terms(42, 35, 37, 40), [3, 3, 7, 7, 43, 127, 337, 5419], 4398046511103);
  }

  lemma Parts44A()
    ensures Comes(Terms(43, 37, 38, 42), 8796093022207) && !Comes(Terms(43, 37, 38, 42), 20408568497)
  {
    var t := Terms(43, 37, 38, 42);
    Returns(t, 43, 37, 38, 42, 49, 8796093022207, 8796093022207);
    Leaves(t, 43, 37, 38, 42, 49, 20408568497, 20408568497);
  }

  lemma Parts44B()
    ensures !Comes(Terms(43, 37, 38, 42), 905040953) && !Comes(Terms(43, 37, 38, 42), 4188889)
  {
    var t := Terms(43, 37, 38, 42);
    Leaves(t, 43, 37, 38, 42, 49, 905040953, 905040953);
    Leaves(t, 43, 37, 38, 42, 49, 4188889, 4188889);
  }

  lemma Cycle44()
    ensures FullPeriod(MaskTable(44), 43)
  {
    hide Comes, FullPeriod, IsPrime, MaskOf, Pow2;
    Parts44A(); Parts44B(); Powers30(); Powers40();
    PrimeByTrial(431); PrimeByTrial(9719); Prime2099863();
    MaskSum(Terms(43, 37, 38, 42));
    FullCycle(Terms(43, 37, 38, 42), [431, 9719, 2099863], 8796093022207);
  }

  lemma Parts45A()
    ensures Comes(Terms(44, 38, 39, 42), 17592186044415) && !Comes(Terms(44, 38, 39, 42), 5864062014805)
  {
    var t := Terms(44, 38, 39, 42);
    Returns(t, 44, 38, 39, 42, 49, 17592186044415, 17592186044415);
    Leaves(t, 44, 38, 39, 42, 49, 5864062014805, 5864062014805);
  }

  lemma Parts45B()
    ensures !Comes(Terms(44, 38, 39, 42), 3518437208883) && !Comes(Terms(44, 38, 39, 42), 764877654105)
  {
    var t := Terms(44, 38, 39, 42);
    Leaves(t, 44, 38, 39, 42, 49, 3518437208883, 3518437208883);
    Leaves(t, 44, 38, 39, 42, 49, 764877654105, 764877654105);
  }

  lemma Parts45C()
    ensures !Comes(Terms(44, 38, 39, 42), 197665011735) && !Comes(Terms(44, 38, 39, 42), 44312811195)
  {
    var t := Terms(44, 38, 39, 42);
    Leaves(t, 44, 38, 39, 42, 49, 197665011735, 197665011735);
    Leaves(t, 44, 38, 39, 42, 49, 44312811195, 44312811195);
  }

  lemma Parts45D()
    ensures !Comes(Terms(44, 38, 39, 42), 25757227005) && !Comes(Terms(44, 38, 39, 42), 8325691455)
  {
    var t := Terms(44, 38, 39, 42);
    Leaves(t, 44, 38, 39, 42, 49, 25757227005, 25757227005);
    Leaves(t, 44, 38, 39, 42, 49, 8325691455, 8325691455);
  }

  lemma Factors45A()
    ensures Factors([3, 5, 23, 89], 30705)
  {
    hide IsPrime;
    PrimeByTrial(3); PrimeByTrial(5); PrimeByTrial(23); PrimeByTrial(89);
  }

  lemma Factors45B()
    ensures Factors([397, 683, 2113], 572942063)
  {
    hide IsPrime;
    PrimeByTrial(397); PrimeByTrial(683); PrimeByTrial(2113);
  }

  lemma Factors45()
    ensures Factors([3, 5, 23, 89, 397, 683, 2113], 17592186044415)
  {
    hide Factors;
    Factors45A(); Factors45B();
    FactorsJoin([3, 5, 23, 89], 30705, [397, 683, 2113], 572942063);
    assert [3, 5, 23, 89] + [397, 683, 2113] == [3, 5, 23, 89, 397, 683, 2113];
  }

  lemma Cycle45()
    ensures FullPeriod(MaskTable(45), 44)
  {
    hide Comes, Factors, FullPeriod, MaskOf, Pow2;
    Parts45A(); Parts45B(); Parts45C(); Parts45D(); Factors45(); Powers30(); Powers40();
    MaskSum(Terms(44, 38, 39, 42));
    FullCycle(Terms(44, 38, 39, 42), [3, 5, 23, 89, 397, 683, 2113], 17592186044415);
  }

  lemma Parts46A()
    ensures Comes(Terms(45, 41, 42, 44), 35184372088831) && !Comes(Terms(45, 41, 42, 44), 5026338869833)
  {
    var t := Terms(45, 41, 42, 44);
    Returns(t, 45, 41, 42, 44, 49, 35184372088831, 35184372088831);
    Leaves(t, 45, 41, 42, 44, 49, 5026338869833, 5026338869833);
  }

  lemma Parts46B()
    ensures !Comes(Terms(45, 41, 42, 44), 1134979744801) && !Comes(Terms(45, 41, 42, 44), 481977699847)
  {
    var t := Terms(45, 41, 42, 44);
    Leaves(t, 45, 41, 42, 44, 49, 1134979744801, 1134979744801);
    Leaves(t, 45, 41, 42, 44, 49, 481977699847, 481977699847);
  }

  lemma Parts46C()
    ensures !Comes(Terms(45, 41, 42, 44), 233009086681) && !Comes(Terms(45, 41, 42, 44), 55759702201)
  {
    var t := Terms(45, 41, 42, 44);
    Leaves(t, 45, 41, 42, 44, 49, 233009086681, 233009086681);
    Leaves(t, 45, 41, 42, 44, 49, 55759702201, 55759702201);
  }

  lemma Parts46D()
    ensures !Comes(Terms(45, 41, 42, 44), 1509346321)
  {
    var t := Terms(45, 41, 42, 44);
    Leaves(t, 45, 41, 42, 44, 49, 1509346321, 1509346321);
  }

  lemma Factors46A()
    ensures Factors([7, 31, 73, 151], 2391991)
  {
    hide IsPrime;
    PrimeByTrial(7); PrimeByTrial(31); PrimeByTrial(73); PrimeByTrial(151);
  }

  lemma Factors46B()
    ensures Factors([631, 23311], 14709241)
  {
    hide IsPrime;
    PrimeByTrial(631); PrimeByTrial(23311);
  }

  lemma Factors46()
    ensures Factors([7, 31, 73, 151, 631, 23311], 35184372088831)
  {
    hide Factors;
    Factors46A(); Factors46B();
    FactorsJoin([7, 31, 73, 151], 2391991, [631, 23311], 14709241);
    assert [7, 31, 73, 151] + [631, 23311] == [7, 31, 73, 151, 631, 23311];
  }

  lemma Cycle46()
    ensures FullPeriod(MaskTable(46), 45)
  {
    hide Comes, Factors, FullPeriod, MaskOf, Pow2;
    Parts46A(); Parts46B(); Parts46C(); Parts46D(); Factors46(); Powers40();
    MaskSum(Terms(45, 41, 42, 44));
    FullCycle(Terms(45, 41, 42, 44), [7, 31, 73, 151, 631, 23311], 35184372088831);
  }

  lemma Parts47A()
    ensures Comes(Terms(46, 38, 39, 40), 70368744177663) && !Comes(Terms(46, 38, 39, 40), 23456248059221)
  {
    var t := Terms(46, 38, 39, 40);
    Returns(t, 46, 38, 39, 40, 49, 70368744177663, 70368744177663);
    Leaves(t, 46, 38, 39, 40, 49, 23456248059221, 23456248059221);
  }

  lemma Parts47B()
    ensures !Comes(Terms(46, 38, 39, 40), 1497207322929) && !Comes(Terms(46, 38, 39, 40), 394264623)
  {
    var t := Terms(46, 38, 39, 40);
    Leaves(t, 46, 38, 39, 40, 49, 1497207322929, 1497207322929);
    Leaves(t, 46, 38, 39, 40, 49, 394264623, 394264623);
  }

  lemma Parts47C()
    ensures !Comes(Terms(46, 38, 39, 40), 25165821)
  {
    var t := Terms(46, 38, 39, 40);
    Leaves(t, 46, 38, 39, 40, 49, 25165821, 25165821);
  }

  lemma Cycle47()
    ensures FullPeriod(MaskTable(47), 46)
  {
    hide Comes, FullPeriod, IsPrime, MaskOf, Pow2;
    Parts47A(); Parts47B(); Parts47C(); Powers30(); Powers40();
    PrimeByTrial(3); PrimeByTrial(47); Prime178481(); Prime2796203();
    MaskSum(Terms(46, 38, 39, 40));
    FullCycle(Terms(46, 38, 39, 40), [3, 47, 178481, 2796203], 70368744177663);
  }

  lemma Parts48A()
    ensures Comes(Terms(47, 42, 42, 42), 140737488355327) && !Comes(Terms(47, 42, 42, 42), 59862819377)
  {
    var t := Terms(47, 42, 42, 42);
    Returns(t, 47, 42, 42, 42, 49, 140737488355327, 140737488355327);
    Leaves(t, 47, 42, 42, 42, 49, 59862819377, 59862819377);
  }

  lemma Parts48B()
    ensures !Comes(Terms(47, 42, 42, 42), 31184907679) && !Comes(Terms(47, 42, 42, 42), 10610063)
  {
    var t := Terms(47, 42, 42, 42);
    Leaves(t, 47, 42, 42, 42, 49, 31184907679, 31184907679);
    Leaves(t, 47, 42, 42, 42, 49, 10610063, 10610063);
  }

  lemma Cycle48()
    ensures FullPeriod(MaskTable(48), 47)
  {
    hide Comes, FullPeriod, IsPrime, MaskOf, Pow2;
    Parts48A(); Parts48B(); Powers40();
    PrimeByTrial(2351); PrimeByTrial(4513); Prime13264529();
    MaskSum(Terms(47, 42, 42, 42));
    FullCycle(Terms(47, 42, 42, 42), [2351, 4513, 13264529], 140737488355327);
  }

  lemma Parts49A()
    ensures Comes(Terms(48, 39, 41, 44), 281474976710655) && !Comes(Terms(48, 39, 41, 44), 93824992236885)
  {
    var t := Terms(48, 39, 41, 44);
    Returns(t, 48, 39, 41, 44, 49, 281474976710655, 281474976710655);
    Leaves(t, 48, 39, 41, 44, 49, 93824992236885, 93824992236885);
  }

  lemma Parts49B()
    ensures !Comes(Terms(48, 39, 41, 44), 56294995342131) && !Comes(Terms(48, 39, 41, 44), 40210710958665)
  {
    var t := Terms(48, 39, 41, 44);
    Leaves(t, 48, 39, 41, 44, 49, 56294995342131, 56294995342131);
    Leaves(t, 48, 39, 41, 44, 49, 40210710958665, 40210710958665);
  }

  lemma Parts49C()
    ensures !Comes(Terms(48, 39, 41, 44), 21651921285435) && !Comes(Terms(48, 39, 41, 44), 16557351571215)
  {
    var t := Terms(48, 39, 41, 44);
    Leaves(t, 48, 39, 41, 44, 49, 21651921285435, 21651921285435);
    Leaves(t, 48, 39, 41, 44, 49, 16557351571215, 16557351571215);
  }

  lemma Parts49D()
    ensures !Comes(Terms(48, 39, 41, 44), 2901803883615) && !Comes(Terms(48, 39, 41, 44), 1167945961455)
  {
    var t := Terms(48, 39, 41, 44);
    Leaves(t, 48, 39, 41, 44, 49, 2901803883615, 2901803883615);
    Leaves(t, 48, 39, 41, 44, 49, 1167945961455, 1167945961455);
  }

  lemma Parts49E()
    ensures !Comes(Terms(48, 39, 41, 44), 1095233372415) && !Comes(Terms(48, 39, 41, 44), 418239192735)
  {
    var t := Terms(48, 39, 41, 44);
    Leaves(t, 48, 39, 41, 44, 49, 1095233372415, 1095233372415);
    Leaves(t, 48, 39, 41, 44, 49, 418239192735, 418239192735);
  }

  lemma Factors49A()
    ensures Factors([3, 3, 5, 7], 315)
  {
    hide IsPrime;
    PrimeByTrial(3); PrimeByTrial(5); PrimeByTrial(7);
  }

  lemma Factors49B()
    ensures Factors([13, 17, 97, 241], 5166317)
  {
    hide IsPrime;
    SmallPrimes(); PrimeByTrial(97); PrimeByTrial(241);
  }

  lemma Factors49C()
    ensures Factors([257, 673], 172961)
  {
    hide IsPrime;
    PrimeByTrial(257); PrimeByTrial(673);
  }

  lemma Factors49()
    ensures Factors([3, 3, 5, 7, 13, 17, 97, 241, 257, 673], 281474976710655)
  {
    hide Factors;
    Factors49A(); Factors49B(); Factors49C();
    FactorsJoin([3, 3, 5, 7], 315, [13, 17, 97, 241], 5166317);
    assert [3, 3, 5, 7] + [13, 17, 97, 241] == [3, 3, 5, 7, 13, 17, 97, 241];
    FactorsJoin([3, 3, 5, 7, 13, 17, 97, 241], 1627389855, [257, 673], 172961);
    assert [3, 3, 5, 7, 13, 17, 97, 241] + [257, 673] == [3, 3, 5, 7, 13, 17, 97, 241, 257, 673];
  }

  lemma Cycle49()
    ensures FullPeriod(MaskTable(49), 48)
  {
    hide Comes, Factors, FullPeriod, MaskOf, Pow2;
    Parts49A(); Parts49B(); Parts49C(); Parts49D(); Parts49E(); Factors49(); Powers30(); Powers40();
    MaskSum(Terms(48, 39, 41, 44));
    FullCycle(Terms(48, 39, 41, 44), [3, 3, 5, 7, 13, 17, 97, 241, 257, 673], 281474976710655);
  }

  lemma Parts50A()
    ensures Comes(Terms(49, 40, 40, 40), 562949953421311) && !Comes(Terms(49, 40, 40, 40), 4432676798593)
  {
    var t := Terms(49, 40, 40, 40);
    Returns(t, 49, 40, 40, 40, 49, 562949953421311, 562949953421311);
    Leaves(t, 49, 40, 40, 40, 49, 4432676798593, 4432676798593);
  }

  lemma Parts50B()
    ensures !Comes(Terms(49, 40, 40, 40), 127)
  {
    var t := Terms(49, 40, 40, 40);
    Leaves(t, 49, 40, 40, 40, 49, 127, 127);
  }

  lemma Cycle50()
    ensures FullPeriod(MaskTable(50), 49)
  {
    hide Comes, FullPeriod, IsPrime, MaskOf, Pow2;
    Parts50A(); Parts50B(); Powers30(); Powers40();
    PrimeByTrial(127); Prime4432676798593();
    MaskSum(Terms(49, 40, 40, 40));
    FullCycle(Terms(49, 40, 40, 40), [127, 4432676798593], 562949953421311);
  }

  /** Every mask of the table has full period. */
  lemma TableFull(n: nat)
    requires InTable(n)
    ensures FullPeriod(MaskTable(n), n - 1)
  {
    hide FullPeriod, MaskTable;
    match n
    case 3 => Cycle3(); case 4 => Cycle4(); case 5 => Cycle5(); case 6 => Cycle6(); case 7 => Cycle7();
    case 8 => Cycle8(); case 9 => Cycle9(); case 10 => Cycle10(); case 11 => Cycle11(); case 12 => Cycle12();
    case 13 => Cycle13(); case 14 => Cycle14(); case 15 => Cycle15(); case 16 => Cycle16(); case 17 => Cycle17();
    case 18 => Cycle18(); case 19 => Cycle19(); case 20 => Cycle20(); case 21 => Cycle21(); case 22 => Cycle22();
    case 23 => Cycle23(); case 24 => Cycle24(); case 25 => Cycle25(); case 26 => Cycle26(); case 27 => Cycle27();
    case 28 => Cycle28(); case 29 => Cycle29(); case 30 => Cycle30(); case 31 => Cycle31(); case 32 => Cycle32();
    case 33 => Cycle33(); case 34 => Cycle34(); case 35 => Cycle35(); case 36 => Cycle36(); case 37 => Cycle37();
    case 38 => Cycle38(); case 39 => Cycle39(); case 40 => Cycle40(); case 41 => Cycle41(); case 42 => Cycle42();
    case 43 => Cycle43(); case 44 => Cycle44(); case 45 => Cycle45(); case 46 => Cycle46(); case 47 => Cycle47();
    case 48 => Cycle48(); case 49 => Cycle49(); case 50 => Cycle50();
    case _ => assert false;
  }
}
