/**
 * The library's own test vectors, stated about the reference definition.
 * Because Emd is proved to return GreedyCost, each of them is also a
 * statement about the in-place algorithm. Arithmetic is exact, so the decimal
 * cases come out exactly.
 */
module EmdTests {
  import opened Emd

  /** case_0: the expected cost, with every scan of a nonzero bin spelled out. */
  lemma Case0()
    ensures GreedyCost([0.1, 0.3, 0.0, 0.0, 0.6], [0.1, 0.7, 0.0, 0.2, 0.0]) == 1.4
  {
    assert Subtract([0.1, 0.3, 0.0, 0.0, 0.6], [0.1, 0.7, 0.0, 0.2, 0.0]) == [0.0, 0.4, 0.0, 0.2, -0.6];
    PassUnfold([0.0, 0.4, 0.0, 0.2, -0.6], 0.0, 0);
    PassUnfold([0.0, 0.4, 0.0, 0.2, -0.6], 0.0, 1);
    Case0Bin1();
    PassUnfold([0.0, 0.0, 0.0, 0.2, -0.2], 1.2, 2);
    PassUnfold([0.0, 0.0, 0.0, 0.2, -0.2], 1.2, 3);
    Case0Bin3();
    PassUnfold([0.0, 0.0, 0.0, 0.0, 0.0], 1.4, 4);
  }

  lemma Case0Bin1()
    ensures Scan([0.0, 0.4, 0.0, 0.2, -0.6], 0.0, 1, 1) == State([0.0, 0.0, 0.0, 0.2, -0.2], 1.2)
  {
    assert Work(0.4, 3) == 1.2;
  }

  lemma Case0Bin3()
    ensures Scan([0.0, 0.0, 0.0, 0.2, -0.2], 1.2, 3, 1) == State([0.0, 0.0, 0.0, 0.0, 0.0], 1.4)
  {
  }

  /** case_1: the expected cost, with every scan of a nonzero bin spelled out. */
  lemma Case1()
    ensures GreedyCost([0.0, 0.8, 0.0, 0.0, 0.0, 0.1, 0.1], [0.1, 0.1, 0.0, 0.7, 0.0, 0.0, 0.1]) == 1.5
  {
    assert Subtract([0.0, 0.8, 0.0, 0.0, 0.0, 0.1, 0.1], [0.1, 0.1, 0.0, 0.7, 0.0, 0.0, 0.1]) == [0.1, -0.7, 0.0, 0.7, 0.0, -0.1, 0.0];
    PassUnfold([0.1, -0.7, 0.0, 0.7, 0.0, -0.1, 0.0], 0.0, 0);
    Case1Bin0();
    PassUnfold([0.0, -0.6, 0.0, 0.7, 0.0, -0.1, 0.0], 0.1, 1);
    Case1Bin1();
    PassUnfold([0.0, 0.0, 0.0, 0.1, 0.0, -0.1, 0.0], 1.3, 2);
    PassUnfold([0.0, 0.0, 0.0, 0.1, 0.0, -0.1, 0.0], 1.3, 3);
    Case1Bin3();
    PassUnfold([0.0, 0.0, 0.0, 0.0, 0.0, 0.0, 0.0], 1.5, 4);
    PassUnfold([0.0, 0.0, 0.0, 0.0, 0.0, 0.0, 0.0], 1.5, 5);
    PassUnfold([0.0, 0.0, 0.0, 0.0, 0.0, 0.0, 0.0], 1.5, 6);
  }

  lemma Case1Bin0()
    ensures Scan([0.1, -0.7, 0.0, 0.7, 0.0, -0.1, 0.0], 0.0, 0, 1) == State([0.0, -0.6, 0.0, 0.7, 0.0, -0.1, 0.0], 0.1)
  {
  }

  lemma Case1Bin1()
    ensures Scan([0.0, -0.6, 0.0, 0.7, 0.0, -0.1, 0.0], 0.1, 1, 1) == State([0.0, 0.0, 0.0, 0.1, 0.0, -0.1, 0.0], 1.3)
  {
    assert Work(0.6, 2) == 1.2;
  }

  lemma Case1Bin3()
    ensures Scan([0.0, 0.0, 0.0, 0.1, 0.0, -0.1, 0.0], 1.3, 3, 1) == State([0.0, 0.0, 0.0, 0.0, 0.0, 0.0, 0.0], 1.5)
  {
    assert Work(0.1, 2) == 0.2;
  }

  /** case_2: the expected cost, with every scan of a nonzero bin spelled out. */
  lemma Case2()
    ensures GreedyCost([2.0, 1.0, 0.0, 0.0, 3.0, 0.0, 4.0], [0.0, 5.0, 3.0, 0.0, 2.0, 0.0, 0.0]) == 22.0
  {
    Case2Difference();
    PassUnfold([-2.0, 4.0, 3.0, 0.0, -1.0, 0.0, -4.0], 0.0, 0);
    Case2Bin0();
    PassUnfold([0.0, 2.0, 3.0, 0.0, -1.0, 0.0, -4.0], 2.0, 1);
    Case2Bin1();
    PassUnfold([0.0, 0.0, 3.0, 0.0, 0.0, 0.0, -3.0], 10.0, 2);
    Case2Bin2();
    PassUnfold([0.0, 0.0, 0.0, 0.0, 0.0, 0.0, 0.0], 22.0, 3);
    PassUnfold([0.0, 0.0, 0.0, 0.0, 0.0, 0.0, 0.0], 22.0, 4);
    PassUnfold([0.0, 0.0, 0.0, 0.0, 0.0, 0.0, 0.0], 22.0, 5);
    PassUnfold([0.0, 0.0, 0.0, 0.0, 0.0, 0.0, 0.0], 22.0, 6);
  }

  lemma Case2Difference()
    ensures Subtract([2.0, 1.0, 0.0, 0.0, 3.0, 0.0, 4.0], [0.0, 5.0, 3.0, 0.0, 2.0, 0.0, 0.0]) == [-2.0, 4.0, 3.0, 0.0, -1.0, 0.0, -4.0]
  {
  }

  lemma Case2Bin0()
    ensures Scan([-2.0, 4.0, 3.0, 0.0, -1.0, 0.0, -4.0], 0.0, 0, 1) == State([0.0, 2.0, 3.0, 0.0, -1.0, 0.0, -4.0], 2.0)
  {
  }

  lemma Case2Bin1()
    ensures Scan([0.0, 2.0, 3.0, 0.0, -1.0, 0.0, -4.0], 2.0, 1, 1) == State([0.0, 0.0, 3.0, 0.0, 0.0, 0.0, -3.0], 10.0)
  {
    assert Work(1.0, 3) == 3.0;
    assert Work(1.0, 5) == 5.0;
  }

  lemma Case2Bin2()
    ensures Scan([0.0, 0.0, 3.0, 0.0, 0.0, 0.0, -3.0], 10.0, 2, 1) == State([0.0, 0.0, 0.0, 0.0, 0.0, 0.0, 0.0], 22.0)
  {
    assert Work(3.0, 4) == 12.0;
  }

  /** case_3: the expected cost, with every scan of a nonzero bin spelled out. */
  lemma Case3()
    ensures GreedyCost([2.0, 1.0, 0.0, 0.0, 3.0, 0.0, 0.0], [0.0, 2.0, 1.0, 0.0, 3.0, 0.0, 0.0]) == 3.0
  {
    assert Subtract([2.0, 1.0, 0.0, 0.0, 3.0, 0.0, 0.0], [0.0, 2.0, 1.0, 0.0, 3.0, 0.0, 0.0]) == [-2.0, 1.0, 1.0, 0.0, 0.0, 0.0, 0.0];
    PassUnfold([-2.0, 1.0, 1.0, 0.0, 0.0, 0.0, 0.0], 0.0, 0);
    Case3Bin0();
    PassUnfold([0.0, 0.0, 0.0, 0.0, 0.0, 0.0, 0.0], 3.0, 1);
    PassUnfold([0.0, 0.0, 0.0, 0.0, 0.0, 0.0, 0.0], 3.0, 2);
    PassUnfold([0.0, 0.0, 0.0, 0.0, 0.0, 0.0, 0.0], 3.0, 3);
    PassUnfold([0.0, 0.0, 0.0, 0.0, 0.0, 0.0, 0.0], 3.0, 4);
    PassUnfold([0.0, 0.0, 0.0, 0.0, 0.0, 0.0, 0.0], 3.0, 5);
    PassUnfold([0.0, 0.0, 0.0, 0.0, 0.0, 0.0, 0.0], 3.0, 6);
  }

  lemma Case3Bin0()
    ensures Scan([-2.0, 1.0, 1.0, 0.0, 0.0, 0.0, 0.0], 0.0, 0, 1) == State([0.0, 0.0, 0.0, 0.0, 0.0, 0.0, 0.0], 3.0)
  {
    assert Work(1.0, 2) == 2.0;
  }

  /** case_4: the expected cost, with every scan of a nonzero bin spelled out. */
  lemma Case4()
    ensures GreedyCost([2.0, 1.0, 0.0, 0.0, 3.0, 0.0, 0.0], [0.0, 2.0, 1.0, 0.0, 0.0, 3.0, 0.0]) == 6.0
  {
    assert Subtract([2.0, 1.0, 0.0, 0.0, 3.0, 0.0, 0.0], [0.0, 2.0, 1.0, 0.0, 0.0, 3.0, 0.0]) == [-2.0, 1.0, 1.0, 0.0, -3.0, 3.0, 0.0];
    PassUnfold([-2.0, 1.0, 1.0, 0.0, -3.0, 3.0, 0.0], 0.0, 0);
    Case4Bin0();
    PassUnfold([0.0, 0.0, 0.0, 0.0, -3.0, 3.0, 0.0], 3.0, 1);
    PassUnfold([0.0, 0.0, 0.0, 0.0, -3.0, 3.0, 0.0], 3.0, 2);
    PassUnfold([0.0, 0.0, 0.0, 0.0, -3.0, 3.0, 0.0], 3.0, 3);
    PassUnfold([0.0, 0.0, 0.0, 0.0, -3.0, 3.0, 0.0], 3.0, 4);
    Case4Bin4();
    PassUnfold([0.0, 0.0, 0.0, 0.0, 0.0, 0.0, 0.0], 6.0, 5);
    PassUnfold([0.0, 0.0, 0.0, 0.0, 0.0, 0.0, 0.0], 6.0, 6);
  }

  lemma Case4Bin0()
    ensures Scan([-2.0, 1.0, 1.0, 0.0, -3.0, 3.0, 0.0], 0.0, 0, 1) == State([0.0, 0.0, 0.0, 0.0, -3.0, 3.0, 0.0], 3.0)
  {
    assert Work(1.0, 2) == 2.0;
  }

  lemma Case4Bin4()
    ensures Scan([0.0, 0.0, 0.0, 0.0, -3.0, 3.0, 0.0], 3.0, 4, 1) == State([0.0, 0.0, 0.0, 0.0, 0.0, 0.0, 0.0], 6.0)
  {
  }

  /** case_5: the expected cost, with every scan of a nonzero bin spelled out. */
  lemma Case5()
    ensures GreedyCost([2.0, 1.0, 0.0, 0.0, 3.0, 0.0, 0.0], [0.0, 0.0, 2.0, 1.0, 0.0, 0.0, 3.0]) == 12.0
  {
    assert Subtract([2.0, 1.0, 0.0, 0.0, 3.0, 0.0, 0.0], [0.0, 0.0, 2.0, 1.0, 0.0, 0.0, 3.0]) == [-2.0, -1.0, 2.0, 1.0, -3.0, 0.0, 3.0];
    PassUnfold([-2.0, -1.0, 2.0, 1.0, -3.0, 0.0, 3.0], 0.0, 0);
    Case5Bin0();
    PassUnfold([0.0, -1.0, 0.0, 1.0, -3.0, 0.0, 3.0], 4.0, 1);
    Case5Bin1();
    PassUnfold([0.0, 0.0, 0.0, 0.0, -3.0, 0.0, 3.0], 6.0, 2);
    PassUnfold([0.0, 0.0, 0.0, 0.0, -3.0, 0.0, 3.0], 6.0, 3);
    PassUnfold([0.0, 0.0, 0.0, 0.0, -3.0, 0.0, 3.0], 6.0, 4);
    Case5Bin4();
    PassUnfold([0.0, 0.0, 0.0, 0.0, 0.0, 0.0, 0.0], 12.0, 5);
    PassUnfold([0.0, 0.0, 0.0, 0.0, 0.0, 0.0, 0.0], 12.0, 6);
  }

  lemma Case5Bin0()
    ensures Scan([-2.0, -1.0, 2.0, 1.0, -3.0, 0.0, 3.0], 0.0, 0, 1) == State([0.0, -1.0, 0.0, 1.0, -3.0, 0.0, 3.0], 4.0)
  {
    assert Work(2.0, 2) == 4.0;
  }

  lemma Case5Bin1()
    ensures Scan([0.0, -1.0, 0.0, 1.0, -3.0, 0.0, 3.0], 4.0, 1, 1) == State([0.0, 0.0, 0.0, 0.0, -3.0, 0.0, 3.0], 6.0)
  {
    assert Work(1.0, 2) == 2.0;
  }

  lemma Case5Bin4()
    ensures Scan([0.0, 0.0, 0.0, 0.0, -3.0, 0.0, 3.0], 6.0, 4, 1) == State([0.0, 0.0, 0.0, 0.0, 0.0, 0.0, 0.0], 12.0)
  {
    assert Work(3.0, 2) == 6.0;
  }

  /** case_6: the expected cost, with every scan of a nonzero bin spelled out. */
  lemma Case6()
    ensures GreedyCost([0.2, 0.1, 0.0, 0.0, 0.3, 0.0, 0.0], [0.0, 0.2, 0.1, 0.0, 0.0, 0.3, 0.0]) == 0.6
  {
    assert Subtract([0.2, 0.1, 0.0, 0.0, 0.3, 0.0, 0.0], [0.0, 0.2, 0.1, 0.0, 0.0, 0.3, 0.0]) == [-0.2, 0.1, 0.1, 0.0, -0.3, 0.3, 0.0];
    PassUnfold([-0.2, 0.1, 0.1, 0.0, -0.3, 0.3, 0.0], 0.0, 0);
    Case6Bin0();
    PassUnfold([0.0, 0.0, 0.0, 0.0, -0.3, 0.3, 0.0], 0.3, 1);
    PassUnfold([0.0, 0.0, 0.0, 0.0, -0.3, 0.3, 0.0], 0.3, 2);
    PassUnfold([0.0, 0.0, 0.0, 0.0, -0.3, 0.3, 0.0], 0.3, 3);
    PassUnfold([0.0, 0.0, 0.0, 0.0, -0.3, 0.3, 0.0], 0.3, 4);
    Case6Bin4();
    PassUnfold([0.0, 0.0, 0.0, 0.0, 0.0, 0.0, 0.0], 0.6, 5);
    PassUnfold([0.0, 0.0, 0.0, 0.0, 0.0, 0.0, 0.0], 0.6, 6);
  }

  lemma Case6Bin0()
    ensures Scan([-0.2, 0.1, 0.1, 0.0, -0.3, 0.3, 0.0], 0.0, 0, 1) == State([0.0, 0.0, 0.0, 0.0, -0.3, 0.3, 0.0], 0.3)
  {
    assert Work(0.1, 2) == 0.2;
  }

  lemma Case6Bin4()
    ensures Scan([0.0, 0.0, 0.0, 0.0, -0.3, 0.3, 0.0], 0.3, 4, 1) == State([0.0, 0.0, 0.0, 0.0, 0.0, 0.0, 0.0], 0.6)
  {
  }

  /** With unequal total mass the surplus stays in the difference array. */
  lemma UnequalMassResidual()
    ensures Greedy([1.0, 0.0, 0.0], [0.0, 2.0, 0.0]) == State([0.0, 1.0, 0.0], 1.0)
  {
  }
}
