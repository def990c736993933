/** The scenarios of test/test_tree.py, checked against the contracts of the
    KmerTree methods: each assertion is a consequence of those contracts
    and of the properties proved in TreeProperties. */
module TreeExamples {
  import opened Outcomes
  import opened Tree
  import opened TreeProperties

  /** KmerTree(3, "ACTG", s) with the default ignored character N. */
  method Trained(s: string) returns (t: KmerTree)
    requires Chars(s) <= {'A', 'C', 'T', 'G'}
    ensures fresh(t) && t.Valid() && t.k == 3 && t.alphabet == {'A', 'C', 'T', 'G'} && t.ignored == {'N'}
    ensures t.kmerCount == |s| - 2
    ensures forall w :: Lookup(t.kmerDict, w) == Occurrences(s, 3, {'N'}, w)
  {
    assert Chars("ACTG") == {'A', 'C', 'T', 'G'};
    assert Chars("N") == {'N'};
    var built := Create(3, "ACTG", s, "N");
    t := built.value;
  }

  lemma GTGOverAlphabet()
    ensures Chars("GTG") <= {'A', 'C', 'T', 'G'}
  {
    assert Chars("GTG") == {'G', 'T'};
  }

  method CountsOfRepeatedKmers() {
    assert Chars("ACACACC") == {'A', 'C'};
    var t := Trained("ACACACC");
    TrainingExample();
    assert Chars("ACA") == Chars("CAC") == {'A', 'C'};
    var c := t.GetCount("ACA");
    assert c == Success(2);
    c := t.GetCount("CAC");
    assert c == Success(2);
  }

  method CountsOfOtherKmers() {
    assert Chars("ACACACC") == {'A', 'C'};
    var t := Trained("ACACACC");
    TrainingExample();
    assert Chars("ACC") == {'A', 'C'};
    GTGOverAlphabet();
    var c := t.GetCount("ACC");
    assert c == Success(1);
    c := t.GetCount("GTG");
    assert c == Success(0);
  }

  method Frequencies() {
    assert Chars("ACACACC") == {'A', 'C'};
    var t := Trained("ACACACC");
    FrequencyExample(t.kmerDict);
    assert Chars("ACA") == Chars("CAC") == Chars("ACC") == {'A', 'C'};
    GTGOverAlphabet();
    var f := t.GetFreq("ACA");
    assert f == Success(0.4);
    f := t.GetFreq("CAC");
    assert f == Success(0.4);
    f := t.GetFreq("ACC");
    assert f == Success(0.2);
    f := t.GetFreq("GTG");
    assert f == Success(0.0);
  }

  method ScoresTie() {
    assert Chars("ACACACC") == {'A', 'C'};
    assert Chars("ACACACT") == {'A', 'C', 'T'};
    var t1 := Trained("ACACACC");
    var t2 := Trained("ACACACT");
    assert Chars("GGACAC") == {'G', 'A', 'C'};
    var p1 := t1.GetSeqProb("GGACAC", 0.1);
    var p2 := t2.GetSeqProb("GGACAC", 0.1);
    ScoreWithoutDiscriminatingKmer(t1.kmerDict, t2.kmerDict);
    assert p1 == p2;
  }

  method ScoresDiffer() {
    assert Chars("ACACACC") == {'A', 'C'};
    assert Chars("ACACACT") == {'A', 'C', 'T'};
    var t1 := Trained("ACACACC");
    var t2 := Trained("ACACACT");
    assert Chars("CACCGG") == {'G', 'A', 'C'};
    var p1 := t1.GetSeqProb("CACCGG", 0.1);
    var p2 := t2.GetSeqProb("CACCGG", 0.1);
    ScoreWithDiscriminatingKmer(t1.kmerDict, t2.kmerDict);
    assert p1.value > p2.value;
  }

  method PseudocountEffect() {
    assert Chars("ACACACC") == {'A', 'C'};
    var t := Trained("ACACACC");
    assert Chars("CACCGG") == {'G', 'A', 'C'};
    var lower := t.GetSeqProb("CACCGG", 0.1);
    var higher := t.GetSeqProb("CACCGG", 0.2);
    PseudocountExample(t.kmerDict);
    assert higher.value > lower.value;
  }

  method InitExceptions() {
    assert Chars("ACTG") == {'A', 'C', 'T', 'G'};
    assert Chars("N") == {'N'};
    assert 'U' in Chars("ACTGACTGU\n");
    var bad := Create(3, "ACTG", "ACTGACTGU\n", "N");
    assert bad == Failure(ForeignCharacter);
    assert 'A' in Chars("ACTG");
    var overlapping := Create(3, "ACTG", "ACTG", "ACTG");
    assert overlapping == Failure(OverlappingCharSets);
  }

  /** A window width of 0 or below never yields an index. */
  method NonPositiveWidth() {
    assert Chars("ACTG") == {'A', 'C', 'T', 'G'};
    assert Chars("N") == {'N'};
    var zero := Create(0, "ACTG", "ACTG", "N");
    assert zero == Failure(EmptyWindow);
    var negative := Create(-2, "ACTG", "ACTG", "N");
    assert negative == Failure(EmptyWindow);
  }

  method MethodExceptions() {
    assert Chars("ACTGACTGACTG") == {'A', 'C', 'T', 'G'};
    var t := Trained("ACTGACTGACTG");
    var c := t.GetCount("ACTG");
    assert c == Failure(WrongLength);
    assert 'U' in Chars("ACUGACUUUC");
    var p := t.GetSeqProb("ACUGACUUUC", 0.1);
    assert p == Failure(ForeignCharacter);
  }

  /** A second training sequence adds to the counts but replaces the
      denominator: after "ACA", ACA has count 3 and frequency 3. */
  method RepeatedTraining() {
    assert Chars("ACACACC") == {'A', 'C'};
    var t := Trained("ACACACC");
    ghost var first := t.kmerDict;
    assert Chars("ACA") == {'A', 'C'};
    var added := t.AddSequence("ACA");
    assert added == Pass;
    RepeatedIngestionFrequencyAboveOne(first, t.kmerDict);
    assert t.kmerCount == 1;
    var f := t.GetFreq("ACA");
    assert f == Success(3.0);
  }

  /** A training sequence of length k - 1 has no window and sets the
      denominator to 0: every frequency and every score then raises. */
  method ZeroDenominatorExample() {
    assert Chars("AC") == {'A', 'C'};
    var t := Trained("AC");
    assert t.kmerCount == 0;
    assert Chars("ACA") == {'A', 'C'};
    var f := t.GetFreq("ACA");
    assert f == Failure(ZeroDenominator);
    var p := t.GetSeqProb("", 0.1);
    assert p == Failure(ZeroDenominator);
  }

  /** A shorter sequence still overwrites the denominator, here with -1, so
      a seen k-mer gets a negative frequency. */
  method NegativeDenominatorExample() {
    assert Chars("ACA") == {'A', 'C'};
    var t := Trained("ACA");
    Window3("ACA", 0, 'A', 'C', 'A');
    assert Clean("ACA", {'N'});
    assert Lookup(t.kmerDict, "ACA") == 1;
    assert Chars("A") == {'A'};
    var added := t.AddSequence("A");
    assert added == Pass;
    assert t.kmerCount == -1;
    assert Lookup(t.kmerDict, "ACA") == 1;
    var f := t.GetFreq("ACA");
    assert f == Success(-1.0);
  }
}
