/** What the k-mer index promises: where counts come from, how large
    frequencies can be, and how the likelihood depends on the pseudocount
    and on the training data. */
module TreeProperties {
  import opened Tree

  // ---------------------------------------------------------------------
  // Counting windows

  /** Only a clean k-length string made of characters of s is ever counted. */
  lemma {:induction false} HitsSupport(s: string, k: nat, ignored: set<char>, w: string, n: nat)
    requires n <= Windows(s, k)
    requires Hits(s, k, ignored, w, n) > 0
    ensures |w| == k && Chars(w) <= Chars(s) && Clean(w, ignored)
  {
    if !(Window(s, k, n - 1) == w && Clean(w, ignored)) {
      HitsSupport(s, k, ignored, w, n - 1);
    }
  }

  /** A k-mer gains count from s only when it has length k, is clean and
      is made of characters of s; so, s being admissible, of the alphabet. */
  lemma OccurrencesSupport(s: string, k: nat, alphabet: set<char>, ignored: set<char>, w: string)
    requires Chars(s) <= alphabet + ignored
    requires Occurrences(s, k, ignored, w) > 0
    ensures |w| == k && Clean(w, ignored) && Chars(w) <= alphabet
  {
    HitsSupport(s, k, ignored, w, Windows(s, k));
  }

  /** The start offsets below n whose window is w. */
  ghost function Offsets(s: string, k: nat, w: string, n: nat): set<nat>
    requires n <= Windows(s, k)
  {
    set i: nat | i < n && Window(s, k, i) == w
  }

  /** Hits counts exactly the offsets whose window is w, and nothing when w
      holds an ignored character. */
  lemma {:induction false} HitsAreOffsets(s: string, k: nat, ignored: set<char>, w: string, n: nat)
    requires n <= Windows(s, k)
    ensures Hits(s, k, ignored, w, n) == if Clean(w, ignored) then |Offsets(s, k, w, n)| else 0
  {
    if n == 0 {
      assert Offsets(s, k, w, 0) == {};
    } else {
      HitsAreOffsets(s, k, ignored, w, n - 1);
      var prev := Offsets(s, k, w, n - 1);
      if Window(s, k, n - 1) == w {
        assert Offsets(s, k, w, n) == prev + {n - 1};
      } else {
        assert Offsets(s, k, w, n) == prev;
      }
    }
  }

  /** Occurrences is the number of start offsets in [0, len(s) - k] whose
      window equals the clean k-mer w. */
  lemma OccurrencesAreOffsets(s: string, k: nat, ignored: set<char>, w: string)
    ensures Occurrences(s, k, ignored, w)
         == |set i: nat | i < Windows(s, k) && Window(s, k, i) == w && Clean(w, ignored)|
  {
    HitsAreOffsets(s, k, ignored, w, Windows(s, k));
    var matching := set i: nat | i < Windows(s, k) && Window(s, k, i) == w && Clean(w, ignored);
    if Clean(w, ignored) {
      assert matching == Offsets(s, k, w, Windows(s, k));
    } else {
      assert matching == {};
    }
  }

  // ---------------------------------------------------------------------
  // Frequencies

  /** After a single training sequence (the one given to the constructor),
      every frequency lies in [0, 1]. */
  lemma SingleIngestionFrequency(s: string, k: nat, ignored: set<char>, m: map<string, nat>, w: string)
    requires forall v :: Lookup(m, v) == Occurrences(s, k, ignored, v)
    requires |s| - k + 1 != 0
    ensures 0.0 <= Frequency(m, |s| - k + 1, w) <= 1.0
  {
    var c := Lookup(m, w);
    assert c == Occurrences(s, k, ignored, w);
    if |s| - k + 1 > 0 {
      assert c <= |s| - k + 1;
      RatioAtMostOne(c as real, (|s| - k + 1) as real);
    } else {
      assert Windows(s, k) == 0;
      assert c == 0;
    }
  }

  lemma RatioAtMostOne(a: real, b: real)
    requires 0.0 <= a <= b && 0.0 < b
    ensures 0.0 <= a / b <= 1.0
  {
    assert a / b * b == a;
  }

  /** The denominator does not accumulate: training "ACACACC" and then "ACA"
      leaves ACA with count 3 over a denominator of 1, a frequency of 3. */
  lemma RepeatedIngestionFrequencyAboveOne(m0: map<string, nat>, m1: map<string, nat>)
    requires forall v :: Lookup(m0, v) == Occurrences("ACACACC", 3, {'N'}, v)
    requires forall v :: Lookup(m1, v) == Lookup(m0, v) + Occurrences("ACA", 3, {'N'}, v)
    ensures Frequency(m1, |"ACA"| - 3 + 1, "ACA") == 3.0
  {
    TrainingExample();
    Window3("ACA", 0, 'A', 'C', 'A');
    assert Clean("ACA", {'N'});
    assert Lookup(m1, "ACA") == 3;
  }

  // ---------------------------------------------------------------------
  // The likelihood

  /** Some window of q was never counted. */
  ghost predicate HasUnseenWindow(m: map<string, nat>, k: nat, q: string) {
    exists i :: 0 <= i < Windows(q, k) && Lookup(m, Window(q, k, i)) == 0
  }

  lemma MulMonotone(a1: real, a2: real, f1: real, f2: real, r1: real, r2: real)
    requires 0.0 <= a1 <= a2 && 0.0 <= f1 <= f2 && 0.0 < a2 && 0.0 < f2
    requires r1 == a1 * f1 && r2 == a2 * f2
    ensures 0.0 <= r1 <= r2 && 0.0 < r2
    ensures a1 < a2 ==> r1 < r2
    ensures f1 < f2 ==> r1 < r2
  {
    assert a1 * f1 <= a1 * f2;
    assert a1 * f2 <= a2 * f2;
    if a1 < a2 {
      assert a1 * f2 < a2 * f2;
    }
    if f1 < f2 {
      assert a1 * f1 <= a2 * f1;
      assert a2 * f1 < a2 * f2;
    }
  }

  /** Products of pointwise smaller non-negative factors are smaller, and
      strictly so when one factor is. */
  lemma {:induction false} ProdMonotone(xs: seq<real>, ys: seq<real>)
    requires |xs| == |ys|
    requires forall i :: 0 <= i < |xs| ==> 0.0 <= xs[i] <= ys[i] && 0.0 < ys[i]
    ensures 0.0 <= Prod(xs) <= Prod(ys) && 0.0 < Prod(ys)
    ensures (exists i :: 0 <= i < |xs| && xs[i] < ys[i]) ==> Prod(xs) < Prod(ys)
  {
    if xs != [] {
      var n := |xs| - 1;
      var xs', ys' := xs[..n], ys[..n];
      ProdMonotone(xs', ys');
      MulMonotone(Prod(xs'), Prod(ys'), xs[n], ys[n], Prod(xs), Prod(ys));
      if exists i :: 0 <= i < |xs| && xs[i] < ys[i] {
        var i :| 0 <= i < |xs| && xs[i] < ys[i];
        if i < n {
          assert xs'[i] < ys'[i];
        }
      }
    }
  }

  /** A product of non-negative factors is non-negative, of positive ones positive. */
  lemma {:induction false} ProdSign(xs: seq<real>)
    requires forall i :: 0 <= i < |xs| ==> 0.0 <= xs[i]
    ensures 0.0 <= Prod(xs)
    ensures (forall i :: 0 <= i < |xs| ==> 0.0 < xs[i]) ==> 0.0 < Prod(xs)
  {
    if xs != [] {
      var n := |xs| - 1;
      ProdSign(xs[..n]);
      MulSign(Prod(xs[..n]), xs[n], Prod(xs));
    }
  }

  lemma MulSign(a: real, b: real, r: real)
    requires 0.0 <= a && 0.0 <= b && r == a * b
    ensures 0.0 <= r
    ensures 0.0 < a && 0.0 < b ==> 0.0 < r
  {
  }

  /** A window's factor grows with the pseudocount exactly when it is unseen. */
  lemma FactorMonotone(m: map<string, nat>, count: int, w: string, p1: real, p2: real)
    requires count > 0 && 0.0 <= p1 < p2
    ensures 0.0 <= Factor(m, count, w, p1) <= Factor(m, count, w, p2)
    ensures 0.0 < Factor(m, count, w, p2)
    ensures Lookup(m, w) == 0 ==> Factor(m, count, w, p1) < Factor(m, count, w, p2)
    ensures Lookup(m, w) > 0 ==> Factor(m, count, w, p1) == Factor(m, count, w, p2) == Frequency(m, count, w)
  {
    var c := count as real;
    assert 0.0 <= p1 / c < p2 / c;
  }

  /** With a positive denominator a factor has the sign of the pseudocount
      or is a positive frequency. */
  lemma FactorSign(m: map<string, nat>, count: int, w: string, p: real)
    requires count > 0 && 0.0 <= p
    ensures 0.0 <= Factor(m, count, w, p)
    ensures 0.0 < p ==> 0.0 < Factor(m, count, w, p)
  {
    var c := count as real;
    assert 0.0 <= p / c;
    assert 0.0 < p ==> 0.0 < p / c;
  }

  /** For a non-empty index and a non-negative pseudocount the likelihood
      is non-negative, and positive when the pseudocount is. */
  lemma LikelihoodSign(m: map<string, nat>, k: nat, count: int, q: string, p: real)
    requires count > 0 && 0.0 <= p
    ensures 0.0 <= Likelihood(m, k, count, q, p)
    ensures 0.0 < p ==> 0.0 < Likelihood(m, k, count, q, p)
  {
    var xs := Factors(m, k, count, q, p);
    forall i | 0 <= i < |xs|
      ensures 0.0 <= xs[i] && (0.0 < p ==> 0.0 < xs[i])
    {
      FactorSign(m, count, Window(q, k, i), p);
    }
    ProdSign(xs);
  }

  /** Raising the pseudocount strictly raises the likelihood of a query
      with an unseen window. */
  lemma LikelihoodPseudocountMonotone(m: map<string, nat>, k: nat, count: int, q: string, p1: real, p2: real)
    requires count > 0 && 0.0 <= p1 < p2
    requires HasUnseenWindow(m, k, q)
    ensures Likelihood(m, k, count, q, p1) < Likelihood(m, k, count, q, p2)
  {
    var xs, ys := Factors(m, k, count, q, p1), Factors(m, k, count, q, p2);
    forall i | 0 <= i < |xs|
      ensures 0.0 <= xs[i] <= ys[i] && 0.0 < ys[i]
      ensures Lookup(m, Window(q, k, i)) == 0 ==> xs[i] < ys[i]
    {
      FactorMonotone(m, count, Window(q, k, i), p1, p2);
    }
    ProdMonotone(xs, ys);
  }

  /** Over a negative denominator the order is reversed: with kmer_count -1
      the unseen GGG scores higher under the smaller pseudocount. */
  lemma NegativeDenominatorReversesPseudocount()
    ensures HasUnseenWindow(map[], 3, "GGG")
    ensures Likelihood(map[], 3, -1, "GGG", 0.1) == -0.1
    ensures Likelihood(map[], 3, -1, "GGG", 0.2) == -0.2
  {
    var f1, f2 := Factors(map[], 3, -1, "GGG", 0.1), Factors(map[], 3, -1, "GGG", 0.2);
    assert Lookup(map[], Window("GGG", 3, 0)) == 0;
    assert f1 == [-0.1] && f2 == [-0.2];
    assert [-0.1][..0] == [] && [-0.2][..0] == [];
  }

  /** The likelihood depends on the index only through the counts of the
      query's own windows and the denominator. */
  lemma LikelihoodDependsOnlyOnWindows(m1: map<string, nat>, m2: map<string, nat>, k: nat, count: int, q: string, p: real)
    requires count != 0
    requires forall i :: 0 <= i < Windows(q, k) ==> Lookup(m1, Window(q, k, i)) == Lookup(m2, Window(q, k, i))
    ensures Likelihood(m1, k, count, q, p) == Likelihood(m2, k, count, q, p)
  {
    assert Factors(m1, k, count, q, p) == Factors(m2, k, count, q, p);
  }

  // ---------------------------------------------------------------------
  // The worked examples of the test suite

  /** The window of width 3 at offset i, letter by letter. */
  lemma Window3(s: string, i: nat, a: char, b: char, c: char)
    requires i + 3 <= |s| && s[i] == a && s[i + 1] == b && s[i + 2] == c
    ensures Window(s, 3, i) == [a, b, c]
  {
    var w := Window(s, 3, i);
    assert w[0] == a && w[1] == b && w[2] == c;
  }

  /** Training on a sequence with five windows of width 3 counts w once for
      every window equal to it, and not at all when w is not clean. */
  lemma FiveWindows(s: string, ignored: set<char>, w: string, w0: string, w1: string, w2: string, w3: string, w4: string)
    requires Windows(s, 3) == 5
    requires Window(s, 3, 0) == w0 && Window(s, 3, 1) == w1 && Window(s, 3, 2) == w2
    requires Window(s, 3, 3) == w3 && Window(s, 3, 4) == w4
    ensures Occurrences(s, 3, ignored, w) ==
      if Clean(w, ignored) then
        (if w0 == w then 1 else 0) + (if w1 == w then 1 else 0) + (if w2 == w then 1 else 0)
        + (if w3 == w then 1 else 0) + (if w4 == w then 1 else 0)
      else 0
  {
    var c := Clean(w, ignored);
    assert Hits(s, 3, ignored, w, 1) == (if w0 == w && c then 1 else 0);
    assert Hits(s, 3, ignored, w, 2) == Hits(s, 3, ignored, w, 1) + (if w1 == w && c then 1 else 0);
    assert Hits(s, 3, ignored, w, 3) == Hits(s, 3, ignored, w, 2) + (if w2 == w && c then 1 else 0);
    assert Hits(s, 3, ignored, w, 4) == Hits(s, 3, ignored, w, 3) + (if w3 == w && c then 1 else 0);
    assert Hits(s, 3, ignored, w, 5) == Hits(s, 3, ignored, w, 4) + (if w4 == w && c then 1 else 0);
  }

  /** Training on "ACACAC" followed by a letter x other than A and N counts
      ACA and CAC twice, ACx once and every other k-mer not at all. */
  lemma TrainingOnACACAC(x: char, w: string)
    requires x != 'A' && x != 'N'
    ensures Occurrences("ACACAC" + [x], 3, {'N'}, w) ==
      if w == "ACA" || w == "CAC" then 2 else if w == ['A', 'C', x] then 1 else 0
  {
    var s := "ACACAC" + [x];
    var last := ['A', 'C', x];
    Window3(s, 0, 'A', 'C', 'A');
    Window3(s, 1, 'C', 'A', 'C');
    Window3(s, 2, 'A', 'C', 'A');
    Window3(s, 3, 'C', 'A', 'C');
    Window3(s, 4, 'A', 'C', x);
    FiveWindows(s, {'N'}, w, "ACA", "CAC", "ACA", "CAC", last);
    assert "ACA" != "CAC" && "ACA" != last && "CAC" != last by {
      assert "ACA"[2] != last[2] && "CAC"[0] != last[0] && "ACA"[0] != "CAC"[0];
    }
    assert Clean("ACA", {'N'}) && Clean("CAC", {'N'}) && Clean(last, {'N'});
  }

  /** Training "ACACACC" with k = 3 counts ACA 2, CAC 2, ACC 1 and GTG 0. */
  lemma TrainingExample()
    ensures Occurrences("ACACACC", 3, {'N'}, "ACA") == 2
    ensures Occurrences("ACACACC", 3, {'N'}, "CAC") == 2
    ensures Occurrences("ACACACC", 3, {'N'}, "ACC") == 1
    ensures Occurrences("ACACACC", 3, {'N'}, "GTG") == 0
  {
    assert "ACACAC" + ['C'] == "ACACACC";
    TrainingOnACACAC('C', "ACA");
    TrainingOnACACAC('C', "CAC");
    TrainingOnACACAC('C', "ACC");
    TrainingOnACACAC('C', "GTG");
    assert "GTG"[0] != "ACA"[0] && "GTG"[0] != "CAC"[0] && "GTG"[0] != "ACC"[0];
  }

  /** Its frequencies over the denominator 5. */
  lemma FrequencyExample(m: map<string, nat>)
    requires forall v :: Lookup(m, v) == Occurrences("ACACACC", 3, {'N'}, v)
    ensures Frequency(m, 5, "ACA") == 0.4 && Frequency(m, 5, "CAC") == 0.4
    ensures Frequency(m, 5, "ACC") == 0.2 && Frequency(m, 5, "GTG") == 0.0
  {
    TrainingExample();
  }

  /** Windows holding the ignored N are not counted: in "ACTNACG" neither
      CTN nor TNA nor NAC is. */
  lemma IgnoredWindowsExample()
    ensures Occurrences("ACTNACG", 3, {'N'}, "CTN") == 0
    ensures Occurrences("ACTNACG", 3, {'N'}, "TNA") == 0
    ensures Occurrences("ACTNACG", 3, {'N'}, "NAC") == 0
  {
    assert 'N' in "CTN" && 'N' in "TNA" && 'N' in "NAC";
    assert !Clean("CTN", {'N'}) && !Clean("TNA", {'N'}) && !Clean("NAC", {'N'});
    HitsAreOffsets("ACTNACG", 3, {'N'}, "CTN", 5);
    HitsAreOffsets("ACTNACG", 3, {'N'}, "TNA", 5);
    HitsAreOffsets("ACTNACG", 3, {'N'}, "NAC", 5);
  }

  /** The clean windows around the N are counted: ACT and ACG once each. */
  lemma CleanWindowsExample()
    ensures Occurrences("ACTNACG", 3, {'N'}, "ACT") == 1
    ensures Occurrences("ACTNACG", 3, {'N'}, "ACG") == 1
  {
    var s := "ACTNACG";
    Window3(s, 0, 'A', 'C', 'T');
    Window3(s, 1, 'C', 'T', 'N');
    Window3(s, 2, 'T', 'N', 'A');
    Window3(s, 3, 'N', 'A', 'C');
    Window3(s, 4, 'A', 'C', 'G');
    FiveWindows(s, {'N'}, "ACT", "ACT", "CTN", "TNA", "NAC", "ACG");
    FiveWindows(s, {'N'}, "ACG", "ACT", "CTN", "TNA", "NAC", "ACG");
    assert Clean("ACT", {'N'}) && Clean("ACG", {'N'});
  }

  /** A k-mer that is no window of s is never counted by training on s. */
  lemma {:induction false} NotAWindow(s: string, k: nat, ignored: set<char>, w: string, n: nat)
    requires n <= Windows(s, k)
    requires forall i :: 0 <= i < n ==> Window(s, k, i) != w
    ensures Hits(s, k, ignored, w, n) == 0
  {
    if n > 0 {
      NotAWindow(s, k, ignored, w, n - 1);
    }
  }

  /** The counts the scoring test reads from the index trained on "ACACACC". */
  lemma FirstTable(m1: map<string, nat>)
    requires forall v :: Lookup(m1, v) == Occurrences("ACACACC", 3, {'N'}, v)
    ensures Lookup(m1, "ACA") == 2 && Lookup(m1, "CAC") == 2 && Lookup(m1, "ACC") == 1
    ensures Lookup(m1, "GGA") == 0 && Lookup(m1, "GAC") == 0
    ensures Lookup(m1, "CCG") == 0 && Lookup(m1, "CGG") == 0
  {
    assert "ACACAC" + ['C'] == "ACACACC";
    TrainingOnACACAC('C', "ACA");
    TrainingOnACACAC('C', "CAC");
    TrainingOnACACAC('C', "ACC");
    TrainingOnACACAC('C', "GGA");
    TrainingOnACACAC('C', "GAC");
    TrainingOnACACAC('C', "CCG");
    TrainingOnACACAC('C', "CGG");
  }

  /** The counts the scoring test reads from the index trained on "ACACACT". */
  lemma SecondTable(m2: map<string, nat>)
    requires forall v :: Lookup(m2, v) == Occurrences("ACACACT", 3, {'N'}, v)
    ensures Lookup(m2, "ACA") == 2 && Lookup(m2, "CAC") == 2 && Lookup(m2, "ACC") == 0
    ensures Lookup(m2, "GGA") == 0 && Lookup(m2, "GAC") == 0
    ensures Lookup(m2, "CCG") == 0 && Lookup(m2, "CGG") == 0
  {
    assert "ACACAC" + ['T'] == "ACACACT";
    TrainingOnACACAC('T', "ACA");
    TrainingOnACACAC('T', "CAC");
    TrainingOnACACAC('T', "ACC");
    TrainingOnACACAC('T', "GGA");
    TrainingOnACACAC('T', "GAC");
    TrainingOnACACAC('T', "CCG");
    TrainingOnACACAC('T', "CGG");
  }

  /** Two tables that agree on GGA, GAC, ACA and CAC agree on every window
      of GGACAC. */
  lemma AgreeOnGGACAC(m1: map<string, nat>, m2: map<string, nat>)
    requires Lookup(m1, "GGA") == Lookup(m2, "GGA") && Lookup(m1, "GAC") == Lookup(m2, "GAC")
    requires Lookup(m1, "ACA") == Lookup(m2, "ACA") && Lookup(m1, "CAC") == Lookup(m2, "CAC")
    ensures forall i :: 0 <= i < Windows("GGACAC", 3) ==>
      Lookup(m1, Window("GGACAC", 3, i)) == Lookup(m2, Window("GGACAC", 3, i))
  {
    var g := "GGACAC";
    Window3(g, 0, 'G', 'G', 'A');
    Window3(g, 1, 'G', 'A', 'C');
    Window3(g, 2, 'A', 'C', 'A');
    Window3(g, 3, 'C', 'A', 'C');
    assert Windows(g, 3) == 4;
    forall i | 0 <= i < Windows(g, 3)
      ensures Lookup(m1, Window(g, 3, i)) == Lookup(m2, Window(g, 3, i))
    {
      assert i == 0 || i == 1 || i == 2 || i == 3;
    }
  }

  /** Indices trained on "ACACACC" and "ACACACT" give GGACAC the same
      score: none of its windows tells them apart. */
  lemma ScoreWithoutDiscriminatingKmer(m1: map<string, nat>, m2: map<string, nat>)
    requires forall v :: Lookup(m1, v) == Occurrences("ACACACC", 3, {'N'}, v)
    requires forall v :: Lookup(m2, v) == Occurrences("ACACACT", 3, {'N'}, v)
    ensures Likelihood(m1, 3, 5, "GGACAC", 0.1) == Likelihood(m2, 3, 5, "GGACAC", 0.1)
  {
    FirstTable(m1);
    SecondTable(m2);
    AgreeOnGGACAC(m1, m2);
    LikelihoodDependsOnlyOnWindows(m1, m2, 3, 5, "GGACAC", 0.1);
  }

  /** The four factors of a query with four windows. */
  lemma FourFactors(m: map<string, nat>, q: string, a: real, b: real, c: real, d: real)
    requires Windows(q, 3) == 4
    requires Factor(m, 5, Window(q, 3, 0), 0.1) == a && Factor(m, 5, Window(q, 3, 1), 0.1) == b
    requires Factor(m, 5, Window(q, 3, 2), 0.1) == c && Factor(m, 5, Window(q, 3, 3), 0.1) == d
    ensures Factors(m, 3, 5, q, 0.1) == [a, b, c, d]
  {
    var f := Factors(m, 3, 5, q, 0.1);
    assert f[0] == a && f[1] == b && f[2] == c && f[3] == d;
  }

  /** The factors of CACCGG, whose windows are CAC, ACC, CCG and CGG, over
      the denominator 5 with pseudocount 0.1. */
  lemma CACCGGFactors(m: map<string, nat>, acc: real)
    requires Lookup(m, "CAC") == 2 && Lookup(m, "CCG") == 0 && Lookup(m, "CGG") == 0
    requires acc == Factor(m, 5, "ACC", 0.1)
    ensures Factors(m, 3, 5, "CACCGG", 0.1) == [0.4, acc, 0.02, 0.02]
  {
    var q := "CACCGG";
    Window3(q, 0, 'C', 'A', 'C');
    Window3(q, 1, 'A', 'C', 'C');
    Window3(q, 2, 'C', 'C', 'G');
    Window3(q, 3, 'C', 'G', 'G');
    FourFactors(m, q, 0.4, acc, 0.02, 0.02);
  }

  /** Two tables over the denominator 5 that agree on CAC, CCG and CGG,
      where only the first has seen ACC, score CACCGG in that order. */
  lemma SeenACCScoresHigher(m1: map<string, nat>, m2: map<string, nat>)
    requires Lookup(m1, "CAC") == 2 && Lookup(m1, "ACC") == 1 && Lookup(m1, "CCG") == 0 && Lookup(m1, "CGG") == 0
    requires Lookup(m2, "CAC") == 2 && Lookup(m2, "ACC") == 0 && Lookup(m2, "CCG") == 0 && Lookup(m2, "CGG") == 0
    ensures Likelihood(m1, 3, 5, "CACCGG", 0.1) > Likelihood(m2, 3, 5, "CACCGG", 0.1)
  {
    CACCGGFactors(m1, 0.2);
    CACCGGFactors(m2, 0.02);
    var f1: seq<real> := [0.4, 0.2, 0.02, 0.02];
    var f2: seq<real> := [0.4, 0.02, 0.02, 0.02];
    forall i | 0 <= i < |f2|
      ensures 0.0 <= f2[i] <= f1[i] && 0.0 < f1[i]
    {
      assert i == 0 || i == 1 || i == 2 || i == 3;
    }
    assert f2[1] < f1[1];
    ProdMonotone(f2, f1);
  }

  /** CACCGG scores higher under the index trained on "ACACACC", which
      holds its window ACC, than under the one trained on "ACACACT". */
  lemma ScoreWithDiscriminatingKmer(m1: map<string, nat>, m2: map<string, nat>)
    requires forall v :: Lookup(m1, v) == Occurrences("ACACACC", 3, {'N'}, v)
    requires forall v :: Lookup(m2, v) == Occurrences("ACACACT", 3, {'N'}, v)
    ensures Likelihood(m1, 3, 5, "CACCGG", 0.1) > Likelihood(m2, 3, 5, "CACCGG", 0.1)
  {
    FirstTable(m1);
    SecondTable(m2);
    SeenACCScoresHigher(m1, m2);
  }

  /** Doubling the pseudocount raises the score of CACCGG, whose windows
      CCG and CGG are unseen. */
  lemma PseudocountExample(m1: map<string, nat>)
    requires forall v :: Lookup(m1, v) == Occurrences("ACACACC", 3, {'N'}, v)
    ensures Likelihood(m1, 3, 5, "CACCGG", 0.2) > Likelihood(m1, 3, 5, "CACCGG", 0.1)
  {
    var q := "CACCGG";
    Window3(q, 2, 'C', 'C', 'G');
    FirstTable(m1);
    assert HasUnseenWindow(m1, 3, q);
    LikelihoodPseudocountMonotone(m1, 3, 5, q, 0.1, 0.2);
  }
}
