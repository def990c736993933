/** The k-mer frequency index of src/tree.py: a table of counts of the
    fixed-length windows of training sequences, with count, frequency and
    naive-Bayes likelihood queries.  The nested dictionary of the source
    is kept here as a flat map from k-length strings to counts; module
    NestedTrie relates the two representations. */
module Tree {
  import opened Outcomes

  /** The source raises one exception class, whose three causes are told
      apart here, and lets a division by a zero kmer_count raise. */
  datatype KmerTreeError =
    | OverlappingCharSets   // alphabet and ignored characters share a character
    | ForeignCharacter      // a sequence or k-mer holds a character it may not hold
    | WrongLength           // a queried k-mer is not k characters long
    | ZeroDenominator       // ZeroDivisionError: kmer_count is 0
    | EmptyWindow           // IndexError: kmer[-1] of the empty window every k <= 0 reaches

  /** Python's set(s). */
  function Chars(s: string): set<char> {
    set c | c in s
  }

  /** The stored count of w, or 0 when w was never stored. */
  function Lookup(m: map<string, nat>, w: string): nat {
    if w in m then m[w] else 0
  }

  /** A window is counted only when it holds no ignored character. */
  predicate Clean(w: string, ignored: set<char>) {
    Chars(w) !! ignored
  }

  /** How many start offsets range(len(s) - k + 1) produces. */
  function Windows(s: string, k: nat): nat {
    if |s| + 1 >= k then |s| + 1 - k else 0
  }

  /** The window of s that starts at offset i. */
  function Window(s: string, k: nat, i: nat): (w: string)
    requires i < Windows(s, k)
    ensures |w| == k
  {
    s[i..i + k]
  }

  /** The number of offsets below n whose window is w, when w is clean. */
  function Hits(s: string, k: nat, ignored: set<char>, w: string, n: nat): (r: nat)
    requires n <= Windows(s, k)
    ensures r <= n
    ensures r > 0 ==> |w| == k && Clean(w, ignored)
  {
    if n == 0 then 0
    else Hits(s, k, ignored, w, n - 1) + (if Window(s, k, n - 1) == w && Clean(w, ignored) then 1 else 0)
  }

  /** How much training on s adds to the count of w. */
  function Occurrences(s: string, k: nat, ignored: set<char>, w: string): (r: nat)
    ensures r <= Windows(s, k)
    ensures r > 0 ==> |w| == k && Clean(w, ignored)
  {
    Hits(s, k, ignored, w, Windows(s, k))
  }

  /** Count over denominator; the source divides by kmer_count as it stands,
      so a frequency is positive exactly when the k-mer was seen and the
      denominator is positive. */
  function Frequency(m: map<string, nat>, count: int, w: string): (f: real)
    requires count != 0
    ensures f > 0.0 <==> Lookup(m, w) > 0 && count > 0
  {
    Lookup(m, w) as real / count as real
  }

  /** The factor one query window contributes: its frequency when positive,
      otherwise pseudocount / count.  Over a positive denominator a seen
      window contributes its frequency; over a negative one every window,
      seen or not, contributes pseudocount / count. */
  function Factor(m: map<string, nat>, count: int, w: string, pseudocount: real): (r: real)
    requires count != 0
    ensures count > 0 ==>
      r == if Lookup(m, w) > 0 then Lookup(m, w) as real / count as real else pseudocount / count as real
    ensures count < 0 ==> r == pseudocount / count as real
  {
    var f := Frequency(m, count, w);
    if f > 0.0 then f else pseudocount / count as real
  }

  /** The factors of the windows of q, in window order. */
  function Factors(m: map<string, nat>, k: nat, count: int, q: string, pseudocount: real): (fs: seq<real>)
    requires count != 0
    ensures |fs| == Windows(q, k)
    ensures forall i :: 0 <= i < |fs| ==> fs[i] == Factor(m, count, Window(q, k, i), pseudocount)
  {
    seq(Windows(q, k), i requires 0 <= i < Windows(q, k) => Factor(m, count, Window(q, k, i), pseudocount))
  }

  /** The product of xs, multiplied left to right starting from 1. */
  function Prod(xs: seq<real>): real {
    if xs == [] then 1.0 else Prod(xs[..|xs| - 1]) * xs[|xs| - 1]
  }

  /** Extending a prefix by one factor multiplies the product by it. */
  lemma ProdPrefix(xs: seq<real>, i: nat, acc: real, x: real)
    requires i < |xs| && acc == Prod(xs[..i]) && x == xs[i]
    ensures acc * x == Prod(xs[..i + 1])
  {
    assert xs[..i + 1][..i] == xs[..i];
  }

  /** The naive-Bayes likelihood of q: the product of its window factors. */
  function Likelihood(m: map<string, nat>, k: nat, count: int, q: string, pseudocount: real): (r: real)
    requires count != 0
    ensures Windows(q, k) == 0 ==> r == 1.0
  {
    Prod(Factors(m, k, count, q, pseudocount))
  }

  class KmerTree {
    const k: nat
    const alphabet: set<char>
    const ignored: set<char>
    /** kmer_dict, flattened: k-mer to number of occurrences. */
    var kmerDict: map<string, nat>
    /** kmer_count: len(s) - k + 1 for the most recent training sequence s. */
    var kmerCount: int

    /** Every stored k-mer is k long, drawn from the alphabet, and was seen. */
    ghost predicate Valid()
      reads this
    {
      && k >= 1
      && alphabet !! ignored
      && forall w :: w in kmerDict ==> |w| == k && Chars(w) <= alphabet && kmerDict[w] > 0
    }

    /** The part of __init__ that runs once the character sets are known to
        be disjoint: an empty table with a zero denominator. */
    constructor Init(k: nat, alphabet: set<char>, ignored: set<char>)
      requires k >= 1 && alphabet !! ignored
      ensures Valid()
      ensures this.k == k && this.alphabet == alphabet && this.ignored == ignored
      ensures kmerDict == map[] && kmerCount == 0
    {
      this.k := k;
      this.alphabet := alphabet;
      this.ignored := ignored;
      kmerDict := map[];
      kmerCount := 0;
    }

    /** Whether add_sequence accepts s. */
    predicate Admissible(s: string)
      reads this
    {
      Chars(s) <= alphabet + ignored
    }

    /** add_sequence: count every clean window of s, then set the denominator
        to the number of windows of s (overwriting, not accumulating). */
    method AddSequence(sequence: string) returns (r: Outcome<KmerTreeError>)
      requires Valid()
      modifies this
      ensures Valid()
      ensures !Admissible(sequence) ==>
        r == Fail(ForeignCharacter) && kmerDict == old(kmerDict) && kmerCount == old(kmerCount)
      ensures Admissible(sequence) ==>
        && r == Pass
        && kmerCount == |sequence| - k + 1
        && old(kmerDict).Keys <= kmerDict.Keys
        && forall w :: Lookup(kmerDict, w) == Lookup(old(kmerDict), w) + Occurrences(sequence, k, ignored, w)
    {
      if !(Chars(sequence) <= alphabet + ignored) {
        return Fail(ForeignCharacter);
      }
      for i := 0 to Windows(sequence, k)
        invariant Valid()
        invariant old(kmerDict).Keys <= kmerDict.Keys
        invariant forall w :: Lookup(kmerDict, w) == Lookup(old(kmerDict), w) + Hits(sequence, k, ignored, w, i)
      {
        var kmer := Window(sequence, k, i);
        if !Clean(kmer, ignored) {
          continue;
        }
        kmerDict := kmerDict[kmer := Lookup(kmerDict, kmer) + 1];
      }
      kmerCount := |sequence| - k + 1;
      return Pass;
    }

    /** get_count: the stored count of a k-mer over the alphabet. */
    method GetCount(kmer: string) returns (r: Result<nat, KmerTreeError>)
      requires Valid()
      ensures |kmer| != k ==> r == Failure(WrongLength)
      ensures |kmer| == k && !(Chars(kmer) <= alphabet) ==> r == Failure(ForeignCharacter)
      ensures |kmer| == k && Chars(kmer) <= alphabet ==> r == Success(Lookup(kmerDict, kmer))
    {
      if |kmer| != k {
        return Failure(WrongLength);
      }
      if !(Chars(kmer) <= alphabet) {
        return Failure(ForeignCharacter);
      }
      return Success(Lookup(kmerDict, kmer));
    }

    /** get_freq: the count divided by the current denominator. */
    method GetFreq(kmer: string) returns (r: Result<real, KmerTreeError>)
      requires Valid()
      ensures |kmer| != k ==> r == Failure(WrongLength)
      ensures |kmer| == k && !(Chars(kmer) <= alphabet) ==> r == Failure(ForeignCharacter)
      ensures |kmer| == k && Chars(kmer) <= alphabet && kmerCount == 0 ==> r == Failure(ZeroDenominator)
      ensures |kmer| == k && Chars(kmer) <= alphabet && kmerCount != 0 ==>
        r == Success(Frequency(kmerDict, kmerCount, kmer))
    {
      var c := GetCount(kmer);
      match c
      case Failure(e) => return Failure(e);
      case Success(n) =>
        if kmerCount == 0 {
          return Failure(ZeroDenominator);
        }
        return Success(n as real / kmerCount as real);
    }

    /** get_seq_prob: the product of the window frequencies of the query,
        with pseudocount / kmer_count standing in for unseen windows. */
    method GetSeqProb(query: string, pseudocount: real) returns (r: Result<real, KmerTreeError>)
      requires Valid()
      ensures !(Chars(query) <= alphabet) ==> r == Failure(ForeignCharacter)
      ensures Chars(query) <= alphabet && kmerCount == 0 ==> r == Failure(ZeroDenominator)
      ensures Chars(query) <= alphabet && kmerCount != 0 ==>
        r == Success(Likelihood(kmerDict, k, kmerCount, query, pseudocount))
      ensures Chars(query) <= alphabet && kmerCount != 0 && |query| < k ==> r == Success(1.0)
    {
      if !(Chars(query) <= alphabet) {
        return Failure(ForeignCharacter);
      }
      if kmerCount == 0 {
        return Failure(ZeroDenominator);
      }
      var prob := 1.0;
      var pseudoprob := pseudocount / kmerCount as real;
      ghost var factors := Factors(kmerDict, k, kmerCount, query, pseudocount);
      for i := 0 to Windows(query, k)
        invariant prob == Prod(factors[..i])
      {
        var f := GetFreq(Window(query, k, i));
        assert f.Success?;
        var factor := if f.value > 0.0 then f.value else pseudoprob;
        assert factor == factors[i];
        ProdPrefix(factors, i, prob, factor);
        prob := prob * factor;
      }
      assert factors[..Windows(query, k)] == factors;
      return Success(prob);
    }
  }

  /** __init__: refuse overlapping character sets, then train on the first
      sequence; a failure of that training is a failure of construction.
      For k <= 0 the training loop always meets an empty window, whose
      kmer[-1] raises: for k = 0 every window is empty; for negative k every
      window before offset -k has length len(sequence) + k, so the empty
      window comes at offset 0 when len(sequence) <= -k and at offset -k,
      sequence[-k:0], otherwise. */
  method Create(k: int, alphabet: string, sequence: string, ignoredChars: string)
    returns (r: Result<KmerTree, KmerTreeError>)
    ensures !(Chars(alphabet) !! Chars(ignoredChars)) ==> r == Failure(OverlappingCharSets)
    ensures Chars(alphabet) !! Chars(ignoredChars) && !(Chars(sequence) <= Chars(alphabet) + Chars(ignoredChars)) ==>
      r == Failure(ForeignCharacter)
    ensures Chars(alphabet) !! Chars(ignoredChars) && Chars(sequence) <= Chars(alphabet) + Chars(ignoredChars) && k <= 0 ==>
      r == Failure(EmptyWindow)
    ensures r.Success? <==>
      Chars(alphabet) !! Chars(ignoredChars) && Chars(sequence) <= Chars(alphabet) + Chars(ignoredChars) && k >= 1
    ensures r.Success? ==>
      && fresh(r.value)
      && r.value.Valid()
      && r.value.k == k && r.value.alphabet == Chars(alphabet) && r.value.ignored == Chars(ignoredChars)
      && r.value.kmerCount == |sequence| - k + 1
      && forall w :: Lookup(r.value.kmerDict, w) == Occurrences(sequence, k, Chars(ignoredChars), w)
  {
    if !(Chars(alphabet) !! Chars(ignoredChars)) {
      return Failure(OverlappingCharSets);
    }
    if k <= 0 {
      if !(Chars(sequence) <= Chars(alphabet) + Chars(ignoredChars)) {
        return Failure(ForeignCharacter);
      }
      return Failure(EmptyWindow);
    }
    var t := new KmerTree.Init(k, Chars(alphabet), Chars(ignoredChars));
    var added := t.AddSequence(sequence);
    if added.Fail? {
      return Failure(added.error);
    }
    return Success(t);
  }
}
