/** What extract_taxon promises: split and join are inverse, only the third
    header field is read, an in-range non-empty rank is returned as it is,
    and otherwise the last rank left after dropping the first empty one is
    reported as unclassified. */
module UtilsProperties {
  import opened Outcomes
  import opened Utils

  // ---------------------------------------------------------------------
  // Splitting

  /** Joining the parts of a split gives back the string. */
  lemma {:induction false} SplitJoin(s: string, sep: char)
    ensures Join(Split(s, sep), sep) == s
    decreases |s|
  {
    if |s| > 0 {
      SplitJoin(s[1..], sep);
      var rest := Split(s[1..], sep);
      if s[0] == sep {
        assert ([""] + rest)[1..] == rest;
      } else if |rest| > 1 {
        var parts := [[s[0]] + rest[0]] + rest[1..];
        assert parts[1..] == rest[1..];
        assert Join(rest, sep) == rest[0] + [sep] + Join(rest[1..], sep);
      }
    }
  }

  /** A string without the separator splits into itself alone. */
  lemma {:induction false} SplitWithoutSeparator(a: string, sep: char)
    requires sep !in a
    ensures Split(a, sep) == [a]
    decreases |a|
  {
    if |a| > 0 {
      SplitWithoutSeparator(a[1..], sep);
      assert [a[0]] + a[1..] == a;
    }
  }

  /** A separator-free prefix followed by the separator is the first part. */
  lemma {:induction false} SplitAtSeparator(a: string, b: string, sep: char)
    requires sep !in a
    ensures Split(a + [sep] + b, sep) == [a] + Split(b, sep)
    decreases |a|
  {
    var s := a + [sep] + b;
    if |a| == 0 {
      assert s[0] == sep && s[1..] == b;
    } else {
      assert s[1..] == a[1..] + [sep] + b;
      SplitAtSeparator(a[1..], b, sep);
      assert [a[0]] + a[1..] == a;
    }
  }

  /** Splitting a join of separator-free parts gives back the parts. */
  lemma {:induction false} JoinSplit(parts: seq<string>, sep: char)
    requires |parts| >= 1
    requires forall i :: 0 <= i < |parts| ==> sep !in parts[i]
    ensures Split(Join(parts, sep), sep) == parts
    decreases |parts|
  {
    if |parts| == 1 {
      SplitWithoutSeparator(parts[0], sep);
    } else {
      JoinSplit(parts[1..], sep);
      SplitAtSeparator(parts[0], Join(parts[1..], sep), sep);
      assert [parts[0]] + parts[1..] == parts;
    }
  }

  /** Every character of every part comes from the split string. */
  lemma {:induction false} SplitPartsFromSource(s: string, sep: char, i: nat, c: char)
    requires i < |Split(s, sep)| && c in Split(s, sep)[i]
    ensures c in s
    decreases |s|
  {
    if |s| > 0 {
      var rest := Split(s[1..], sep);
      if s[0] == sep {
        if i > 0 {
          SplitPartsFromSource(s[1..], sep, i - 1, c);
        }
      } else if i > 0 {
        SplitPartsFromSource(s[1..], sep, i, c);
      } else if c != s[0] {
        SplitPartsFromSource(s[1..], sep, 0, c);
      }
    }
  }

  // ---------------------------------------------------------------------
  // extract_taxon

  /** Only the third tab-separated field of the header is read. */
  lemma ThirdFieldOnly(f0: string, f1: string, f2: string, tail: string, position: int)
    requires '\t' !in f0 && '\t' !in f1 && '\t' !in f2
    requires tail == "" || tail[0] == '\t'
    ensures ExtractTaxon(f0 + "\t" + f1 + "\t" + f2 + tail, position) == TaxonOfField(f2, position)
  {
    var header := f0 + "\t" + f1 + "\t" + f2 + tail;
    assert header == f0 + ['\t'] + (f1 + ['\t'] + (f2 + tail));
    SplitAtSeparator(f0, f1 + ['\t'] + (f2 + tail), '\t');
    SplitAtSeparator(f1, f2 + tail, '\t');
    if tail == "" {
      assert f2 + tail == f2;
      SplitWithoutSeparator(f2, '\t');
    } else {
      assert f2 + tail == f2 + ['\t'] + tail[1..];
      SplitAtSeparator(f2, tail[1..], '\t');
    }
    assert Split(header, '\t')[2] == f2;
  }

  /** An in-range, non-empty rank is the result, free of ';' and of tabs. */
  lemma RankHit(header: string, position: int)
    requires |Split(header, '\t')| >= 3
    requires var taxa := Split(Split(header, '\t')[2], ';');
      0 <= position < |taxa| && taxa[position] != ""
    ensures var taxa := Split(Split(header, '\t')[2], ';');
      && ExtractTaxon(header, position) == Success(taxa[position])
      && ';' !in taxa[position] && '\t' !in taxa[position]
  {
    var fields := Split(header, '\t');
    var taxa := Split(fields[2], ';');
    if '\t' in taxa[position] {
      SplitPartsFromSource(fields[2], ';', position, '\t');
      assert false;
    }
  }

  /** A negative position counts from the end, as Python indexing does. */
  lemma NegativePosition(header: string, position: int)
    requires |Split(header, '\t')| >= 3
    requires var taxa := Split(Split(header, '\t')[2], ';');
      -|taxa| <= position < 0 && taxa[|taxa| + position] != ""
    ensures var taxa := Split(Split(header, '\t')[2], ';');
      && ExtractTaxon(header, position) == Success(taxa[|taxa| + position])
      && ';' !in taxa[|taxa| + position] && '\t' !in taxa[|taxa| + position]
  {
    var fields := Split(header, '\t');
    var taxa := Split(fields[2], ';');
    if '\t' in taxa[|taxa| + position] {
      SplitPartsFromSource(fields[2], ';', |taxa| + position, '\t');
      assert false;
    }
  }

  /** A position below -len(taxa) makes the rank lookup raise IndexError. */
  lemma PositionTooNegative(header: string, position: int)
    requires |Split(header, '\t')| >= 3
    requires position < -|Split(Split(header, '\t')[2], ';')|
    ensures ExtractTaxon(header, position) == Failure(RankIndexOutOfRange)
  {
  }

  /** What remains after remove(""): the last rank itself when the removed
      one came earlier, the one before it when the removed one was last (the
      trailing ';' of a SILVA taxonomy), and nothing for a lone empty rank. */
  lemma UnclassifiedLast(taxa: seq<string>)
    requires "" in taxa
    ensures var i := FirstIndex(taxa, "");
      && (i < |taxa| - 1 ==> Unclassified(taxa) == Success("Unclassified " + taxa[|taxa| - 1]))
      && (i == |taxa| - 1 && |taxa| >= 2 ==> Unclassified(taxa) == Success("Unclassified " + taxa[|taxa| - 2]))
      && (|taxa| == 1 ==> Unclassified(taxa) == Failure(RankIndexOutOfRange))
  {
    var i := FirstIndex(taxa, "");
    var rest := RemoveFirst(taxa, "").value;
    var last := |rest| - 1;
    if i < |taxa| - 1 {
      assert i <= last && rest[last] == taxa[last + 1];
    } else if |taxa| >= 2 {
      assert last < i && rest[last] == taxa[last];
    }
  }

  /** An out-of-range or empty rank sends extract_taxon to the fallback. */
  lemma FallbackBranch(header: string, position: int)
    requires |Split(header, '\t')| >= 3
    requires var taxa := Split(Split(header, '\t')[2], ';');
      position > |taxa| - 1 || PyIndex(taxa, position) == Some("")
    ensures ExtractTaxon(header, position) == Unclassified(Split(Split(header, '\t')[2], ';'))
  {
  }

  /** When the rank is out of range or empty, the first empty rank is removed
      and the last remaining one is reported. */
  lemma UnclassifiedFallback(header: string, position: int)
    requires |Split(header, '\t')| >= 3
    requires var taxa := Split(Split(header, '\t')[2], ';');
      position > |taxa| - 1 || PyIndex(taxa, position) == Some("")
    requires "" in Split(Split(header, '\t')[2], ';')
    ensures var taxa := Split(Split(header, '\t')[2], ';');
      var i := FirstIndex(taxa, "");
      && (i < |taxa| - 1 ==> ExtractTaxon(header, position) == Success("Unclassified " + taxa[|taxa| - 1]))
      && (i == |taxa| - 1 && |taxa| >= 2 ==> ExtractTaxon(header, position) == Success("Unclassified " + taxa[|taxa| - 2]))
      && (|taxa| == 1 ==> ExtractTaxon(header, position) == Failure(RankIndexOutOfRange))
  {
    FallbackBranch(header, position);
    UnclassifiedLast(Split(Split(header, '\t')[2], ';'));
  }

  /** Without an empty rank, an out-of-range position makes remove("") raise. */
  lemma FallbackWithoutEmptyRank(header: string, position: int)
    requires |Split(header, '\t')| >= 3
    requires var taxa := Split(Split(header, '\t')[2], ';');
      position > |taxa| - 1 && "" !in taxa
    ensures ExtractTaxon(header, position) == Failure(NoEmptyRank)
  {
  }

  /** A header with fewer than three fields makes header.split("\t")[2] raise. */
  lemma TooFewFields(header: string, position: int)
    requires |Split(header, '\t')| < 3
    ensures ExtractTaxon(header, position) == Failure(MissingTaxonomyField)
  {
  }

  // ---------------------------------------------------------------------
  // The worked example of the test suite, and two edge cases

  /** Join unfolds on a part put in front. */
  lemma JoinCons(p: string, rest: seq<string>, sep: char)
    requires |rest| >= 1
    ensures Join([p] + rest, sep) == p + [sep] + Join(rest, sep)
  {
    assert ([p] + rest)[1..] == rest;
  }

  /** A character that is neither the separator nor in any part is not in
      their join. */
  lemma {:induction false} JoinAvoids(parts: seq<string>, sep: char, c: char)
    requires |parts| >= 1 && c != sep
    requires forall i :: 0 <= i < |parts| ==> c !in parts[i]
    ensures c !in Join(parts, sep)
    decreases |parts|
  {
    if |parts| > 1 {
      JoinAvoids(parts[1..], sep, c);
    }
  }

  /** The ranks of the SILVA header of test/test_utils.py, ending in the empty
      rank after the trailing ';'. */
  const SilvaRanks := ["Bacteria", "Proteobacteria", "Alphaproteobacteria", "Rhodobacterales",
                       "Rhodobacteraceae", "Oceanicella", ""]
  /** "Bacteria;Proteobacteria;Alphaproteobacteria;Rhodobacterales;Rhodobacteraceae;Oceanicella;" */
  const SilvaTaxonomy := Join(SilvaRanks, ';')
  /** "AY214344.RvmSpec4\t100\t" followed by the taxonomy. */
  const SilvaHeader := Join(["AY214344.RvmSpec4", "100", SilvaTaxonomy], '\t')

  /** No rank holds a ';' or a tab. */
  lemma SilvaRanksPlain()
    ensures forall i :: 0 <= i < |SilvaRanks| ==> ';' !in SilvaRanks[i] && '\t' !in SilvaRanks[i]
  {
    forall i | 0 <= i < |SilvaRanks| ensures ';' !in SilvaRanks[i] && '\t' !in SilvaRanks[i] {
    }
  }

  /** The taxonomy splits back into its ranks. */
  lemma SilvaTaxonomySplits()
    ensures Split(SilvaTaxonomy, ';') == SilvaRanks
  {
    SilvaRanksPlain();
    JoinSplit(SilvaRanks, ';');
  }

  /** The header splits into its three fields. */
  lemma SilvaHeaderSplits()
    ensures Split(SilvaHeader, '\t') == ["AY214344.RvmSpec4", "100", SilvaTaxonomy]
  {
    SilvaRanksPlain();
    JoinAvoids(SilvaRanks, ';', '\t');
    var fields := ["AY214344.RvmSpec4", "100", SilvaTaxonomy];
    assert '\t' !in fields[0] && '\t' !in fields[1];
    JoinSplit(fields, '\t');
  }

  /** Positions 0 to 5 give the six ranks, position 6 the last of them as
      unclassified, as test/test_utils.py expects. */
  lemma SilvaHeaderExample()
    ensures ExtractTaxon(SilvaHeader, 0) == Success("Bacteria")
    ensures ExtractTaxon(SilvaHeader, 1) == Success("Proteobacteria")
    ensures ExtractTaxon(SilvaHeader, 2) == Success("Alphaproteobacteria")
    ensures ExtractTaxon(SilvaHeader, 3) == Success("Rhodobacterales")
    ensures ExtractTaxon(SilvaHeader, 4) == Success("Rhodobacteraceae")
    ensures ExtractTaxon(SilvaHeader, 5) == Success("Oceanicella")
    ensures ExtractTaxon(SilvaHeader, 6) == Success("Unclassified " + "Oceanicella")
  {
    SilvaHeaderSplits();
    SilvaTaxonomySplits();
    RankHit(SilvaHeader, 0);
    RankHit(SilvaHeader, 1);
    RankHit(SilvaHeader, 2);
    RankHit(SilvaHeader, 3);
    RankHit(SilvaHeader, 4);
    RankHit(SilvaHeader, 5);
    assert FirstIndex(SilvaRanks, "") == 6;
    UnclassifiedFallback(SilvaHeader, 6);
  }

  /** Two trailing empty ranks leave an empty one last after remove(""), so
      the fallback names no taxon at all. */
  lemma FallbackAfterTwoEmptyRanks()
    ensures TaxonOfField("A;B;;", 3) == Success("Unclassified " + "")
  {
    var ranks := ["A", "B", "", ""];
    TwoEmptyRanksSplit();
    assert FirstIndex(ranks, "") == 2;
    UnclassifiedLast(ranks);
  }

  /** "A;B;;" splits into A, B and two empty ranks. */
  lemma TwoEmptyRanksSplit()
    ensures Split("A;B;;", ';') == ["A", "B", "", ""]
  {
    var ranks := ["A", "B", "", ""];
    JoinCons("", [""], ';');
    JoinCons("B", ["", ""], ';');
    JoinCons("A", ["B", "", ""], ';');
    assert ["A"] + (["B"] + ([""] + [""])) == ranks;
    assert Join(ranks, ';') == "A;B;;";
    JoinSplit(ranks, ';');
  }

  /** An empty taxonomy field splits into one empty rank; removing it leaves
      nothing for taxa[-1], which raises IndexError. */
  lemma EmptyTaxonomyField()
    ensures TaxonOfField("", 0) == Failure(RankIndexOutOfRange)
  {
    assert Split("", ';') == [""];
    assert RemoveFirst([""], "") == Some([]);
  }
}
