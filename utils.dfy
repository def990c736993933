/** extract_taxon of src/utils.py: the taxon of one rank, read from the
    tab-separated, semicolon-delimited taxonomy field of a SILVA FASTA
    header, with the "Unclassified" fallback. */
module Utils {
  import opened Outcomes

  /** The Python exceptions extract_taxon can raise. */
  datatype TaxonError =
    | MissingTaxonomyField  // IndexError: the header has fewer than three tab-separated fields
    | RankIndexOutOfRange   // IndexError: the rank list cannot be indexed as asked
    | NoEmptyRank           // ValueError: list.remove("") finds no empty rank

  /** Python's str.split(sep) for a one-character separator: always at least
      one part, the parts free of sep. */
  function Split(s: string, sep: char): (parts: seq<string>)
    ensures |parts| >= 1
    ensures forall i :: 0 <= i < |parts| ==> sep !in parts[i]
    decreases |s|
  {
    if |s| == 0 then [""]
    else
      var rest := Split(s[1..], sep);
      if s[0] == sep then [""] + rest
      else [[s[0]] + rest[0]] + rest[1..]
  }

  /** str.join: the parts with sep between neighbours. */
  function Join(parts: seq<string>, sep: char): string
    requires |parts| >= 1
    decreases |parts|
  {
    if |parts| == 1 then parts[0] else parts[0] + [sep] + Join(parts[1..], sep)
  }

  /** Python's xs[i] for a possibly negative i; None where it raises IndexError. */
  function PyIndex(xs: seq<string>, i: int): (r: Option<string>)
    ensures r.Some? <==> -|xs| <= i < |xs|
    ensures 0 <= i < |xs| ==> r == Some(xs[i])
    ensures -|xs| <= i < 0 ==> r == Some(xs[|xs| + i])
  {
    if 0 <= i < |xs| then Some(xs[i])
    else if -|xs| <= i < 0 then Some(xs[|xs| + i])
    else None
  }

  /** The index of the first occurrence of x in xs. */
  function FirstIndex(xs: seq<string>, x: string): (i: nat)
    requires x in xs
    ensures i < |xs| && xs[i] == x
    ensures forall j :: 0 <= j < i ==> xs[j] != x
    decreases |xs|
  {
    if xs[0] == x then 0 else 1 + FirstIndex(xs[1..], x)
  }

  /** list.remove(x): drop the first occurrence of x; None for ValueError. */
  function RemoveFirst(xs: seq<string>, x: string): (r: Option<seq<string>>)
    ensures r.None? <==> x !in xs
    ensures r.Some? ==> |r.value| == |xs| - 1
    ensures r.Some? ==> forall j :: 0 <= j < FirstIndex(xs, x) ==> r.value[j] == xs[j]
    ensures r.Some? ==> forall j :: FirstIndex(xs, x) <= j < |r.value| ==> r.value[j] == xs[j + 1]
  {
    if x in xs then
      var i := FirstIndex(xs, x);
      Some(xs[..i] + xs[i + 1..])
    else None
  }

  /** The else branch: remove the first empty rank, then prefix the last of
      what remains. */
  function Unclassified(taxa: seq<string>): (r: Result<string, TaxonError>)
    ensures r != Failure(MissingTaxonomyField)
    ensures r == Failure(NoEmptyRank) <==> "" !in taxa
    ensures r == Failure(RankIndexOutOfRange) <==> taxa == [""]
    ensures r.Success? ==> exists j :: 0 <= j < |taxa| && r.value == "Unclassified " + taxa[j]
  {
    match RemoveFirst(taxa, "")
    case None => Failure(NoEmptyRank)
    case Some(rest) =>
      if |rest| == 0 then Failure(RankIndexOutOfRange)
      else Success("Unclassified " + rest[|rest| - 1])
  }

  /** The taxon at rank position of a semicolon-delimited taxonomy field. */
  function TaxonOfField(field: string, position: int): (r: Result<string, TaxonError>)
    ensures r != Failure(MissingTaxonomyField)
    ensures r.Success? ==> ';' !in r.value
  {
    var taxa := Split(field, ';');
    if position <= |taxa| - 1 then
      match PyIndex(taxa, position)
      case None => Failure(RankIndexOutOfRange)
      case Some(taxon) => if taxon != "" then Success(taxon) else Unclassified(taxa)
    else Unclassified(taxa)
  }

  /** extract_taxon(header, position): the third tab-separated field of the
      header is the taxonomy. */
  function ExtractTaxon(header: string, position: int): (r: Result<string, TaxonError>)
    ensures r == Failure(MissingTaxonomyField) <==> |Split(header, '\t')| < 3
    ensures r.Success? ==> ';' !in r.value
  {
    var fields := Split(header, '\t');
    if |fields| < 3 then Failure(MissingTaxonomyField)
    else TaxonOfField(fields[2], position)
  }
}
