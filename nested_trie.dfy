/** The nested-dictionary form of kmer_dict in src/tree.py: one dictionary
    level per letter of the k-mer but the last, whose letter keys the
    integer count.  The lemmas show that the walks of add_sequence and
    get_count act on this trie exactly as the flat map of module Tree is
    updated and read. */
module NestedTrie {
  import opened Tree

  /** A dictionary level keyed by letters, or a stored count. */
  datatype Trie = Level(children: map<char, Trie>) | Count(n: nat)

  /** d dictionary levels sit above every count. */
  ghost predicate Shaped(t: Trie, d: nat)
    decreases d
  {
    if d == 0 then t.Count?
    else t.Level? && forall c :: c in t.children ==> Shaped(t.children[c], d - 1)
  }

  /** The count stored along the path w, or 0 when the path is missing. */
  function Get(t: Trie, w: string): nat
    decreases |w|
  {
    if |w| == 0 then (if t.Count? then t.n else 0)
    else if t.Level? && w[0] in t.children then Get(t.children[w[0]], w[1..])
    else 0
  }

  /** The child under letter c, or the empty level the walk would create. */
  function Child(t: Trie, c: char): Trie
    requires t.Level?
  {
    if c in t.children then t.children[c] else Level(map[])
  }

  /** The walk of get_count over kmer[:-1]: every missing level on the path
      is created empty; the last letter is only read. */
  function Touch(t: Trie, w: string): (r: Trie)
    requires |w| >= 1 && Shaped(t, |w|)
    ensures Shaped(r, |w|)
    decreases |w|
  {
    if |w| == 1 then t
    else Level(t.children[w[0] := Touch(Child(t, w[0]), w[1..])])
  }

  /** The walk of add_sequence: create missing levels along kmer[:-1], then
      increment the count under the last letter, or store 1 there. */
  function Bump(t: Trie, w: string): (r: Trie)
    requires |w| >= 1 && Shaped(t, |w|)
    ensures Shaped(r, |w|)
    decreases |w|
  {
    if |w| == 1 then
      Level(t.children[w[0] := Count(if w[0] in t.children then t.children[w[0]].n + 1 else 1)])
    else
      Level(t.children[w[0] := Bump(Child(t, w[0]), w[1..])])
  }

  /** The trie holds exactly the counts of the flat map. */
  ghost predicate Represents(t: Trie, m: map<string, nat>) {
    forall v :: Get(t, v) == Lookup(m, v)
  }

  /** Incrementing along w raises the count of w by one and of nothing else. */
  lemma {:induction false} BumpGet(t: Trie, w: string, v: string)
    requires |w| >= 1 && Shaped(t, |w|)
    ensures Get(Bump(t, w), v) == Get(t, v) + (if v == w then 1 else 0)
    decreases |w|
  {
    if |v| == 0 || v[0] != w[0] {
      assert v != w;
    } else if |w| == 1 {
      assert v == w <==> |v| == 1;
    } else {
      BumpGet(Child(t, w[0]), w[1..], v[1..]);
      assert v == w <==> v[1..] == w[1..];
    }
  }

  /** The levels get_count creates change no count. */
  lemma {:induction false} TouchGet(t: Trie, w: string, v: string)
    requires |w| >= 1 && Shaped(t, |w|)
    ensures Get(Touch(t, w), v) == Get(t, v)
    decreases |w|
  {
    if |w| > 1 && |v| > 0 && v[0] == w[0] {
      TouchGet(Child(t, w[0]), w[1..], v[1..]);
    }
  }

  /** Only paths of exactly the trie's depth lead to a count. */
  lemma {:induction false} GetOffDepth(t: Trie, d: nat, v: string)
    requires Shaped(t, d) && |v| != d
    ensures Get(t, v) == 0
    decreases |v|
  {
    if |v| > 0 && d > 0 && v[0] in t.children {
      GetOffDepth(t.children[v[0]], d - 1, v[1..]);
    }
  }

  /** The empty dictionary of __init__ is the empty map. */
  lemma EmptyRepresents()
    ensures Represents(Level(map[]), map[])
  {
    forall v ensures Get(Level(map[]), v) == Lookup(map[], v) {
    }
  }

  /** One counted window: the trie update of add_sequence matches the map
      update of KmerTree.AddSequence. */
  lemma BumpRepresents(t: Trie, m: map<string, nat>, w: string)
    requires |w| >= 1 && Shaped(t, |w|) && Represents(t, m)
    ensures Represents(Bump(t, w), m[w := Lookup(m, w) + 1])
  {
    forall v ensures Get(Bump(t, w), v) == Lookup(m[w := Lookup(m, w) + 1], v) {
      BumpGet(t, w, v);
    }
  }

  /** The lookup of get_count, walk included, reads the count of the map and
      leaves a trie that still represents it. */
  lemma TouchRepresents(t: Trie, m: map<string, nat>, w: string)
    requires |w| >= 1 && Shaped(t, |w|) && Represents(t, m)
    ensures Represents(Touch(t, w), m)
    ensures Get(Touch(t, w), w) == Lookup(m, w)
  {
    forall v ensures Get(Touch(t, w), v) == Lookup(m, v) {
      TouchGet(t, w, v);
    }
  }

  /** Only k-long paths of a trie of depth k hold a count, so the map it
      represents has Valid's length-k keys. */
  lemma RepresentedKeysHaveDepth(t: Trie, d: nat, m: map<string, nat>)
    requires Shaped(t, d) && Represents(t, m)
    ensures forall v :: Lookup(m, v) > 0 ==> |v| == d
  {
    forall v | |v| != d
      ensures Lookup(m, v) == 0
    {
      GetOffDepth(t, d, v);
    }
  }

  /** The loop of add_sequence over the first n offsets of s: every clean
      window is added to the trie, every other one skipped. */
  function Train(t: Trie, s: string, k: nat, ignored: set<char>, n: nat): (r: Trie)
    requires k >= 1 && Shaped(t, k) && n <= Windows(s, k)
    ensures Shaped(r, k)
    decreases n
  {
    if n == 0 then t
    else
      var prev := Train(t, s, k, ignored, n - 1);
      var w := Window(s, k, n - 1);
      if Clean(w, ignored) then Bump(prev, w) else prev
  }

  /** The loop adds to every path the number of its clean windows so far. */
  lemma {:induction false} TrainGet(t: Trie, s: string, k: nat, ignored: set<char>, n: nat, v: string)
    requires k >= 1 && Shaped(t, k) && n <= Windows(s, k)
    ensures Get(Train(t, s, k, ignored, n), v) == Get(t, v) + Hits(s, k, ignored, v, n)
    decreases n
  {
    if n > 0 {
      TrainGet(t, s, k, ignored, n - 1, v);
      var w := Window(s, k, n - 1);
      if Clean(w, ignored) {
        BumpGet(Train(t, s, k, ignored, n - 1), w, v);
      }
    }
  }

  /** The whole loop of add_sequence on the nested dictionaries adds the
      occurrences of s to every count, as KmerTree.AddSequence does on the
      flat map. */
  lemma TrainRepresents(t: Trie, m: map<string, nat>, s: string, k: nat, ignored: set<char>)
    requires k >= 1 && Shaped(t, k) && Represents(t, m)
    ensures forall v :: Get(Train(t, s, k, ignored, Windows(s, k)), v) == Lookup(m, v) + Occurrences(s, k, ignored, v)
  {
    forall v ensures Get(Train(t, s, k, ignored, Windows(s, k)), v) == Lookup(m, v) + Occurrences(s, k, ignored, v) {
      TrainGet(t, s, k, ignored, Windows(s, k), v);
    }
  }
}
