/**
  Whole runs. Compressing a file and printing its grammar is what the compressor's main
  program does. Compressing a text and restoring it is a composition of this project: the
  grammar of the C++ compressor goes through the numbering and the restoring loop of the
  rule store, which were written for a grammar of the same shape; no program of the
  repository joins the three.
 */
module Archive {
  import opened Grammar
  import opened RuleStore
  import opened Sequitur
  import opened SequiturListing
  import opened SequiturLog
  import opened SequiturState
  import opened SequiturTable

  lemma {:induction false} ReadsNoMore(bytes: seq<int>)
    ensures |CharsRead(bytes)| <= |bytes|
  {
    if bytes != [] { ReadsNoMore(bytes[1..]); }
  }

  /** Reads a file and prints its grammar: the print stands for the file, up to the first
      byte that reads as its end. */
  method CompressAndPrint(bytes: seq<int>) returns (out: seq<int>)
    ensures StandsFor(out, CharsRead(bytes))
  {
    hide Inv, CharsRead, Derives, IsPrinted, StandsFor;
    var c := new Compressor();
    c.Compress(bytes);
    out := c.Print();
    PrintedStandsFor(out, Prod(c.St()), c.s, CharsRead(bytes));
  }

  /** Texts that cannot fill the shortest probe path of the digram table: 33 stores for each
      character are less than its 133267 slots. */
  const SHORT := 4038

  /** Compressing a text of up to that length ends on the array that the program keeps its
      digrams in: the accesses of the run, which the model makes to a finite map, can be
      played on the array from the first to the last, and leave it holding the map. */
  method CompressOnTable(bytes: seq<int>, ghost code: Code) returns (c: Compressor, ghost snaps: seq<Snap>)
    ensures fresh(c) && Derives(Prod(c.St()), c.s, CharsRead(bytes))
    ensures History(c.log, c.mem.table) && Stores(c.log) <= 33 * |CharsRead(bytes)|
    ensures |CharsRead(bytes)| <= SHORT && AllApart(c.log, code) ==>
      Played(c.log, code, snaps) && Mirrors(snaps[|c.log|].contents, c.mem.table, code)
  {
    hide Inv, CharsRead, Derives, History, Stores, AllApart, Played, Mirrors;
    c := new Compressor();
    c.Compress(bytes);
    snaps := [];
    if |CharsRead(bytes)| <= SHORT && AllApart(c.log, code) {
      snaps := RunIsPlayed(c.log, c.mem.table, code);
      PlayedSize(c.log, code, snaps);
    }
  }

  lemma PlayedSize(log: seq<Access>, code: Code, snaps: seq<Snap>)
    requires Played(log, code, snaps)
    ensures |snaps| == |log| + 1
  {
  }

  /** Every input comes back, up to the first byte that reads as end of file. */
  method CompressAndRestore(bytes: seq<int>, dest: array<int>) returns (n: nat)
    requires dest.Length >= |bytes|
    modifies dest
    ensures n == |CharsRead(bytes)| <= dest.Length && dest[..n] == CharsRead(bytes)
  {
    hide Inv;
    hide CharsRead;
    hide Expand;
    hide Ranked;
    var c := new Compressor();
    c.Compress(bytes);
    var g := c.ReadGrammar();
    ghost var rank :| Ranked(g, rank) && Expand(g, rank, c.s) == CharsRead(bytes);
    ReadsNoMore(bytes);
    n := FlattenAndRestore(g, rank, c.s, dest);
  }
}
