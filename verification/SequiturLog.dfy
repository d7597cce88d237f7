/**
  The accesses to the digram table that a run of the compressor makes, each with the
  memory it was made in.
 */
module SequiturLog {
  import opened Grammar
  import opened SequiturHeap

  /** Every access probes for the digram that starts at a symbol: to look it up, to store
      the symbol there, or to drop the entry if it is the symbol. */
  datatype Kind = Look | Store | Drop
  datatype Access = Access(kind: Kind, h: Heap, x: Ptr)

  /** The table after an access. */
  ghost function TableAfter(a: Access): map<Digram, Ptr>
    requires HasDigram(a.h, a.x)
  {
    var d, table := DigramOf(a.h, a.x), a.h.table;
    match a.kind
    case Look => table
    case Store => table[d := a.x]
    case Drop => if d in table && table[d] == a.x then table - {d} else table
  }

  /** The accesses follow each other from the empty table to `table`, and at every one the
      symbols in the table still start the digrams they are recorded under. */
  ghost predicate History(log: seq<Access>, table: map<Digram, Ptr>) {
    if log == [] then table == map[]
    else
      var a := log[|log| - 1];
      && HasDigram(a.h, a.x) && TableOk(a.h) && table == TableAfter(a)
      && History(log[..|log| - 1], a.h.table)
  }

  ghost function Stores(log: seq<Access>): nat {
    if log == [] then 0 else Stores(log[..|log| - 1]) + if log[|log| - 1].kind == Store then 1 else 0
  }

  lemma HistoryGoesOn(log: seq<Access>, a: Access)
    requires History(log, a.h.table) && HasDigram(a.h, a.x) && TableOk(a.h)
    ensures History(log + [a], TableAfter(a))
    ensures Stores(log + [a]) == Stores(log) + if a.kind == Store then 1 else 0
  {
    hide TableOk, HasDigram;
    assert (log + [a])[..|log|] == log;
  }

  /** Storing a symbol that starts a digram keeps the entries right. */
  lemma StoreKeepsTable(h: Heap, x: Ptr)
    requires TableOk(h) && HasDigram(h, x) && !Guards(h, x) && !Guards(h, h.n[x])
    ensures TableOk(h.(table := h.table[DigramOf(h, x) := x]))
  {
    var g := h.(table := h.table[DigramOf(h, x) := x]);
    forall d | d in g.table ensures Entry(g, d, g.table[d]) {
      if g.table[d] != x { assert Entry(h, d, h.table[d]); }
    }
  }

  /** Dropping entries keeps the others right. */
  lemma DropKeepsTable(h: Heap, table: map<Digram, Ptr>)
    requires TableOk(h) && forall d :: d in table ==> d in h.table && table[d] == h.table[d]
    ensures TableOk(h.(table := table))
  {
    var g := h.(table := table);
    forall d | d in g.table ensures Entry(g, d, g.table[d]) {
      assert Entry(h, d, h.table[d]);
    }
  }
}
