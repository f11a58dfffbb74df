/** Why the order of a federated read needs every page but the last to hold an item. */
module EmptyPages {
  import opened Streams
  import opened GreedyMerge
  import opened ScopedResults

  /** Service 2 answers an empty page before the page that holds its only item. */
  function Gapped(s: Sid, at: Cursor): Page {
    if s == 1 then Page([Item("y", 1)], None)
    else if at == Start then Page([], Some("more"))
    else Page([Item("x", 9)], None)
  }

  function LastOf(s: Sid): nat {
    if s == 1 then 0 else 1
  }

  lemma GappedStreams()
    ensures Ends(Gapped, 1, 0) && Stream(Gapped, 1, 0) == [Item("y", 1)]
    ensures Ends(Gapped, 2, 1) && Stream(Gapped, 2, 1) == [Item("x", 9)]
  {
    assert NthCursor(Gapped, 1, 1) == Start;
    assert NthCursor(Gapped, 2, 1) == At("more");
    assert NthCursor(Gapped, 2, 2) == Start;
    assert Read(Gapped, 1, 1) == [Item("y", 1)];
    assert Read(Gapped, 2, 1) == [];
    assert Read(Gapped, 2, 2) == [Item("x", 9)];
  }

  /** The state of a first call once both services have been read. */
  function BothRead(): View {
    var v := View(map[], map[], map[], [], [], []);
    AfterLoad(AfterLoad(v, 2, Fetched(Gapped(2, Start))), 1, Fetched(Gapped(1, Start)))
  }

  /** A service that answers an empty page before its last sits out the call. The merge emits the item
      of the other service, although the greedy merge begins with the one held back. */
  lemma EmptyPageBreaksOrder()
    ensures Finite(Gapped, [2, 1], LastOf) && BothRead().errors == []
    ensures IsBest(BothRead().pages, 1) && SlotIn(BothRead(), 1).rows != []
    ensures AfterShift(BothRead(), 1).items == [Item("y", 1)]
    ensures Take(map[2 := Stream(Gapped, 2, 1), 1 := Stream(Gapped, 1, 0)], 1) == [(2, Item("x", 9))]
  {
    GappedStreams();
    var streams := map[2 := Stream(Gapped, 2, 1), 1 := Stream(Gapped, 1, 0)];
    assert IsBest(streams, 2);
    TakeOneMore(streams, 0, 2);
  }
}
