/**
  The blog's card grid (src/components/blog/ArticleGrid.tsx): one card per
  usable entry, in order, and the "nothing found" message for an empty list.
 */
module ArticleGrid {
  import opened Outcomes
  import opened Articles
  import Seqs

  /** An entry is rendered only when it is present and has a truthy `objectId`. */
  predicate IsRenderable(entry: Option<Article>) {
    entry.Some? && entry.value.objectId != ""
  }

  /**
    The rendered grid: the cards, each keyed by its article's `objectId`
    and handing that article to `onArticleClick`, and whether the empty
    message is shown.
   */
  datatype GridView = GridView(cards: seq<Article>, showEmptyMessage: bool)

  /**
    The renderable entries, unwrapped: card `i` is the `i`-th entry that
    passes `IsRenderable`, so the cards keep the list's order and its
    repetitions.
   */
  function Cards(entries: seq<Option<Article>>): (cards: seq<Article>)
    ensures |cards| == |Seqs.Filter(entries, IsRenderable)|
    ensures forall i :: 0 <= i < |cards| ==> Some(cards[i]) == Seqs.Filter(entries, IsRenderable)[i]
    ensures forall a :: a in cards <==> Some(a) in entries && a.objectId != ""
  {
    if entries == [] then []
    else
      assert entries == [entries[0]] + entries[1..];
      var rest := Cards(entries[1..]);
      var r := (if IsRenderable(entries[0]) then [entries[0].value] else []) + rest;
      assert Seqs.Filter(entries, IsRenderable)
        == (if IsRenderable(entries[0]) then [entries[0]] else []) + Seqs.Filter(entries[1..], IsRenderable);
      r
  }

  /**
    Each card stands for one renderable entry, in list order: wrapping the
    cards back up gives an order-preserving subsequence of the entries that
    holds every renderable entry as often as the list does.
   */
  lemma CardsKeepOrderAndRepeats(entries: seq<Option<Article>>, e: Option<Article>)
    ensures Seqs.IsSubseq(Entries(Cards(entries)), entries)
    ensures multiset(Entries(Cards(entries)))[e] == if IsRenderable(e) then multiset(entries)[e] else 0
  {
    assert Entries(Cards(entries)) == Seqs.Filter(entries, IsRenderable);
    Seqs.FilterIsSubseq(entries, IsRenderable);
    Seqs.FilterCount(entries, IsRenderable, e);
  }

  /** The grid: the cards of the renderable entries; the message exactly when the list itself is empty. */
  function Render(entries: seq<Option<Article>>): (v: GridView)
    ensures v.showEmptyMessage <==> |entries| == 0
    ensures v.cards == Cards(entries)
  {
    GridView(Cards(entries), |entries| == 0)
  }

  /** The page passes present articles only. */
  function Entries(list: seq<Article>): (entries: seq<Option<Article>>)
    ensures |entries| == |list|
    ensures forall i :: 0 <= i < |list| ==> entries[i] == Some(list[i])
  {
    if list == [] then [] else [Some(list[0])] + Entries(list[1..])
  }

  /** Every entry either becomes a card or is skipped. */
  lemma {:induction false} CardsAndSkippedPartition(entries: seq<Option<Article>>)
    ensures |Cards(entries)| + |Skipped(entries)| == |entries|
  {
    if entries != [] {
      CardsAndSkippedPartition(entries[1..]);
      assert entries == [entries[0]] + entries[1..];
    }
  }

  /** The entries the grid skips, in order. */
  function Skipped(entries: seq<Option<Article>>): (skipped: seq<Option<Article>>)
    ensures |skipped| <= |entries|
    ensures forall e :: e in skipped <==> e in entries && !IsRenderable(e)
  {
    if entries == [] then []
    else (if IsRenderable(entries[0]) then [] else [entries[0]]) + Skipped(entries[1..])
  }

  /** A non-empty list of unusable entries renders neither a card nor the empty message. */
  lemma {:induction false} AllInvalidRendersNothing(entries: seq<Option<Article>>)
    requires |entries| > 0
    requires forall i :: 0 <= i < |entries| ==> !IsRenderable(entries[i])
    ensures Render(entries).cards == [] && !Render(entries).showEmptyMessage
  {
    NoRenderableNoCards(entries);
  }

  lemma {:induction false} NoRenderableNoCards(entries: seq<Option<Article>>)
    requires forall i :: 0 <= i < |entries| ==> !IsRenderable(entries[i])
    ensures Cards(entries) == []
  {
    if entries != [] {
      NoRenderableNoCards(entries[1..]);
    }
  }

  /** When every article has an id, the grid shows all of them, in order. */
  lemma {:induction false} AllValidRendersAll(list: seq<Article>)
    requires forall i :: 0 <= i < |list| ==> list[i].objectId != ""
    ensures Render(Entries(list)).cards == list
  {
    if list != [] {
      AllValidRendersAll(list[1..]);
      assert Entries(list)[1..] == Entries(list[1..]);
    }
  }
}
