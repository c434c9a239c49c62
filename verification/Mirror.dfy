/** The boot mirror: which records `writeMirror` keeps, and what `hydrateFromMirror` reads back. */
module Mirror {
  import opened RequestRecord
  import opened RequestStore
  import opened StableSort
  import RequestIndex

  const MIRROR_SETTLED_LIMIT := 50

  /** An entry of memory in the order memory lists it. */
  datatype Item = Item(key: Key, record: Record)

  function FinishedAt(d: Durable): int {
    if Finished(d) then d.statusAt else 0
  }

  function Rank(item: Item): int {
    FinishedAt(item.record.durable)
  }

  /** The finished records, or the unfinished ones, in order. */
  function Those(all: seq<Item>, finished: bool): seq<Item> {
    if all == [] then []
    else
      Those(all[..|all| - 1], finished)
      + if Finished(all[|all| - 1].record.durable) == finished then [all[|all| - 1]] else []
  }

  /** The most recently finished records, as many as the mirror takes. */
  function Recent(all: seq<Item>): seq<Item> {
    var sorted := SortFalling(Those(all, true), Rank);
    if |sorted| <= MIRROR_SETTLED_LIMIT then sorted else sorted[..MIRROR_SETTLED_LIMIT]
  }

  function Records(items: seq<Item>): map<Key, Record> {
    if items == [] then map[]
    else Records(items[..|items| - 1])[items[|items| - 1].key := items[|items| - 1].record]
  }

  function Written(all: seq<Item>): map<Key, Record> {
    Records(Those(all, false) + Recent(all))
  }

  /** Memory after the mirror is read into it; an entry already there is left alone. */
  function Hydrated(entries: map<Key, Entry>, mirror: map<Key, Record>): map<Key, Entry> {
    entries
    + map k | k in mirror && k !in entries && RequestIndex.ParseRefKey(k).Some?
        :: Entry(mirror[k], false, false, false)
  }

  ghost predicate Distinct(all: seq<Item>) {
    forall i, j | 0 <= i < j < |all| :: all[i].key != all[j].key
  }

  lemma {:induction false} ThoseGrows(all: seq<Item>, finished: bool, i: nat)
    requires i < |all|
    ensures Those(all[..i + 1], finished)
            == Those(all[..i], finished) + if Finished(all[i].record.durable) == finished then [all[i]] else []
  {
    assert all[..i + 1][..i] == all[..i];
  }

  lemma {:induction false} RecordsGrow(items: seq<Item>, item: Item)
    ensures Records(items + [item]) == Records(items)[item.key := item.record]
  {
    assert (items + [item])[..|items|] == items;
  }

  lemma KeptGrows(all: seq<Item>, i: nat)
    requires i < |all|
    ensures var before := Records(Those(all[..i], false));
            Records(Those(all[..i + 1], false))
            == if Finished(all[i].record.durable) then before else before[all[i].key := all[i].record]
    ensures Those(all[..i + 1], true)
            == if Finished(all[i].record.durable) then Those(all[..i], true) + [all[i]] else Those(all[..i], true)
  {
    ThoseGrows(all, false, i);
    ThoseGrows(all, true, i);
    RecordsGrow(Those(all[..i], false), all[i]);
    assert Those(all[..i], false) + [] == Those(all[..i], false);
    assert Those(all[..i], true) + [] == Those(all[..i], true);
  }

  lemma {:induction false} RecentGrows(unfinished: seq<Item>, recent: seq<Item>, i: nat)
    requires i < |recent|
    ensures Records(unfinished + recent[..i + 1])
            == Records(unfinished + recent[..i])[recent[i].key := recent[i].record]
  {
    RecordsGrow(unfinished + recent[..i], recent[i]);
    assert unfinished + recent[..i + 1] == unfinished + recent[..i] + [recent[i]];
  }

  method WriteMirror(all: seq<Item>) returns (kept: map<Key, Record>)
    ensures kept == Written(all)
  {
    kept := map[];
    var finished: seq<Item> := [];
    for i := 0 to |all|
      invariant kept == Records(Those(all[..i], false))
      invariant finished == Those(all[..i], true)
    {
      KeptGrows(all, i);
      if !Finished(all[i].record.durable) {
        kept := kept[all[i].key := all[i].record];
      } else {
        finished := finished + [all[i]];
      }
    }
    assert all[..|all|] == all;
    var sorted := SortFalling(finished, Rank);
    var recent := if |sorted| <= MIRROR_SETTLED_LIMIT then sorted else sorted[..MIRROR_SETTLED_LIMIT];
    ghost var unfinished := Those(all, false);
    assert unfinished + recent[..0] == unfinished;
    for i := 0 to |recent|
      invariant kept == Records(unfinished + recent[..i])
    {
      RecentGrows(unfinished, recent, i);
      kept := kept[recent[i].key := recent[i].record];
    }
    assert recent[..|recent|] == recent;
  }

  // ----- what is kept

  lemma {:induction false} ThoseMembers(all: seq<Item>, finished: bool, item: Item)
    ensures item in Those(all, finished) <==> item in all && Finished(item.record.durable) == finished
  {
    if all != [] {
      ThoseMembers(all[..|all| - 1], finished, item);
      assert all == all[..|all| - 1] + [all[|all| - 1]];
    }
  }

  lemma {:induction false} ThoseDistinct(all: seq<Item>, finished: bool)
    requires Distinct(all)
    ensures Distinct(Those(all, finished))
  {
    if all != [] {
      var front := all[..|all| - 1];
      ThoseDistinct(front, finished);
      forall i | 0 <= i < |Those(front, finished)|
        ensures Those(front, finished)[i].key != all[|all| - 1].key
      {
        ThoseMembers(front, finished, Those(front, finished)[i]);
      }
    }
  }

  /** What is kept is no more than the limit, and nothing dropped finished after anything kept. */
  lemma {:induction false} RecentAreLatest(all: seq<Item>)
    ensures |Recent(all)|
            == if |Those(all, true)| <= 50 then |Those(all, true)| else 50
    ensures forall x | x in Recent(all) :: x in all && Finished(x.record.durable)
    ensures forall x, y | x in Recent(all) && y in all && Finished(y.record.durable) && y !in Recent(all) ::
              x.record.durable.statusAt >= y.record.durable.statusAt
  {
    var those, sorted := Those(all, true), SortFalling(Those(all, true), Rank);
    SortFits(those, Rank);
    assert |sorted| == |multiset(sorted)| == |multiset(those)| == |those|;
    forall x | x in Recent(all) ensures x in all && Finished(x.record.durable) {
      assert x in multiset(sorted);
      ThoseMembers(all, true, x);
    }
    forall x, y | x in Recent(all) && y in all && Finished(y.record.durable) && y !in Recent(all)
      ensures x.record.durable.statusAt >= y.record.durable.statusAt
    {
      ThoseMembers(all, true, y);
      assert y in multiset(sorted);
      var i :| 0 <= i < |Recent(all)| && Recent(all)[i] == x;
      var j :| 0 <= j < |sorted| && sorted[j] == y;
      assert sorted[i] == x;
      assert j >= |Recent(all)| && Rank(x) >= Rank(y);
    }
  }

  lemma {:induction false} RecordsHold(items: seq<Item>, all: seq<Item>)
    requires forall item | item in items :: item in all
    requires Distinct(all)
    ensures forall item | item in all :: item.key in Records(items) <==> item in items
    ensures forall item | item in items :: item.key in Records(items) && Records(items)[item.key] == item.record
    ensures forall k | k in Records(items) :: exists item :: item in items && item.key == k
  {
    if items != [] {
      var front, last := items[..|items| - 1], items[|items| - 1];
      assert items == front + [last] && last in items;
      RecordsHold(front, all);
      forall item | item in all && item.key == last.key ensures item == last {
        var i :| 0 <= i < |all| && all[i] == item;
        var j :| 0 <= j < |all| && all[j] == last;
      }
      forall k | k in Records(items) ensures exists item :: item in items && item.key == k {
        if k == last.key {
          assert last in items;
        } else {
          var item :| item in front && item.key == k;
          assert item in items;
        }
      }
    }
  }

  lemma WrittenHolds(all: seq<Item>)
    requires Distinct(all)
    ensures var mirror := Written(all);
            && (forall item | item in all ::
                  item.key in mirror <==> !Finished(item.record.durable) || item in Recent(all))
            && (forall item | item in all && item.key in mirror :: mirror[item.key] == item.record)
            && (forall k | k in mirror :: exists item :: item in all && item.key == k)
  {
    var items := Those(all, false) + Recent(all);
    RecentAreLatest(all);
    forall item | item in items ensures item in all {
      ThoseMembers(all, false, item);
    }
    RecordsHold(items, all);
    forall item | item in all
      ensures item in items <==> !Finished(item.record.durable) || item in Recent(all)
    {
      ThoseMembers(all, false, item);
    }
    forall k | k in Written(all) ensures exists item :: item in all && item.key == k {
      var item :| item in items && item.key == k;
      assert item in all;
    }
  }

  /** Hydrating an empty memory from what memory wrote brings back, clean and under its own key, every
      unfinished record and exactly the most recently finished ones, as far as their keys are those of
      requests; hydrating any memory replaces nothing in it. */
  lemma MirrorRoundTrip(all: seq<Item>, entries: map<Key, Entry>)
    requires Distinct(all)
    ensures var back := Hydrated(map[], Written(all));
            && (forall item | item in all ::
                  item.key in back <==>
                    && RequestIndex.ParseRefKey(item.key).Some?
                    && (!Finished(item.record.durable) || item in Recent(all)))
            && (forall item | item in all && item.key in back ::
                  back[item.key] == Entry(item.record, false, false, false))
            && (forall k | k in back :: exists item :: item in all && item.key == k)
    ensures forall k | k in entries ::
              k in Hydrated(entries, Written(all)) && Hydrated(entries, Written(all))[k] == entries[k]
  {
    WrittenHolds(all);
    var mirror := Written(all);
    var back := Hydrated(map[], mirror);
    forall k | k in back ensures exists item :: item in all && item.key == k {
      assert k in mirror;
    }
  }
}
