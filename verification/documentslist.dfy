/**
 * The document list view: the search and category filter, the sort by
 * name, size or date in either direction, the sort-header state machine,
 * and the steps of deleting a document.
 *
 * `localeCompare` is modelled as character order and `toLowerCase` as ASCII
 * lower-casing.
 */
module DocumentsList {
  import opened Wrappers
  import opened Text
  import opened Lists
  import opened Sorting
  import opened Types
  import Progress

  // ---------------------------------------------------------------------
  // Search and category filter
  // ---------------------------------------------------------------------

  /**
   * A document is listed when its lower-cased name contains the lower-cased
   * query, and the category filter is empty or equals its category.
   */
  predicate Matches(doc: Document, query: string, category: string) {
    Contains(Lower(doc.name), Lower(query)) && (category == "" || doc.category == category)
  }

  /** With an empty query and no category, every document is listed. */
  lemma EmptyFilterMatchesAll(doc: Document)
    ensures Matches(doc, "", "")
  {
    ContainsEmpty(Lower(doc.name));
  }

  // ---------------------------------------------------------------------
  // Comparison
  // ---------------------------------------------------------------------

  /** `a.localeCompare(b)` restricted to character order: negative, zero or positive. */
  function LexCompare(a: string, b: string): (c: int)
    ensures -1 <= c <= 1
    decreases |a|
  {
    if |a| == 0 && |b| == 0 then 0
    else if |a| == 0 then -1
    else if |b| == 0 then 1
    else if a[0] < b[0] then -1
    else if a[0] > b[0] then 1
    else LexCompare(a[1..], b[1..])
  }

  /** Swapping the arguments negates the comparison. */
  lemma {:induction false} LexAntisymmetric(a: string, b: string)
    ensures LexCompare(a, b) == -LexCompare(b, a)
    decreases |a|
  {
    if |a| > 0 && |b| > 0 && a[0] == b[0] {
      LexAntisymmetric(a[1..], b[1..]);
    }
  }

  /** Two strings compare equal exactly when they are the same string. */
  lemma {:induction false} LexZero(a: string, b: string)
    ensures LexCompare(a, b) == 0 <==> a == b
    decreases |a|
  {
    if |a| > 0 && |b| > 0 && a[0] == b[0] {
      LexZero(a[1..], b[1..]);
      if a[1..] == b[1..] {
        assert a == [a[0]] + a[1..] && b == [b[0]] + b[1..];
      }
    }
  }

  /** "Not after" is transitive. */
  lemma {:induction false} LexTransitive(a: string, b: string, c: string)
    requires LexCompare(a, b) <= 0 && LexCompare(b, c) <= 0
    ensures LexCompare(a, c) <= 0
    decreases |a|
  {
    if |a| > 0 && |b| > 0 && |c| > 0 && a[0] == b[0] && b[0] == c[0] {
      LexTransitive(a[1..], b[1..], c[1..]);
    }
  }

  datatype SortKey = ByDate | ByName | BySize

  datatype SortOrder = Asc | Desc

  /**
   * The comparator's value before the direction is applied: negative when
   * `a` belongs first, zero on a tie, positive when `b` belongs first.
   */
  function Comparison(key: SortKey, a: Document, b: Document): (c: int)
    ensures key == ByName ==> -1 <= c <= 1 && (c == 0 <==> a.name == b.name)
    ensures key == BySize ==> (c < 0 <==> a.fileSize < b.fileSize) && (c == 0 <==> a.fileSize == b.fileSize)
    ensures key == ByDate ==> (c < 0 <==> a.createdAt < b.createdAt) && (c == 0 <==> a.createdAt == b.createdAt)
  {
    match key
    case ByName => LexZero(a.name, b.name); LexCompare(a.name, b.name)
    case BySize => a.fileSize - b.fileSize
    case ByDate => a.createdAt - b.createdAt
  }

  /** The comparator passed to `sort`: negated for a descending order. */
  function Compare(key: SortKey, order: SortOrder, a: Document, b: Document): (c: int)
    ensures order == Asc ==> c == Comparison(key, a, b)
    ensures order == Desc ==> c == -Comparison(key, a, b)
  {
    if order == Asc then Comparison(key, a, b) else -Comparison(key, a, b)
  }

  /** `a` may come before `b`: the comparator does not put it after. */
  function Precedes(key: SortKey, order: SortOrder): (Document, Document) -> bool {
    (a: Document, b: Document) => Compare(key, order, a, b) <= 0
  }

  /** The comparator is antisymmetric for every key and direction. */
  lemma CompareAntisymmetric(key: SortKey, order: SortOrder, a: Document, b: Document)
    ensures Compare(key, order, a, b) == -Compare(key, order, b, a)
  {
    if key == ByName {
      LexAntisymmetric(a.name, b.name);
    }
  }

  /** Any two documents can be ordered one way or the other. */
  lemma PrecedesTotal(key: SortKey, order: SortOrder)
    ensures Total(Precedes(key, order))
  {
    forall a: Document, b: Document
      ensures Precedes(key, order)(a, b) || Precedes(key, order)(b, a)
    {
      CompareAntisymmetric(key, order, a, b);
    }
  }

  /** The order the comparator induces is transitive. */
  lemma PrecedesTransitive(key: SortKey, order: SortOrder)
    ensures Transitive(Precedes(key, order))
  {
    forall a: Document, b: Document, c: Document
      | Precedes(key, order)(a, b) && Precedes(key, order)(b, c)
      ensures Precedes(key, order)(a, c)
    {
      if key == ByName {
        if order == Asc {
          LexTransitive(a.name, b.name, c.name);
        } else {
          LexAntisymmetric(a.name, b.name);
          LexAntisymmetric(b.name, c.name);
          LexAntisymmetric(a.name, c.name);
          LexTransitive(c.name, b.name, a.name);
        }
      }
    }
  }

  // ---------------------------------------------------------------------
  // filteredAndSortedDocuments
  // ---------------------------------------------------------------------

  /** The listed documents: those that match, stably sorted by the comparator. */
  function FilteredAndSorted(docs: seq<Document>, query: string, category: string, key: SortKey,
                             order: SortOrder): (r: seq<Document>)
    ensures |r| <= |docs|
    ensures multiset(r) == multiset(Filter(docs, (d: Document) => Matches(d, query, category)))
  {
    Sort(Filter(docs, (d: Document) => Matches(d, query, category)), Precedes(key, order))
  }

  /** A document is listed exactly when it is one of the documents and it matches. */
  lemma ListedMember(docs: seq<Document>, query: string, category: string, key: SortKey, order: SortOrder,
                     d: Document)
    ensures d in FilteredAndSorted(docs, query, category, key, order) <==> d in docs && Matches(d, query, category)
  {
    var keep := (x: Document) => Matches(x, query, category);
    FilterMember(docs, keep, d);
    var r := FilteredAndSorted(docs, query, category, key, order);
    assert d in r <==> d in multiset(r);
  }

  /** Each matching document is listed as often as it occurs; no other document is listed. */
  lemma ListedCount(docs: seq<Document>, query: string, category: string, key: SortKey, order: SortOrder,
                    d: Document)
    ensures multiset(FilteredAndSorted(docs, query, category, key, order))[d]
         == if Matches(d, query, category) then multiset(docs)[d] else 0
  {
    FilterCount(docs, (x: Document) => Matches(x, query, category), d);
  }

  /** With an empty query and no category, the list is a rearrangement of all documents. */
  lemma EmptyFilterListsAll(docs: seq<Document>, key: SortKey, order: SortOrder)
    ensures multiset(FilteredAndSorted(docs, "", "", key, order)) == multiset(docs)
  {
    forall i | 0 <= i < |docs|
      ensures Matches(docs[i], "", "")
    {
      EmptyFilterMatchesAll(docs[i]);
    }
  }

  /** The list is in the chosen order: no document is placed after one it should follow. */
  lemma ListedSorted(docs: seq<Document>, query: string, category: string, key: SortKey, order: SortOrder)
    ensures var r := FilteredAndSorted(docs, query, category, key, order);
      forall i, j :: 0 <= i < j < |r| ==> Compare(key, order, r[i], r[j]) <= 0
  {
    var filtered := Filter(docs, (d: Document) => Matches(d, query, category));
    PrecedesTotal(key, order);
    SortSorted(filtered, Precedes(key, order));
    PrecedesTransitive(key, order);
    SortedIsSortedAll(Sort(filtered, Precedes(key, order)), Precedes(key, order));
  }

  /**
   * Documents the comparator cannot tell apart keep their list order: for
   * any `k`, those that tie with `k` are listed in the order in which they
   * occur among the matching documents.
   */
  lemma ListedStable(docs: seq<Document>, query: string, category: string, key: SortKey, order: SortOrder,
                     k: Document)
    ensures Filter(FilteredAndSorted(docs, query, category, key, order), Ties(Precedes(key, order), k))
         == Filter(Filter(docs, (d: Document) => Matches(d, query, category)), Ties(Precedes(key, order), k))
  {
    PrecedesTransitive(key, order);
    SortStable(Filter(docs, (d: Document) => Matches(d, query, category)), Precedes(key, order), k);
  }

  // ---------------------------------------------------------------------
  // handleSortChange
  // ---------------------------------------------------------------------

  datatype SortState = SortState(key: SortKey, order: SortOrder)

  function Flip(order: SortOrder): SortOrder {
    if order == Asc then Desc else Asc
  }

  /** `handleSortChange(newKey)`: the same key flips the direction; a new key starts descending. */
  function HandleSortChange(s: SortState, newKey: SortKey): (r: SortState)
    ensures r.key == newKey
    ensures newKey == s.key ==> r.order != s.order
    ensures newKey != s.key ==> r.order == Desc
  {
    if s.key == newKey then SortState(s.key, Flip(s.order)) else SortState(newKey, Desc)
  }

  /** Clicking the same header twice restores the state. */
  lemma SortChangeTwice(s: SortState)
    ensures HandleSortChange(HandleSortChange(s, s.key), s.key) == s
  {
  }

  /** From any state, at most two clicks on a header reach either direction for it. */
  lemma SortChangeReaches(s: SortState, key: SortKey, order: SortOrder)
    ensures var once := HandleSortChange(s, key);
      once == SortState(key, order) || HandleSortChange(once, key) == SortState(key, order)
  {
  }

  // ---------------------------------------------------------------------
  // handleDelete
  // ---------------------------------------------------------------------

  /** What deleting does besides reporting progress. */
  datatype DeleteAction = RemoveObject(path: string) | DeleteRow(id: string) | Refetch

  const DeleteFailedMessage: string := "Failed to delete document"

  /**
   * `handleDelete(doc)`: the steps taken, given whether removing the stored
   * object fails and whether deleting the row fails.
   */
  function HandleDelete(doc: Document, storageFails: bool, rowFails: bool): (t: seq<Progress.Step<DeleteAction>>)
    ensures |t| >= 4
    ensures t[0] == Progress.Report(Progress.Add(Progress.Delete, doc.name))
    ensures t[1] == Progress.Report(Progress.Update(20, Some(Progress.Processing), None))
    ensures t[2] == Progress.Act(RemoveObject(doc.filePath))
  {
    DeleteStarted(doc) + AfterRemoval(doc, storageFails, rowFails)
  }

  /** The first steps: the item is added, set to 20 'processing', and the stored object is removed. */
  function DeleteStarted(doc: Document): (t: seq<Progress.Step<DeleteAction>>)
    ensures |t| == 3
  {
    [ Progress.Report(Progress.Add(Progress.Delete, doc.name)),
      Progress.Report(Progress.Update(20, Some(Progress.Processing), None)),
      Progress.Act(RemoveObject(doc.filePath)) ]
  }

  /** The catch block's report. */
  const DeleteFailed: Progress.Step<DeleteAction> :=
    Progress.Report(Progress.Update(0, Some(Progress.Failed), Some(DeleteFailedMessage)))

  /** The steps after the stored object's removal. */
  function AfterRemoval(doc: Document, storageFails: bool, rowFails: bool): (t: seq<Progress.Step<DeleteAction>>)
    ensures |t| >= 1
  {
    if storageFails then [DeleteFailed]
    else [Progress.Report(Progress.Update(70, None, None))] + ([Progress.Act(DeleteRow(doc.id))] + AfterRowDelete(rowFails))
  }

  /** The steps after the row's deletion. */
  function AfterRowDelete(rowFails: bool): (t: seq<Progress.Step<DeleteAction>>)
    ensures |t| >= 1
  {
    if rowFails then [DeleteFailed]
    else [Progress.Report(Progress.Update(100, Some(Progress.Success), None))] + [Progress.Act(Refetch)]
  }

  /** The row is deleted only after its object was removed, and only if that succeeded. */
  lemma DeleteOrder(doc: Document, storageFails: bool, rowFails: bool)
    ensures var t := HandleDelete(doc, storageFails, rowFails);
      && (Progress.Act(DeleteRow(doc.id)) in t <==> !storageFails)
      && (forall i :: 0 <= i < |t| && t[i] == Progress.Act(DeleteRow(doc.id)) ==> i > 2)
      && (Progress.Act(Refetch) in t <==> !storageFails && !rowFails)
  {
    var t := HandleDelete(doc, storageFails, rowFails);
    if !storageFails {
      assert t[4] == Progress.Act(DeleteRow(doc.id));
      if !rowFails {
        assert t[6] == Progress.Act(Refetch);
      }
    }
  }

  /**
   * Replayed on a progress list without the fresh id, the delete steps leave
   * one new delete item: at 100 'success' when both removals succeed, at
   * 0 'error' with "Failed to delete document" otherwise.
   */
  lemma DeleteProgress(items: seq<Progress.ProgressItem>, id: string, doc: Document,
                       storageFails: bool, rowFails: bool)
    requires !Progress.HasId(items, id)
    ensures var ok := !storageFails && !rowFails;
      Progress.Replay(items, id, Progress.Calls(HandleDelete(doc, storageFails, rowFails)))
      == items + [Progress.ProgressItem(id, Progress.Delete, doc.name,
                                        if ok then 100 else 0,
                                        if ok then Progress.Success else Progress.Failed,
                                        if ok then None else Some(DeleteFailedMessage))]
  {
    var updates := DeleteUpdates(storageFails, rowFails);
    DeleteCalls(doc, storageFails, rowFails);
    Progress.ReplayFresh(items, id, Progress.Delete, doc.name, updates);
    Progress.TrackLast(Progress.ProgressItem(id, Progress.Delete, doc.name, 0, Progress.Pending, None), updates);
  }

  /** The progress updates `handleDelete` makes after adding its item. */
  function DeleteUpdates(storageFails: bool, rowFails: bool): (u: seq<Progress.ProgressCall>)
    ensures forall i :: 0 <= i < |u| ==> u[i].Update?
  {
    var failed := Progress.Update(0, Some(Progress.Failed), Some(DeleteFailedMessage));
    [Progress.Update(20, Some(Progress.Processing), None)]
    + if storageFails then [failed]
      else
        [Progress.Update(70, None, None)]
        + if rowFails then [failed] else [Progress.Update(100, Some(Progress.Success), None)]
  }

  /** The progress calls of the delete steps: the delete item is added, then only updated. */
  lemma DeleteCalls(doc: Document, storageFails: bool, rowFails: bool)
    ensures Progress.Calls(HandleDelete(doc, storageFails, rowFails))
         == [Progress.Add(Progress.Delete, doc.name)] + DeleteUpdates(storageFails, rowFails)
  {
    var head := DeleteStarted(doc);
    var add := Progress.Add(Progress.Delete, doc.name);
    var u20 := Progress.Update(20, Some(Progress.Processing), None);
    Progress.CallsAppend(head, AfterRemoval(doc, storageFails, rowFails));
    assert Progress.Calls(head) == [add, u20] by {
      assert head[0..] == head && head[3..] == [];
      Progress.CallsFrom(head, 2);
      Progress.CallsFrom(head, 1);
      Progress.CallsFrom(head, 0);
    }
    AfterRemovalCalls(doc, storageFails, rowFails);
    var rest := DeleteUpdates(storageFails, rowFails)[1..];
    assert DeleteUpdates(storageFails, rowFails) == [u20] + rest;
    assert [add, u20] + rest == [add] + ([u20] + rest);
  }

  /** After the object's removal: 70 unless it failed, then the final update. */
  lemma AfterRemovalCalls(doc: Document, storageFails: bool, rowFails: bool)
    ensures Progress.Calls(AfterRemoval(doc, storageFails, rowFails)) == DeleteUpdates(storageFails, rowFails)[1..]
  {
    if storageFails {
      Progress.CallsOne(DeleteFailed);
    } else {
      var remove := Progress.Act(DeleteRow(doc.id));
      Progress.CallsCons(Progress.Report(Progress.Update(70, None, None)), [remove] + AfterRowDelete(rowFails));
      Progress.CallsCons(remove, AfterRowDelete(rowFails));
      if rowFails {
        Progress.CallsOne(DeleteFailed);
      } else {
        Progress.CallsCons(Progress.Report(Progress.Update(100, Some(Progress.Success), None)), [Progress.Act(Refetch)]);
        Progress.CallsOne(Progress.Act(Refetch));
      }
    }
  }
}
