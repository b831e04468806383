/**
 * The progress list of the progress context: items are appended, updated in
 * place by id, removed by id, and the finished ones cleared. Each operation
 * is the pure function its state setter applies to the previous list.
 */
module Progress {
  import opened Wrappers
  import opened Lists

  datatype Kind = Upload | Delete | Download

  datatype Status = Pending | Processing | Success | Failed

  /** One tracked operation; `error` is absent unless a failure was reported. */
  datatype ProgressItem = ProgressItem(
    id: string, kind: Kind, fileName: string, progress: int, status: Status, error: Option<string>)

  /** A list together with the id of the item just added. */
  datatype Added = Added(items: seq<ProgressItem>, id: string)

  /** Ids are compared by value, as `===` compares strings. */
  predicate HasId(items: seq<ProgressItem>, id: string) {
    exists i :: 0 <= i < |items| && items[i].id == id
  }

  /**
   * `addProgress(type, fileName)`: one pending item at progress 0 is appended
   * and its id returned. The id is the random string the caller draws.
   */
  function AddProgress(items: seq<ProgressItem>, id: string, kind: Kind, fileName: string): (r: Added)
    ensures r.id == id
    ensures |r.items| == |items| + 1 && r.items[..|items|] == items
    ensures var item := r.items[|items|];
      item.id == id && item.kind == kind && item.fileName == fileName
      && item.progress == 0 && item.status == Pending && item.error.None?
  {
    Added(items + [ProgressItem(id, kind, fileName, 0, Pending, None)], id)
  }

  /** The item after an update: new progress and error, status kept when none is given. */
  function Updated(item: ProgressItem, progress: int, status: Option<Status>, error: Option<string>)
    : (r: ProgressItem)
    ensures r.id == item.id && r.kind == item.kind && r.fileName == item.fileName
    ensures r.progress == progress && r.error == error
    ensures status.Some? ==> r.status == status.value
    ensures status.None? ==> r.status == item.status
  {
    item.(progress := progress, status := status.GetOr(item.status), error := error)
  }

  /**
   * `updateProgress(id, progress, status, error)`: every item with that id
   * is updated; every other item, and the order, stay as they were.
   */
  function UpdateProgress(items: seq<ProgressItem>, id: string, progress: int, status: Option<Status>,
                          error: Option<string>): (r: seq<ProgressItem>)
    ensures |r| == |items|
    ensures forall i :: 0 <= i < |items| && items[i].id != id ==> r[i] == items[i]
    ensures forall i :: 0 <= i < |items| && items[i].id == id ==>
      r[i] == Updated(items[i], progress, status, error)
  {
    Map(items, (item: ProgressItem) => if item.id == id then Updated(item, progress, status, error) else item)
  }

  /** `removeProgress(id)`: every item with that id is dropped, the rest keep their order. */
  function RemoveProgress(items: seq<ProgressItem>, id: string): (r: seq<ProgressItem>)
    ensures forall i :: 0 <= i < |r| ==> r[i].id != id
  {
    Filter(items, (item: ProgressItem) => item.id != id)
  }

  /** Still running: 'pending' or 'processing'. */
  predicate Active(item: ProgressItem) {
    item.status == Pending || item.status == Processing
  }

  /** `clearCompleted()`: only the pending and processing items remain, in order. */
  function ClearCompleted(items: seq<ProgressItem>): (r: seq<ProgressItem>)
    ensures forall i :: 0 <= i < |r| ==> Active(r[i])
  {
    Filter(items, Active)
  }

  // ---------------------------------------------------------------------
  // Properties
  // ---------------------------------------------------------------------

  /** Updating an id that no item has changes nothing. */
  lemma UpdateAbsent(items: seq<ProgressItem>, id: string, progress: int, status: Option<Status>,
                     error: Option<string>)
    requires !HasId(items, id)
    ensures UpdateProgress(items, id, progress, status, error) == items
  {
  }

  /** Repeating an update is the same as doing it once. */
  lemma UpdateIdempotent(items: seq<ProgressItem>, id: string, progress: int, status: Option<Status>,
                         error: Option<string>)
    ensures var once := UpdateProgress(items, id, progress, status, error);
      UpdateProgress(once, id, progress, status, error) == once
  {
  }

  /** A later update of the same item overrides progress and error, and the status when it names one. */
  lemma UpdateTwice(items: seq<ProgressItem>, id: string, p1: int, s1: Option<Status>, e1: Option<string>,
                    p2: int, s2: Status, e2: Option<string>)
    ensures UpdateProgress(UpdateProgress(items, id, p1, s1, e1), id, p2, Some(s2), e2)
         == UpdateProgress(items, id, p2, Some(s2), e2)
  {
  }

  /** Updating never changes the ids, so removal afterwards is removal before. */
  lemma RemoveAfterUpdate(items: seq<ProgressItem>, id: string, other: string, progress: int,
                         status: Option<Status>, error: Option<string>)
    ensures RemoveProgress(UpdateProgress(items, other, progress, status, error), id)
         == UpdateProgress(RemoveProgress(items, id), other, progress, status, error)
  {
    var f := (item: ProgressItem) => if item.id == other then Updated(item, progress, status, error) else item;
    var keep := (item: ProgressItem) => item.id != id;
    FilterMap(items, f, keep, keep);
  }

  /** Removal keeps exactly the items of other ids. */
  lemma RemoveMember(items: seq<ProgressItem>, id: string, x: ProgressItem)
    ensures x in RemoveProgress(items, id) <==> x in items && x.id != id
  {
    FilterMember(items, (item: ProgressItem) => item.id != id, x);
  }

  /**
   * Removal keeps the order of what it keeps: it works piece by piece on a
   * split list, and a single item stays exactly when its id differs.
   */
  lemma RemoveOrder(a: seq<ProgressItem>, b: seq<ProgressItem>, id: string, x: ProgressItem)
    ensures RemoveProgress(a + b, id) == RemoveProgress(a, id) + RemoveProgress(b, id)
    ensures RemoveProgress([x], id) == if x.id != id then [x] else []
  {
    FilterAppend(a, b, (item: ProgressItem) => item.id != id);
    assert [x][1..] == [];
  }

  /** Removing an id that no item has changes nothing. */
  lemma RemoveAbsent(items: seq<ProgressItem>, id: string)
    requires !HasId(items, id)
    ensures RemoveProgress(items, id) == items
  {
  }

  /** Removing twice is removing once. */
  lemma RemoveIdempotent(items: seq<ProgressItem>, id: string)
    ensures RemoveProgress(RemoveProgress(items, id), id) == RemoveProgress(items, id)
  {
    FilterIdempotent(items, (item: ProgressItem) => item.id != id);
  }

  /** Removing an item just added under a fresh id restores the list. */
  lemma RemoveAfterAdd(items: seq<ProgressItem>, id: string, kind: Kind, fileName: string)
    requires !HasId(items, id)
    ensures RemoveProgress(AddProgress(items, id, kind, fileName).items, id) == items
  {
    var item := ProgressItem(id, kind, fileName, 0, Pending, None);
    FilterSnoc(items, item, (it: ProgressItem) => it.id != id);
  }

  /** Clearing twice is clearing once. */
  lemma ClearIdempotent(items: seq<ProgressItem>)
    ensures ClearCompleted(ClearCompleted(items)) == ClearCompleted(items)
  {
    FilterIdempotent(items, Active);
  }

  /** Clearing keeps every occurrence of an active item and no occurrence of a finished one. */
  lemma ClearCount(items: seq<ProgressItem>, x: ProgressItem)
    ensures multiset(ClearCompleted(items))[x] == if Active(x) then multiset(items)[x] else 0
  {
    FilterCount(items, Active, x);
  }

  /**
   * Clearing keeps the order of what it keeps: it works piece by piece on a
   * split list, and a single item stays exactly when it is active.
   */
  lemma ClearOrder(a: seq<ProgressItem>, b: seq<ProgressItem>, x: ProgressItem)
    ensures ClearCompleted(a + b) == ClearCompleted(a) + ClearCompleted(b)
    ensures ClearCompleted([x]) == if Active(x) then [x] else []
  {
    FilterAppend(a, b, Active);
    assert [x][1..] == [];
  }

  /** A list with nothing finished is left as it is. */
  lemma ClearAllActive(items: seq<ProgressItem>)
    requires forall i :: 0 <= i < |items| ==> Active(items[i])
    ensures ClearCompleted(items) == items
  {
  }

  // ---------------------------------------------------------------------
  // Replaying the calls a component makes
  // ---------------------------------------------------------------------

  /** One call a component makes on the progress context for the item it tracks. */
  datatype ProgressCall =
    | Add(kind: Kind, fileName: string)
    | Update(progress: int, status: Option<Status>, error: Option<string>)

  /** One step of a component's handler: a progress call, or an action of its own. */
  datatype Step<A> = Report(call: ProgressCall) | Act(action: A)

  /** The progress calls of a trace, in order. */
  function Calls<A>(trace: seq<Step<A>>): (r: seq<ProgressCall>)
    ensures |r| <= |trace|
    decreases |trace|
  {
    if |trace| == 0 then []
    else (if trace[0].Report? then [trace[0].call] else []) + Calls(trace[1..])
  }

  /** The calls of a joined trace are the calls of its parts, joined. */
  lemma {:induction false} CallsAppend<A>(a: seq<Step<A>>, b: seq<Step<A>>)
    ensures Calls(a + b) == Calls(a) + Calls(b)
    decreases |a|
  {
    if |a| > 0 {
      assert (a + b)[1..] == a[1..] + b;
      CallsAppend(a[1..], b);
    } else {
      assert a + b == b;
    }
  }

  /** A single step contributes its call, or nothing. */
  lemma CallsOne<A>(step: Step<A>)
    ensures Calls([step]) == if step.Report? then [step.call] else []
  {
    assert [step][1..] == [];
  }

  /** A step in front of a trace contributes its call, or nothing, in front of the trace's calls. */
  lemma CallsCons<A>(step: Step<A>, rest: seq<Step<A>>)
    ensures Calls([step] + rest) == (if step.Report? then [step.call] else []) + Calls(rest)
  {
    assert ([step] + rest)[1..] == rest;
  }

  /** The calls from position `i` on: the call of step `i`, if any, then the calls after it. */
  lemma CallsFrom<A>(t: seq<Step<A>>, i: nat)
    requires i < |t|
    ensures Calls(t[i..]) == (if t[i].Report? then [t[i].call] else []) + Calls(t[i + 1..])
  {
    assert t[i..][1..] == t[i + 1..];
  }

  /** The progress list after `calls`, all made for the item `id`. */
  function Replay(items: seq<ProgressItem>, id: string, calls: seq<ProgressCall>): seq<ProgressItem>
    decreases |calls|
  {
    if |calls| == 0 then items
    else
      var next := match calls[0]
        case Add(kind, fileName) => AddProgress(items, id, kind, fileName).items
        case Update(progress, status, error) => UpdateProgress(items, id, progress, status, error);
      Replay(next, id, calls[1..])
  }

  /** The tracked item after a run of updates. */
  function Track(item: ProgressItem, calls: seq<ProgressCall>): (r: ProgressItem)
    ensures r.id == item.id && r.kind == item.kind && r.fileName == item.fileName
    decreases |calls|
  {
    if |calls| == 0 then item
    else
      var next := match calls[0]
        case Add(_, _) => item
        case Update(progress, status, error) => Updated(item, progress, status, error);
      Track(next, calls[1..])
  }

  /**
   * After a run of updates the item shows the last update's progress and
   * error, and its status when that names one.
   */
  lemma {:induction false} TrackLast(item: ProgressItem, calls: seq<ProgressCall>)
    requires |calls| > 0
    requires forall i :: 0 <= i < |calls| ==> calls[i].Update?
    ensures var last := calls[|calls| - 1];
      && Track(item, calls).progress == last.progress
      && Track(item, calls).error == last.error
      && (last.status.Some? ==> Track(item, calls).status == last.status.value)
    decreases |calls|
  {
    if |calls| > 1 {
      var c := calls[0];
      TrackLast(Updated(item, c.progress, c.status, c.error), calls[1..]);
    }
  }

  /** An update of the last item's id, absent from the rest, changes only the last item. */
  lemma UpdateLast(items: seq<ProgressItem>, item: ProgressItem, progress: int, status: Option<Status>,
                   error: Option<string>)
    requires !HasId(items, item.id)
    ensures UpdateProgress(items + [item], item.id, progress, status, error)
         == items + [Updated(item, progress, status, error)]
  {
  }

  /** Updates of a freshly appended item leave every other item as it was. */
  lemma {:induction false} ReplayLast(items: seq<ProgressItem>, item: ProgressItem, calls: seq<ProgressCall>)
    requires !HasId(items, item.id)
    requires forall i :: 0 <= i < |calls| ==> calls[i].Update?
    ensures Replay(items + [item], item.id, calls) == items + [Track(item, calls)]
    decreases |calls|
  {
    if |calls| > 0 {
      var c := calls[0];
      UpdateLast(items, item, c.progress, c.status, c.error);
      ReplayLast(items, Updated(item, c.progress, c.status, c.error), calls[1..]);
    }
  }

  /**
   * A handler that adds an item under a fresh id and then only updates it
   * leaves the list extended by exactly that item, in the state its updates
   * produce.
   */
  lemma ReplayFresh(items: seq<ProgressItem>, id: string, kind: Kind, fileName: string,
                    updates: seq<ProgressCall>)
    requires !HasId(items, id)
    requires forall i :: 0 <= i < |updates| ==> updates[i].Update?
    ensures Replay(items, id, [Add(kind, fileName)] + updates)
         == items + [Track(ProgressItem(id, kind, fileName, 0, Pending, None), updates)]
  {
    var calls := [Add(kind, fileName)] + updates;
    assert calls[1..] == updates;
    ReplayLast(items, ProgressItem(id, kind, fileName, 0, Pending, None), updates);
  }
}
