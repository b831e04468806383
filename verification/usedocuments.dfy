/**
 * The documents hook: grouping the documents by category, merging filter
 * updates, and the state changes of fetching and of the upload, delete and
 * update mutations. Backend answers are inputs: each call's outcome is either
 * the `ApiResponse` the service returned or the value it threw.
 */
module UseDocuments {
  import opened Wrappers
  import opened Lists
  import opened Types
  import opened Constants

  // ---------------------------------------------------------------------
  // groupedDocuments
  // ---------------------------------------------------------------------

  /** The documents of one category, in list order. */
  function InCategory(docs: seq<Document>, category: string): (r: seq<Document>)
    ensures forall i :: 0 <= i < |r| ==> r[i].category == category
  {
    Filter(docs, (d: Document) => d.category == category)
  }

  /** Some document has this category. */
  predicate HasCategory(docs: seq<Document>, category: string) {
    exists i :: 0 <= i < |docs| && docs[i].category == category
  }

  /**
   * The grouping the reduce builds, as a map: each document is appended to
   * the group of its category, which is created when first needed.
   */
  function Group(docs: seq<Document>): (r: map<string, seq<Document>>)
    ensures forall c :: c in r ==> |r[c]| > 0
    decreases |docs|
  {
    if |docs| == 0 then map[]
    else
      var m := Group(docs[..|docs| - 1]);
      var d := docs[|docs| - 1];
      m[d.category := (if d.category in m then m[d.category] else []) + [d]]
  }

  /**
   * The groups are exactly the categories present, and each group holds the
   * documents of its category in list order: so every document is in its
   * own category's group, no group is empty, and together the groups hold
   * each document exactly once.
   */
  lemma {:induction false} GroupIsFilter(docs: seq<Document>)
    ensures forall c :: c in Group(docs) <==> HasCategory(docs, c)
    ensures forall c :: c in Group(docs) ==> Group(docs)[c] == InCategory(docs, c)
    decreases |docs|
  {
    if |docs| > 0 {
      var init := docs[..|docs| - 1];
      var d := docs[|docs| - 1];
      GroupIsFilter(init);
      forall c
        ensures c in Group(docs) <==> HasCategory(docs, c)
        ensures c in Group(docs) ==> Group(docs)[c] == InCategory(docs, c)
      {
        GroupStep(docs, c);
      }
    }
  }

  /** The hypothesis for one step: the group of `c` before the last document is a filter. */
  predicate GroupedBefore(docs: seq<Document>, c: string)
    requires |docs| > 0
  {
    var init := docs[..|docs| - 1];
    && (c in Group(init) <==> HasCategory(init, c))
    && (c in Group(init) ==> Group(init)[c] == InCategory(init, c))
  }

  /** One step of `GroupIsFilter`: appending the last document keeps the group of `c` a filter. */
  lemma GroupStep(docs: seq<Document>, c: string)
    requires |docs| > 0 && GroupedBefore(docs, c)
    ensures c in Group(docs) <==> HasCategory(docs, c)
    ensures c in Group(docs) ==> Group(docs)[c] == InCategory(docs, c)
  {
    if c == docs[|docs| - 1].category {
      GroupStepSame(docs, c);
    } else {
      GroupStepOther(docs, c);
    }
  }

  /** The last document joins its own category's group, which is created if it was missing. */
  lemma GroupStepSame(docs: seq<Document>, c: string)
    requires |docs| > 0 && GroupedBefore(docs, c) && c == docs[|docs| - 1].category
    ensures c in Group(docs) && HasCategory(docs, c)
    ensures Group(docs)[c] == InCategory(docs, c)
  {
    var init := docs[..|docs| - 1];
    var d := docs[|docs| - 1];
    var m := Group(init);
    assert Group(docs) == m[c := (if c in m then m[c] else []) + [d]];
    LastSplit(docs);
    FilterSnoc(init, d, (x: Document) => x.category == c);
    if !HasCategory(init, c) {
      assert InCategory(init, c) == [] by {
        if InCategory(init, c) != [] {
          var x := InCategory(init, c)[0];
          FilterMember(init, (x: Document) => x.category == c, x);
        }
      }
    }
  }

  /** The groups of other categories are untouched by the last document. */
  lemma GroupStepOther(docs: seq<Document>, c: string)
    requires |docs| > 0 && GroupedBefore(docs, c) && c != docs[|docs| - 1].category
    ensures c in Group(docs) <==> HasCategory(docs, c)
    ensures c in Group(docs) ==> Group(docs)[c] == InCategory(docs, c)
  {
    var init := docs[..|docs| - 1];
    var d := docs[|docs| - 1];
    var m := Group(init);
    assert Group(docs) == m[d.category := (if d.category in m then m[d.category] else []) + [d]];
    LastSplit(docs);
    FilterSnoc(init, d, (x: Document) => x.category == c);
    HasCategoryBefore(docs, c);
  }

  /** A category other than the last document's occurs before it if at all. */
  lemma HasCategoryBefore(docs: seq<Document>, c: string)
    requires |docs| > 0 && c != docs[|docs| - 1].category
    ensures HasCategory(docs, c) ==> HasCategory(docs[..|docs| - 1], c)
  {
    if HasCategory(docs, c) {
      var i :| 0 <= i < |docs| && docs[i].category == c;
      assert docs[..|docs| - 1][i] == docs[i];
    }
  }

  /** No group is empty. */
  lemma GroupsNonEmpty(docs: seq<Document>, c: string)
    requires c in Group(docs)
    ensures |Group(docs)[c]| > 0
  {
    GroupIsFilter(docs);
    var i :| 0 <= i < |docs| && docs[i].category == c;
    FilterMember(docs, (x: Document) => x.category == c, docs[i]);
  }

  /** Each document is in its own category's group as often as it is in the list. */
  lemma GroupCount(docs: seq<Document>, d: Document)
    ensures d in docs ==> d.category in Group(docs)
    ensures d.category in Group(docs) ==> multiset(Group(docs)[d.category])[d] == multiset(docs)[d]
  {
    GroupIsFilter(docs);
    FilterCount(docs, (x: Document) => x.category == d.category, d);
    if d in docs {
      var i :| 0 <= i < |docs| && docs[i] == d;
      assert HasCategory(docs, d.category);
    }
  }

  /**
   * The reduce as written: the accumulator is an object literal, so a
   * category naming an inherited member finds a truthy non-array there and
   * the `push` throws (`None`).
   */
  function GroupAsWritten(docs: seq<Document>): (r: Option<map<string, seq<Document>>>)
    ensures r.Some? ==> forall i :: 0 <= i < |docs| ==> docs[i].category !in ObjectPrototypeNames
    ensures r.Some? ==> forall i :: 0 <= i < |docs| ==> docs[i].category in r.value
    ensures r.Some? ==> forall c :: c in r.value ==> c !in ObjectPrototypeNames
    decreases |docs|
  {
    if |docs| == 0 then Some(map[])
    else
      assert forall i :: 0 <= i < |docs| - 1 ==> docs[i] == docs[..|docs| - 1][i];
      match GroupAsWritten(docs[..|docs| - 1])
      case None => None
      case Some(m) =>
        var d := docs[|docs| - 1];
        match PropertyLookup(m, d.category)
        case Inherited => None
        case Own(group) => Some(m[d.category := group + [d]])
        case Missing => Some(m[d.category := [d]])
  }

  /** Some document's category names an inherited object member. */
  predicate HasInheritedName(docs: seq<Document>) {
    exists i :: 0 <= i < |docs| && docs[i].category in ObjectPrototypeNames
  }

  /** The reduce as written throws exactly when a category names an inherited member; otherwise it is `Group`. */
  lemma {:induction false} GroupAsWrittenAgrees(docs: seq<Document>)
    ensures GroupAsWritten(docs) == if HasInheritedName(docs) then None else Some(Group(docs))
    decreases |docs|
  {
    if |docs| > 0 {
      var init := docs[..|docs| - 1];
      var d := docs[|docs| - 1];
      GroupAsWrittenAgrees(init);
      if HasInheritedName(init) {
        var i :| 0 <= i < |init| && init[i].category in ObjectPrototypeNames;
        assert docs[i] == init[i];
      } else if d.category in ObjectPrototypeNames {
        GroupIsFilter(init);
        assert d.category !in Group(init);
      } else {
        assert !HasInheritedName(docs) by {
          forall i | 0 <= i < |docs|
            ensures docs[i].category !in ObjectPrototypeNames
          {
            if i < |init| {
              assert docs[i] == init[i];
            }
          }
        }
        var m := Group(init);
        if d.category !in m {
          assert PropertyLookup(m, d.category) == Missing;
          assert [] + [d] == [d];
        }
      }
    }
  }

  /** A document whose category is "constructor" makes the reduce throw. */
  lemma GroupAsWrittenThrows(d: Document)
    requires d.category == "constructor"
    ensures GroupAsWritten([d]).None?
  {
    assert [d][..0] == [];
  }

  // ---------------------------------------------------------------------
  // updateFilter
  // ---------------------------------------------------------------------

  /** One field of a `Partial<DocumentFilter>`: absent, or present (possibly `undefined`). */
  datatype Field<T> = Keep | Set(value: Option<T>)

  function Apply<T>(current: Option<T>, f: Field<T>): Option<T> {
    match f
    case Keep => current
    case Set(v) => v
  }

  datatype FilterPatch = FilterPatch(
    category: Field<string>,
    searchTerm: Field<string>,
    tags: Field<seq<string>>,
    dateRange: Field<(int, int)>,
    fileType: Field<string>)

  const EmptyPatch: FilterPatch := FilterPatch(Keep, Keep, Keep, Keep, Keep)

  /** `{ ...filter, ...newFilter }`: every field present in the patch wins; the others are kept. */
  function UpdateFilter(f: DocumentFilter, p: FilterPatch): (r: DocumentFilter)
    ensures p.category.Set? ==> r.category == p.category.value
    ensures p.category.Keep? ==> r.category == f.category
    ensures p.searchTerm.Set? ==> r.searchTerm == p.searchTerm.value
    ensures p.searchTerm.Keep? ==> r.searchTerm == f.searchTerm
    ensures p.tags.Set? ==> r.tags == p.tags.value
    ensures p.tags.Keep? ==> r.tags == f.tags
    ensures p.dateRange.Set? ==> r.dateRange == p.dateRange.value
    ensures p.dateRange.Keep? ==> r.dateRange == f.dateRange
    ensures p.fileType.Set? ==> r.fileType == p.fileType.value
    ensures p.fileType.Keep? ==> r.fileType == f.fileType
  {
    DocumentFilter(Apply(f.category, p.category), Apply(f.searchTerm, p.searchTerm), Apply(f.tags, p.tags),
                   Apply(f.dateRange, p.dateRange), Apply(f.fileType, p.fileType))
  }

  function Then<T>(first: Field<T>, second: Field<T>): Field<T> {
    if second.Set? then second else first
  }

  /** A patch that applies `p` and then `q`. */
  function Compose(p: FilterPatch, q: FilterPatch): FilterPatch {
    FilterPatch(Then(p.category, q.category), Then(p.searchTerm, q.searchTerm), Then(p.tags, q.tags),
                Then(p.dateRange, q.dateRange), Then(p.fileType, q.fileType))
  }

  /** An empty update leaves the filter as it is. */
  lemma UpdateEmpty(f: DocumentFilter)
    ensures UpdateFilter(f, EmptyPatch) == f
  {
  }

  /** Repeating an update changes nothing more. */
  lemma UpdateIdempotent(f: DocumentFilter, p: FilterPatch)
    ensures UpdateFilter(UpdateFilter(f, p), p) == UpdateFilter(f, p)
  {
  }

  /** Two updates in a row are one update with the later fields winning. */
  lemma UpdateCompose(f: DocumentFilter, p: FilterPatch, q: FilterPatch)
    ensures UpdateFilter(UpdateFilter(f, p), q) == UpdateFilter(f, Compose(p, q))
  {
  }

  // ---------------------------------------------------------------------
  // fetchDocuments and the mutations
  // ---------------------------------------------------------------------

  datatype HookState = HookState(documents: seq<Document>, loading: bool, error: Option<string>)

  /** What a service call did: returned a response, or threw. */
  type Outcome<T> = Result<ApiResponse<T>, Thrown>

  const FetchFailed: string := "Failed to fetch documents"
  const UploadFailed: string := "Upload failed"
  const DeleteFailed: string := "Delete failed"
  const UpdateFailed: string := "Update failed"

  /**
   * `fetchDocuments()`: the error is cleared; a success replaces the
   * documents (with `[]` when no data came back); a failure or a throw sets
   * the error and keeps the documents; loading ends false either way.
   */
  function FetchDocuments(s: HookState, outcome: Outcome<seq<Document>>): (r: HookState)
    ensures !r.loading
    ensures outcome.Ok? && outcome.value.status == ApiSuccess ==>
      r.documents == outcome.value.data.GetOr([]) && r.error.None?
    ensures !(outcome.Ok? && outcome.value.status == ApiSuccess) ==> r.documents == s.documents && r.error.Some?
    ensures outcome.Ok? && outcome.value.status == ApiError ==>
      r.error == Some(OrElse(outcome.value.error, FetchFailed)) && r.error.value != ""
    ensures outcome.Err? ==> r.error == Some(MessageOr(outcome.error, "Unknown error"))
  {
    match outcome
    case Ok(res) =>
      if res.status == ApiSuccess then HookState(res.data.GetOr([]), false, None)
      else HookState(s.documents, false, Some(OrElse(res.error, FetchFailed)))
    case Err(t) => HookState(s.documents, false, Some(MessageOr(t, "Unknown error")))
  }

  /** The state after a mutation, and the response handed back to the caller. */
  datatype Mutated<T> = Mutated(state: HookState, response: ApiResponse<T>)

  /**
   * `uploadDocument`, `deleteDocument` and `updateDocument` share one shape:
   * a success refetches (with outcome `refetch`) and returns the response; a
   * failure sets the error to the response's error or `fallback`; a throw
   * sets it to the thrown message or `fallback` and returns an error
   * response carrying it. Loading ends false either way.
   */
  function Mutate<T>(s: HookState, outcome: Outcome<T>, fallback: string, refetch: Outcome<seq<Document>>)
    : (r: Mutated<T>)
    requires fallback != ""
    ensures !r.state.loading
    ensures outcome.Ok? && outcome.value.status == ApiSuccess ==>
      r.state == FetchDocuments(s, refetch) && r.response == outcome.value
    ensures outcome.Ok? && outcome.value.status == ApiError ==>
      && r.state == HookState(s.documents, false, Some(OrElse(outcome.value.error, fallback)))
      && r.response == outcome.value
    ensures outcome.Err? ==>
      && r.state == HookState(s.documents, false, Some(MessageOr(outcome.error, fallback)))
      && r.response == ApiResponse(ApiError, None, Some(MessageOr(outcome.error, fallback)))
  {
    match outcome
    case Ok(res) =>
      if res.status == ApiSuccess then Mutated(FetchDocuments(s, refetch).(loading := false), res)
      else Mutated(HookState(s.documents, false, Some(OrElse(res.error, fallback))), res)
    case Err(t) =>
      var message := MessageOr(t, fallback);
      Mutated(HookState(s.documents, false, Some(message)), ApiResponse(ApiError, None, Some(message)))
  }

  function UploadDocument(s: HookState, outcome: Outcome<Document>, refetch: Outcome<seq<Document>>)
    : (r: Mutated<Document>)
    ensures outcome.Ok? && outcome.value.status == ApiError ==>
      r.state.error == Some(OrElse(outcome.value.error, "Upload failed"))
  {
    Mutate(s, outcome, UploadFailed, refetch)
  }

  function DeleteDocument(s: HookState, outcome: Outcome<()>, refetch: Outcome<seq<Document>>)
    : (r: Mutated<()>)
    ensures outcome.Ok? && outcome.value.status == ApiError ==>
      r.state.error == Some(OrElse(outcome.value.error, "Delete failed"))
  {
    Mutate(s, outcome, DeleteFailed, refetch)
  }

  function UpdateDocument(s: HookState, outcome: Outcome<Document>, refetch: Outcome<seq<Document>>)
    : (r: Mutated<Document>)
    ensures outcome.Ok? && outcome.value.status == ApiError ==>
      r.state.error == Some(OrElse(outcome.value.error, "Update failed"))
  {
    Mutate(s, outcome, UpdateFailed, refetch)
  }

  /** The documents change only through the refetch after a successful mutation. */
  lemma MutationKeepsDocumentsUnlessSuccess<T>(s: HookState, outcome: Outcome<T>, fallback: string,
                                               refetch: Outcome<seq<Document>>)
    requires fallback != ""
    ensures Mutate(s, outcome, fallback, refetch).state.documents != s.documents ==>
      outcome.Ok? && outcome.value.status == ApiSuccess
      && refetch.Ok? && refetch.value.status == ApiSuccess
  {
  }

  /** After any failed mutation the hook shows an error; a failed response always shows a non-empty one. */
  lemma MutationFailureShowsError<T>(s: HookState, outcome: Outcome<T>, fallback: string,
                                     refetch: Outcome<seq<Document>>)
    requires fallback != ""
    requires !(outcome.Ok? && outcome.value.status == ApiSuccess)
    ensures Mutate(s, outcome, fallback, refetch).state.error.Some?
    ensures outcome.Ok? ==> Mutate(s, outcome, fallback, refetch).state.error.value != ""
  {
  }
}
