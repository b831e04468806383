/**
 * The upload handler of the main page: the guards that decide whether an
 * upload starts, the storage path it writes to, and the steps it takes
 * (progress reports, storage and database calls, the rollback when the
 * database insert fails). Backend answers, the signed-in user and the clock
 * are parameters.
 */
module MainApp {
  import opened Wrappers
  import opened Text
  import opened Constants
  import Helpers
  import Progress

  // ---------------------------------------------------------------------
  // The guards
  // ---------------------------------------------------------------------

  /** The flat size limit of the upload handler, 25 MiB. */
  const MaxUploadSize: nat := 25 * 1024 * 1024

  /** The handler's own list of accepted MIME types. */
  const AllowedTypes: seq<string> := [
    "image/jpeg", "image/png", "image/gif", "image/webp", "application/pdf", "application/msword",
    "application/vnd.openxmlformats-officedocument.wordprocessingml.document", "text/plain"
  ]

  /** The browser's `File`: its name, MIME type (possibly empty) and size in bytes. */
  datatype UploadFile = UploadFile(name: string, fileType: string, size: nat)

  /** `list.includes(x)`, scanning from the front. */
  predicate Includes(list: seq<string>, x: string)
    decreases |list|
  {
    |list| > 0 && (list[0] == x || Includes(list[1..], x))
  }

  /** The scan finds exactly the members of the list. */
  lemma {:induction false} IncludesIff(list: seq<string>, x: string)
    ensures Includes(list, x) <==> x in list
    decreases |list|
  {
    if |list| > 0 {
      IncludesIff(list[1..], x);
      assert list == [list[0]] + list[1..];
    }
  }

  /** An upload starts only for a signed-in user with an id, a file of at most 25 MiB, and an allowed type. */
  predicate Admitted(userId: Option<string>, file: UploadFile) {
    Truthy(userId) && file.size <= MaxUploadSize && Includes(AllowedTypes, file.fileType)
  }

  /** The handler's allow-list is exactly the key set of the supported-types table. */
  lemma AllowListIsTable()
    ensures forall t :: t in AllowedTypes <==> t in SupportedFileTypes
  {
  }

  /**
   * For a signed-in user the gate admits exactly the supported types up to
   * 25 MiB, whatever that type's own limit.
   */
  lemma AdmittedIff(userId: Option<string>, file: UploadFile)
    requires Truthy(userId)
    ensures Admitted(userId, file) <==> file.fileType in SupportedFileTypes && file.size <= MaxUploadSize
  {
    IncludesIff(AllowedTypes, file.fileType);
    AllowListIsTable();
  }

  /** Every file the validator accepts passes the gate. */
  lemma ValidImpliesAdmitted(userId: Option<string>, file: UploadFile)
    requires Truthy(userId)
    requires Helpers.ValidateFile(file.fileType, file.size).isValid
    ensures Admitted(userId, file)
  {
    IncludesIff(AllowedTypes, file.fileType);
    AllowListIsTable();
  }

  /** The gate is looser than the validator: a 2 MiB plain-text file passes one and fails the other. */
  lemma GateAdmitsInvalid()
    ensures Admitted(Some("u1"), UploadFile("notes.txt", "text/plain", 2 * MiB))
    ensures !Helpers.ValidateFile("text/plain", 2 * MiB).isValid
  {
    IncludesIff(AllowedTypes, "text/plain");
  }

  // ---------------------------------------------------------------------
  // The storage path
  // ---------------------------------------------------------------------

  /** `${user.id}/${Date.now()}.${file.name.split('.').pop()}`, with `stamp` the printed time. */
  function StoragePath(userId: string, stamp: string, name: string): string {
    userId + "/" + stamp + "." + LastSegment(name, '.')
  }

  /**
   * The path can be taken apart again: after the user's folder come exactly
   * the time stamp's characters, and the text after the path's last '.' is
   * the name's extension.
   */
  lemma StoragePathParts(userId: string, stamp: string, name: string)
    ensures var folder := userId + "/";
      && StartsWith(StoragePath(userId, stamp, name), folder)
      && |folder| + |stamp| <= |StoragePath(userId, stamp, name)|
      && StoragePath(userId, stamp, name)[|folder|..|folder| + |stamp|] == stamp
    ensures LastSegment(StoragePath(userId, stamp, name), '.') == LastSegment(name, '.')
  {
    StoragePathStamp(userId, stamp, name);
    StoragePathExtension(userId, stamp, name);
  }

  lemma StoragePathStamp(userId: string, stamp: string, name: string)
    ensures var folder := userId + "/";
      && StartsWith(StoragePath(userId, stamp, name), folder)
      && |folder| + |stamp| <= |StoragePath(userId, stamp, name)|
      && StoragePath(userId, stamp, name)[|folder|..|folder| + |stamp|] == stamp
  {
    JoinedSlice(userId + "/", stamp, ".", LastSegment(name, '.'));
  }

  lemma StoragePathExtension(userId: string, stamp: string, name: string)
    ensures LastSegment(StoragePath(userId, stamp, name), '.') == LastSegment(name, '.')
  {
    LastSegmentAppend(userId + "/" + stamp, '.', LastSegment(name, '.'));
  }

  /** The middle of `prefix + middle + sep + rest` is found by position. */
  lemma JoinedSlice(prefix: string, middle: string, sep: string, rest: string)
    ensures StartsWith(prefix + middle + sep + rest, prefix)
    ensures |prefix| + |middle| <= |prefix + middle + sep + rest|
    ensures (prefix + middle + sep + rest)[|prefix|..|prefix| + |middle|] == middle
  {
    var r := prefix + middle + sep + rest;
    assert r[..|prefix| + |middle|] == prefix + middle;
  }

  // ---------------------------------------------------------------------
  // The handler's steps
  // ---------------------------------------------------------------------

  datatype Page = UploadPage | DocumentsPage

  /** The row inserted into the documents table. */
  datatype DocumentRow = DocumentRow(userId: string, name: string, category: string, fileType: string,
                                     fileSize: nat, filePath: string, fileUrl: string)

  /** What the handler does besides reporting progress. */
  datatype UploadAction =
    | SetLoading(on: bool)
    | StoreObject(path: string)
    | InsertRow(row: DocumentRow)
    | RemoveObject(path: string)
    | ShowPage(page: Page)
    | ScheduleRefresh

  /**
   * The backend's answers: the storage upload's error message, the public
   * URL, the auth lookup (the signed-in user's id, if any, or an error
   * message) and the insert's error message.
   */
  datatype Backend = Backend(uploadError: Option<string>, publicUrl: string,
                             auth: Result<Option<string>, string>, dbError: Option<string>)

  const UploadFailed := "Upload failed"
  const OctetStream := "application/octet-stream"

  /** The catch block's message: `error.message || 'Upload failed'`. */
  function CaughtMessage(t: Thrown): (m: string)
    ensures m != ""
    ensures t.ErrorObject? && t.message != "" ==> m == t.message
  {
    OrElse(if t.ErrorObject? then Some(t.message) else None, UploadFailed)
  }

  /** The error an upload ends with, if any: the first failing call, with its prefix. */
  function UploadError(b: Backend): (e: Option<string>)
    ensures e.None? <==> b.uploadError.None? && b.auth.Ok? && b.dbError.None?
  {
    if b.uploadError.Some? then Some("Upload failed: " + b.uploadError.value)
    else if b.auth.Err? then Some("Authentication error: " + b.auth.error)
    else if b.dbError.Some? then Some("Database error: " + b.dbError.value)
    else None
  }

  /** The row for an admitted upload; the owner is the auth lookup's id, else the signed-in id. */
  function Row(userId: string, file: UploadFile, category: string, path: string, authUserId: Option<string>,
               publicUrl: string): (row: DocumentRow)
    ensures row.userId == (if Truthy(authUserId) then authUserId.value else userId)
    ensures row.name == file.name && row.category == category && row.fileSize == file.size
    ensures row.filePath == path && row.fileUrl == publicUrl
    ensures file.fileType != "" ==> row.fileType == file.fileType
    ensures file.fileType == "" ==> row.fileType == OctetStream
  {
    DocumentRow(OrElse(authUserId, userId), file.name, category, OrElse(Some(file.fileType), OctetStream),
                file.size, path, publicUrl)
  }

  /**
   * `handleFileUpload(file, category)`: nothing at all when the gate refuses;
   * otherwise a progress item, 10 'processing', 30, the upload, 70, the auth
   * lookup, 90, the insert, then 100 'success' with the page switch, or the
   * caught error (after removing the stored object when the insert failed),
   * and finally `loading` back to false.
   */
  function HandleFileUpload(userId: Option<string>, file: UploadFile, category: string, now: nat, b: Backend)
    : (t: seq<Progress.Step<UploadAction>>)
    ensures !Admitted(userId, file) <==> t == []
    ensures Admitted(userId, file) ==> t == Upload(userId.value, file, category, now, b)
  {
    if !Admitted(userId, file) then [] else Upload(userId.value, file, category, now, b)
  }

  /** The steps of an upload that passed the gate, for the signed-in user `userId`. */
  function Upload(userId: string, file: UploadFile, category: string, now: nat, b: Backend)
    : (t: seq<Progress.Step<UploadAction>>)
    ensures |t| >= 7
    ensures t[0] == Progress.Report(Progress.Add(Progress.Upload, file.name))
    ensures t[1] == Progress.Act(SetLoading(true))
    ensures t[4] == Progress.Act(StoreObject(StoragePath(userId, Decimal(now), file.name)))
    ensures t[|t| - 1] == Progress.Act(SetLoading(false))
  {
    var path := StoragePath(userId, Decimal(now), file.name);
    Started(file.name, path) + AfterStore(userId, file, category, path, b) + [Progress.Act(SetLoading(false))]
  }

  /** The steps up to the storage upload of `path`. */
  function Started(name: string, path: string): (t: seq<Progress.Step<UploadAction>>)
    ensures |t| == 5
  {
    [ Progress.Report(Progress.Add(Progress.Upload, name)),
      Progress.Act(SetLoading(true)),
      Progress.Report(Progress.Update(10, Some(Progress.Processing), None)),
      Progress.Report(Progress.Update(30, None, None)),
      Progress.Act(StoreObject(path)) ]
  }

  /** The progress report of the catch block for an error thrown with message `m`. */
  function Failure(m: string): Progress.Step<UploadAction> {
    Progress.Report(Progress.Update(0, Some(Progress.Failed), Some(CaughtMessage(ErrorObject(m)))))
  }

  /**
   * The handler's steps after the storage upload of `path`, up to the
   * `finally` block.
   */
  function AfterStore(userId: string, file: UploadFile, category: string, path: string, b: Backend)
    : (t: seq<Progress.Step<UploadAction>>)
    ensures |t| >= 1
  {
    if b.uploadError.Some? then [Failure("Upload failed: " + b.uploadError.value)]
    else [Progress.Report(Progress.Update(70, None, None))] + AfterUpload(userId, file, category, path, b)
  }

  /** The steps after a successful storage upload: the auth lookup and what follows it. */
  function AfterUpload(userId: string, file: UploadFile, category: string, path: string, b: Backend)
    : (t: seq<Progress.Step<UploadAction>>)
    ensures |t| >= 1
  {
    if b.auth.Err? then [Failure("Authentication error: " + b.auth.error)]
    else
      [Progress.Report(Progress.Update(90, None, None))]
      + ([Progress.Act(InsertRow(Row(userId, file, category, path, b.auth.value, b.publicUrl)))] + AfterInsert(path, b))
  }

  /** The steps after the insert: the rollback and the caught error, or success. */
  function AfterInsert(path: string, b: Backend): (t: seq<Progress.Step<UploadAction>>)
    ensures |t| >= 2
  {
    if b.dbError.Some? then [Progress.Act(RemoveObject(path))] + [Failure("Database error: " + b.dbError.value)]
    else
      [Progress.Report(Progress.Update(100, Some(Progress.Success), None))]
      + [Progress.Act(ShowPage(DocumentsPage)), Progress.Act(ScheduleRefresh)]
  }

  /** Where the insert, the rollback and the page switch sit among the steps after the upload. */
  lemma AfterStoreOrder(userId: string, file: UploadFile, category: string, path: string, b: Backend)
    ensures var a := AfterStore(userId, file, category, path, b);
      && (b.uploadError.None? && b.auth.Ok? ==>
            |a| >= 4 && a[2] == Progress.Act(InsertRow(Row(userId, file, category, path, b.auth.value, b.publicUrl))))
      && (b.uploadError.None? && b.auth.Ok? && b.dbError.Some? ==> a[3] == Progress.Act(RemoveObject(path)))
  {
  }

  /** After the upload, the object is removed exactly when the insert fails. */
  lemma AfterStoreRemoval(userId: string, file: UploadFile, category: string, path: string, b: Backend)
    ensures Progress.Act(RemoveObject(path)) in AfterStore(userId, file, category, path, b)
        <==> b.uploadError.None? && b.auth.Ok? && b.dbError.Some?
  {
    if b.uploadError.None? && b.auth.Ok? && b.dbError.Some? {
      assert AfterStore(userId, file, category, path, b)[3] == Progress.Act(RemoveObject(path));
    }
  }

  /** After the upload, the page switches exactly when every call succeeded. */
  lemma AfterStoreShown(userId: string, file: UploadFile, category: string, path: string, b: Backend)
    ensures Progress.Act(ShowPage(DocumentsPage)) in AfterStore(userId, file, category, path, b)
        <==> UploadError(b).None?
  {
    if UploadError(b).None? {
      assert AfterStore(userId, file, category, path, b)[4] == Progress.Act(ShowPage(DocumentsPage));
    }
  }

  /** After the upload, a row is inserted exactly when the upload and the auth lookup succeeded, and it is `Row`. */
  lemma AfterStoreInsert(userId: string, file: UploadFile, category: string, path: string, b: Backend,
                         row: DocumentRow)
    ensures Progress.Act(InsertRow(row)) in AfterStore(userId, file, category, path, b)
        <==> b.uploadError.None? && b.auth.Ok? && row == Row(userId, file, category, path, b.auth.value, b.publicUrl)
  {
    var a := AfterStore(userId, file, category, path, b);
    if b.uploadError.None? && b.auth.Ok? {
      assert a[2] == Progress.Act(InsertRow(Row(userId, file, category, path, b.auth.value, b.publicUrl)));
    }
  }

  /** After the upload, a refresh is scheduled exactly when every call succeeded. */
  lemma AfterStoreRefresh(userId: string, file: UploadFile, category: string, path: string, b: Backend)
    ensures Progress.Act(ScheduleRefresh) in AfterStore(userId, file, category, path, b)
        <==> UploadError(b).None?
  {
    if UploadError(b).None? {
      assert AfterStore(userId, file, category, path, b)[5] == Progress.Act(ScheduleRefresh);
    }
  }

  /**
   * After a successful upload and auth lookup the insert is the eighth
   * step, and after a failed insert the stored object, under the same path,
   * is removed right after it.
   */
  lemma UploadOrder(userId: string, file: UploadFile, category: string, now: nat, b: Backend)
    ensures var t := Upload(userId, file, category, now, b);
      var path := StoragePath(userId, Decimal(now), file.name);
      && (b.uploadError.None? && b.auth.Ok? ==>
            t[7] == Progress.Act(InsertRow(Row(userId, file, category, path, b.auth.value, b.publicUrl))))
      && (b.uploadError.None? && b.auth.Ok? && b.dbError.Some? ==> t[8] == Progress.Act(RemoveObject(path)))
  {
    var path := StoragePath(userId, Decimal(now), file.name);
    var s := Started(file.name, path);
    var a := AfterStore(userId, file, category, path, b);
    var f: seq<Progress.Step<UploadAction>> := [Progress.Act(SetLoading(false))];
    assert Upload(userId, file, category, now, b) == s + a + f;
    AfterStoreOrder(userId, file, category, path, b);
    JoinedMember(s, a, f, Progress.Act(ScheduleRefresh));
  }

  /**
   * The row is inserted exactly when the upload and the auth lookup
   * succeeded, the stored object is removed exactly when the insert fails,
   * and the page switches to the document list and a refresh is scheduled
   * exactly when every call succeeded.
   */
  lemma UploadOutcome(userId: string, file: UploadFile, category: string, now: nat, b: Backend)
    ensures var t := Upload(userId, file, category, now, b);
      var path := StoragePath(userId, Decimal(now), file.name);
      && (forall row :: Progress.Act(InsertRow(row)) in t <==>
            b.uploadError.None? && b.auth.Ok? && row == Row(userId, file, category, path, b.auth.value, b.publicUrl))
      && (Progress.Act(RemoveObject(path)) in t <==> b.uploadError.None? && b.auth.Ok? && b.dbError.Some?)
      && (Progress.Act(ShowPage(DocumentsPage)) in t <==> UploadError(b).None?)
      && (Progress.Act(ScheduleRefresh) in t <==> UploadError(b).None?)
  {
    var path := StoragePath(userId, Decimal(now), file.name);
    var s := Started(file.name, path);
    var a := AfterStore(userId, file, category, path, b);
    var f: seq<Progress.Step<UploadAction>> := [Progress.Act(SetLoading(false))];
    var removal := Progress.Act(RemoveObject(path));
    var shown := Progress.Act(ShowPage(DocumentsPage));
    assert removal in s + a + f <==> b.uploadError.None? && b.auth.Ok? && b.dbError.Some? by {
      JoinedMember(s, a, f, removal);
      StartedActs(file.name, path, RemoveObject(path));
      AfterStoreRemoval(userId, file, category, path, b);
    }
    assert shown in s + a + f <==> UploadError(b).None? by {
      JoinedMember(s, a, f, shown);
      StartedActs(file.name, path, ShowPage(DocumentsPage));
      AfterStoreShown(userId, file, category, path, b);
    }
    var refresh := Progress.Act(ScheduleRefresh);
    assert refresh in s + a + f <==> UploadError(b).None? by {
      JoinedMember(s, a, f, refresh);
      StartedActs(file.name, path, ScheduleRefresh);
      AfterStoreRefresh(userId, file, category, path, b);
    }
    forall row
      ensures Progress.Act(InsertRow(row)) in s + a + f <==>
        b.uploadError.None? && b.auth.Ok? && row == Row(userId, file, category, path, b.auth.value, b.publicUrl)
    {
      JoinedMember(s, a, f, Progress.Act(InsertRow(row)));
      StartedActs(file.name, path, InsertRow(row));
      AfterStoreInsert(userId, file, category, path, b, row);
    }
  }

  /** The only actions among the first steps are setting `loading` and storing the object. */
  lemma StartedActs(name: string, path: string, x: UploadAction)
    ensures Progress.Act(x) in Started(name, path) <==> x == SetLoading(true) || x == StoreObject(path)
  {
  }

  /** Membership in `s + a + f`, and positions in `a` shifted by `|s|`. */
  lemma JoinedMember<T>(s: seq<T>, a: seq<T>, f: seq<T>, x: T)
    ensures x in s + a + f <==> x in s || x in a || x in f
    ensures forall k :: 0 <= k < |a| ==> (s + a + f)[|s| + k] == a[k]
  {
  }

  /** The last progress update of an upload: the caught error, or 100 'success'. */
  function FinalUpdate(b: Backend): Progress.ProgressCall {
    if UploadError(b).Some? then Failure(UploadError(b).value).call
    else Progress.Update(100, Some(Progress.Success), None)
  }

  /** The progress updates of an admitted upload, after its item is added. */
  function UploadUpdates(b: Backend): (u: seq<Progress.ProgressCall>)
    ensures forall i :: 0 <= i < |u| ==> u[i].Update?
  {
    [Progress.Update(10, Some(Progress.Processing), None), Progress.Update(30, None, None)]
    + (if b.uploadError.Some? then []
       else [Progress.Update(70, None, None)] + if b.auth.Err? then [] else [Progress.Update(90, None, None)])
    + [FinalUpdate(b)]
  }

  /** On success the reported progress runs 10, 30, 70, 90, 100, strictly increasing. */
  lemma SuccessProgressIncreasing(b: Backend)
    requires UploadError(b).None?
    ensures var u := UploadUpdates(b);
      && |u| == 5 && u[0].progress == 10 && u[4] == Progress.Update(100, Some(Progress.Success), None)
      && forall i, j :: 0 <= i < j < |u| ==> u[i].progress < u[j].progress
  {
  }

  /** The calls of the first steps: the item is added, then set to 10 'processing' and 30. */
  lemma StartedCalls(name: string, path: string)
    ensures Progress.Calls(Started(name, path))
         == [ Progress.Add(Progress.Upload, name), Progress.Update(10, Some(Progress.Processing), None),
              Progress.Update(30, None, None) ]
  {
    var t := Started(name, path);
    assert t[0..] == t;
    assert t[5..] == [];
    Progress.CallsFrom(t, 4);
    Progress.CallsFrom(t, 3);
    Progress.CallsFrom(t, 2);
    Progress.CallsFrom(t, 1);
    Progress.CallsFrom(t, 0);
  }

  /** The calls after the upload complete the updates. */
  lemma AfterStoreCalls(userId: string, file: UploadFile, category: string, path: string, b: Backend)
    ensures [Progress.Update(10, Some(Progress.Processing), None), Progress.Update(30, None, None)]
            + Progress.Calls(AfterStore(userId, file, category, path, b))
         == UploadUpdates(b)
  {
    var mid := if b.uploadError.Some? then []
               else [Progress.Update(70, None, None)] + if b.auth.Err? then [] else [Progress.Update(90, None, None)];
    if b.uploadError.Some? {
      Progress.CallsOne(Failure("Upload failed: " + b.uploadError.value));
    } else {
      var r70 := Progress.Report(Progress.Update(70, None, None));
      Progress.CallsCons(r70, AfterUpload(userId, file, category, path, b));
      AfterUploadCalls(userId, file, category, path, b);
    }
    assert Progress.Calls(AfterStore(userId, file, category, path, b)) == mid + [FinalUpdate(b)];
  }

  /** After a successful upload: 90 unless the auth lookup failed, then the final update. */
  lemma AfterUploadCalls(userId: string, file: UploadFile, category: string, path: string, b: Backend)
    requires b.uploadError.None?
    ensures Progress.Calls(AfterUpload(userId, file, category, path, b))
         == (if b.auth.Err? then [] else [Progress.Update(90, None, None)]) + [FinalUpdate(b)]
  {
    if b.auth.Err? {
      Progress.CallsOne(Failure("Authentication error: " + b.auth.error));
    } else {
      var insert := Progress.Act(InsertRow(Row(userId, file, category, path, b.auth.value, b.publicUrl)));
      Progress.CallsCons(Progress.Report(Progress.Update(90, None, None)), [insert] + AfterInsert(path, b));
      Progress.CallsCons(insert, AfterInsert(path, b));
      AfterInsertCalls(path, b);
    }
  }

  /** After a successful upload and auth lookup, the only call left is the final update. */
  lemma AfterInsertCalls(path: string, b: Backend)
    requires b.uploadError.None? && b.auth.Ok?
    ensures Progress.Calls(AfterInsert(path, b)) == [FinalUpdate(b)]
  {
    if b.dbError.Some? {
      var failure := Failure("Database error: " + b.dbError.value);
      Progress.CallsCons(Progress.Act(RemoveObject(path)), [failure]);
      Progress.CallsOne(failure);
    } else {
      var shown: seq<Progress.Step<UploadAction>> := [Progress.Act(ShowPage(DocumentsPage)), Progress.Act(ScheduleRefresh)];
      Progress.CallsCons(Progress.Report(Progress.Update(100, Some(Progress.Success), None)), shown);
      Progress.CallsCons(shown[0], shown[1..]);
      Progress.CallsOne(shown[1]);
      assert [shown[0]] + shown[1..] == shown;
    }
  }

  /** The progress calls of an admitted upload: its item is added, then only updated. */
  lemma UploadCalls(userId: string, file: UploadFile, category: string, now: nat, b: Backend)
    ensures Progress.Calls(Upload(userId, file, category, now, b))
         == [Progress.Add(Progress.Upload, file.name)] + UploadUpdates(b)
  {
    var path := StoragePath(userId, Decimal(now), file.name);
    var s := Started(file.name, path);
    var a := AfterStore(userId, file, category, path, b);
    var f: seq<Progress.Step<UploadAction>> := [Progress.Act(SetLoading(false))];
    Progress.CallsAppend(s + a, f);
    Progress.CallsAppend(s, a);
    Progress.CallsOne(Progress.Act(SetLoading(false)));
    StartedCalls(file.name, path);
    AfterStoreCalls(userId, file, category, path, b);
    var add := Progress.Add(Progress.Upload, file.name);
    var first := [Progress.Update(10, Some(Progress.Processing), None), Progress.Update(30, None, None)];
    assert Progress.Calls(s + a + f) == [add] + first + Progress.Calls(a) + [];
    Regroup([add], first, Progress.Calls(a));
  }

  /** `x + y + z + []` regrouped as `x + (y + z)`. */
  lemma Regroup<T>(x: seq<T>, y: seq<T>, z: seq<T>)
    ensures x + y + z + [] == x + (y + z)
  {
  }

  /**
   * Replayed on a progress list without the fresh id, an admitted upload
   * leaves one new upload item: at 100 'success' without error when every
   * call succeeded, otherwise at 0 'error' carrying the first failure's
   * prefixed message.
   */
  lemma UploadProgress(items: seq<Progress.ProgressItem>, id: string, userId: string, file: UploadFile,
                       category: string, now: nat, b: Backend)
    requires !Progress.HasId(items, id)
    ensures var ok := UploadError(b).None?;
      Progress.Replay(items, id, Progress.Calls(Upload(userId, file, category, now, b)))
      == items + [Progress.ProgressItem(id, Progress.Upload, file.name,
                                        if ok then 100 else 0,
                                        if ok then Progress.Success else Progress.Failed,
                                        UploadError(b))]
  {
    var updates := UploadUpdates(b);
    UploadCalls(userId, file, category, now, b);
    Progress.ReplayFresh(items, id, Progress.Upload, file.name, updates);
    Progress.TrackLast(Progress.ProgressItem(id, Progress.Upload, file.name, 0, Progress.Pending, None), updates);
  }
}
