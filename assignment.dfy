/**
 * The assignment page: the per-assignment record store with its single write
 * path (append a submission and move to grading), the submission gate, and
 * the upload dialog whose simulated upload advances by 7 percent per timer
 * tick and appends the submission when it reaches 100.
 */
module Assignment {
  import opened Wrappers
  import opened JsObject

  datatype Status = Open | Grading | Closed

  /** One uploaded file; its id, timestamp and object URL come from the platform. */
  datatype Submission = Submission(
    id: string,
    fileName: string,
    sizeBytes: nat,
    submittedAt: string,
    fileUrl: Option<string>)

  datatype AssignmentDetail = AssignmentDetail(
    id: string,
    title: string,
    courseCode: string,
    moduleTitle: string,
    instructions: seq<string>,
    startAt: string,
    deadlineAt: string,
    allowedSubmissions: int,
    submissions: seq<Submission>,
    status: Status,
    gradePercent: Option<int>,
    noOfStudentSubmissions: Option<int>)

  /** The part of a browser `File` the page reads. */
  datatype FileInfo = FileInfo(name: string, size: nat)

  /** The record store: assignment id to record. */
  type Db = map<string, AssignmentDetail>

  /** The mock `ASSIGNMENTS` the page starts from. */
  function Seed(): Db {
    map[
      "cs201-array-drills" := AssignmentDetail(
        "cs201-array-drills", "Array Drills", "CS201", "Arrays & Lists",
        [
          "Implement functions to insert, delete, and search in dynamic arrays.",
          "Time each operation and report complexities.",
          "Submit a single .zip with your code and README."],
        "2025-08-01T08:00:00Z", "2025-08-20T23:59:00Z", 2, [], Open, None, Some(128)),
      "cs201-list-ops" := AssignmentDetail(
        "cs201-list-ops", "List Ops", "CS201", "Arrays & Lists",
        [
          "Build singly/doubly linked list APIs.",
          "Provide unit tests using your preferred framework."],
        "2025-08-03T08:00:00Z", "2025-08-25T23:59:00Z", 2, [], Open, None, Some(123)),
      "cs201-queue-sim" := AssignmentDetail(
        "cs201-queue-sim", "Queue Simulator", "CS201", "Stacks & Queues",
        [
          "Simulate queue operations with different scheduling policies.",
          "Record average wait times and throughput.",
          "Submit a PDF report + source code."],
        "2025-08-05T08:00:00Z", "2025-08-28T23:59:00Z", 1, [], Open, None, Some(97)),
      "cs201-bst-basics" := AssignmentDetail(
        "cs201-bst-basics", "BST Basics", "CS201", "Trees & Graphs",
        [
          "Implement BST insert/search/delete.",
          "Analyze best/worst-case paths."],
        "2025-08-10T08:00:00Z", "2025-08-30T23:59:00Z", 2, [], Open, None, Some(76)),
      "des110-flex-demo" := AssignmentDetail(
        "des110-flex-demo", "Flex Demo Page", "DES110", "Flexbox Layout",
        [
          "Create a responsive page using only Flexbox.",
          "Attach a short Loom demo."],
        "2025-08-02T08:00:00Z", "2025-08-18T23:59:00Z", 3, [], Open, None, Some(102)),
      "des110-color-tokens" := AssignmentDetail(
        "des110-color-tokens", "Color Tokens", "DES110", "Color & Contrast",
        [
          "Define a color token system.",
          "Show AA/AAA contrast proofs."],
        "2025-08-06T08:00:00Z", "2025-08-25T23:59:00Z", 2, [], Open, None, None),
      "cs210-join-practice" := AssignmentDetail(
        "cs210-join-practice", "Join Practice", "CS210", "SQL Joins",
        [
          "Solve the join kata set.",
          "Include EXPLAIN plans."],
        "2025-08-01T08:00:00Z", "2025-08-21T23:59:00Z", 2, [], Open, None, None),
      "cs210-explain-plan" := AssignmentDetail(
        "cs210-explain-plan", "Explain Plan", "CS210", "Indexes & Query Plans",
        [
          "Collect query plans with/without indexes.",
          "Compare costs and latency."],
        "2025-08-09T08:00:00Z", "2025-08-29T23:59:00Z", 1, [], Open, None, None),
      "math130-set-proofs-1" := AssignmentDetail(
        "math130-set-proofs-1", "Set Proofs 1", "MATH130", "Set Theory Basics",
        [
          "Prove the given set identities.",
          "Submit as a single PDF."],
        "2025-08-04T08:00:00Z", "2025-08-22T23:59:00Z", 2, [], Open, None, None)
    ]
  }

  /**
   * What the page renders for an id: the record's page, "Assignment not
   * found." when `db[id]` is undefined, or an error when `db[id]` is a member
   * inherited from `Object.prototype` (it is truthy, has no `submissions`,
   * and reading `item.submissions.length` throws).
   */
  datatype PageView = Page(item: AssignmentDetail) | NotFound | RenderError

  function Lookup(db: Db, id: string): (r: PageView)
    ensures r.Page? <==> id in db
    ensures r.Page? ==> r.item == db[id]
    ensures r.NotFound? <==> id !in db && id !in PrototypeNames
    ensures r.RenderError? <==> id !in db && id in PrototypeNames
  {
    match Get(db, id)
    case Own(a) => Page(a)
    case Inherited(_) => RenderError
    case Undefined => NotFound
  }

  /** On the seed store the empty id is not found, and "constructor" or "toString" fails to render. */
  lemma SeedLookupEdges()
    ensures Lookup(Seed(), "") == NotFound
    ensures Lookup(Seed(), "constructor") == RenderError
    ensures Lookup(Seed(), "toString") == RenderError
  {
  }

  /** `hasSubmission`. */
  predicate HasSubmission(a: AssignmentDetail)
    ensures HasSubmission(a) <==> a.submissions != []
  {
    |a.submissions| > 0
  }

  /**
   * `canSubmit`: the assignment is open and its quota is not used up. Outside
   * the open period nothing can be submitted whatever quota remains, and a
   * record whose quota is 0 can never be submitted to.
   */
  predicate CanSubmit(a: AssignmentDetail)
    ensures CanSubmit(a) ==> a.status == Open && a.allowedSubmissions >= 1
  {
    a.status == Open && |a.submissions| < a.allowedSubmissions
  }

  /** Every record within its quota. */
  ghost predicate WithinQuota(db: Db) {
    forall k :: k in db ==> |db[k].submissions| <= db[k].allowedSubmissions
  }

  /**
   * The one write path: the record under `key` gets `s` appended after its
   * earlier submissions and its status becomes grading; its other fields and
   * every other record stay as they were.
   */
  function AppendSubmission(db: Db, key: string, s: Submission): (r: Db)
    requires key in db
    ensures r.Keys == db.Keys
    ensures r[key].submissions == db[key].submissions + [s]
    ensures r[key].status == Grading
    ensures r[key].(submissions := db[key].submissions, status := db[key].status) == db[key]
    ensures forall k :: k in db && k != key ==> r[k] == db[k]
  {
    db[key := db[key].(submissions := db[key].submissions + [s], status := Grading)]
  }

  /**
   * An append made while the gate was open keeps every record within quota,
   * and closes the gate of that record.
   */
  lemma AppendKeepsQuota(db: Db, key: string, s: Submission)
    requires WithinQuota(db) && key in db && CanSubmit(db[key])
    ensures WithinQuota(AppendSubmission(db, key, s))
    ensures !CanSubmit(AppendSubmission(db, key, s)[key])
    ensures HasSubmission(AppendSubmission(db, key, s)[key])
  {
    var r := AppendSubmission(db, key, s);
    forall k | k in r ensures |r[k].submissions| <= r[k].allowedSubmissions {
      if k != key {
        assert r[k] == db[k];
      }
    }
  }

  /** The seed: every record is stored under its own id, open, empty and with a positive quota. */
  lemma SeedWellFormed()
    ensures forall k :: k in Seed() ==>
      Seed()[k].id == k && Seed()[k].submissions == [] && CanSubmit(Seed()[k])
    ensures WithinQuota(Seed())
  {
  }

  /** What the status panel shows. */
  datatype Panel = NoSubmissionsYet | FinalGrade(percent: int) | WaitingForGrade

  function StatusPanel(a: AssignmentDetail): (p: Panel)
    ensures p == NoSubmissionsYet <==> !HasSubmission(a)
    ensures p.FinalGrade? <==> HasSubmission(a) && a.gradePercent.Some?
    ensures p.FinalGrade? ==> p.percent == a.gradePercent.value
  {
    if !HasSubmission(a) then NoSubmissionsYet
    else if a.gradePercent.Some? then FinalGrade(a.gradePercent.value)
    else WaitingForGrade
  }

  /** One tick of the interval: `Math.min(prev + 7, 100)`. */
  function NextPct(p: int): (q: int)
    ensures q <= 100
    ensures p <= 100 ==> p <= q
    ensures q == 100 <==> p >= 93
    ensures p < 93 ==> q == p + 7
  {
    if p + 7 < 100 then p + 7 else 100
  }

  /** The progress after `n` ticks from 0: always a valid percentage, and full from some tick on. */
  function PctAfter(n: nat): (p: int)
    ensures 0 <= p <= 100
  {
    if n == 0 then 0 else NextPct(PctAfter(n - 1))
  }

  /** Progress is 7 per tick until it is capped at 100. */
  lemma {:induction false} PctAfterClosedForm(n: nat)
    ensures PctAfter(n) == if 7 * n < 100 then 7 * n else 100
  {
    if n > 0 {
      PctAfterClosedForm(n - 1);
    }
  }

  /** Progress never goes down and stays within 0 to 100. */
  lemma PctAfterMonotone(m: nat, n: nat)
    requires m <= n
    ensures 0 <= PctAfter(m) <= PctAfter(n) <= 100
  {
    PctAfterClosedForm(m);
    PctAfterClosedForm(n);
  }

  /** The 15th tick is the first to reach 100; after 14 ticks the bar shows 98. */
  lemma FullFirstAtFifteen(n: nat)
    ensures PctAfter(n) == 100 <==> n >= 15
    ensures PctAfter(14) == 98
  {
    PctAfterClosedForm(n);
    PctAfterClosedForm(14);
  }

  /** One tick during an upload: it completes exactly on the 15th, and before that it raises the progress. */
  lemma TickStep(t: nat)
    requires t < 15
    ensures NextPct(PctAfter(t)) >= 93 + 7 <==> t == 14
    ensures PctAfter(t) >= 93 <==> t == 14
    ensures t < 14 ==> NextPct(PctAfter(t)) == PctAfter(t + 1) > PctAfter(t)
  {
    PctAfterClosedForm(t);
    PctAfterClosedForm(t + 1);
  }

  /**
   * The page's state for one assignment id. `timerActive` stands for the
   * interval handle, `fileSnap` for the file captured when the upload began,
   * and the ghost `ticks` counts the ticks of the current upload.
   */
  class AssignmentPage {
    const itemId: string
    var db: Db
    var open: bool
    var dragOver: bool
    var file: Option<FileInfo>
    var uploading: bool
    var uploadPct: int
    var timerActive: bool
    var inputKey: nat
    var fileSnap: Option<FileInfo>
    ghost var ticks: nat

    /**
     * The dialog is open only while its record may take a submission, the
     * timer runs exactly while uploading, and the progress is the one reached
     * after the ticks so far (0 when idle).
     */
    ghost predicate Valid()
      reads this
    {
      && itemId in db
      && WithinQuota(db)
      && timerActive == uploading
      && (uploading ==> open && fileSnap.Some? && ticks < 15 && uploadPct == PctAfter(ticks))
      && (!uploading ==> uploadPct == 0)
      && (open ==> CanSubmit(db[itemId]))
    }

    /** The page mounted on a known assignment id, with the seed store. */
    constructor (id: string)
      requires id in Seed()
      ensures Valid()
      ensures itemId == id && db == Seed()
      ensures !open && !dragOver && file.None? && !uploading && uploadPct == 0 && inputKey == 0
    {
      SeedWellFormed();
      itemId := id;
      db := Seed();
      open, dragOver, file := false, false, None;
      uploading, uploadPct, timerActive := false, 0, false;
      inputKey, fileSnap := 0, None;
      ticks := 0;
    }

    /** `onPickFile`: the first picked file, if any, becomes the staged file. */
    method PickFile(f: Option<FileInfo>)
      requires Valid() && open
      modifies this`file
      ensures Valid()
      ensures file == if f.Some? then f else old(file)
    {
      if f.Some? {
        file := f;
      }
    }

    /** `onDrop`: the highlight goes off; the dropped file is staged unless an upload runs. */
    method Drop(f: Option<FileInfo>)
      requires Valid() && open
      modifies this`file, this`dragOver
      ensures Valid()
      ensures !dragOver
      ensures file == if f.Some? && !uploading then f else old(file)
    {
      dragOver := false;
      if uploading {
        return;
      }
      if f.Some? {
        file := f;
      }
    }

    /** Dragging over the zone highlights it only when idle and with nothing staged. */
    method DragOver()
      requires Valid() && open
      modifies this`dragOver
      ensures Valid()
      ensures dragOver == (old(dragOver) || (!uploading && file.None?))
    {
      if !uploading && file.None? {
        dragOver := true;
      }
    }

    method DragLeave()
      requires Valid()
      modifies this`dragOver
      ensures Valid() && !dragOver
    {
      dragOver := false;
    }

    /**
     * `clearSelectedFile`: nothing staged, progress 0, no upload and no timer,
     * and a new input key so the same file can be picked again.
     */
    method ClearSelectedFile()
      requires Valid()
      modifies this
      ensures Valid()
      ensures file.None? && uploadPct == 0 && !uploading && !timerActive
      ensures inputKey == old(inputKey) + 1
      ensures db == old(db) && open == old(open) && dragOver == old(dragOver)
      ensures fileSnap == old(fileSnap) && ticks == old(ticks)
    {
      file := None;
      uploadPct := 0;
      uploading := false;
      if timerActive {
        timerActive := false;
      }
      inputKey := inputKey + 1;
    }

    /**
     * `startUpload` from the dialog's Submit button: with nothing staged it
     * does nothing; otherwise the staged file is captured, progress restarts
     * at 0 and the timer starts.
     */
    method StartUpload()
      requires Valid() && open && !uploading
      modifies this
      ensures Valid()
      ensures db == old(db) && open == old(open) && file == old(file)
      ensures dragOver == old(dragOver) && inputKey == old(inputKey)
      ensures old(file).None? ==> !uploading && !timerActive && fileSnap == old(fileSnap) && ticks == old(ticks)
      ensures old(file).Some? ==> uploading && timerActive && uploadPct == 0 && fileSnap == old(file) && ticks == 0
    {
      if file.None? {
        return;
      }
      uploading := true;
      uploadPct := 0;
      fileSnap := file;
      timerActive := true;
      ticks := 0;
    }

    /** The completing tick's updates: stop the timer, append, close, clear. */
    method FinishUpload(s: Submission)
      requires Valid() && uploading
      modifies this
      ensures Valid()
      ensures db == AppendSubmission(old(db), itemId, s) && !CanSubmit(db[itemId])
      ensures !uploading && !timerActive && !open && file.None? && uploadPct == 0
      ensures inputKey == old(inputKey) && dragOver == old(dragOver) && fileSnap == old(fileSnap)
    {
      timerActive := false;
      AppendKeepsQuota(db, itemId, s);
      db := AppendSubmission(db, itemId, s);
      uploading := false;
      open := false;
      file := None;
      uploadPct := 0;
    }

    /**
     * One firing of the interval. Below 100 the progress advances by 7;
     * the tick that reaches 100 stops the timer, appends the captured file as
     * a submission with the given id, URL and time, closes the dialog and
     * clears the selection. That is the 15th tick of the upload.
     */
    method Tick(newId: string, url: string, at: string) returns (completed: bool)
      requires Valid() && timerActive
      modifies this
      ensures Valid()
      ensures completed <==> old(uploadPct) >= 93
      ensures completed <==> old(ticks) == 14
      ensures inputKey == old(inputKey) && dragOver == old(dragOver) && fileSnap == old(fileSnap)
      ensures !completed ==>
        && uploadPct == NextPct(old(uploadPct)) && uploadPct > old(uploadPct)
        && ticks == old(ticks) + 1
        && db == old(db) && uploading && timerActive && open && file == old(file)
      ensures completed ==>
        && db == AppendSubmission(old(db), itemId,
             Submission(newId, old(fileSnap).value.name, old(fileSnap).value.size, at, Some(url)))
        && !uploading && !timerActive && !open && file.None? && uploadPct == 0
        && !CanSubmit(db[itemId])
    {
      TickStep(ticks);
      var next := NextPct(uploadPct);
      if next >= 100 {
        var snap := fileSnap.value;
        FinishUpload(Submission(newId, snap.name, snap.size, at, Some(url)));
        completed := true;
      } else {
        uploadPct := next;
        ticks := ticks + 1;
        completed := false;
      }
    }

    /**
     * The dialog's `onOpenChange`: it opens only from the trigger, which is
     * disabled while the gate is closed; closing it always clears the selection.
     */
    method OnOpenChange(v: bool)
      requires Valid()
      requires v ==> CanSubmit(db[itemId])
      modifies this
      ensures Valid()
      ensures open == v && db == old(db) && dragOver == old(dragOver)
      ensures v ==> file == old(file) && uploading == old(uploading) && inputKey == old(inputKey)
      ensures v ==> uploadPct == old(uploadPct) && timerActive == old(timerActive)
      ensures v ==> fileSnap == old(fileSnap) && ticks == old(ticks)
      ensures !v ==> fileSnap == old(fileSnap)
      ensures !v ==> file.None? && !uploading && !timerActive && uploadPct == 0 && inputKey == old(inputKey) + 1
    {
      if !v {
        ClearSelectedFile();
      }
      open := v;
    }

    /** The footer Cancel, disabled while uploading: it only closes the dialog. */
    method Cancel()
      requires Valid() && !uploading
      modifies this`open
      ensures Valid() && !open
    {
      open := false;
    }
  }
}
