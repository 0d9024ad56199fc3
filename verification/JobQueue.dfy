/// The filesystem job queue: four directories, and the four operations that move
/// jobs between them. Each operation is one step; files dropped into the inbox by
/// others are steps too.
module JobQueue {
  import opened Wrappers
  import opened Text
  import opened QueueNames

  datatype Dir = Inbox | Processing | Done | FailedDir

  datatype Place = Place(dir: Dir, name: string)

  datatype QueueJob = QueueJob(jobId: Option<string>, task: string, priority: Priority, attempt: nat,
                               keepWorkspace: bool, logicalOperationId: Option<string>, timeoutSecs: Option<nat>)

  /// What a claimed file reads as.
  datatype Contents = Parsed(job: QueueJob) | BadJson | NotText

  /// A file. `origin` is the identity of a submitted job: a rename keeps it, and
  /// a retry carries it over. No operation looks at it.
  datatype File =
    | JobFile(origin: nat, contents: Contents)
    | ResultFile(jobId: Option<string>, attempt: nat, success: bool, parked: bool)
    | ErrorFile

  type Files = map<Place, File>

  datatype Admission = Accepted(job: QueueJob) | MissingTask | Full

  datatype RunOutcome = Ran(success: bool, parked: bool) | RunFailed

  /// A UUID is fresh when no file name holds it.
  predicate Fresh(files: Files, uuid: string)
  {
    IsUuid(uuid) && forall p | p in files :: !Contains(p.name, uuid)
  }

  predicate InQueue(p: Place)
  {
    (p.dir == Inbox || p.dir == Processing) && IsJobName(p.name)
  }

  function Counted(files: Files): set<Place>
  {
    set p | p in files && InQueue(p)
  }

  function Depth(files: Files): nat
  {
    |Counted(files)|
  }

  function Bound(capacity: nat): nat
  {
    if capacity == 0 then 1 else capacity
  }

  // ----- The operations -----

  function Admitted(job: QueueJob, jobUuid: string): QueueJob
  {
    if job.jobId.None? then job.(jobId := Some(jobUuid)) else job
  }

  function Admit(files: Files, job: QueueJob, capacity: nat, origin: nat, uuid: string, jobUuid: string): (Files,
                 Admission)
  {
    if IsBlank(job.task) then (files, MissingTask)
    else if Depth(files) >= Bound(capacity) then (files, Full)
    else
      var admitted := Admitted(job, jobUuid);
      (files[Place(Inbox, InboxFilename(job.priority, uuid)) := JobFile(origin, Parsed(admitted))], Accepted(admitted))
  }

  function Rename(files: Files, from: Place, to: Place): Files
    requires from in files
  {
    (files - {from})[to := files[from]]
  }

  /// The job file that is claimed next.
  predicate IsNext(files: Files, name: string)
  {
    && Place(Inbox, name) in files && IsJobName(name)
    && forall p | p in files && p.dir == Inbox && IsJobName(p.name) && p.name != name :: Before(name, p.name)
  }

  function ClaimedPlace(name: string, uuid: string): Place
  {
    Place(Processing, ProcessingName(name, uuid))
  }

  function ArchivePlace(files: Files, p: Place, dir: Dir, uuid: string): (to: Place)
    ensures to.dir == dir
  {
    var preferred := Place(dir, OriginalName(p.name));
    if preferred in files then Place(dir, Stem(OriginalName(p.name)) + "-" + uuid + ".json") else preferred
  }

  function ResultPlace(files: Files, p: Place, dir: Dir, uuid: string): Place
  {
    var stem := Stem(OriginalName(p.name));
    var preferred := Place(dir, stem + ".result.json");
    if preferred in files then Place(dir, stem + "-" + uuid + ".result.json") else preferred
  }

  function ErrorPlace(archived: Place): Place
  {
    Place(archived.dir, WithExtension(archived.name, "error.txt"))
  }

  function ArchiveFailed(files: Files, p: Place, uuid: string): Files
    requires p in files
  {
    var to := ArchivePlace(files, p, FailedDir, uuid);
    Rename(files, p, to)[ErrorPlace(to) := ErrorFile]
  }

  function RetryPlace(job: QueueJob, uuid: string): (to: Place)
    ensures to.dir == Inbox
  {
    Place(Inbox, InboxFilename(job.priority, uuid))
  }

  function ResultDir(success: bool, parked: bool): Dir
  {
    if success && !parked then Done else FailedDir
  }

  /// The files after the run of a claimed job.
  function Finish(files: Files, p: Place, outcome: RunOutcome, retryLimit: nat, uuid: string): Files
    requires p in files && files[p].JobFile? && files[p].contents != NotText
  {
    match files[p].contents
    case BadJson => ArchiveFailed(files, p, uuid)
    case Parsed(job) =>
      match outcome
      case RunFailed =>
        if job.attempt < retryLimit then
          files[RetryPlace(job, uuid) := JobFile(files[p].origin, Parsed(job.(attempt := job.attempt + 1)))] - {p}
        else ArchiveFailed(files, p, uuid)
      case Ran(success, parked) =>
        var dir := ResultDir(success, parked);
        var reported := files[ResultPlace(files, p, dir, uuid) := ResultFile(job.jobId, job.attempt, success, parked)];
        Rename(reported, p, ArchivePlace(reported, p, dir, uuid))
  }

  // ----- What always holds -----

  /// Processing holds claimed jobs; an archive holds `.json` files and the error
  /// notes of its jobs.
  ghost predicate WellPlaced(files: Files)
  {
    forall p | p in files ::
      match p.dir
      case Inbox => files[p].JobFile?
      case Processing => files[p].JobFile? && IsJobName(p.name) && IsJobName(OriginalName(p.name))
      case _ => IsJobName(p.name) || (IsErrorNote(p.name) && Place(p.dir, NotedName(p.name)) in files)
  }

  const NOTE: string := ".error.txt"

  predicate IsErrorNote(name: string)
  {
    |name| > |NOTE| && name[|name| - |NOTE|..] == NOTE
  }

  /// The job an error note is about.
  function NotedName(name: string): string
    requires |name| > |NOTE|
  {
    name[..|name| - |NOTE|] + ".json"
  }

  ghost predicate DistinctOrigins(files: Files)
  {
    forall p, q | p in files && q in files && files[p].JobFile? && files[q].JobFile? && p != q ::
      files[p].origin != files[q].origin
  }

  // ----- Names that nothing else has -----

  lemma HoldsUuid(before: string, uuid: string, after: string)
    ensures Contains(before + uuid + after, uuid)
  {
    var s := before + uuid + after;
    assert s[|before|..] == uuid + after;
    assert uuid <= s[|before|..];
  }

  lemma FreshNames(files: Files, uuid: string, original: string, priority: Priority)
    requires Fresh(files, uuid)
    ensures forall dir :: Place(dir, ProcessingName(original, uuid)) !in files
    ensures forall dir :: Place(dir, InboxFilename(priority, uuid)) !in files
    ensures forall dir :: Place(dir, Stem(original) + "-" + uuid + ".json") !in files
    ensures forall dir :: Place(dir, Stem(original) + "-" + uuid + ".result.json") !in files
  {
    hide Contains, IsUuid, Fixed, Stem, IsJobName;
    HoldsUuid(original + MARKER, uuid, ".json");
    HoldsUuid("p" + Fixed(InboxKey(priority), 10) + "-", uuid, ".json");
    HoldsUuid(Stem(original) + "-", uuid, ".json");
    HoldsUuid(Stem(original) + "-", uuid, ".result.json");
  }

  /// The job as it was submitted, with the id it is given where it had none.
  ghost predicate IsSubmitted(stored: QueueJob, job: QueueJob, jobUuid: string)
  {
    && stored == job.(jobId := stored.jobId)
    && stored.jobId == if job.jobId.Some? then job.jobId else Some(jobUuid)
  }

  /// One new file appears, in the inbox, under a name that tells its priority.
  ghost predicate AppearsInInbox(before: Files, after: Files, at: Place, origin: nat, job: QueueJob)
  {
    && at !in before && at.dir == Inbox && IsJobName(at.name) && PriorityFromName(at.name) == job.priority
    && after == before[at := JobFile(origin, Parsed(job))]
  }

  /// A submission is accepted exactly when its task is not blank and the queue has
  /// room. It is then answered with the submitted job, and the one new file holds the
  /// job of the answer; otherwise nothing changes.
  lemma SubmissionIsStored(files: Files, job: QueueJob, capacity: nat, origin: nat, uuid: string, jobUuid: string)
    requires Fresh(files, uuid)
    ensures var (after, r) := Admit(files, job, capacity, origin, uuid, jobUuid);
            && (r.Accepted? <==> !IsBlank(job.task) && (Depth(files) < capacity || (capacity == 0 && Depth(files) < 1)))
            && (r.MissingTask? <==> IsBlank(job.task))
            && (!r.Accepted? ==> after == files)
            && (r.Accepted? ==>
                  IsSubmitted(r.job, job, jobUuid) && exists at :: AppearsInInbox(files, after, at, origin, r.job))
  {
    hide IsBlank, Depth, PriorityFromName, Contains, IsUuid, IsJobName, InboxFilename;
    var (after, r) := Admit(files, job, capacity, origin, uuid, jobUuid);
    var at := Place(Inbox, InboxFilename(job.priority, uuid));
    FreshNames(files, uuid, "", job.priority);
    PriorityRoundTrip(job.priority, uuid);
    InboxNameIsJobName(job.priority, uuid);
    assert r.Accepted? ==> AppearsInInbox(files, after, at, origin, r.job);
  }

  lemma InboxNameIsJobName(priority: Priority, uuid: string)
    ensures IsJobName(InboxFilename(priority, uuid))
  {
    hide Fixed, IsJobName;
    JsonName("p" + Fixed(InboxKey(priority), 10) + "-" + uuid, InboxFilename(priority, uuid));
  }

  lemma JobNameHasStem(name: string)
    requires IsJobName(name)
    ensures Stem(name) != "" && name == Stem(name) + ".json"
  {
    var dot := ExtensionDot(name);
    hide ExtensionDot;
    assert name == name[..dot.value] + [name[dot.value]] + name[dot.value + 1..];
  }

  /// The names a job and its result are archived under.
  lemma ArchiveNames(original: string, uuid: string)
    requires IsJobName(original)
    ensures var stem := Stem(original);
            && IsJobName(stem + "-" + uuid + ".json")
            && IsJobName(stem + ".result.json")
            && IsJobName(stem + "-" + uuid + ".result.json")
            && stem + "-" + uuid + ".json" != stem + "-" + uuid + ".result.json"
            && stem + "-" + uuid + ".json" != stem + ".result.json"
  {
    JobNameHasStem(original);
    hide Stem, IsJobName;
    var stem := Stem(original);
    JsonName(stem + "-" + uuid, stem + "-" + uuid + ".json");
    JsonName(stem + ".result", stem + ".result.json");
    JsonName(stem + "-" + uuid + ".result", stem + "-" + uuid + ".result.json");
    assert |stem + "-" + uuid + ".json"| != |stem + "-" + uuid + ".result.json"|;
    assert (stem + "-" + uuid + ".json")[|stem|] == '-';
    assert (stem + ".result.json")[|stem|] == '.';
  }

  lemma JsonName(stem: string, name: string)
    requires stem != "" && name == stem + ".json"
    ensures IsJobName(name)
  {
    ExtensionOf(stem, "json");
    hide HasExtension;
    assert name == stem + "." + "json";
  }

  /// The error note of an archived job names that job and no other.
  lemma NoteNamesItsJob(name: string)
    requires IsJobName(name)
    ensures var note := WithExtension(name, "error.txt");
            IsErrorNote(note) && !IsJobName(note) && NotedName(note) == name
  {
    JobNameHasStem(name);
    hide Stem, HasExtension;
    var stem, note := Stem(name), WithExtension(name, "error.txt");
    assert note == stem + NOTE;
    ExtensionOf(stem + ".error", "txt");
    assert note == stem + ".error" + "." + "txt";
    NotBoth(note);
  }

  lemma NotBoth(name: string)
    requires HasExtension(name, "txt")
    ensures !HasExtension(name, "json")
  {
    hide ExtensionDot;
    assert "txt"[0] != "json"[0];
  }
}
