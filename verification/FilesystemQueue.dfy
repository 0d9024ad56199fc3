/// The queue as it runs: the directories, and the memory of an empty inbox that
/// saves scanning it again. Each call is one step here; `IdleCache` takes the
/// claim apart.
module FilesystemQueue {
  import opened Wrappers
  import opened Text
  import opened QueueNames
  import opened JobQueue

  datatype ClaimResult = NoJob | Unreadable(place: Place) | Claimed(place: Place, contents: Contents)

  datatype JobResult = Served(success: bool, parked: bool) | Requeued | BadJob | HarnessError

  /// No file in the inbox is a job.
  predicate InboxIdle(files: Files)
  {
    forall p | p in files && p.dir == Inbox :: !IsJobName(p.name)
  }

  /// The first of the names in claim order.
  function First(names: seq<string>): (first: string)
    requires names != []
    ensures first in names && forall n | n in names && n != first :: Before(first, n)
  {
    if |names| == 1 then names[0]
    else
      var rest := First(names[1..]);
      FirstOfMore(names, rest);
      if Before(rest, names[0]) then rest else names[0]
  }

  lemma FirstOfMore(names: seq<string>, rest: string)
    requires |names| > 1 && rest in names[1..] && forall n | n in names[1..] && n != rest :: Before(rest, n)
    ensures var first := if Before(rest, names[0]) then rest else names[0];
            first in names && forall n | n in names && n != first :: Before(first, n)
  {
    var first := if Before(rest, names[0]) then rest else names[0];
    forall n | n in names && n != first ensures Before(first, n) {
      assert n == names[0] || n in names[1..];
      BeforeIsStrictOrder(names[0], rest, n);
    }
  }

  class Queue {
    /// What the directories hold, and a stamp that every change of the inbox moves.
    var files: Files
    var stamp: nat
    var cachedIdle: bool
    var cachedStamp: Option<nat>

    constructor (files: Files)
      ensures this.files == files && CacheSound()
    {
      this.files, stamp, cachedIdle, cachedStamp := files, 0, false, None;
    }

    ghost predicate CacheSound()
      reads this
    {
      && (cachedStamp.Some? ==> cachedStamp.value <= stamp)
      && (cachedIdle && cachedStamp == Some(stamp) ==> InboxIdle(files))
    }

    /// The stamp of the inbox and what is remembered of it.
    function Memory(): (nat, bool, Option<nat>)
      reads this
    {
      (stamp, cachedIdle, cachedStamp)
    }

    method Admit(job: QueueJob, capacity: nat, origin: nat, uuid: string, jobUuid: string) returns (r: Admission)
      requires CacheSound() && Fresh(files, uuid)
      modifies this
      ensures (files, r) == JobQueue.Admit(old(files), job, capacity, origin, uuid, jobUuid)
      ensures r.Accepted? ==>
                && IsSubmitted(r.job, job, jobUuid)
                && exists at :: AppearsInInbox(old(files), files, at, origin, r.job)
      ensures !r.Accepted? ==> files == old(files) && Memory() == old(Memory())
      ensures r.Accepted? ==> Memory() == (old(stamp) + 1, false, None)
      ensures CacheSound()
    {
      hide IsSubmitted, AppearsInInbox, Fresh, IsBlank, InboxFilename, Depth;
      SubmissionIsStored(files, job, capacity, origin, uuid, jobUuid);
      if IsBlank(job.task) {
        return MissingTask;
      }
      if Depth(files) >= Bound(capacity) {
        return Full;
      }
      var admitted := if job.jobId.None? then job.(jobId := Some(jobUuid)) else job;
      files := files[Place(Inbox, InboxFilename(job.priority, uuid)) := JobFile(origin, Parsed(admitted))];
      stamp := stamp + 1;
      Invalidate();
      r := Accepted(admitted);
    }

    method Invalidate()
      modifies this`cachedIdle, this`cachedStamp
      ensures !cachedIdle && cachedStamp == None
    {
      cachedIdle, cachedStamp := false, None;
    }

    /// Claims the next job; `listing` is the inbox in the order it is listed. The
    /// memory of an empty inbox never hides a job.
    method ClaimNext(listing: seq<string>, uuid: string) returns (r: ClaimResult)
      requires CacheSound() && WellPlaced(files) && Fresh(files, uuid)
      requires forall name :: name in listing <==> Place(Inbox, name) in files
      modifies this
      ensures CacheSound()
      ensures r == NoJob <==> InboxIdle(old(files))
      ensures r == NoJob ==> files == old(files) && Memory() == (old(stamp), true, Some(stamp))
      ensures r != NoJob ==> Memory() == (old(stamp) + 1, false, None)
      ensures r != NoJob ==>
                exists name ::
                  && IsNext(old(files), name) && r.place == ClaimedPlace(name, uuid)
                  && files == Rename(old(files), Place(Inbox, name), r.place)
                  && files[r.place] == old(files)[Place(Inbox, name)]
      ensures r.Claimed? ==> files[r.place].JobFile? && r.contents == files[r.place].contents != NotText
      ensures r.Unreadable? ==> files[r.place].JobFile? && files[r.place].contents == NotText
    {
      hide Before, IsJobName, ProcessingName, Fresh;
      if cachedIdle && cachedStamp == Some(stamp) {
        return NoJob;
      }
      var prioritized := [];
      for n := 0 to |listing|
        invariant forall name :: name in prioritized <==> name in listing[..n] && IsJobName(name)
      {
        if IsJobName(listing[n]) {
          prioritized := prioritized + [listing[n]];
        }
      }
      assert listing[..|listing|] == listing;
      if prioritized == [] {
        assert InboxIdle(files) by {
          forall p | p in files && p.dir == Inbox ensures !IsJobName(p.name) {
            assert p == Place(Inbox, p.name);
            assert p.name in listing;
          }
        }
        cachedIdle, cachedStamp := true, Some(stamp);
        return NoJob;
      }
      var name := First(prioritized);
      var source, destination := Place(Inbox, name), ClaimedPlace(name, uuid);
      assert IsNext(files, name) by {
        forall p | p in files && p.dir == Inbox && IsJobName(p.name) && p.name != name ensures Before(name, p.name) {
          assert p == Place(Inbox, p.name);
          assert p.name in prioritized;
        }
      }
      var file := files[source];
      files := Rename(files, source, destination);
      stamp := stamp + 1;
      Invalidate();
      if file.contents == NotText {
        return Unreadable(destination);
      }
      r := Claimed(destination, file.contents);
    }

    /// Runs a claimed job and files it; `outcome` is what the harness answered.
    method RunClaimed(place: Place, contents: Contents, outcome: RunOutcome, retryLimit: nat, uuid: string)
      returns (r: JobResult)
      requires CacheSound() && place in files && place.dir == Processing
      requires files[place].JobFile? && files[place].contents == contents != NotText
      modifies this
      ensures CacheSound()
      ensures files == Finish(old(files), place, outcome, retryLimit, uuid)
      ensures Memory() == if r == Requeued then (old(stamp) + 1, false, None) else old(Memory())
      ensures r == match contents
                   case BadJson => BadJob
                   case Parsed(job) =>
                     if outcome.Ran? then Served(outcome.success, outcome.parked)
                     else if job.attempt < retryLimit then Requeued
                     else HarnessError
    {
      hide ProcessingName, OriginalName, Stem, WithExtension, IsJobName, InboxFilename;
      if contents.BadJson? {
        Archive(place, FailedDir, uuid, true);
        return BadJob;
      }
      var job := contents.job;
      if outcome.RunFailed? {
        if job.attempt < retryLimit {
          var retry := job.(attempt := job.attempt + 1);
          files := files[RetryPlace(retry, uuid) := JobFile(files[place].origin, Parsed(retry))];
          files := files - {place};
          stamp := stamp + 1;
          Invalidate();
          return Requeued;
        }
        Archive(place, FailedDir, uuid, true);
        return HarnessError;
      }
      var dir := if outcome.success && !outcome.parked then Done else FailedDir;
      var result := ResultPlace(files, place, dir, uuid);
      files := files[result := ResultFile(job.jobId, job.attempt, outcome.success, outcome.parked)];
      assert result.dir == dir;
      Archive(place, dir, uuid, false);
      r := Served(outcome.success, outcome.parked);
    }

    method Archive(place: Place, dir: Dir, uuid: string, note: bool)
      requires CacheSound() && place in files && place.dir == Processing && dir != Inbox
      modifies this`files
      ensures CacheSound()
      ensures var to := ArchivePlace(old(files), place, dir, uuid);
              var moved := Rename(old(files), place, to);
              files == if note then moved[ErrorPlace(to) := ErrorFile] else moved
    {
      var to := ArchivePlace(files, place, dir, uuid);
      files := Rename(files, place, to);
      if note {
        files := files[ErrorPlace(to) := ErrorFile];
      }
    }

    /// Someone else puts a file into the inbox.
    method DroppedIn(name: string, contents: Contents, origin: nat)
      requires CacheSound()
      modifies this
      ensures CacheSound() && files == old(files)[Place(Inbox, name) := JobFile(origin, contents)]
      ensures Memory() == (old(stamp) + 1, old(cachedIdle), old(cachedStamp))
    {
      files := files[Place(Inbox, name) := JobFile(origin, contents)];
      stamp := stamp + 1;
    }
  }
}
