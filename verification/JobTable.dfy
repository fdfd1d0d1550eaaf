/** The shell's job table (PA2/shell_src/jobs.c:10-70): slot 0 is the foreground job, the
    slots above it hold background and stopped jobs under their ids. */
module JobTable {

  const MAX_JOBS := 8192

  datatype JobState = Unset | Foreground | Background | Stopped | Finished

  class Job {
    var id: nat
    var state: JobState

    /** A fresh job belongs to no slot yet. */
    constructor ()
      ensures id == 0 && state == Unset
    {
      id, state := 0, Unset;
    }
  }

  /** The ids in use: occupied slots above 0. */
  ghost function Occupied(slots: seq<Job?>): (ids: set<nat>) {
    set i | 1 <= i < |slots| && slots[i] != null
  }

  /** `h` is the largest id in use; 0 if there is none. */
  ghost predicate IsHighest(slots: seq<Job?>, h: nat) {
    && (forall i {:trigger slots[i]} :: 1 <= i < |slots| && slots[i] != null ==> i <= h)
    && (h != 0 ==> h < |slots| && slots[h] != null)
  }

  lemma OccupyOne(slots: seq<Job?>, k: nat, job: Job)
    requires 1 <= k < |slots| && slots[k] == null
    ensures Occupied(slots[k := job]) == Occupied(slots) + {k} && k !in Occupied(slots)
    ensures |Occupied(slots[k := job])| == |Occupied(slots)| + 1
  {
  }

  lemma VacateOne(slots: seq<Job?>, k: nat)
    requires k < |slots| && slots[k] != null
    ensures Occupied(slots[k := null]) == Occupied(slots) - {k}
    ensures |Occupied(slots[k := null])| == |Occupied(slots)| - if 1 <= k then 1 else 0
  {
    assert Occupied(slots[k := null]) == Occupied(slots) - {k};
    assert 1 <= k ==> k in Occupied(slots);
  }

  /** Slot 0 plays no part in the ids. */
  lemma SlotZeroFree(slots: seq<Job?>, job: Job?)
    requires slots != []
    ensures Occupied(slots[0 := job]) == Occupied(slots)
    ensures forall h :: IsHighest(slots, h) ==> IsHighest(slots[0 := job], h)
  {
  }

  /** Above the highest id every slot is free, and stays so when one is cleared. */
  lemma AboveHighestFree(slots: seq<Job?>, h: nat, k: nat)
    requires IsHighest(slots, h) && k < |slots|
    ensures h < |slots| && forall i {:trigger slots[k := null][i]} :: h < i < |slots| ==> slots[k := null][i] == null
  {
  }

  class Jobs {
    const table: array<Job?>
    var numJobs: nat
    var highestJobId: nat
    /** Every job the table may refer to. */
    ghost var known: set<Job>

    ghost predicate SlotsOk()
      reads this, table, known
    {
      && table.Length == MAX_JOBS + 1
      && (forall i {:trigger table[i]} :: 0 <= i < table.Length && table[i] != null ==> table[i] in known)
      && (forall i {:trigger table[i]} :: 1 <= i < table.Length && table[i] != null ==> table[i].id == i)
    }

    /** Every job above slot 0, other than `except`, is in the background or stopped. */
    ghost predicate LiveBut(except: Job?)
      reads this, table, known
      requires SlotsOk()
    {
      forall i {:trigger table[i]} :: 1 <= i < table.Length && table[i] != null && table[i] != except ==>
        table[i].state == Background || table[i].state == Stopped
    }

    ghost predicate CountsOk()
      reads this, table
    {
      numJobs == |Occupied(table[..])| && IsHighest(table[..], highestJobId)
    }

    ghost predicate Valid()
      reads this, table, known
    {
      SlotsOk() && LiveBut(null) && CountsOk()
    }

    /** Valid but for the state of one job, which has changed. */
    ghost predicate ValidBut(job: Job)
      reads this, table, known
    {
      SlotsOk() && LiveBut(job) && CountsOk()
    }

    constructor ()
      ensures Valid() && Occupied(table[..]) == {} && fresh(table)
    {
      table := new Job?[MAX_JOBS + 1](_ => null);
      numJobs, highestJobId, known := 0, 0, {};
      new;
      assert Occupied(table[..]) == {};
    }

    ghost predicate Live(i: nat)
      reads this, table, known
      requires SlotsOk()
    {
      1 <= i < table.Length && table[i] != null && (table[i].state == Background || table[i].state == Stopped)
    }

    /** `h` is the highest slot with a background or stopped job; 0 if there is none. */
    ghost predicate IsTopLive(h: nat)
      reads this, table, known
      requires SlotsOk()
    {
      (forall i: nat {:trigger Live(i)} :: Live(i) ==> i <= h) && (h != 0 ==> Live(h))
    }

    /** Walk down to the highest slot whose job is in the background or stopped. */
    method UpdateHighestJobId()
      requires SlotsOk() && highestJobId < table.Length
      requires forall i {:trigger table[i]} :: highestJobId < i < table.Length ==> table[i] == null
      modifies `highestJobId
      ensures SlotsOk() && IsTopLive(highestJobId) && highestJobId <= old(highestJobId)
    {
      while highestJobId > 0
        invariant highestJobId < table.Length && highestJobId <= old(highestJobId)
        invariant SlotsOk()
        invariant forall i {:trigger table[i]} :: highestJobId < i < table.Length && table[i] != null ==>
          table[i].state != Background && table[i].state != Stopped
      {
        var job := table[highestJobId];
        if job != null && (job.state == Background || job.state == Stopped) {
          return;
        }
        highestJobId := highestJobId - 1;
      }
    }

    /** With every occupied slot live the walk finds the highest id. */
    lemma AllLiveHighest(h: nat)
      requires SlotsOk() && LiveBut(null) && IsTopLive(h)
      ensures IsHighest(table[..], h)
    {
      forall i | 1 <= i < table.Length && table[i] != null ensures i <= h {
        assert Live(i);
      }
    }

    /** With the table in order, the walk leaves the highest id in use. */
    method FindHighest()
      requires SlotsOk() && LiveBut(null) && highestJobId < table.Length
      requires forall i {:trigger table[i]} :: highestJobId < i < table.Length ==> table[i] == null
      modifies `highestJobId
      ensures SlotsOk() && LiveBut(null) && IsHighest(table[..], highestJobId)
    {
      hide IsHighest;
      UpdateHighestJobId();
      AllLiveHighest(highestJobId);
    }

    /** Enter a job under the id after the highest; that slot is always free. */
    method Add(job: Job)
      requires Valid() && highestJobId < MAX_JOBS
      requires job.state == Background || job.state == Stopped
      requires forall i {:trigger table[i]} :: 1 <= i < table.Length ==> table[i] != job
      modifies `numJobs, `highestJobId, `known, table, job`id
      ensures Valid() && job.id == old(highestJobId) + 1 && table[job.id] == job
      ensures old(table[..])[job.id] == null && table[..] == old(table[..])[job.id := job]
      ensures Occupied(table[..]) == old(Occupied(table[..])) + {job.id} && numJobs == old(numJobs) + 1
    {
      ghost var was := table[..];
      highestJobId := highestJobId + 1;
      OccupyOne(was, highestJobId, job);
      job.id := highestJobId;
      table[highestJobId] := job;
      known := known + {job};
      numJobs := numJobs + 1;
      assert table[..] == was[highestJobId := job];
    }

    /** Take a job out; its state may already be anything. */
    method Remove(job: Job)
      requires ValidBut(job) && job.id <= MAX_JOBS && table[job.id] == job
      modifies `numJobs, `highestJobId, table
      ensures Valid() && table[..] == old(table[..])[job.id := null]
      ensures Occupied(table[..]) == old(Occupied(table[..])) - {job.id}
    {
      hide IsHighest, Occupied;
      ghost var was := table[..];
      VacateOne(was, job.id);
      AboveHighestFree(was, highestJobId, job.id);
      table[job.id] := null;
      assert table[..] == was[job.id := null];
      if job.id > 0 {
        numJobs := numJobs - 1;
      }
      FindHighest();
    }

    /** A job about to become the foreground one leaves its slot. */
    method Vacate(job: Job)
      requires Valid() && job.id <= MAX_JOBS && (0 < job.id ==> table[job.id] == job)
      modifies `numJobs, `highestJobId, table
      ensures Valid() && table[..] == old(table[..])[job.id := null]
      ensures Occupied(table[..]) == old(Occupied(table[..])) - {job.id}
    {
      ghost var was := table[..];
      table[job.id] := null;
      assert table[..] == was[job.id := null];
      if job.id != 0 {
        VacateOne(was, job.id);
        if job.state != Foreground {
          numJobs := numJobs - 1;
          AboveHighestFree(was, highestJobId, job.id);
          FindHighest();
        }
      } else {
        SlotZeroFree(was, null);
      }
    }

    /** Make a job the foreground one: a table job leaves its slot, a new one just enters. */
    method SetForeground(job: Job)
      requires Valid() && job.id <= MAX_JOBS && (0 < job.id ==> table[job.id] == job)
      requires job.id == 0 ==> forall i {:trigger table[i]} :: 1 <= i < table.Length ==> table[i] != job
      modifies `numJobs, `highestJobId, `known, table, job
      ensures Valid() && job.state == Foreground && job.id == 0
      ensures table[..] == old(table[..][job.id := null])[0 := job]
      ensures Occupied(table[..]) == old(Occupied(table[..])) - {old(job.id)}
    {
      hide IsHighest, Occupied;
      Vacate(job);
      ghost var vacated := table[..];
      assert forall i {:trigger table[i]} :: 1 <= i < table.Length ==> table[i] != job;
      job.state := Foreground;
      job.id := 0;
      table[0] := job;
      known := known + {job};
      assert table[..] == vacated[0 := job];
      SlotZeroFree(vacated, job);
    }

    /** Clear slot 0; ids and counts do not change. */
    method RemoveForeground()
      requires Valid()
      modifies table
      ensures Valid() && table[..] == old(table[..])[0 := null] && Occupied(table[..]) == old(Occupied(table[..]))
    {
      ghost var was := table[..];
      table[0] := null;
      assert table[..] == was[0 := null];
      SlotZeroFree(was, null);
    }

    /** A table job stops or goes on in the background. */
    method ChangeState(job: Job, to: JobState)
      requires Valid() && 1 <= job.id <= MAX_JOBS && table[job.id] == job && (to == Background || to == Stopped)
      modifies job`state
      ensures Valid() && job.state == to
    {
      job.state := to;
    }
  }
}
