/**
 The record-level rules the autoscaler applies to what the GitHub API returns:
 which jobs count toward demand and which registered runners are dead. The
 HTTP requests themselves are outside the model; jobs and runners arrive as
 values, a key missing from the JSON being `None` (or the default the source
 substitutes for it).
 */
module Jobs {

  datatype Option<T> = None | Some(value: T)

  /** A workflow job: its "status", "labels" and "runner_name" keys. */
  datatype Job = Job(status: Option<string>, labels: Option<seq<string>>, runnerName: Option<string>)

  /** A registered runner; a missing "status" reads as "" and a missing "busy" as false. */
  datatype Runner = Runner(status: string, busy: bool, name: string, id: Option<int>)

  /** is_self_hosted_job: the job asks for a self-hosted runner; a job without labels does not. */
  function IsSelfHostedJob(job: Job): (r: bool)
    ensures r <==> job.labels.Some? && exists i :: 0 <= i < |job.labels.value| && job.labels.value[i] == "self-hosted"
  {
    match job.labels
    case None => false
    case Some(labels) => "self-hosted" in labels
  }

  /** str.startswith: `s` begins with `p`, character by character. */
  function StartsWith(s: string, p: string): (r: bool)
    ensures r <==> p <= s
    decreases |p|
  {
    if p == [] then true
    else if s == [] then false
    else s[0] == p[0] && StartsWith(s[1..], p[1..])
  }

  /**
   is_our_runner: a missing or empty runner name is never ours; with no prefix
   configured every other name is; otherwise exactly the names that begin with
   the prefix, compared case-sensitively.
   */
  function IsOurRunner(prefix: string, runnerName: Option<string>): (r: bool)
    ensures runnerName == None || runnerName == Some("") ==> !r
    ensures runnerName.Some? && runnerName.value != "" && prefix == "" ==> r
    ensures prefix != "" ==> (r <==> runnerName.Some? && prefix <= runnerName.value)
  {
    match runnerName
    case None => false
    case Some(name) =>
      if name == "" then false
      else if prefix == "" then true
      else StartsWith(name, prefix)
  }

  /** The cases exercised by the runner-name tests. */
  lemma RunnerNameExamples()
    ensures IsOurRunner("runner-", Some("runner-abc123"))
    ensures IsOurRunner("runner-", Some("runner-"))
    ensures !IsOurRunner("runner-", Some("other-abc123"))
    ensures !IsOurRunner("runner-", Some("RUNNER-abc123"))
    ensures IsOurRunner("", Some("any-runner-name"))
    ensures !IsOurRunner("runner-", None)
    ensures !IsOurRunner("runner-", Some(""))
  {
    assert "runner-" <= "runner-abc123";
    assert "other-abc123"[0] != "runner-"[0];
    assert "RUNNER-abc123"[0] != "runner-"[0];
  }

  /** A queued job counts when it targets self-hosted runners. */
  predicate CountsAsQueued(job: Job) {
    job.status == Some("queued") && IsSelfHostedJob(job)
  }

  /** An in-progress job counts when it runs on one of our runners. */
  predicate CountsAsRunning(prefix: string, job: Job) {
    job.status == Some("in_progress") && IsOurRunner(prefix, job.runnerName)
  }

  /** The queued self-hosted jobs, at most one per job. */
  function QueuedDemand(jobs: seq<Job>): (n: nat)
    ensures n <= |jobs|
    decreases |jobs|
  {
    if jobs == [] then 0
    else QueuedDemand(jobs[..|jobs| - 1]) + (if CountsAsQueued(jobs[|jobs| - 1]) then 1 else 0)
  }

  /** The in-progress jobs on our runners, at most one per job. */
  function RunningDemand(prefix: string, jobs: seq<Job>): (n: nat)
    ensures n <= |jobs|
    decreases |jobs|
  {
    if jobs == [] then 0
    else RunningDemand(prefix, jobs[..|jobs| - 1]) + (if CountsAsRunning(prefix, jobs[|jobs| - 1]) then 1 else 0)
  }

  /**
   The job-counting loop of get_job_demand: queued self-hosted jobs and
   in-progress jobs on our runners, each job counted at most once.
   */
  method CountDemand(prefix: string, jobs: seq<Job>) returns (queued: nat, inProgress: nat)
    ensures queued == QueuedDemand(jobs)
    ensures inProgress == RunningDemand(prefix, jobs)
    ensures queued + inProgress <= |jobs|
  {
    queued, inProgress := 0, 0;
    for i := 0 to |jobs|
      invariant queued == QueuedDemand(jobs[..i])
      invariant inProgress == RunningDemand(prefix, jobs[..i])
    {
      assert jobs[..i + 1][..i] == jobs[..i];
      var job := jobs[i];
      if job.status == Some("queued") {
        if IsSelfHostedJob(job) {
          queued := queued + 1;
        }
      } else if job.status == Some("in_progress") {
        if IsOurRunner(prefix, job.runnerName) {
          inProgress := inProgress + 1;
        }
      }
    }
    assert jobs[..|jobs|] == jobs;
    DemandAtMostJobs(prefix, jobs);
  }

  /** No job is counted twice: the demand never exceeds the number of jobs. */
  lemma {:induction false} DemandAtMostJobs(prefix: string, jobs: seq<Job>)
    ensures QueuedDemand(jobs) + RunningDemand(prefix, jobs) <= |jobs|
    decreases |jobs|
  {
    if jobs != [] {
      DemandAtMostJobs(prefix, jobs[..|jobs| - 1]);
    }
  }

  /** Demand adds up over the jobs of several runs. */
  lemma {:induction false} DemandAppend(prefix: string, a: seq<Job>, b: seq<Job>)
    ensures QueuedDemand(a + b) == QueuedDemand(a) + QueuedDemand(b)
    ensures RunningDemand(prefix, a + b) == RunningDemand(prefix, a) + RunningDemand(prefix, b)
    decreases |b|
  {
    if b == [] {
      assert a + b == a;
    } else {
      var b' := b[..|b| - 1];
      assert (a + b)[..|a + b| - 1] == a + b';
      DemandAppend(prefix, a, b');
    }
  }

  /** cleanup_dead_runners deletes a runner that is offline, not busy and has a non-zero id. */
  predicate IsDeadRunner(r: Runner) {
    r.status == "offline" && !r.busy && r.id.Some? && r.id.value != 0
  }

  /** The runners cleanup_dead_runners tries to delete, in the order it meets them. */
  function DeadRunners(runners: seq<Runner>): (dead: seq<Runner>)
    ensures forall i :: 0 <= i < |dead| ==> IsDeadRunner(dead[i]) && dead[i] in runners
    ensures forall i :: 0 <= i < |runners| && IsDeadRunner(runners[i]) ==> runners[i] in dead
    decreases |runners|
  {
    if runners == [] then []
    else
      var rest := DeadRunners(runners[..|runners| - 1]);
      if IsDeadRunner(runners[|runners| - 1]) then rest + [runners[|runners| - 1]] else rest
  }

  /**
   Selection keeps the order of the listing: the dead runners of two listings
   in a row are those of the first followed by those of the second.
   */
  lemma {:induction false} DeadRunnersAppend(a: seq<Runner>, b: seq<Runner>)
    ensures DeadRunners(a + b) == DeadRunners(a) + DeadRunners(b)
    decreases |b|
  {
    if b == [] {
      assert a + b == a;
    } else {
      var b' := b[..|b| - 1];
      assert (a + b)[..|a + b| - 1] == a + b';
      DeadRunnersAppend(a, b');
    }
  }
}
