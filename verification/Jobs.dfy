/** The node's jobs: each is started with a copy of its request, and answers under the request's ident. */
module Jobs {
  import opened Bytes
  import opened Arguments
  import opened Ident

  const CMDCODE_INVALID: byte := 0

  /** A stream as a job tells it: its command and its ident composite. */
  datatype JobStream = JobStream(cmd: byte, composite: bv64)

  /** Where a job's thread stands: not yet past its entry, past it, or never having had a request. */
  datatype Phase = Starting | Running | StartupScript

  datatype Job = Job(jobID: uint64, cmdIdent: bv64, cmdCode: byte, capturing: bool, queue: seq<JobStream>, phase: Phase)

  /** What a job function asserts of the stream at the head of its queue. */
  predicate EntryHolds(job: Job, s: JobStream) {
    && BuildIdentComposite(GetIdentFlags(s.composite) & !IDENT_ISREPORT_BIT, GetIdentInteger(s.composite)) == job.cmdIdent
    && s.cmd == job.cmdCode
  }

  /** It is of the job's command, and its composite without the report flag is the job's. */
  lemma EntryExactly(job: Job, s: JobStream)
    ensures EntryHolds(job, s) <==> job.cmdCode == s.cmd && job.cmdIdent == s.composite & 0xFEFF_FFFF_FFFF_FFFF
  {
    WithoutReport(s.composite);
  }

  /** For a request that is no report, the composite put together from its header is the one it came with. */
  lemma RequestEnters(job: Job, s: JobStream)
    requires !IsReport(s.composite) && job.cmdCode == s.cmd
    requires job.cmdIdent == BuildIdentComposite(GetIdentFlags(s.composite), GetIdentInteger(s.composite))
    ensures EntryHolds(job, s) && job.cmdIdent == s.composite
  {
    FlagsWithoutReport(GetIdentFlags(s.composite));
    BuildDecoded(s.composite);
  }

  lemma FlagsWithoutReport(flags: bv8)
    ensures flags & IDENT_ISREPORT_BIT == 0 <==> flags & !IDENT_ISREPORT_BIT == flags
  {
  }

  /** The answer a job builds from the bare ident of its request. */
  function ReplyFromStream(job: Job, s: JobStream): JobStream {
    JobStream(s.cmd, BuildIdentComposite(GetIdentFlags(job.cmdIdent) | IDENT_ISREPORT_BIT, GetIdentInteger(s.composite)))
  }

  /** The answer a job builds over its own composite ident. */
  function ReplyFromJob(job: Job): JobStream {
    JobStream(job.cmdCode, BuildIdentComposite(GetIdentFlags(job.cmdIdent) | IDENT_ISREPORT_BIT, job.cmdIdent))
  }

  /** The request's command, ident and flags, and the report flag besides. */
  function AnswerTo(request: JobStream): JobStream {
    JobStream(request.cmd, BuildIdentComposite(GetIdentFlags(request.composite) | IDENT_ISREPORT_BIT,
                                               GetIdentInteger(request.composite)))
  }

  /** An answer is its request with one bit more in the composite. */
  lemma AnswerExactly(request: JobStream)
    ensures AnswerTo(request) == JobStream(request.cmd, request.composite | 0x0100_0000_0000_0000)
  {
    ReportBit(request.composite);
  }

  /** An answer carries the request's command, ident and flags, and the report flag besides, either way it is built. */
  lemma RepliesAnswer(job: Job, s: JobStream)
    requires job.cmdIdent == s.composite && job.cmdCode == s.cmd
    ensures ReplyFromStream(job, s) == ReplyFromJob(job) == AnswerTo(s)
  {
    var word := ReportWord(s.composite);
    assert ReplyFromJob(job) == JobStream(s.cmd, word) == ReplyFromStream(job, s);
  }

  /** A job past or before its entry was given this request. */
  ghost predicate Serves(job: Job, request: JobStream) {
    !IsReport(request.composite) && job.cmdIdent == request.composite && job.cmdCode == request.cmd
  }

  class NodeJobs {
    var jobsList: seq<Job>
    var jobIDCounter: uint64
    /** The request each job was started with, by position. */
    ghost var requests: seq<JobStream>

    /** Every job serves its request, and one that has not entered yet has that request at the head of its queue. */
    ghost predicate Valid()
      reads this
    {
      && |requests| == |jobsList|
      && forall i :: 0 <= i < |jobsList| && !jobsList[i].phase.StartupScript? ==>
           && Serves(jobsList[i], requests[i])
           && (jobsList[i].phase.Starting? ==> jobsList[i].queue != [] && jobsList[i].queue[0] == requests[i])
    }

    constructor ()
      ensures Valid() && jobsList == [] && jobIDCounter == 0
    {
      jobsList, jobIDCounter, requests := [], 0, [];
    }

    /** Creates the job, puts a copy of the request on its queue, and only then starts the thread. */
    method StartJob(id: byte, data: Option<JobStream>)
      requires Valid() && (id != CMDCODE_INVALID && data.Some? ==> !IsReport(data.value.composite))
      modifies this
      ensures Valid() && jobIDCounter == (old(jobIDCounter) + 1) % UINT64_LIMIT
      ensures |jobsList| == |old(jobsList)| + 1 && jobsList[..|old(jobsList)|] == old(jobsList)
      ensures var job := jobsList[|old(jobsList)|];
              && job.jobID == jobIDCounter && !job.capturing
              && (id != CMDCODE_INVALID && data.Some? ==>
                    job.phase.Starting? && job.queue == [data.value] && Serves(job, data.value))
              && (id == CMDCODE_INVALID || data.None? ==>
                    job.phase.StartupScript? && job.queue == [] && job.cmdIdent == 0 && job.cmdCode == CMDCODE_INVALID)
    {
      jobIDCounter := (jobIDCounter + 1) % UINT64_LIMIT;
      var job := Job(jobIDCounter, 0, CMDCODE_INVALID, false, [], StartupScript);
      if id != CMDCODE_INVALID && data.Some? {
        var s := data.value;
        job := job.(cmdIdent := BuildIdentComposite(GetIdentFlags(s.composite), GetIdentInteger(s.composite)),
                    cmdCode := s.cmd, queue := job.queue + [s], phase := Starting);
        BuildDecoded(s.composite);
        requests := requests + [s];
      } else {
        requests := requests + [JobStream(0, 0)];
      }
      jobsList := jobsList + [job];
    }

    /** The job's thread takes its first stream; what it asserts then holds, and both its answers carry the ident. */
    method Enter(i: nat, keep: bool) returns (reply: JobStream)
      requires Valid() && i < |jobsList| && jobsList[i].phase.Starting?
      modifies this`jobsList
      ensures EntryHolds(old(jobsList)[i], old(jobsList)[i].queue[0]) && old(jobsList)[i].queue[0] == requests[i]
      ensures Valid() && reply == AnswerTo(requests[i])
      ensures var job := old(jobsList)[i];
              jobsList == old(jobsList)[i := job.(phase := Running, queue := if keep then job.queue else job.queue[1..])]
    {
      var job := jobsList[i];
      var stream := job.queue[0];
      BuildDecoded(stream.composite);
      RequestEnters(job, stream);
      assert EntryHolds(job, stream);
      RepliesAnswer(job, stream);
      reply := if keep then ReplyFromJob(job) else ReplyFromStream(job, stream);
      jobsList := jobsList[i := job.(phase := Running, queue := if keep then job.queue else job.queue[1..])];
    }

    /** A script job that is running asks for, or no longer asks for, all that comes in. */
    method SetCapturing(i: nat, capturing: bool)
      requires Valid() && i < |jobsList| && !jobsList[i].phase.Starting?
      modifies this`jobsList
      ensures Valid() && jobsList == old(jobsList)[i := old(jobsList)[i].(capturing := capturing)]
    {
      jobsList := jobsList[i := jobsList[i].(capturing := capturing)];
    }

    /** A running job takes another stream from its queue. */
    method PopOwn(i: nat) returns (s: Option<JobStream>)
      requires Valid() && i < |jobsList| && !jobsList[i].phase.Starting?
      modifies this`jobsList
      ensures Valid()
      ensures s == if old(jobsList)[i].queue == [] then None else Some(old(jobsList)[i].queue[0])
      ensures jobsList == if s == None then old(jobsList)
                          else old(jobsList)[i := old(jobsList)[i].(queue := old(jobsList)[i].queue[1..])]
    {
      if jobsList[i].queue == [] {
        return None;
      }
      s := Some(jobsList[i].queue[0]);
      jobsList := jobsList[i := jobsList[i].(queue := jobsList[i].queue[1..])];
    }

    /** Whatever comes from the server goes behind what capturing jobs have queued. */
    method ForwardToScriptJobs(s: JobStream)
      requires Valid()
      modifies this`jobsList
      ensures Valid() && |jobsList| == |old(jobsList)|
      ensures forall i :: 0 <= i < |jobsList| ==>
                jobsList[i] == if old(jobsList)[i].capturing then old(jobsList)[i].(queue := old(jobsList)[i].queue + [s])
                               else old(jobsList)[i]
    {
      for k := 0 to |jobsList|
        invariant Valid() && |jobsList| == |old(jobsList)|
        invariant forall i :: 0 <= i < k ==>
                    jobsList[i] == if old(jobsList)[i].capturing then old(jobsList)[i].(queue := old(jobsList)[i].queue + [s])
                                   else old(jobsList)[i]
        invariant forall i :: k <= i < |jobsList| ==> jobsList[i] == old(jobsList)[i]
      {
        if jobsList[k].capturing {
          jobsList := jobsList[k := jobsList[k].(queue := jobsList[k].queue + [s])];
        }
      }
    }

    /** Takes out the job at a place. */
    method Erase(i: nat)
      requires Valid() && i < |jobsList|
      modifies this`jobsList, this`requests
      ensures Valid() && jobsList == old(jobsList)[..i] + old(jobsList)[i + 1..]
    {
      jobsList := jobsList[..i] + jobsList[i + 1..];
      requests := requests[..i] + requests[i + 1..];
    }

    /** Kills the first job of that number. */
    method KillJobByID(jobID: uint64) returns (killed: bool)
      requires Valid()
      modifies this`jobsList, this`requests
      ensures Valid()
      ensures killed <==> exists i :: 0 <= i < |old(jobsList)| && old(jobsList)[i].jobID == jobID
      ensures killed ==> exists i :: 0 <= i < |old(jobsList)| && old(jobsList)[i].jobID == jobID
                                     && (forall k :: 0 <= k < i ==> old(jobsList)[k].jobID != jobID)
                                     && jobsList == old(jobsList)[..i] + old(jobsList)[i + 1..]
      ensures !killed ==> jobsList == old(jobsList)
    {
      for i := 0 to |jobsList|
        invariant jobsList == old(jobsList) && requests == old(requests)
        invariant forall k :: 0 <= k < i ==> jobsList[k].jobID != jobID
      {
        if jobsList[i].jobID == jobID {
          Erase(i);
          return true;
        }
      }
      killed := false;
    }

    /** Kills every job of that command, starting over behind each. */
    method KillJobByCmdCode(cmdCode: byte) returns (foundOne: bool)
      requires Valid()
      modifies this`jobsList, this`requests
      ensures Valid() && jobsList == Others(old(jobsList), cmdCode)
      ensures foundOne <==> exists i :: 0 <= i < |old(jobsList)| && old(jobsList)[i].cmdCode == cmdCode
    {
      foundOne := false;
      var i := 0;
      while i < |jobsList|
        invariant Valid() && i <= |jobsList| && Others(jobsList, cmdCode) == Others(old(jobsList), cmdCode)
        invariant forall k :: 0 <= k < i ==> jobsList[k].cmdCode != cmdCode
        invariant foundOne ==> exists k :: 0 <= k < |old(jobsList)| && old(jobsList)[k].cmdCode == cmdCode
        invariant !foundOne ==> jobsList == old(jobsList)
        decreases |jobsList|, |jobsList| - i
      {
        if jobsList[i].cmdCode == cmdCode {
          OthersWithout(jobsList, cmdCode, i);
          if !foundOne {
            assert old(jobsList)[i].cmdCode == cmdCode;
          }
          Erase(i);
          foundOne := true;
          i := 0;
        } else {
          i := i + 1;
        }
      }
      OthersAll(jobsList, cmdCode);
    }
  }

  /** The jobs of other commands, in order. */
  function Others(jobs: seq<Job>, cmdCode: byte): seq<Job> {
    if jobs == [] then []
    else (if jobs[0].cmdCode == cmdCode then [] else [jobs[0]]) + Others(jobs[1..], cmdCode)
  }

  lemma {:induction false} OthersWithout(jobs: seq<Job>, cmdCode: byte, i: nat)
    requires i < |jobs| && jobs[i].cmdCode == cmdCode
    ensures Others(jobs[..i] + jobs[i + 1..], cmdCode) == Others(jobs, cmdCode)
  {
    if i == 0 {
      assert jobs[..0] + jobs[1..] == jobs[1..];
    } else {
      OthersWithout(jobs[1..], cmdCode, i - 1);
      assert (jobs[..i] + jobs[i + 1..])[1..] == jobs[1..][..i - 1] + jobs[1..][i..];
    }
  }

  /** Nothing but jobs of other commands, and as many of each as there were. */
  lemma {:induction false} OthersCount(jobs: seq<Job>, cmdCode: byte, job: Job)
    ensures multiset(Others(jobs, cmdCode))[job] == if job.cmdCode == cmdCode then 0 else multiset(jobs)[job]
  {
    if jobs == [] {
    } else {
      OthersCount(jobs[1..], cmdCode, job);
      assert jobs == [jobs[0]] + jobs[1..];
    }
  }

  lemma {:induction false} OthersAll(jobs: seq<Job>, cmdCode: byte)
    requires forall i :: 0 <= i < |jobs| ==> jobs[i].cmdCode != cmdCode
    ensures Others(jobs, cmdCode) == jobs
  {
    if jobs == [] {
    } else {
      OthersAll(jobs[1..], cmdCode);
    }
  }
}
