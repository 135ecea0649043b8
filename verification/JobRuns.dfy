/** Runs of what can happen to a node's jobs: what each job is handed, and what it asserts and answers when it enters. */
module JobRuns {
  import opened Bytes
  import opened Arguments
  import opened Ident
  import opened Jobs

  /** A node's jobs, and the number last given out. */
  datatype Node = Node(jobs: seq<Job>, counter: uint64)

  const Fresh: Node := Node([], 0)

  /** What can happen to the jobs of a node. */
  datatype JobOp =
    | Start(id: byte, data: Option<JobStream>)
    | Enters(i: nat, keep: bool)
    | Captures(i: nat, capturing: bool)
    | Pops(i: nat)
    | Forwards(s: JobStream)
    | KillsID(jobID: uint64)
    | KillsCommand(cmdCode: byte)

  /** Job threads act on their own jobs, when they have come as far; requests are no reports. */
  predicate CanDo(jobs: seq<Job>, op: JobOp) {
    match op
    case Start(id, data) => id != CMDCODE_INVALID && data.Some? ==> !IsReport(data.value.composite)
    case Enters(i, _) => i < |jobs| && jobs[i].phase.Starting?
    case Captures(i, _) => i < |jobs| && !jobs[i].phase.Starting?
    case Pops(i) => i < |jobs| && !jobs[i].phase.Starting?
    case _ => true
  }

  /** The request a job is started with, if it is started with one. */
  function Request(id: byte, data: Option<JobStream>): Option<JobStream> {
    if id == CMDCODE_INVALID then None else data
  }

  function NewJob(number: uint64, request: Option<JobStream>): Job {
    match request
    case Some(s) => Job(number, s.composite, s.cmd, false, [s], Starting)
    case None => Job(number, 0, CMDCODE_INVALID, false, [], StartupScript)
  }

  /** A job's queue without its front, if it has one. */
  function Shortened(job: Job): Job { if job.queue == [] then job else job.(queue := job.queue[1..]) }

  function ForwardedTo(job: Job, s: JobStream): Job { if job.capturing then job.(queue := job.queue + [s]) else job }

  function ForwardedToAll(jobs: seq<Job>, s: JobStream): (r: seq<Job>)
    ensures |r| == |jobs| && forall i :: 0 <= i < |jobs| ==> r[i] == ForwardedTo(jobs[i], s)
  {
    seq(|jobs|, i requires 0 <= i < |jobs| => ForwardedTo(jobs[i], s))
  }

  /** The list without the first job of a number. */
  function WithoutID(jobs: seq<Job>, jobID: uint64): seq<Job> {
    if jobs == [] then []
    else if jobs[0].jobID == jobID then jobs[1..]
    else [jobs[0]] + WithoutID(jobs[1..], jobID)
  }

  function Do(n: Node, op: JobOp): Node
    requires CanDo(n.jobs, op)
  {
    match op
    case Start(id, data) =>
      var number := (n.counter + 1) % UINT64_LIMIT;
      Node(n.jobs + [NewJob(number, Request(id, data))], number)
    case Enters(i, keep) =>
      var job := n.jobs[i].(phase := Running);
      n.(jobs := n.jobs[i := if keep then job else Shortened(job)])
    case Captures(i, capturing) => n.(jobs := n.jobs[i := n.jobs[i].(capturing := capturing)])
    case Pops(i) => n.(jobs := n.jobs[i := Shortened(n.jobs[i])])
    case Forwards(s) => n.(jobs := ForwardedToAll(n.jobs, s))
    case KillsID(jobID) => n.(jobs := WithoutID(n.jobs, jobID))
    case KillsCommand(cmdCode) => n.(jobs := Others(n.jobs, cmdCode))
  }

  /** The stream at the head of a job's queue. */
  function Head(job: Job): JobStream { if job.queue == [] then JobStream(0, 0) else job.queue[0] }

  /** A job's entry: the job as it was, the stream it took first, and the answer it would build. */
  datatype Entry = Entry(job: Job, first: JobStream, reply: JobStream)

  /** The entries an operation brings about. */
  function EntriesBy(n: Node, op: JobOp): seq<Entry>
    requires CanDo(n.jobs, op)
  {
    if op.Enters? then [Entry(n.jobs[op.i], Head(n.jobs[op.i]), AnswerTo(Head(n.jobs[op.i])))] else []
  }

  /** A stream handed to a job's thread, for good. */
  datatype Handed = Handed(jobID: uint64, s: JobStream)

  /** What an operation hands out. */
  function HandedBy(n: Node, op: JobOp): seq<Handed>
    requires CanDo(n.jobs, op)
  {
    if (op.Pops? || (op.Enters? && !op.keep)) && n.jobs[op.i].queue != [] then
      [Handed(n.jobs[op.i].jobID, n.jobs[op.i].queue[0])]
    else []
  }

  ghost predicate AllHold(entries: seq<Entry>) {
    forall k :: 0 <= k < |entries| ==> EntryHolds(entries[k].job, entries[k].first)
  }

  lemma {:induction false} WithoutIDAt(jobs: seq<Job>, jobID: uint64, i: nat)
    requires i < |jobs| && jobs[i].jobID == jobID && forall k :: 0 <= k < i ==> jobs[k].jobID != jobID
    ensures WithoutID(jobs, jobID) == jobs[..i] + jobs[i + 1..]
  {
    if i == 0 {
    } else {
      WithoutIDAt(jobs[1..], jobID, i - 1);
      assert jobs[..i] + jobs[i + 1..] == [jobs[0]] + (jobs[1..][..i - 1] + jobs[1..][i..]);
    }
  }

  lemma {:induction false} WithoutIDNone(jobs: seq<Job>, jobID: uint64)
    requires forall k :: 0 <= k < |jobs| ==> jobs[k].jobID != jobID
    ensures WithoutID(jobs, jobID) == jobs
  {
    if jobs == [] {
    } else {
      WithoutIDNone(jobs[1..], jobID);
    }
  }

  function AsNode(jobs: NodeJobs): Node
    reads jobs
  {
    Node(jobs.jobsList, jobs.jobIDCounter)
  }

  method DoStart(jobs: NodeJobs, id: byte, data: Option<JobStream>)
    requires jobs.Valid() && CanDo(jobs.jobsList, Start(id, data))
    modifies jobs
    ensures jobs.Valid() && AsNode(jobs) == Do(old(AsNode(jobs)), Start(id, data))
  {
    jobs.StartJob(id, data);
    var n := |old(jobs.jobsList)|;
    assert jobs.jobsList[n] == NewJob(jobs.jobIDCounter, Request(id, data));
    assert jobs.jobsList == jobs.jobsList[..n] + [jobs.jobsList[n]];
  }

  method DoEnter(jobs: NodeJobs, i: nat, keep: bool) returns (entries: seq<Entry>, handed: seq<Handed>)
    requires jobs.Valid() && CanDo(jobs.jobsList, Enters(i, keep))
    modifies jobs
    ensures jobs.Valid() && AsNode(jobs) == Do(old(AsNode(jobs)), Enters(i, keep)) && AllHold(entries)
    ensures entries == EntriesBy(old(AsNode(jobs)), Enters(i, keep))
    ensures handed == HandedBy(old(AsNode(jobs)), Enters(i, keep))
  {
    var job := jobs.jobsList[i];
    var reply := jobs.Enter(i, keep);
    entries := [Entry(job, job.queue[0], reply)];
    handed := if keep then [] else [Handed(job.jobID, job.queue[0])];
  }

  method DoKillID(jobs: NodeJobs, jobID: uint64)
    requires jobs.Valid()
    modifies jobs
    ensures jobs.Valid() && AsNode(jobs) == Do(old(AsNode(jobs)), KillsID(jobID))
  {
    ghost var all := jobs.jobsList;
    var killed := jobs.KillJobByID(jobID);
    if killed {
      ghost var i :| 0 <= i < |all| && all[i].jobID == jobID && (forall k :: 0 <= k < i ==> all[k].jobID != jobID)
                     && jobs.jobsList == all[..i] + all[i + 1..];
      WithoutIDAt(all, jobID, i);
    } else {
      WithoutIDNone(all, jobID);
    }
  }

  method DoPop(jobs: NodeJobs, i: nat) returns (handed: seq<Handed>)
    requires jobs.Valid() && CanDo(jobs.jobsList, Pops(i))
    modifies jobs
    ensures jobs.Valid() && AsNode(jobs) == Do(old(AsNode(jobs)), Pops(i))
    ensures handed == HandedBy(old(AsNode(jobs)), Pops(i))
  {
    var jobID := jobs.jobsList[i].jobID;
    var s := jobs.PopOwn(i);
    handed := if s.Some? then [Handed(jobID, s.value)] else [];
  }

  /** One operation. */
  method Perform(jobs: NodeJobs, op: JobOp) returns (entries: seq<Entry>, handed: seq<Handed>)
    requires jobs.Valid() && CanDo(jobs.jobsList, op)
    modifies jobs
    ensures jobs.Valid() && AsNode(jobs) == Do(old(AsNode(jobs)), op) && AllHold(entries)
    ensures entries == EntriesBy(old(AsNode(jobs)), op) && handed == HandedBy(old(AsNode(jobs)), op)
  {
    entries, handed := [], [];
    match op
    case Start(id, data) => DoStart(jobs, id, data);
    case Enters(i, keep) => entries, handed := DoEnter(jobs, i, keep);
    case Captures(i, capturing) => jobs.SetCapturing(i, capturing);
    case Pops(i) => handed := DoPop(jobs, i);
    case Forwards(s) =>
      jobs.ForwardToScriptJobs(s);
      assert jobs.jobsList == ForwardedToAll(old(jobs.jobsList), s);
    case KillsID(jobID) => DoKillID(jobs, jobID);
    case KillsCommand(cmdCode) => var _ := jobs.KillJobByCmdCode(cmdCode);
  }

  // --------------------------------------------------------------------- runs

  function Front(ops: seq<JobOp>): seq<JobOp>
    requires ops != []
  {
    ops[..|ops| - 1]
  }

  function Last(ops: seq<JobOp>): JobOp
    requires ops != []
  {
    ops[|ops| - 1]
  }

  /** The jobs behind some operations; one that is not possible is passed over. */
  function After(ops: seq<JobOp>): Node {
    if ops == [] then Fresh
    else if CanDo(After(Front(ops)).jobs, Last(ops)) then Do(After(Front(ops)), Last(ops))
    else After(Front(ops))
  }

  /** The entries of a run, and what jobs are handed in it. */
  function EntriesOf(ops: seq<JobOp>): seq<Entry> {
    if ops == [] then []
    else if CanDo(After(Front(ops)).jobs, Last(ops)) then EntriesOf(Front(ops)) + EntriesBy(After(Front(ops)), Last(ops))
    else EntriesOf(Front(ops))
  }

  function LogOf(ops: seq<JobOp>): seq<Handed> {
    if ops == [] then []
    else if CanDo(After(Front(ops)).jobs, Last(ops)) then LogOf(Front(ops)) + HandedBy(After(Front(ops)), Last(ops))
    else LogOf(Front(ops))
  }

  /** Any operations: whenever a job enters, what it asserts of its first stream holds. */
  method Run(ops: seq<JobOp>) returns (entries: seq<Entry>, log: seq<Handed>)
    ensures AllHold(entries) && entries == EntriesOf(ops) && log == LogOf(ops)
  {
    var jobs := new NodeJobs();
    entries, log := [], [];
    for n := 0 to |ops|
      invariant jobs.Valid() && fresh(jobs) && AllHold(entries)
      invariant AsNode(jobs) == After(ops[..n]) && entries == EntriesOf(ops[..n]) && log == LogOf(ops[..n])
    {
      assert Front(ops[..n + 1]) == ops[..n];
      if CanDo(jobs.jobsList, ops[n]) {
        var more, handed := Perform(jobs, ops[n]);
        entries, log := entries + more, log + handed;
      }
    }
    assert ops[..|ops|] == ops;
  }

  // ------------------------------------------------- what operations alone tell

  /** A start that is possible; that does not depend on the jobs there are. */
  predicate Starts(op: JobOp) { op.Start? && CanDo([], op) }

  function Begun(ops: seq<JobOp>): nat {
    if ops == [] then 0 else Begun(Front(ops)) + if Starts(Last(ops)) then 1 else 0
  }

  /** The request of the start of that number. */
  function RequestOf(ops: seq<JobOp>, number: nat): Option<JobStream> {
    if ops == [] then None
    else if Starts(Last(ops)) && Begun(ops) == number then Request(Last(ops).id, Last(ops).data)
    else RequestOf(Front(ops), number)
  }

  /** A job of that number is there, and captures. */
  ghost predicate Captured(jobs: seq<Job>, number: nat) {
    exists i :: 0 <= i < |jobs| && jobs[i].jobID == number && jobs[i].capturing
  }

  /** What has come for a job: its request, and what was forwarded while it captured. */
  ghost function Given(ops: seq<JobOp>, number: nat): seq<JobStream> {
    if ops == [] then []
    else
      var op := Last(ops);
      if Starts(op) && Begun(ops) == number then
        (if Request(op.id, op.data).Some? then [Request(op.id, op.data).value] else [])
      else if op.Forwards? && Captured(After(Front(ops)).jobs, number) then Given(Front(ops), number) + [op.s]
      else Given(Front(ops), number)
  }

  /** What a job has been handed. */
  function Got(log: seq<Handed>, number: nat): seq<JobStream> {
    if log == [] then []
    else
      var h := log[|log| - 1];
      Got(log[..|log| - 1], number) + if h.jobID == number then [h.s] else []
  }

  lemma GotMore(log: seq<Handed>, h: Handed, number: nat)
    ensures Got(log + [h], number) == Got(log, number) + if h.jobID == number then [h.s] else []
  {
    assert (log + [h])[..|log|] == log;
  }

  /** The jobs stand in the order of their numbers, which have all been given out. */
  ghost predicate Ordered(n: Node) {
    && (forall i :: 0 <= i < |n.jobs| ==> 1 <= n.jobs[i].jobID <= n.counter)
    && forall i, j :: 0 <= i < j < |n.jobs| ==> n.jobs[i].jobID < n.jobs[j].jobID
  }

  /** What there is to say of a job: whose request it serves, and what it has been handed and has queued. */
  ghost predicate Told(job: Job, request: Option<JobStream>, got: seq<JobStream>, given: seq<JobStream>) {
    && (match request
        case Some(r) => !job.phase.StartupScript? && job.cmdIdent == r.composite && job.cmdCode == r.cmd
        case None => job.phase.StartupScript? && job.cmdIdent == 0 && job.cmdCode == CMDCODE_INVALID)
    && (job.phase.Starting? ==> !job.capturing && request.Some? && job.queue == [request.value])
    && got + job.queue == given
  }

  ghost predicate AllTold(jobs: seq<Job>, ops: seq<JobOp>, log: seq<Handed>) {
    forall i :: 0 <= i < |jobs| ==>
      Told(jobs[i], RequestOf(ops, jobs[i].jobID), Got(log, jobs[i].jobID), Given(ops, jobs[i].jobID))
  }

  lemma {:induction false} OthersOrdered(jobs: seq<Job>, counter: uint64, cmdCode: byte)
    requires Ordered(Node(jobs, counter))
    ensures Ordered(Node(Others(jobs, cmdCode), counter)) && forall job :: job in Others(jobs, cmdCode) ==> job in jobs
  {
    if jobs == [] {
    } else {
      var rest := Others(jobs[1..], cmdCode);
      assert Ordered(Node(jobs[1..], counter));
      OthersOrdered(jobs[1..], counter, cmdCode);
      forall i | 0 <= i < |rest| ensures jobs[0].jobID < rest[i].jobID {
        assert rest[i] in jobs[1..];
      }
    }
  }

  lemma {:induction false} WithoutIDOrdered(jobs: seq<Job>, counter: uint64, jobID: uint64)
    requires Ordered(Node(jobs, counter))
    ensures Ordered(Node(WithoutID(jobs, jobID), counter)) && forall job :: job in WithoutID(jobs, jobID) ==> job in jobs
  {
    if jobs == [] {
    } else {
      var rest := WithoutID(jobs[1..], jobID);
      assert Ordered(Node(jobs[1..], counter));
      WithoutIDOrdered(jobs[1..], counter, jobID);
      forall i | 0 <= i < |rest| ensures jobs[0].jobID < rest[i].jobID {
        assert rest[i] in jobs[1..];
      }
    }
  }

  /** The account of a run. */
  ghost predicate Accounted(n: Node, ops: seq<JobOp>, log: seq<Handed>) {
    && n.counter == Begun(ops) && Ordered(n) && AllTold(n.jobs, ops, log)
    && forall k :: 0 <= k < |log| ==> log[k].jobID <= n.counter
  }

  lemma {:induction false} GotNothing(log: seq<Handed>, counter: nat, number: nat)
    requires counter < number && forall k :: 0 <= k < |log| ==> log[k].jobID <= counter
    ensures Got(log, number) == []
  {
    if log == [] {
    } else {
      GotNothing(log[..|log| - 1], counter, number);
    }
  }

  /** What there is to say of a job that an operation neither starts, nor gives anything, nor hands anything. */
  lemma ToldStill(ops: seq<JobOp>, job: Job, log: seq<Handed>, more: seq<Handed>)
    requires ops != [] && (Starts(Last(ops)) ==> job.jobID != Begun(ops))
    requires Last(ops).Forwards? ==> !Captured(After(Front(ops)).jobs, job.jobID)
    requires more == log || (|more| == |log| + 1 && more[..|log|] == log && more[|log|].jobID != job.jobID)
    ensures RequestOf(ops, job.jobID) == RequestOf(Front(ops), job.jobID)
    ensures Got(more, job.jobID) == Got(log, job.jobID) && Given(ops, job.jobID) == Given(Front(ops), job.jobID)
  {
  }

  /** What there is to say of a new job. */
  lemma NewTold(ops: seq<JobOp>, log: seq<Handed>, counter: uint64, number: uint64)
    requires ops != [] && Starts(Last(ops)) && Begun(ops) == number == counter + 1
    requires forall k :: 0 <= k < |log| ==> log[k].jobID <= counter
    ensures Told(NewJob(number, Request(Last(ops).id, Last(ops).data)), RequestOf(ops, number), Got(log, number),
                 Given(ops, number))
  {
    GotNothing(log, counter, number);
  }

  lemma StartOrdered(n: Node, op: JobOp)
    requires Ordered(n) && Starts(op) && n.counter + 1 < UINT64_LIMIT
    ensures Ordered(Do(n, op)) && Do(n, op).counter == n.counter + 1
    ensures Do(n, op).jobs == n.jobs + [NewJob(n.counter + 1, Request(op.id, op.data))]
  {
  }

  lemma StartNext(ops: seq<JobOp>, log: seq<Handed>)
    requires ops != [] && Starts(Last(ops)) && Begun(ops) < UINT64_LIMIT
    requires Accounted(After(Front(ops)), Front(ops), log)
    ensures Accounted(Do(After(Front(ops)), Last(ops)), ops, log)
  {
    var n := After(Front(ops));
    var t := Do(n, Last(ops));
    StartOrdered(n, Last(ops));
    NewTold(ops, log, n.counter, t.counter);
    forall i | 0 <= i < |n.jobs|
      ensures Told(n.jobs[i], RequestOf(ops, n.jobs[i].jobID), Got(log, n.jobs[i].jobID), Given(ops, n.jobs[i].jobID))
    {
      ToldStill(ops, n.jobs[i], log, log);
    }
  }

  /** An operation that takes jobs away, or does nothing to them. */
  lemma LessNext(ops: seq<JobOp>, log: seq<Handed>)
    requires ops != [] && (Last(ops).KillsID? || Last(ops).KillsCommand?)
    requires Accounted(After(Front(ops)), Front(ops), log)
    ensures Accounted(Do(After(Front(ops)), Last(ops)), ops, log)
  {
    var n, op := After(Front(ops)), Last(ops);
    var t := Do(n, op);
    if op.KillsID? {
      WithoutIDOrdered(n.jobs, n.counter, op.jobID);
    } else {
      OthersOrdered(n.jobs, n.counter, op.cmdCode);
    }
    forall i | 0 <= i < |t.jobs|
      ensures Told(t.jobs[i], RequestOf(ops, t.jobs[i].jobID), Got(log, t.jobs[i].jobID), Given(ops, t.jobs[i].jobID))
    {
      assert t.jobs[i] in n.jobs;
      ToldStill(ops, t.jobs[i], log, log);
    }
  }

  lemma ForwardNext(ops: seq<JobOp>, log: seq<Handed>)
    requires ops != [] && Last(ops).Forwards? && Accounted(After(Front(ops)), Front(ops), log)
    ensures Accounted(Do(After(Front(ops)), Last(ops)), ops, log)
  {
    var n, op := After(Front(ops)), Last(ops);
    var t := Do(n, op);
    forall i | 0 <= i < |t.jobs|
      ensures Told(t.jobs[i], RequestOf(ops, t.jobs[i].jobID), Got(log, t.jobs[i].jobID), Given(ops, t.jobs[i].jobID))
    {
      var job := n.jobs[i];
      assert Told(job, RequestOf(Front(ops), job.jobID), Got(log, job.jobID), Given(Front(ops), job.jobID));
      assert Captured(n.jobs, job.jobID) <==> job.capturing;
      assert Got(log, job.jobID) + (job.queue + [op.s]) == Got(log, job.jobID) + job.queue + [op.s];
    }
  }

  /** What there is to say of a job goes on when it takes something from its queue, enters, or captures. */
  lemma ToldOn(job: Job, request: Option<JobStream>, got: seq<JobStream>, given: seq<JobStream>, capturing: bool)
    requires Told(job, request, got, given)
    ensures job.queue != [] && !job.phase.Starting? ==> Told(Shortened(job), request, got + [job.queue[0]], given)
    ensures job.queue != [] && job.phase.Starting? ==>
              Told(Shortened(job.(phase := Running)), request, got + [job.queue[0]], given)
              && Told(job.(phase := Running), request, got, given)
    ensures !job.phase.Starting? ==> Told(job.(capturing := capturing), request, got, given)
  {
    if job.queue != [] {
      assert got + job.queue == got + [job.queue[0]] + job.queue[1..];
    }
  }

  /** An operation of a job's own thread, as far as that job is concerned. */
  lemma OwnTold(ops: seq<JobOp>, log: seq<Handed>)
    requires ops != [] && (Last(ops).Enters? || Last(ops).Pops? || Last(ops).Captures?)
    requires Accounted(After(Front(ops)), Front(ops), log) && CanDo(After(Front(ops)).jobs, Last(ops))
    ensures var n, op := After(Front(ops)), Last(ops);
            var job, more := Do(n, op).jobs[op.i], log + HandedBy(n, op);
            Told(job, RequestOf(ops, job.jobID), Got(more, job.jobID), Given(ops, job.jobID))
  {
    var n, op := After(Front(ops)), Last(ops);
    var job, handed := n.jobs[op.i], HandedBy(n, op);
    var got := Got(log, job.jobID);
    ToldOn(job, RequestOf(Front(ops), job.jobID), got, Given(Front(ops), job.jobID), op.Captures? && op.capturing);
    if handed == [] {
      assert log + handed == log;
    } else {
      GotMore(log, handed[0], job.jobID);
    }
  }

  lemma OwnOrdered(n: Node, op: JobOp)
    requires Ordered(n) && CanDo(n.jobs, op) && (op.Enters? || op.Pops? || op.Captures?)
    ensures Ordered(Do(n, op)) && |Do(n, op).jobs| == |n.jobs|
    ensures forall i :: 0 <= i < |n.jobs| && i != op.i ==> Do(n, op).jobs[i] == n.jobs[i]
  {
  }

  lemma OwnNext(ops: seq<JobOp>, log: seq<Handed>)
    requires ops != [] && (Last(ops).Enters? || Last(ops).Pops? || Last(ops).Captures?)
    requires Accounted(After(Front(ops)), Front(ops), log) && CanDo(After(Front(ops)).jobs, Last(ops))
    ensures Accounted(Do(After(Front(ops)), Last(ops)), ops, log + HandedBy(After(Front(ops)), Last(ops)))
  {
    var n, op := After(Front(ops)), Last(ops);
    var t, more := Do(n, op), log + HandedBy(n, op);
    OwnOrdered(n, op);
    OwnTold(ops, log);
    forall i | 0 <= i < |t.jobs| && i != op.i
      ensures Told(t.jobs[i], RequestOf(ops, t.jobs[i].jobID), Got(more, t.jobs[i].jobID), Given(ops, t.jobs[i].jobID))
    {
      assert HandedBy(n, op) == [] ==> more == log;
      ToldStill(ops, n.jobs[i], log, more);
    }
  }

  lemma OpNext(ops: seq<JobOp>, log: seq<Handed>)
    requires ops != [] && Begun(ops) < UINT64_LIMIT
    requires Accounted(After(Front(ops)), Front(ops), log) && CanDo(After(Front(ops)).jobs, Last(ops))
    ensures Accounted(Do(After(Front(ops)), Last(ops)), ops, log + HandedBy(After(Front(ops)), Last(ops)))
  {
    assert log + [] == log;
    match Last(ops)
    case Start(_, _) => StartNext(ops, log);
    case Forwards(_) => ForwardNext(ops, log);
    case KillsID(_) => LessNext(ops, log);
    case KillsCommand(_) => LessNext(ops, log);
    case _ => OwnNext(ops, log);
  }

  /** An operation that is not possible changes nothing, and tells nothing. */
  lemma NotNext(ops: seq<JobOp>, log: seq<Handed>)
    requires ops != [] && Accounted(After(Front(ops)), Front(ops), log) && !CanDo(After(Front(ops)).jobs, Last(ops))
    ensures Accounted(After(Front(ops)), ops, log)
  {
    var n := After(Front(ops));
    forall i | 0 <= i < |n.jobs|
      ensures Told(n.jobs[i], RequestOf(ops, n.jobs[i].jobID), Got(log, n.jobs[i].jobID), Given(ops, n.jobs[i].jobID))
    {
      ToldStill(ops, n.jobs[i], log, log);
    }
  }

  /**
   * In every run with fewer than 2 to the 64 starts, every job serves the request of the start that its number counts, has
   * nothing but that request queued until it enters, and has been handed, in order, all that has come for it but what it
   * has queued: its request, and whatever was forwarded while it captured.
   */
  lemma {:induction false} RunTells(ops: seq<JobOp>)
    requires Begun(ops) < UINT64_LIMIT
    ensures Accounted(After(ops), ops, LogOf(ops))
    decreases |ops|
  {
    if ops == [] {
    } else {
      RunTells(Front(ops));
      if CanDo(After(Front(ops)).jobs, Last(ops)) {
        OpNext(ops, LogOf(Front(ops)));
      } else {
        NotNext(ops, LogOf(Front(ops)));
      }
    }
  }
}
