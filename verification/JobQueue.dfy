/** The intrusive job queue between the listener threads and the worker, with shutdown at any moment. */
module JobQueue {
  datatype Admission = Accepted | Busy

  class Job {
    var next: Job?
    var admission: Admission
    var done: bool

    constructor ()
      ensures next == null && admission == Accepted && !done
    {
      next, admission, done := null, Accepted, false;
    }
  }

  predicate Distinct(s: seq<Job>) {
    forall i, j :: 0 <= i < j < |s| ==> s[i] != s[j]
  }

  lemma {:induction false} SubmittedPrefix(ops: seq<Op>, n: nat)
    requires n <= |ops|
    ensures Submitted(ops[..n]) <= Submitted(ops)
    decreases |ops| - n
  {
    if n < |ops| {
      assert ops[..n + 1][..n] == ops[..n];
      SubmittedPrefix(ops, n + 1);
    } else {
      assert ops[..n] == ops;
    }
  }

  lemma DistinctMore(s: seq<Job>, j: Job)
    requires Distinct(s) && j !in s
    ensures Distinct(s + [j])
  {
  }

  lemma Shifted(a: seq<Job>, b: seq<Job>)
    requires b != []
    ensures a + b == a + [b[0]] + b[1..]
  {
  }

  lemma Moved(t: seq<Job>, all: seq<Job>, k: nat)
    requires k < |all|
    ensures all[k..][0] == all[k] && all[k..][1..] == all[k + 1..] && t + all[..k] + [all[k]] == t + all[..k + 1]
  {
  }

  function NextOf(s: seq<Job>, i: nat): Job? {
    if i + 1 < |s| then s[i + 1] else null
  }

  /** One step of a listener, of whoever shuts down, or of the worker. */
  datatype Op = Submit(job: Job) | Shut | Work | TakeMore

  function Submitted(ops: seq<Op>): seq<Job> {
    if ops == [] then [] else
    Submitted(ops[..|ops| - 1]) + if ops[|ops| - 1].Submit? then [ops[|ops| - 1].job] else []
  }

  /** The queue at one moment of a run. */
  datatype Moment = Moment(taken: seq<Job>, contents: seq<Job>, refused: seq<Job>, stopping: bool, exited: bool)

  /** What a step does: the shutdown flag may also be set while a job is linked. */
  ghost predicate Did(op: Op, m: Moment, m': Moment) {
    match op
    case Submit(job) =>
      if m.stopping then m' == m.(refused := m.refused + [job])
      else m' == m.(contents := m.contents + [job], stopping := m'.stopping)
    case Shut => m' == m.(stopping := true)
    case Work =>
      if m.exited then m' == m
      else if m.contents == [] then m' == m.(exited := m.stopping)
      else m' == m.(taken := m.taken + [m.contents[0]], contents := m.contents[1..])
    case TakeMore =>
      if m.contents == [] then m' == m
      else m' == m.(taken := m.taken + [m.contents[0]], contents := m.contents[1..])
  }

  /** `log` holds the queue before and after each step. */
  ghost predicate AllDid(ops: seq<Op>, log: seq<Moment>) {
    |log| == |ops| + 1 && forall n :: 0 <= n < |ops| ==> Did(ops[n], log[n], log[n + 1])
  }

  lemma NoneDid(log: seq<Moment>)
    requires |log| == 1
    ensures AllDid([], log)
  {
  }

  lemma MoreDid(ops: seq<Op>, log: seq<Moment>, op: Op, m: Moment)
    requires AllDid(ops, log) && Did(op, log[|ops|], m)
    ensures AllDid(ops + [op], log + [m])
  {
    hide Did;
    forall n | 0 <= n < |ops + [op]| ensures Did((ops + [op])[n], (log + [m])[n], (log + [m])[n + 1]) {
      assert n < |ops| ==> (ops + [op])[n] == ops[n] && (log + [m])[n + 1] == log[n + 1];
    }
  }

  class JobQueue {
    var head: Job?
    var tail: Job?
    var stopping: bool
    var workerExited: bool
    ghost var contents: seq<Job>     // linked now, in order
    ghost var taken: seq<Job>        // handed to the worker, or drained at shutdown, in order
    ghost var accepted: seq<Job>     // ever linked, in order
    ghost var refused: seq<Job>      // completed at once as busy

    constructor ()
      ensures Valid() && accepted == [] && refused == [] && !stopping && !workerExited
    {
      head, tail, stopping, workerExited := null, null, false, false;
      contents, taken, accepted, refused := [], [], [], [];
    }

    ghost predicate Turned()
      reads this`refused, this`accepted, refused`done, refused`admission
    {
      forall i :: 0 <= i < |refused| ==> refused[i] !in accepted && refused[i].done && refused[i].admission == Busy
    }

    /** The links spell out the contents. */
    ghost predicate Linked()
      reads this`head, this`tail, this`contents, contents`next
    {
      && head == (if contents == [] then null else contents[0])
      && tail == (if contents == [] then null else contents[|contents| - 1])
      && forall i :: 0 <= i < |contents| ==> contents[i].next == NextOf(contents, i)
    }

    /**
     First in, first out, each job once; refused jobs are done; and once the worker has gone nothing is
     left, and nothing can come.
     */
    ghost predicate Valid()
      reads this, contents`next, refused`done, refused`admission
    {
      && Linked()
      && accepted == taken + contents && Distinct(accepted)
      && Turned()
      && (workerExited ==> stopping && contents == [])
    }

    ghost function Now(): Moment
      reads this
    {
      Moment(taken, contents, refused, stopping, workerExited)
    }

    lemma ContentsDistinct()
      requires accepted == taken + contents && Distinct(accepted)
      ensures Distinct(contents)
    {
      assert forall i :: 0 <= i < |contents| ==> contents[i] == accepted[|taken| + i];
    }

    lemma NotLinked(job: Job)
      requires accepted == taken + contents && job !in accepted
      ensures job !in contents
    {
    }

    lemma FirstLinked()
      requires Linked() && head != null && accepted == taken + contents
      ensures contents != [] && contents[0] in accepted
    {
      assert contents[0] == accepted[|taken|];
    }

    /** The shutdown flag is set without the queue's lock. */
    method Stop()
      requires Valid()
      modifies this`stopping
      ensures Valid() && stopping
    {
      stopping := true;
    }

    /** Links a job at the tail, or completes it as busy. The flag may be set between the test and the linking. */
    method Enqueue(job: Job)
      requires Valid() && job !in accepted && job !in refused
      modifies this`head, this`tail, this`stopping, this`contents, this`accepted, this`refused, job, contents`next
      ensures Valid() && taken == old(taken) && (old(stopping) ==> stopping)
      ensures contents == if old(stopping) then old(contents) else old(contents) + [job]
      ensures if old(stopping) then refused == old(refused) + [job] && accepted == old(accepted) && job.done && job.admission == Busy
              else accepted == old(accepted) + [job] && refused == old(refused) && job.done == old(job.done)
    {
      if stopping {
        Refuse(job);
        return;
      }
      if * { stopping := true; }
      Accept(job);
    }

    method Refuse(job: Job)
      requires Valid() && job !in accepted && job !in refused
      modifies this`refused, job`admission, job`done
      ensures Valid() && refused == old(refused) + [job] && job.done && job.admission == Busy
    {
      hide Linked, Distinct;
      job.admission, job.done := Busy, true;
      refused := refused + [job];
    }

    method Accept(job: Job)
      requires Valid() && job !in accepted && job !in refused && !workerExited
      modifies this`head, this`tail, this`contents, this`accepted, job`next, contents`next
      ensures Valid() && accepted == old(accepted) + [job] && contents == old(contents) + [job]
    {
      NotLinked(job);
      DistinctMore(accepted, job);
      hide Linked, Distinct, Turned;
      assert taken + (contents + [job]) == accepted + [job];
      LinkLast(job);
      Count(job);
    }

    /** A job counts as accepted. */
    ghost method Count(job: Job)
      requires Turned() && job !in refused
      modifies this`accepted
      ensures Turned() && accepted == old(accepted) + [job]
    {
      accepted := accepted + [job];
    }

    method LinkLast(job: Job)
      requires Linked() && job !in contents
      modifies this`head, this`tail, this`contents, job`next, contents`next
      ensures Linked() && contents == old(contents) + [job]
    {
      job.next := null;
      if tail != null {
        tail.next := job;
      } else {
        head := job;
      }
      tail := job;
      ghost var was := contents;
      contents := contents + [job];
      assert forall i :: 0 <= i < |was| ==> contents[i] == was[i] && (i + 1 < |was| ==> NextOf(contents, i) == NextOf(was, i));
    }

    /** Unlinks the first job. */
    method TakeFirst() returns (job: Job)
      requires Valid() && head != null
      modifies this`head, this`tail, this`contents, this`taken, contents`next
      ensures Valid() && job == old(contents)[0] && contents == old(contents)[1..] && taken == old(taken) + [job]
      ensures job.next == null
    {
      ContentsDistinct();
      FirstLinked();
      hide Linked, Distinct, Turned;
      Shifted(taken, contents);
      job := Unlink();
      taken := taken + [job];
    }

    method Unlink() returns (job: Job)
      requires Linked() && Distinct(contents) && head != null
      modifies this`head, this`tail, this`contents, contents`next
      ensures Linked() && job == old(contents)[0] && contents == old(contents)[1..] && job.next == null
    {
      job := head;
      ghost var was := contents;
      assert job.next == NextOf(was, 0);
      head := job.next;
      if head == null { tail := null; }
      job.next := null;
      contents := contents[1..];
      assert forall i :: 0 <= i < |contents| ==> contents[i] == was[i + 1] && NextOf(contents, i) == NextOf(was, i + 1);
    }

    method TryDequeue() returns (job: Job?)
      requires Valid()
      modifies this`head, this`tail, this`contents, this`taken, contents`next
      ensures Valid()
      ensures if old(contents) == [] then job == null && contents == [] && taken == old(taken)
              else job == old(contents)[0] && contents == old(contents)[1..] && taken == old(taken) + [old(contents)[0]]
    {
      if head == null { return null; }
      job := TakeFirst();
    }

    /** One look of the worker at the queue: a job, or to wait, or, when stopping and empty, to exit. */
    method WorkerStep() returns (job: Job?)
      requires Valid() && !workerExited
      modifies this`head, this`tail, this`contents, this`taken, this`workerExited, contents`next
      ensures Valid() && (workerExited <==> stopping && old(contents) == [])
      ensures if old(contents) == [] then job == null && contents == [] && taken == old(taken)
              else job == old(contents)[0] && contents == old(contents)[1..] && taken == old(taken) + [old(contents)[0]]
    {
      if head == null && !stopping { return null; }
      job := TryDequeue();
      workerExited := job == null;
    }

    /** A job that was accepted is done. */
    method Complete(job: Job)
      requires Valid() && job in accepted
      modifies job`done
      ensures Valid() && job.done
    {
      hide Linked, Distinct;
      job.done := true;
    }

    lemma EmptyLinked()
      requires contents == [] && head == null && tail == null
      ensures Linked()
    {
    }

    lemma NothingLinked()
      requires Linked() && head == null
      ensures contents == []
    {
    }

    /** What shutdown does with jobs still linked: completes them. */
    method Drain()
      requires Valid() && stopping
      modifies this`head, this`tail, this`contents, this`taken, contents
      ensures Valid() && contents == [] && taken == old(taken) + old(contents)
      ensures forall i :: 0 <= i < |old(contents)| ==> old(contents)[i].done
      ensures old(workerExited) ==> taken == old(taken)
    {
      hide Distinct, Linked, Turned;
      ghost var all, k := contents, 0;
      while head != null
        invariant Valid() && k <= |all| && contents == all[k..] && taken == old(taken) + all[..k]
        invariant forall i :: 0 <= i < k ==> all[i].done
        decreases |contents|
      {
        FirstLinked();
        Moved(old(taken), all, k);
        var job := TakeFirst();
        Complete(job);
        k := k + 1;
      }
      NothingLinked();
      tail := null;
      EmptyLinked();
    }

    /** The worker only asks while it runs. */
    method DoOp(op: Op, ghost jobs: set<Job>)
      requires Valid() && (op.Submit? ==> op.job !in accepted + refused) && (refused != [] ==> stopping)
      requires (op.Submit? ==> op.job in jobs) && forall i :: 0 <= i < |contents| ==> contents[i] in jobs
      modifies this, jobs
      ensures Valid() && (old(stopping) ==> stopping) && (refused != [] ==> stopping) && (old(workerExited) ==> workerExited)
      ensures accepted + refused == old(accepted + refused) + if op.Submit? then [op.job] else []
      ensures old(workerExited) ==> accepted == old(accepted)
      ensures Did(op, old(Now()), Now())
    {
      hide Linked, Distinct, Turned;
      match op
      case Submit(job) =>
        assert job !in accepted && job !in refused;
        Enqueue(job);
      case Shut =>
        Stop();
      case Work =>
        if !workerExited {
          var job := WorkerStep();
        }
      case TakeMore =>
        var job := TryDequeue();
    }

    /** One more step of a run. */
    method DoNext(ghost before: seq<Op>, ghost log: seq<Moment>, op: Op, ghost jobs: set<Job>) returns (ghost log': seq<Moment>)
      requires Valid() && (op.Submit? ==> op.job !in accepted + refused) && (refused != [] ==> stopping)
      requires (op.Submit? ==> op.job in jobs) && forall i :: 0 <= i < |contents| ==> contents[i] in jobs
      requires AllDid(before, log) && log[|before|] == Now()
      modifies this, jobs
      ensures Valid() && (refused != [] ==> stopping)
      ensures accepted + refused == old(accepted + refused) + if op.Submit? then [op.job] else []
      ensures AllDid(before + [op], log') && log <= log' && |log'| == |log| + 1 && log'[|log|] == Now()
    {
      hide Valid, Did;
      DoOp(op, jobs);
      MoreDid(before, log, op, Now());
      log' := log + [Now()];
    }

    lemma Known(all: seq<Job>, op: Op)
      requires Valid() && accepted + refused + (if op.Submit? then [op.job] else []) <= all && Distinct(all)
      ensures op.Submit? ==> op.job !in accepted + refused && op.job in all
      ensures forall j :: j in contents ==> j in all
    {
      var before := accepted + refused;
      assert op.Submit? ==> (before + [op.job])[|before|] == op.job;
      forall i | 0 <= i < |before| ensures before[i] == all[i] && (op.Submit? ==> before[i] != op.job) {
        assert (before + (if op.Submit? then [op.job] else []))[i] == before[i];
      }
      forall i | 0 <= i < |contents| ensures contents[i] == before[|taken| + i] {
      }
    }

    /**
     Any interleaving: every job submitted is linked, and handed over once and in order, or, from some
     point on, completed at once as busy. A worker that looks at the queue gets the first job linked, if there
     is one, and goes when it finds none while stopping; all linked jobs have been handed over then.
     */
    method Run(ops: seq<Op>) returns (ghost log: seq<Moment>)
      requires Valid() && accepted == [] && refused == [] && !stopping && !workerExited && Distinct(Submitted(ops))
      modifies this, set j | j in Submitted(ops)
      ensures Valid() && Submitted(ops) == accepted + refused && accepted == taken + contents
      ensures (refused != [] ==> stopping) && (workerExited ==> contents == [])
      ensures AllDid(ops, log) && log[0] == old(Now()) && log[|ops|] == Now()
    {
      hide Valid, AllDid, Did;
      log := [Now()];
      assert AllDid(ops[..0], log) by { NoneDid(log); }
      ghost var all := Submitted(ops);
      ghost var jobs := set j | j in all;
      for n := 0 to |ops|
        invariant Valid() && Submitted(ops[..n]) == accepted + refused && (refused != [] ==> stopping)
        invariant AllDid(ops[..n], log) && |log| == n + 1 && log[0] == old(Now()) && log[n] == Now()
      {
        assert ops[..n + 1][..n] == ops[..n];
        SubmittedPrefix(ops, n);
        SubmittedPrefix(ops, n + 1);
        Known(all, ops[n]);
        assert ops[..n + 1] == ops[..n] + [ops[n]];
        log := DoNext(ops[..n], log, ops[n], jobs);
      }
      assert ops[..|ops|] == ops;
      AllLinked();
    }

    lemma AllLinked()
      requires Valid()
      ensures accepted == taken + contents && (workerExited ==> contents == [])
    {
    }
  }
}
