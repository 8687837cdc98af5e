/** The FIFO worklist of job postings (`JobQueue`). */
module Queue {
  import opened Wrappers
  import opened Models

  datatype JobQueue = JobQueue(jobs: seq<Job>)

  const EmptyQueueError := "Cannot pop from an empty JobQueue"

  predicate IsEmpty(q: JobQueue) {
    |q.jobs| == 0
  }

  /** Removes and returns the head job; an empty queue is an explicit error. */
  function PopNext(q: JobQueue): (r: Result<(Job, JobQueue), string>)
    ensures IsEmpty(q) <==> r.Failure?
    ensures r.Failure? ==> r.error == EmptyQueueError
    ensures r.Success? ==>
      && r.value.0 == q.jobs[0]
      && r.value.1.jobs == q.jobs[1..]
      && |r.value.1.jobs| == |q.jobs| - 1
  {
    if IsEmpty(q) then Failure(EmptyQueueError)
    else Success((q.jobs[0], JobQueue(q.jobs[1..])))
  }

  /** Appends a job at the tail. */
  function Add(q: JobQueue, job: Job): (r: JobQueue)
    ensures |r.jobs| == |q.jobs| + 1
    ensures r.jobs[..|q.jobs|] == q.jobs
    ensures r.jobs[|q.jobs|] == job
  {
    JobQueue(q.jobs + [job])
  }

  /** Adds each job in turn. */
  function AddAll(q: JobQueue, js: seq<Job>): JobQueue
    decreases |js|
  {
    if |js| == 0 then q else AddAll(Add(q, js[0]), js[1..])
  }

  /** The jobs obtained by popping until the queue is empty, in pop order. */
  function Drain(q: JobQueue): seq<Job>
    decreases |q.jobs|
  {
    match PopNext(q)
    case Failure(_) => []
    case Success((job, rest)) => [job] + Drain(rest)
  }

  lemma {:induction false} DrainYieldsContents(q: JobQueue)
    ensures Drain(q) == q.jobs
    decreases |q.jobs|
  {
    if !IsEmpty(q) {
      DrainYieldsContents(JobQueue(q.jobs[1..]));
    }
  }

  lemma {:induction false} AddAllAppends(q: JobQueue, js: seq<Job>)
    ensures AddAll(q, js).jobs == q.jobs + js
    decreases |js|
  {
    if |js| > 0 {
      AddAllAppends(Add(q, js[0]), js[1..]);
      assert q.jobs + [js[0]] + js[1..] == q.jobs + js;
    }
  }

  /** Jobs leave the queue in the order they were added. */
  lemma {:induction false} FifoOrder(q: JobQueue, js: seq<Job>)
    ensures Drain(AddAll(q, js)) == q.jobs + js
  {
    AddAllAppends(q, js);
    DrainYieldsContents(AddAll(q, js));
  }
}
