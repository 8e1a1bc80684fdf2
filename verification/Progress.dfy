/** Progress of a blocking worker, coalesced in a queue and published to the job status by an async task. */
module Progress {
  import opened Wrappers

  type Phase = nat

  /** One report; without a phase it only carries counters. */
  datatype Sample = Sample(phase: Option<Phase>, current: nat, total: nat)

  datatype Counters = Counters(documents: nat, distributions: nat, index: nat, documentsCurrent: nat, documentsTotal: nat)

  const ZERO := Counters(0, 0, 0, 0, 0)

  /** The part of a job's status that progress changes. */
  datatype Status = Status(phase: Option<Phase>, completed: seq<Phase>, current: nat, total: nat, counters: Counters)

  // ---------------------------------------------------------------- coalescing

  /** A report replaces the last queued one of the same phase, and is queued otherwise. */
  function Record(queue: seq<Sample>, next: Sample): seq<Sample> {
    if queue != [] && queue[|queue| - 1].phase == next.phase then queue[|queue| - 1 := next] else queue + [next]
  }

  /** Publishes one sample: a new phase completes the old one and resets the counters. */
  function SetPhaseWork(job: Status, s: Sample): Status {
    if s.phase.Some? && job.phase != s.phase
    then Status(s.phase, job.completed + (if job.phase.Some? then [job.phase.value] else []), s.current, s.total, ZERO)
    else job.(current := s.current, total := s.total)
  }

  function PublishAll(job: Status, samples: seq<Sample>): Status {
    if samples == [] then job else SetPhaseWork(PublishAll(job, samples[..|samples| - 1]), samples[|samples| - 1])
  }

  /** Publishing only the later of two reports of one phase leaves the same status. */
  lemma LaterReportWins(job: Status, a: Sample, b: Sample)
    requires a.phase == b.phase
    ensures SetPhaseWork(SetPhaseWork(job, a), b) == SetPhaseWork(job, b)
  {
  }

  /** Coalescing is invisible: the queue publishes what every report, one by one, would have. */
  lemma RecordIsInvisible(job: Status, queue: seq<Sample>, next: Sample)
    ensures PublishAll(job, Record(queue, next)) == SetPhaseWork(PublishAll(job, queue), next)
  {
    var n := |queue| - 1;
    if queue != [] && queue[n].phase == next.phase {
      assert queue[n := next][..n] == queue[..n];
      LaterReportWins(PublishAll(job, queue[..n]), queue[n], next);
    } else {
      assert (queue + [next])[..|queue|] == queue;
    }
  }

  lemma {:induction false} PublishAppend(job: Status, a: seq<Sample>, b: seq<Sample>)
    ensures PublishAll(job, a + b) == PublishAll(PublishAll(job, a), b)
  {
    if b == [] {
      assert a + b == a;
    } else {
      assert (a + b)[..|a + b| - 1] == a + b[..|b| - 1];
      PublishAppend(job, a, b[..|b| - 1]);
    }
  }

  // ---------------------------------------------------------------- interleaving

  /** `reported` is everything the worker reported; `pending` was drained and is being published. */
  datatype State = State(reported: seq<Sample>, queue: seq<Sample>, pending: seq<Sample>, job: Status)

  datatype Step =
    | Report(sample: Sample)
    | Drain
    | PublishOne

  function Do(st: State, step: Step): State {
    match step
    case Report(s) => st.(reported := st.reported + [s], queue := Record(st.queue, s))
    case Drain => if st.pending == [] then st.(queue := [], pending := st.queue) else st
    case PublishOne =>
      if st.pending == [] then st else st.(job := SetPhaseWork(st.job, st.pending[0]), pending := st.pending[1..])
  }

  function Perform(st: State, steps: seq<Step>): State {
    if steps == [] then st else Do(Perform(st, steps[..|steps| - 1]), steps[|steps| - 1])
  }

  /** What is still queued or drained completes the status to that of all reports. */
  ghost predicate NothingLost(start: Status, st: State) {
    PublishAll(PublishAll(st.job, st.pending), st.queue) == PublishAll(start, st.reported)
  }

  lemma StepLosesNothing(start: Status, st: State, step: Step)
    requires NothingLost(start, st)
    ensures NothingLost(start, Do(st, step))
  {
    match step
    case Report(s) =>
      RecordIsInvisible(PublishAll(st.job, st.pending), st.queue, s);
      assert (st.reported + [s])[..|st.reported|] == st.reported;
    case Drain =>
    case PublishOne =>
      if st.pending != [] {
        assert st.pending == [st.pending[0]] + st.pending[1..];
        PublishAppend(st.job, [st.pending[0]], st.pending[1..]);
        assert PublishAll(st.job, [st.pending[0]]) == SetPhaseWork(PublishAll(st.job, [st.pending[0]][..0]), st.pending[0]);
      }
  }

  lemma {:induction false} RunLosesNothing(start: Status, steps: seq<Step>)
    ensures NothingLost(start, Perform(State([], [], [], start), steps))
  {
    hide Do;
    if steps != [] {
      RunLosesNothing(start, steps[..|steps| - 1]);
      hide NothingLost;
      StepLosesNothing(start, Perform(State([], [], [], start), steps[..|steps| - 1]), steps[|steps| - 1]);
    }
  }

  /** No two samples in a row are of the same phase. */
  predicate Coalesced(samples: seq<Sample>) {
    forall k :: 0 <= k < |samples| - 1 ==> samples[k].phase != samples[k + 1].phase
  }

  /** However many reports a phase makes, its run of them takes one place in the queue, and in what is being published. */
  lemma {:induction false} RunCoalesces(start: Status, steps: seq<Step>)
    ensures var st := Perform(State([], [], [], start), steps);
            Coalesced(st.queue) && Coalesced(st.pending)
    ensures var st := Perform(State([], [], [], start), steps);
            st.queue != [] ==> st.reported != [] && st.queue[|st.queue| - 1] == st.reported[|st.reported| - 1]
  {
    if steps != [] { RunCoalesces(start, steps[..|steps| - 1]); }
  }

  function Publications(n: nat): seq<Step> {
    if n == 0 then [] else Publications(n - 1) + [PublishOne]
  }

  lemma {:induction false} PublicationsDrain(st: State, n: nat)
    requires n <= |st.pending|
    ensures var t := Perform(st, Publications(n));
            t.pending == st.pending[n..] && t.queue == st.queue && t.reported == st.reported
  {
    if n > 0 {
      PublicationsDrain(st, n - 1);
      var front := Publications(n - 1);
      assert (front + [PublishOne])[..|front|] == front;
      assert st.pending[n - 1..][1..] == st.pending[n..];
    }
  }

  lemma {:induction false} PerformInTurn(st: State, first: seq<Step>, second: seq<Step>)
    ensures Perform(st, first + second) == Perform(Perform(st, first), second)
  {
    hide Do;
    if second == [] {
      assert first + second == first;
    } else {
      assert (first + second)[..|first + second| - 1] == first + second[..|second| - 1];
      PerformInTurn(st, first, second[..|second| - 1]);
    }
  }

  /** From any state, publishing what is drained, draining the queue and publishing that leaves nothing to publish. */
  lemma EverythingIsPublished(st: State)
    ensures var steps := Publications(|st.pending|) + [Drain] + Publications(|st.queue|);
            var t := Perform(st, steps);
            t.queue == [] && t.pending == [] && t.reported == st.reported
  {
    hide Publications;
    var first, second := Publications(|st.pending|), Publications(|st.queue|);
    PublicationsDrain(st, |st.pending|);
    var s1 := Perform(st, first);
    PerformInTurn(st, first + [Drain], second);
    PerformInTurn(st, first, [Drain]);
    assert [Drain][..0] == [];
    var s2 := Perform(s1, [Drain]);
    PublicationsDrain(s2, |st.queue|);
  }

  // ---------------------------------------------------------------- phase history

  function Phases(samples: seq<Sample>): seq<Phase> {
    if samples == [] then []
    else
      Phases(samples[..|samples| - 1])
      + if samples[|samples| - 1].phase.Some? then [samples[|samples| - 1].phase.value] else []
  }

  /** The phases without repetitions of the one before, or of the one already running. */
  function StutterFree(running: Option<Phase>, phases: seq<Phase>): seq<Phase> {
    if phases == [] then []
    else
      var n := |phases| - 1;
      var front := StutterFree(running, phases[..n]);
      if Running(running, phases[..n]) == Some(phases[n]) then front else front + [phases[n]]
  }

  /** The phase that runs after some were reported. */
  function Running(running: Option<Phase>, phases: seq<Phase>): Option<Phase> {
    if phases == [] then running else Some(phases[|phases| - 1])
  }

  function OneOrNone(phase: Option<Phase>): seq<Phase> {
    if phase.Some? then [phase.value] else []
  }

  function History(job: Status): seq<Phase> {
    job.completed + OneOrNone(job.phase)
  }

  lemma OnePhaseMore(running: Option<Phase>, phases: seq<Phase>, next: Phase)
    ensures Running(running, phases + [next]) == Some(next)
    ensures StutterFree(running, phases + [next])
            == StutterFree(running, phases) + if Running(running, phases) == Some(next) then [] else [next]
  {
    assert (phases + [next])[..|phases|] == phases;
    assert StutterFree(running, phases) + [] == StutterFree(running, phases);
  }

  lemma OneSampleMore(job: Status, s: Sample)
    ensures var t := SetPhaseWork(job, s);
            && t.phase == (if s.phase.Some? then s.phase else job.phase)
            && History(t) == History(job) + (if s.phase.Some? && job.phase != s.phase then [s.phase.value] else [])
            && t.current == s.current && t.total == s.total
  {
  }

  lemma {:induction false} PublishedHistory(start: Status, samples: seq<Sample>)
    ensures var job := PublishAll(start, samples);
            && job.phase == Running(start.phase, Phases(samples))
            && History(job) == History(start) + StutterFree(start.phase, Phases(samples))
    ensures samples != [] ==> var last := samples[|samples| - 1];
            var job := PublishAll(start, samples); job.current == last.current && job.total == last.total
  {
    hide History, SetPhaseWork, StutterFree, Running;
    if samples == [] {
      NothingPublished(start);
    } else {
      var n := |samples| - 1;
      PublishedHistory(start, samples[..n]);
      OneSampleMore(PublishAll(start, samples[..n]), samples[n]);
      if samples[n].phase.Some? {
        OnePhaseMore(start.phase, Phases(samples[..n]), samples[n].phase.value);
      } else {
        assert Phases(samples) == Phases(samples[..n]);
      }
    }
  }

  /** The reports began a phase other than the one that was running. */
  predicate Began(start: Status, samples: seq<Sample>) {
    exists s | s in samples :: s.phase.Some? && s.phase != start.phase
  }

  predicate AllZero(c: Counters) {
    c.documents == 0 && c.distributions == 0 && c.index == 0 && c.documentsCurrent == 0 && c.documentsTotal == 0
  }

  /** Counters of an earlier phase never show in a later one. */
  lemma {:induction false} PublishedCounters(start: Status, samples: seq<Sample>)
    ensures var job := PublishAll(start, samples);
            && (Began(start, samples) ==> AllZero(job.counters))
            && (!Began(start, samples) ==> job.counters == start.counters && job.phase == start.phase)
  {
    if samples != [] {
      var front, last := samples[..|samples| - 1], samples[|samples| - 1];
      PublishedCounters(start, front);
      assert forall s :: s in samples <==> s in front || s == last;
    }
  }

  lemma NothingPublished(start: Status)
    ensures Running(start.phase, []) == start.phase && StutterFree(start.phase, []) == []
  {
  }

  /** However reports and publications interleave, once everything is published the completed phases
      followed by the current one are the earlier history followed by every reported phase, repetitions
      aside, the progress is that of the last report, and the five counters are back at zero if the reports began
      a phase, and as they were otherwise. */
  lemma NoPhaseIsLost(start: Status, steps: seq<Step>)
    requires var st := Perform(State([], [], [], start), steps); st.queue == [] && st.pending == []
    ensures var st := Perform(State([], [], [], start), steps);
            && History(st.job) == History(start) + StutterFree(start.phase, Phases(st.reported))
            && (st.reported != [] ==> var last := st.reported[|st.reported| - 1]; st.job.current == last.current && st.job.total == last.total)
            && (Began(start, st.reported) ==> AllZero(st.job.counters))
            && (!Began(start, st.reported) ==> st.job.counters == start.counters)
  {
    hide Perform, Began, AllZero;
    RunLosesNothing(start, steps);
    PublishedCounters(start, Perform(State([], [], [], start), steps).reported);
    PublishedHistory(start, Perform(State([], [], [], start), steps).reported);
  }

  /** The stutter-free sequence never repeats a phase immediately, loses none, and ends with the last one. */
  lemma {:induction false} StutterFreeSpec(running: Option<Phase>, phases: seq<Phase>)
    ensures var kept := OneOrNone(running) + StutterFree(running, phases);
            && (forall i :: 0 < i < |kept| ==> kept[i - 1] != kept[i])
            && (forall p | p in phases :: p in kept)
            && (Running(running, phases).Some? ==> kept != [] && kept[|kept| - 1] == Running(running, phases).value)
  {
    if phases != [] {
      var n := |phases| - 1;
      StutterFreeSpec(running, phases[..n]);
      assert phases == phases[..n] + [phases[n]];
      var front := OneOrNone(running) + StutterFree(running, phases[..n]);
      var kept := OneOrNone(running) + StutterFree(running, phases);
      assert kept == if Running(running, phases[..n]) == Some(phases[n]) then front else front + [phases[n]];
      NothingBeforeFirst(running, phases[..n]);
    }
  }

  /** As long as no phase has ever run, the history is empty. */
  lemma {:induction false} NothingBeforeFirst(running: Option<Phase>, phases: seq<Phase>)
    ensures Running(running, phases).None? ==> OneOrNone(running) + StutterFree(running, phases) == []
  {
  }

  // ---------------------------------------------------------------- the bridge and the status

  class Job {
    var status: Status

    constructor (status: Status)
      ensures this.status == status
    {
      this.status := status;
    }

    /** Enters a phase, or moves the counters of the one that is running. */
    method SetWork(phase: Option<Phase>, current: nat, total: nat)
      modifies this
      ensures status == SetPhaseWork(old(status), Sample(phase, current, total))
      ensures status.current == current && status.total == total
      ensures phase.Some? && old(status.phase) != phase ==>
                && status.phase == phase
                && status.completed == old(status.completed) + (if old(status.phase).Some? then [old(status.phase).value] else [])
                && status.counters.documents == 0 && status.counters.distributions == 0 && status.counters.index == 0
                && status.counters.documentsCurrent == 0 && status.counters.documentsTotal == 0
      ensures phase.None? || old(status.phase) == phase ==>
                status.phase == old(status.phase) && status.completed == old(status.completed) && status.counters == old(status.counters)
    {
      if phase.Some? && status.phase != phase {
        if status.phase.Some? {
          status := status.(completed := status.completed + [status.phase.value]);
        }
        status := status.(phase := phase, counters := ZERO);
      }
      status := status.(current := current, total := total);
    }
  }

  class BlockingProgress {
    var samples: seq<Sample>

    constructor ()
      ensures samples == []
    {
      samples := [];
    }

    /** Replaces the last report of the same phase, or queues a new one. */
    method RecordSample(next: Sample)
      modifies this
      ensures samples == Record(old(samples), next)
      ensures forall job :: PublishAll(job, samples) == SetPhaseWork(PublishAll(job, old(samples)), next)
    {
      forall job ensures PublishAll(job, Record(samples, next)) == SetPhaseWork(PublishAll(job, samples), next) {
        RecordIsInvisible(job, samples, next);
      }
      if samples != [] && samples[|samples| - 1].phase == next.phase {
        samples := samples[|samples| - 1 := next];
      } else {
        samples := samples + [next];
      }
    }

    /** Drains the queue and publishes what it held. */
    method Publish(job: Job)
      modifies this, job
      ensures samples == [] && job.status == PublishAll(old(job.status), old(samples))
    {
      var pending := samples;
      samples := [];
      for i := 0 to |pending|
        invariant samples == [] && job.status == PublishAll(old(job.status), pending[..i])
      {
        assert pending[..i + 1][..i] == pending[..i];
        job.SetWork(pending[i].phase, pending[i].current, pending[i].total);
      }
      assert pending[..|pending|] == pending;
    }
  }
}
