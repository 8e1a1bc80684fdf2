/** The overview cache: requests, disk writers and invalidations interleaving step by step. */
module Overview {
  import opened Wrappers

  type Disk = map<string, string>

  /** What one file held when it was read. */
  datatype Read = Read(content: Option<string>, at: nat)

  /** The names a directory listing returned, and when it was complete. */
  datatype Listing = Listing(names: set<string>, at: nat)

  /** A computed overview: its cache generation and day, when its computation began, what it listed and every file read. */
  datatype Snapshot = Snapshot(generation: nat, date: int, startedAt: nat, listing: Option<Listing>, seen: map<string, Read>)

  /** The request that holds the lock, if any. */
  datatype Holder =
    | Nobody
    | Acquired(acquiredAt: nat)
    | Computing(acquiredAt: nat, pending: Snapshot)

  datatype Answer = Answer(acquiredAt: nat, date: int, snapshot: Snapshot)

  /** `log[t]` is the disk after step `t`; the generation counter is the number of invalidations. */
  datatype State = State(
    log: seq<Disk>,
    invalidations: seq<nat>,
    cached: Option<Snapshot>,
    holder: Holder,
    answers: seq<Answer>)

  datatype Step =
    | Write(file: string, content: Option<string>)
    | Invalidate
    | Acquire
    | Check(today: int)
    | List(names: set<string>)
    | ReadFile(read: string)
    | Fail
    | Finish

  function DiskNow(st: State): Disk
    requires st.log != []
  {
    st.log[|st.log| - 1]
  }

  function Content(disk: Disk, file: string): Option<string> {
    if file in disk then Some(disk[file]) else None
  }

  function WriteTo(disk: Disk, file: string, content: Option<string>): Disk {
    match content
    case None => disk - {file}
    case Some(text) => disk[file := text]
  }

  /** What a listing that ran over these disks may return: every file that was there all the time, and no file
      that never was. Files that came or went meanwhile may be among the names or not. */
  ghost predicate MayList(disks: seq<Disk>, names: set<string>) {
    && (forall f | (forall t | 0 <= t < |disks| :: f in disks[t]) :: f in names)
    && forall f | f in names :: exists t | 0 <= t < |disks| :: f in disks[t]
  }

  /** One atomic step of some task; a step that does not apply only lets time pass. */
  ghost function Do(st: State, step: Step): State
    requires st.log != []
  {
    var disk := DiskNow(st);
    var now := |st.log|;
    var later := st.(log := st.log + [disk]);
    match step
    case Write(file, content) => st.(log := st.log + [WriteTo(disk, file, content)])
    case Invalidate => later.(invalidations := st.invalidations + [now])
    case Acquire => if st.holder.Nobody? then later.(holder := Acquired(now)) else later
    case Check(today) =>
      (match st.holder
       case Acquired(acquiredAt) =>
         var generation := |st.invalidations|;
         if st.cached.Some? && st.cached.value.generation == generation && st.cached.value.date == today
         then later.(holder := Nobody, answers := st.answers + [Answer(acquiredAt, today, st.cached.value)])
         else later.(holder := Computing(acquiredAt, Snapshot(generation, today, now, None, map[])))
       case _ => later)
    case List(names) =>
      (match st.holder
       case Computing(acquiredAt, pending) =>
         if pending.listing.None? && 0 < pending.startedAt <= now && MayList(st.log[pending.startedAt - 1..], names)
         then later.(holder := Computing(acquiredAt, pending.(listing := Some(Listing(names, now)))))
         else later
       case _ => later)
    case ReadFile(file) =>
      (match st.holder
       case Computing(acquiredAt, pending) =>
         if pending.listing.Some? && file in pending.listing.value.names
         then later.(holder := Computing(acquiredAt, pending.(seen := pending.seen[file := Read(Content(disk, file), now)])))
         else later
       case _ => later)
    case Fail => later.(holder := Nobody)
    case Finish =>
      (match st.holder
       case Computing(acquiredAt, pending) =>
         if AllRead(pending)
         then later.(cached := Some(pending), holder := Nobody, answers := st.answers + [Answer(acquiredAt, pending.date, pending)])
         else later
       case _ => later)
  }

  /** Every listed file was read, or found to be gone. */
  predicate AllRead(s: Snapshot) {
    s.listing.Some? && s.seen.Keys == s.listing.value.names
  }

  ghost function Perform(st: State, steps: seq<Step>): (t: State)
    requires st.log != []
    ensures t.log != []
    decreases |steps|
  {
    if steps == [] then st else Perform(Do(st, steps[0]), steps[1..])
  }

  /** Every file was read from the disk as it was at some step after the computation began. */
  ghost predicate TrueReads(log: seq<Disk>, s: Snapshot) {
    forall f | f in s.seen ::
      0 < s.seen[f].at < |log| && s.startedAt <= s.seen[f].at && s.seen[f].content == Content(log[s.seen[f].at - 1], f)
  }

  /** The listing ran between the beginning of the computation and its own end. */
  ghost predicate TrueListing(log: seq<Disk>, s: Snapshot) {
    s.listing.Some? ==>
      && 0 < s.startedAt <= s.listing.value.at <= |log|
      && MayList(log[s.startedAt - 1..s.listing.value.at], s.listing.value.names)
  }

  /** The computation began after every invalidation its generation counts. */
  ghost predicate CountsEarlier(invalidations: seq<nat>, s: Snapshot) {
    s.generation <= |invalidations| && forall i | 0 <= i < s.generation :: invalidations[i] < s.startedAt
  }

  ghost predicate Honest(st: State, s: Snapshot) {
    TrueReads(st.log, s) && TrueListing(st.log, s) && CountsEarlier(st.invalidations, s) && 0 < s.startedAt <= |st.log|
    && (s.seen != map[] ==> s.listing.Some? && s.seen.Keys <= s.listing.value.names)
  }

  /** Nothing in the answer was read before an invalidation that completed before the lock was taken. */
  ghost predicate FreshAnswer(st: State, a: Answer) {
    && Honest(st, a.snapshot) && AllRead(a.snapshot) && a.snapshot.date == a.date
    && a.acquiredAt < |st.log|
    && forall i | 0 <= i < |st.invalidations| && st.invalidations[i] <= a.acquiredAt :: st.invalidations[i] < a.snapshot.startedAt
  }

  ghost predicate HolderHonest(st: State) {
    match st.holder
    case Nobody => true
    case Acquired(t) => t < |st.log|
    case Computing(t, pending) =>
      && t < |st.log| && Honest(st, pending)
      && forall i | 0 <= i < |st.invalidations| && st.invalidations[i] <= t :: st.invalidations[i] < pending.startedAt
  }

  ghost predicate Valid(st: State) {
    && st.log != []
    && (forall i | 0 <= i < |st.invalidations| :: st.invalidations[i] < |st.log|)
    && (st.cached.Some? ==> Honest(st, st.cached.value) && AllRead(st.cached.value))
    && HolderHonest(st)
    && forall a | a in st.answers :: FreshAnswer(st, a)
  }

  lemma HonestLater(st: State, t: State, s: Snapshot)
    requires Honest(st, s) && st.log <= t.log && st.invalidations <= t.invalidations
    ensures Honest(t, s)
  {
    forall f | f in s.seen ensures t.log[s.seen[f].at - 1] == st.log[s.seen[f].at - 1] {}
    if s.listing.Some? {
      assert t.log[s.startedAt - 1..s.listing.value.at] == st.log[s.startedAt - 1..s.listing.value.at];
    }
  }

  /** Later steps cannot make an answer stale in hindsight: later invalidations come after its lock. */
  lemma FreshLater(st: State, t: State, a: Answer)
    requires FreshAnswer(st, a) && st.log <= t.log && st.invalidations <= t.invalidations
    requires forall i | |st.invalidations| <= i < |t.invalidations| :: t.invalidations[i] >= |st.log|
    ensures FreshAnswer(t, a)
  {
    HonestLater(st, t, a.snapshot);
  }

  lemma HolderLater(st: State, t: State)
    requires HolderHonest(st) && t.holder == st.holder && st.log <= t.log && st.invalidations <= t.invalidations
    requires forall i | |st.invalidations| <= i < |t.invalidations| :: t.invalidations[i] >= |st.log|
    ensures HolderHonest(t)
  {
    if st.holder.Computing? { HonestLater(st, t, st.holder.pending); }
  }

  lemma DoGrows(st: State, step: Step)
    requires st.log != []
    ensures var t := Do(st, step);
            && st.log <= t.log && |t.log| == |st.log| + 1 && st.invalidations <= t.invalidations
            && forall i | |st.invalidations| <= i < |t.invalidations| :: t.invalidations[i] == |st.log|
  {
  }

  lemma ListedIsHonest(st: State, s: Snapshot, names: set<string>)
    requires st.log != [] && Honest(st, s) && s.listing.None? && MayList(st.log[s.startedAt - 1..], names)
    ensures Honest(st, s.(listing := Some(Listing(names, |st.log|))))
  {
    hide MayList;
    assert st.log[s.startedAt - 1..] == st.log[s.startedAt - 1..|st.log|];
    assert s.seen == map[];
  }

  lemma ReadIsHonest(st: State, t: State, s: Snapshot, file: string)
    requires st.log != [] && Honest(t, s) && |t.log| == |st.log| + 1 && st.log <= t.log && s.startedAt <= |st.log|
    requires s.listing.Some? && file in s.listing.value.names
    ensures Honest(t, s.(seen := s.seen[file := Read(Content(DiskNow(st), file), |st.log|)]))
  {
    hide MayList;
    assert t.log[|st.log| - 1] == DiskNow(st);
  }

  /** Starting, extending or finishing a computation keeps the holder honest. */
  lemma HolderStep(st: State, step: Step)
    requires Valid(st)
    ensures HolderHonest(Do(st, step))
  {
    hide Honest, MayList, FreshAnswer;
    var t := Do(st, step);
    DoGrows(st, step);
    if t.holder == st.holder {
      HolderLater(st, t);
    } else if step.List? {
      HonestStarted(st, st.holder.pending);
      ListedIsHonest(st, st.holder.pending, step.names);
      HonestLater(st, t, t.holder.pending);
    } else if step.ReadFile? {
      HonestStarted(st, st.holder.pending);
      HonestLater(st, t, st.holder.pending);
      ReadIsHonest(st, t, st.holder.pending, step.read);
    } else if step.Check? && t.holder.Computing? {
      BegunIsHonest(st, t, t.holder.pending);
    }
  }

  lemma HonestStarted(st: State, s: Snapshot)
    requires Honest(st, s)
    ensures 0 < s.startedAt <= |st.log|
  {
  }

  lemma BegunIsHonest(st: State, t: State, s: Snapshot)
    requires Valid(st) && t.invalidations == st.invalidations && |t.log| == |st.log| + 1
    requires s.generation == |st.invalidations| && s.startedAt == |st.log| && s.listing.None? && s.seen == map[]
    ensures Honest(t, s)
  {
  }

  lemma StepValid(st: State, step: Step)
    requires Valid(st)
    ensures Valid(Do(st, step))
  {
    hide Honest, HolderHonest;
    var t := Do(st, step);
    DoGrows(st, step);
    HolderStep(st, step);
    if st.cached.Some? { HonestLater(st, t, st.cached.value); }
    forall a | a in st.answers ensures FreshAnswer(t, a) { FreshLater(st, t, a); }
    if t.answers != st.answers { AnswerFresh(st, step); }
    CachedLater(st, step);
  }

  lemma CachedLater(st: State, step: Step)
    requires Valid(st)
    ensures var t := Do(st, step);
            t.cached != st.cached ==> t.cached.Some? && Honest(t, t.cached.value) && AllRead(t.cached.value)
  {
    var t := Do(st, step);
    DoGrows(st, step);
    if t.cached != st.cached { HonestLater(st, t, st.holder.pending); }
  }

  /** The answer just given is fresh, whether it was cached or computed. */
  lemma AnswerFresh(st: State, step: Step)
    requires Valid(st) && Do(st, step).answers != st.answers
    ensures var t := Do(st, step);
            t.answers == st.answers + [t.answers[|st.answers|]] && FreshAnswer(t, t.answers[|st.answers|])
  {
    var t := Do(st, step);
    DoGrows(st, step);
    if step.Check? { HonestLater(st, t, st.cached.value); } else { HonestLater(st, t, st.holder.pending); }
  }

  /** For every interleaving of writers, invalidations and requests, every answer was read from disk
      after each invalidation that completed before its request took the lock. */
  lemma {:induction false} AnswersAreFresh(st: State, steps: seq<Step>)
    requires Valid(st)
    ensures Valid(Perform(st, steps))
    decreases |steps|
  {
    hide Valid, Do;
    if steps != [] {
      LogStarted(st);
      StepValid(st, steps[0]);
      AnswersAreFresh(Do(st, steps[0]), steps[1..]);
    }
  }

  /** What every answer tells: it is of the day asked for, names what it listed, and for each of these gives the content of the
      file at some moment after every invalidation that was acknowledged before the request took the lock. */
  lemma AnswersTellDisk(st: State, steps: seq<Step>, a: Answer)
    requires Valid(st) && a in Perform(st, steps).answers
    ensures var t := Perform(st, steps);
            var s := a.snapshot;
            && s.date == a.date && s.listing.Some? && s.seen.Keys == s.listing.value.names
            && (forall i | 0 <= i < |t.invalidations| && t.invalidations[i] <= a.acquiredAt :: t.invalidations[i] < s.startedAt)
            && (forall f | f in s.seen :: 0 < s.seen[f].at < |t.log| && s.startedAt <= s.seen[f].at
                  && s.seen[f].content == if f in t.log[s.seen[f].at - 1] then Some(t.log[s.seen[f].at - 1][f]) else None)
  {
    AnswersAreFresh(st, steps);
    assert FreshAnswer(Perform(st, steps), a);
  }

  lemma LogStarted(st: State)
    requires Valid(st)
    ensures st.log != []
  {
  }

  /** The cache is used: on the same day, and with no invalidation since, a request answers at once with the kept snapshot. */
  lemma CachedIsReused(st: State, today: int)
    requires st.log != [] && st.holder.Nobody? && st.cached.Some?
    requires st.cached.value.date == today && st.cached.value.generation == |st.invalidations|
    ensures var t := Do(Do(st, Acquire), Check(today));
            t.holder.Nobody? && t.answers == st.answers + [Answer(|st.log|, today, st.cached.value)] && t.cached == st.cached
  {
  }

  /** After an invalidation, or on another day, it computes anew from what the disk holds then. */
  lemma StaleIsRecomputed(st: State, today: int)
    requires st.log != [] && st.holder.Nobody?
    requires st.cached.None? || st.cached.value.date != today || st.cached.value.generation != |st.invalidations|
    ensures var t := Do(Do(st, Acquire), Check(today));
            t.answers == st.answers && t.holder == Computing(|st.log|, Snapshot(|st.invalidations|, today, |st.log| + 1, None, map[]))
  {
  }

  /** An invalidation makes every kept snapshot of an earlier generation stale. */
  lemma InvalidationCounts(st: State)
    requires Valid(st)
    ensures var t := Do(st, Invalidate);
            t.invalidations == st.invalidations + [|st.log|] && (t.cached.Some? ==> t.cached.value.generation < |t.invalidations|)
  {
  }

  lemma InitiallyValid(disk: Disk)
    ensures Valid(State([disk], [], None, Nobody, []))
  {
  }

  /** A file as it was at an acknowledged invalidation, and is since, shows exactly so in every later answer: with its
      content when it is there, and not at all when it is not. */
  lemma AcknowledgedWriteIsSeen(st: State, a: Answer, file: string, written: nat, i: nat)
    requires Valid(st) && a in st.answers
    requires i < |st.invalidations| && written < st.invalidations[i] <= a.acquiredAt
    requires forall t | written <= t < |st.log| :: Content(st.log[t], file) == Content(st.log[written], file)
    ensures file in a.snapshot.seen <==> Content(st.log[written], file).Some?
    ensures file in a.snapshot.seen ==> a.snapshot.seen[file].content == Content(st.log[written], file)
  {
    assert FreshAnswer(st, a);
    var s := a.snapshot;
    var disks := st.log[s.startedAt - 1..s.listing.value.at];
    forall t | 0 <= t < |disks| ensures Content(disks[t], file) == Content(st.log[written], file) {
      assert disks[t] == st.log[s.startedAt - 1 + t];
    }
    assert MayList(disks, s.listing.value.names);
  }

  /** A write or removal that is followed by an invalidation shows in every answer to a later request, as long as the file is
      not written again, whatever else happens meanwhile. */
  lemma WriteShows(st: State, file: string, content: Option<string>, steps: seq<Step>, a: Answer)
    requires Valid(st) && forall step | step in steps :: !(step.Write? && step.file == file)
    requires a in Perform(Do(Do(st, Write(file, content)), Invalidate), steps).answers && a.acquiredAt > |st.log|
    ensures file in a.snapshot.seen <==> content.Some?
    ensures file in a.snapshot.seen ==> a.snapshot.seen[file].content == content
  {
    hide Valid, AllRead;
    LogStarted(st);
    var st1 := Do(st, Write(file, content));
    var st2 := Do(st1, Invalidate);
    StepValid(st, Write(file, content));
    StepValid(st1, Invalidate);
    AnswersAreFresh(st2, steps);
    FileStays(st2, steps, file, content, |st.log|);
    AcknowledgedWriteIsSeen(Perform(st2, steps), a, file, |st.log|, |st.invalidations|);
  }

  lemma {:induction false} FileStays(st: State, steps: seq<Step>, file: string, content: Option<string>, from: nat)
    requires Valid(st) && from < |st.log| && forall t | from <= t < |st.log| :: Content(st.log[t], file) == content
    requires forall step | step in steps :: !(step.Write? && step.file == file)
    ensures var later := Perform(st, steps);
            && st.invalidations <= later.invalidations && |st.log| <= |later.log|
            && forall t | from <= t < |later.log| :: Content(later.log[t], file) == content
    decreases |steps|
  {
    hide Valid;
    if steps != [] {
      StepValid(st, steps[0]);
      StepKeepsFile(st, steps[0], file);
      FileStays(Do(st, steps[0]), steps[1..], file, content, from);
    }
  }

  lemma StepKeepsFile(st: State, step: Step, file: string)
    requires Valid(st) && !(step.Write? && step.file == file)
    ensures st.log != [] && st.invalidations <= Do(st, step).invalidations
    ensures var later := Do(st, step);
            && |later.log| == |st.log| + 1 && later.log[..|st.log|] == st.log
            && Content(later.log[|st.log|], file) == Content(st.log[|st.log| - 1], file)
  {
    hide MayList, AllRead;
  }
}
