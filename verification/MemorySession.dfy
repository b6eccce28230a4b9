/** The operations on stored Working Memory that run under the mutex
    (apps/engine/src/memory/orchestrator-session-memory.ts). Each method is the code between two
    awaits, so the methods of different calls may alternate in any way the mutex allows. */
module MemorySession {
  import opened Wrappers
  import opened ResourceMutex
  import opened WorkingMemoryDocument

  /** `Inspect` stands for every operation that only loads: inspection, prompt context, review. */
  datatype Request =
    | Inspect
    | Validate(principal: Principal, basedOn: Revision, mutation: Mutation)
    | Mutate(principal: Principal, basedOn: Revision, mutation: Mutation)

  datatype Fault =
    | ReadFailed
    | WriteFailed
    | RevisionStale
    | ReadbackMismatch
    | Refused(reason: MutationError)

  datatype Answer =
    | Failed(fault: Fault)
    | Inspected(document: Document)
    | Validated(document: Document)
    | Applied(document: Document)

  datatype Progress =
    | Entered
    | Migrating(raw: Document, at: Instant)
    | MigrationWritten(decoded: Document)
    | Writing(before: Document, after: Document, at: Instant)
    | Written(before: Document, after: Document, mutation: Mutation)
    | Done(answer: Answer)

  datatype Job = Job(request: Request, progress: Progress)

  /** A write that took effect: the document its writer had loaded, and the document now stored. */
  datatype Write = Write(ticket: Ticket, from: Document, to: Document, migration: bool, at: Instant)

  function StoredAt(stored: map<Resource, Document>, resource: Resource): Document {
    if resource in stored then stored[resource] else map[]
  }

  /** What a loaded, migrated document leads to without another await. */
  function Decide(request: Request, document: Document, now: Instant, bytes: Document -> nat): Progress {
    match request
    case Inspect => Done(Inspected(document))
    case Validate(principal, basedOn, mutation) =>
      if RevisionOf(document) != basedOn then Done(Failed(RevisionStale))
      else (match Apply(document, mutation, principal, now, bytes)
        case Failure(reason) => Done(Failed(Refused(reason)))
        case Success(after) => Done(Validated(after)))
    case Mutate(principal, basedOn, mutation) =>
      if RevisionOf(document) != basedOn then Done(Failed(RevisionStale))
      else (match Apply(document, mutation, principal, now, bytes)
        case Failure(reason) => Done(Failed(Refused(reason)))
        case Success(after) => Writing(document, after, now))
  }

  /** Everything the calls share: the mutex's calls, one job a call, what is stored, and the
      writes that took effect since `initial`. */
  datatype State = State(
    initial: map<Resource, Document>,
    stored: map<Resource, Document>,
    calls: seq<Call>,
    jobs: seq<Job>,
    writes: seq<Write>)
  {
    function Current(ticket: Ticket): Document
      requires ticket < |calls|
    {
      StoredAt(stored, calls[ticket].resource)
    }
  }

  // ---------------------------------------------------------------- the history of a resource

  /** The document stored after the given writes: the last one on the resource. */
  function StoredAfter(initial: map<Resource, Document>, calls: seq<Call>, writes: seq<Write>, resource: Resource)
    : Document
  {
    if writes == [] then StoredAt(initial, resource)
    else
      var last := writes[|writes| - 1];
      if last.ticket < |calls| && calls[last.ticket].resource == resource then last.to
      else StoredAfter(initial, calls, writes[..|writes| - 1], resource)
  }

  /** The chain: every write replaced exactly the document its writer had loaded. */
  ghost predicate Chained(initial: map<Resource, Document>, calls: seq<Call>, writes: seq<Write>) {
    forall k :: 0 <= k < |writes| ==>
      && writes[k].ticket < |calls|
      && writes[k].from == StoredAfter(initial, calls, writes[..k], calls[writes[k].ticket].resource)
  }

  /** A write was made for its own call, on what that call loaded, and stored what the call meant. */
  ghost predicate Justified(write: Write, request: Request, bytes: Document -> nat) {
    if write.migration then
      Migrated(write.from) && write.to == Stored(WithLifecycles(write.from, write.at))
    else
      && request.Mutate?
      && RevisionOf(write.from) == request.basedOn
      && var applied := Apply(write.from, request.mutation, request.principal, write.at, bytes);
         applied.Success? && write.to == Stored(applied.value)
  }

  ghost predicate IsMutationBy(writes: seq<Write>, k: int, ticket: int) {
    0 <= k < |writes| && writes[k].ticket == ticket && !writes[k].migration
  }

  /** Write number `k` stored this document, decoded from what was there. */
  ghost predicate IsMigrationTo(writes: seq<Write>, k: int, decoded: Document) {
    0 <= k < |writes| && writes[k].migration && decoded == WithLifecycles(writes[k].from, writes[k].at)
  }

  /** The write is the one the answer reports, and read-back saw its change. */
  ghost predicate Effect(write: Write, document: Document, mutation: Mutation) {
    write.to == document && VerifyReadback(write.from, document, mutation)
  }

  ghost predicate JobSound(job: Job, ticket: Ticket, phase: Phase, current: Document, writes: seq<Write>,
                           bytes: Document -> nat)
  {
    && (phase == Waiting <==> job.progress == Entered)
    && (phase.Settled? <==> job.progress.Done?)
    && match job.progress
       case Entered => true
       case Migrating(raw, at) => current == raw && Migrated(raw)
       case MigrationWritten(decoded) =>
         current == Stored(decoded) && exists k :: IsMigrationTo(writes, k, decoded)
       case Writing(before, after, at) =>
         && current == before && job.request.Mutate? && RevisionOf(before) == job.request.basedOn
         && Apply(before, job.request.mutation, job.request.principal, at, bytes) == Success(after)
         && !Migrated(before)
       case Written(before, after, mutation) =>
         && job.request.Mutate? && job.request.mutation == mutation && current == Stored(after)
         && !Migrated(before)
         && exists k ::
              && IsMutationBy(writes, k, ticket) && writes[k].from == before && writes[k].to == current
              && Apply(before, mutation, job.request.principal, writes[k].at, bytes) == Success(after)
       case Done(answer) =>
         answer.Applied? ==>
           && job.request.Mutate?
           && exists k :: IsMutationBy(writes, k, ticket) && Effect(writes[k], answer.document, job.request.mutation)
  }

  /** A call that has not written yet, or only migrated. */
  ghost predicate Unwritten(progress: Progress) {
    progress.Entered? || progress.Migrating? || progress.MigrationWritten? || progress.Writing?
  }

  ghost predicate HistorySound(s: State) {
    && Chained(s.initial, s.calls, s.writes)
    && forall r :: StoredAt(s.stored, r) == StoredAfter(s.initial, s.calls, s.writes, r)
  }

  ghost predicate JobsSound(s: State, bytes: Document -> nat)
    requires |s.jobs| == |s.calls|
  {
    forall t :: 0 <= t < |s.jobs| ==> JobSound(s.jobs[t], t, s.calls[t].phase, s.Current(t), s.writes, bytes)
  }

  ghost predicate WritesSound(jobs: seq<Job>, writes: seq<Write>, bytes: Document -> nat) {
    && (forall k :: 0 <= k < |writes| ==>
          writes[k].ticket < |jobs| && Justified(writes[k], jobs[writes[k].ticket].request, bytes))
    && (forall k, t :: IsMutationBy(writes, k, t) && 0 <= t < |jobs| ==> !Unwritten(jobs[t].progress))
    && (forall k, m, t :: IsMutationBy(writes, k, t) && IsMutationBy(writes, m, t) ==> k == m)
  }

  ghost predicate Sound(s: State, bytes: Document -> nat) {
    |s.jobs| == |s.calls| && HistorySound(s) && JobsSound(s, bytes) && WritesSound(s.jobs, s.writes, bytes)
  }

  // ---------------------------------------------------------------- what a sound history means

  lemma {:induction false} LastChange(initial: map<Resource, Document>, calls: seq<Call>, writes: seq<Write>, k: nat,
                                      resource: Resource)
    returns (j: nat)
    requires k < |writes| && (forall i :: 0 <= i < |writes| ==> writes[i].ticket < |calls|)
    requires calls[writes[k].ticket].resource == resource
    ensures k <= j < |writes| && calls[writes[j].ticket].resource == resource
    ensures writes[j].to == StoredAfter(initial, calls, writes, resource)
  {
    var last := |writes| - 1;
    if calls[writes[last].ticket].resource == resource {
      j := last;
    } else {
      j := LastChange(initial, calls, writes[..last], k, resource);
    }
  }

  /** Write number `j` brings the resource from another revision back to this one. */
  ghost predicate Restores(s: State, j: nat, resource: Resource, revision: Revision) {
    && j < |s.writes| && s.writes[j].ticket < |s.calls|
    && s.calls[s.writes[j].ticket].resource == resource
    && RevisionOf(s.writes[j].from) != revision
    && RevisionOf(s.writes[j].to) == revision
  }

  // A revision that was left and is there again has been restored in between.
  lemma {:induction false} RestoredInBetween(s: State, k: nat, m: nat, revision: Revision) returns (j: nat)
    requires HistorySound(s) && k < m <= |s.writes|
    requires RevisionOf(s.writes[k].to) != revision
    requires var resource := s.calls[s.writes[k].ticket].resource;
      RevisionOf(StoredAfter(s.initial, s.calls, s.writes[..m], resource)) == revision
    ensures k < j < m && Restores(s, j, s.calls[s.writes[k].ticket].resource, revision)
  {
    hide RevisionOf;
    j := LastChange(s.initial, s.calls, s.writes[..m], k, s.calls[s.writes[k].ticket].resource);
    if RevisionOf(s.writes[j].from) == revision {
      j := RestoredInBetween(s, k, j, revision);
    }
  }

  // No lost update: of two mutations of a resource that name the same revision both take effect
  // only if the first one changed nothing, or another write brought that revision back in between.
  lemma SameRevisionTwiceMeansRestored(s: State, bytes: Document -> nat, t: Ticket, k: nat, u: Ticket, m: nat)
    requires Sound(s, bytes)
    requires t < |s.jobs| && u < |s.jobs| && k < m && IsMutationBy(s.writes, k, t) && IsMutationBy(s.writes, m, u)
    requires s.calls[t].resource == s.calls[u].resource
    requires s.jobs[t].request.Mutate? && s.jobs[u].request.Mutate?
    requires s.jobs[t].request.basedOn == s.jobs[u].request.basedOn
    ensures var base := s.jobs[u].request.basedOn;
      || RevisionOf(s.writes[k].to) == RevisionOf(s.writes[k].from) == base
      || exists j: nat :: k < j < m && Restores(s, j, s.calls[u].resource, base)
  {
    hide JobsSound, Effect, RevisionOf, Apply;
    var base := s.jobs[u].request.basedOn;
    assert Justified(s.writes[k], s.jobs[t].request, bytes) && Justified(s.writes[m], s.jobs[u].request, bytes);
    if RevisionOf(s.writes[k].to) != base {
      var j := RestoredInBetween(s, k, m, base);
    }
  }

  lemma ReadbackMeansChanged(before: Document, after: Document, mutation: Mutation)
    requires VerifyReadback(before, after, mutation)
    ensures RevisionOf(before) != RevisionOf(after)
  {
    assert RevisionOf(before).content.Keys == before.Keys && RevisionOf(after).content.Keys == after.Keys;
    match mutation
    case Replace(id, entry) =>
      assert RevisionOf(before).content[id] == CanonicalEntry(before[id]);
      assert RevisionOf(after).content[id] == CanonicalEntry(after[id]);
    case Clear =>
      assert after == map[];
    case _ =>
  }

  // Two calls that are both told of success on the same revision of a resource: between their two
  // writes the revision was left and brought back.
  lemma TwoSuccessesMeanRestored(s: State, bytes: Document -> nat, t: Ticket, u: Ticket)
    returns (k: nat, m: nat, j: nat)
    requires Sound(s, bytes) && t < |s.jobs| && u < |s.jobs| && t != u
    requires s.calls[t].resource == s.calls[u].resource
    requires s.jobs[t].progress.Done? && s.jobs[t].progress.answer.Applied?
    requires s.jobs[u].progress.Done? && s.jobs[u].progress.answer.Applied?
    requires s.jobs[t].request.Mutate? && s.jobs[u].request.Mutate?
    requires s.jobs[t].request.basedOn == s.jobs[u].request.basedOn
    ensures IsMutationBy(s.writes, k, t) && IsMutationBy(s.writes, m, u)
    ensures k < j < m || m < j < k
    ensures Restores(s, j, s.calls[u].resource, s.jobs[u].request.basedOn)
  {
    hide Apply, RevisionOf, VerifyReadback, StoredAfter, StoredAt, Restores;
    var a, b := s.jobs[t], s.jobs[u];
    assert JobSound(a, t, s.calls[t].phase, s.Current(t), s.writes, bytes);
    assert JobSound(b, u, s.calls[u].phase, s.Current(u), s.writes, bytes);
    k :| IsMutationBy(s.writes, k, t) && Effect(s.writes[k], a.progress.answer.document, a.request.mutation);
    m :| IsMutationBy(s.writes, m, u) && Effect(s.writes[m], b.progress.answer.document, b.request.mutation);
    ReadbackMeansChanged(s.writes[k].from, s.writes[k].to, a.request.mutation);
    ReadbackMeansChanged(s.writes[m].from, s.writes[m].to, b.request.mutation);
    var base := s.jobs[u].request.basedOn;
    if k < m {
      SameRevisionTwiceMeansRestored(s, bytes, t, k, u, m);
      j :| k < j < m && Restores(s, j, s.calls[u].resource, base);
    } else {
      SameRevisionTwiceMeansRestored(s, bytes, u, m, t, k);
      j :| m < j < k && Restores(s, j, s.calls[t].resource, base);
    }
  }

  /** Write number `k` put the mutation into effect on the document whose revision it names. */
  ghost predicate TookEffect(s: State, k: nat, ticket: Ticket, document: Document)
    requires ticket < |s.calls| && ticket < |s.jobs| && s.jobs[ticket].request.Mutate?
  {
    && IsMutationBy(s.writes, k, ticket)
    && RevisionOf(StoredAfter(s.initial, s.calls, s.writes[..k], s.calls[ticket].resource))
      == s.jobs[ticket].request.basedOn
    && s.writes[k].to == document
    && EffectIsPresent(document, s.jobs[ticket].request.mutation)
  }

  // A reported success took effect, once, on the very document whose revision the caller named.
  lemma SuccessTookEffectOnItsBase(s: State, bytes: Document -> nat, ticket: Ticket)
    requires Sound(s, bytes)
    requires ticket < |s.jobs| && s.jobs[ticket].progress.Done? && s.jobs[ticket].progress.answer.Applied?
    ensures s.jobs[ticket].request.Mutate?
    ensures exists k: nat :: TookEffect(s, k, ticket, s.jobs[ticket].progress.answer.document)
              && forall m :: IsMutationBy(s.writes, m, ticket) ==> m == k
  {
    hide StoredAfter, Apply, Comparable;
    var job := s.jobs[ticket];
    assert JobSound(job, ticket, s.calls[ticket].phase, s.Current(ticket), s.writes, bytes);
    var k: nat :| IsMutationBy(s.writes, k, ticket)
      && Effect(s.writes[k], job.progress.answer.document, job.request.mutation);
    assert Justified(s.writes[k], job.request, bytes);
    assert TookEffect(s, k, ticket, job.progress.answer.document);
  }

  // ---------------------------------------------------------------- keeping it sound

  lemma {:induction false} MoreCallsSameHistory(initial: map<Resource, Document>, calls: seq<Call>, more: seq<Call>,
                                                writes: seq<Write>, resource: Resource)
    requires |calls| <= |more| && forall t :: 0 <= t < |calls| ==> more[t].resource == calls[t].resource
    requires forall k :: 0 <= k < |writes| ==> writes[k].ticket < |calls|
    ensures StoredAfter(initial, more, writes, resource) == StoredAfter(initial, calls, writes, resource)
  {
    if writes != [] {
      MoreCallsSameHistory(initial, calls, more, writes[..|writes| - 1], resource);
    }
  }

  lemma MoreCallsHistorySound(s: State, more: seq<Call>)
    requires HistorySound(s)
    requires |s.calls| <= |more| && forall t :: 0 <= t < |s.calls| ==> more[t].resource == s.calls[t].resource
    ensures HistorySound(s.(calls := more))
  {
    hide StoredAt;
    forall r ensures StoredAfter(s.initial, more, s.writes, r) == StoredAfter(s.initial, s.calls, s.writes, r) {
      MoreCallsSameHistory(s.initial, s.calls, more, s.writes, r);
    }
    forall k | 0 <= k < |s.writes|
      ensures s.writes[k].from == StoredAfter(s.initial, more, s.writes[..k], more[s.writes[k].ticket].resource)
    {
      MoreCallsSameHistory(s.initial, s.calls, more, s.writes[..k], s.calls[s.writes[k].ticket].resource);
    }
  }

  function Advance(s: State, ticket: Ticket, phase: Phase, progress: Progress): State
    requires ticket < |s.calls| && ticket < |s.jobs|
  {
    s.(calls := s.calls[ticket := s.calls[ticket].(phase := phase)],
       jobs := s.jobs[ticket := s.jobs[ticket].(progress := progress)])
  }

  // A call gets on without writing.
  lemma ProgressKeepsSound(s: State, bytes: Document -> nat, ticket: Ticket, phase: Phase, progress: Progress)
    requires Sound(s, bytes) && ticket < |s.calls|
    requires JobSound(s.jobs[ticket].(progress := progress), ticket, phase, s.Current(ticket), s.writes, bytes)
    requires Unwritten(progress) ==> Unwritten(s.jobs[ticket].progress)
    ensures Sound(Advance(s, ticket, phase, progress), bytes)
  {
    hide JobSound, Justified, StoredAfter, StoredAt;
    MoreCallsHistorySound(s, Advance(s, ticket, phase, progress).calls);
  }

  function AfterWrite(s: State, write: Write, progress: Progress): State
    requires write.ticket < |s.calls| && write.ticket < |s.jobs|
  {
    s.(stored := s.stored[s.calls[write.ticket].resource := write.to],
       jobs := s.jobs[write.ticket := s.jobs[write.ticket].(progress := progress)],
       writes := s.writes + [write])
  }

  // The call whose turn it is writes what it loaded before.
  lemma WriteKeepsSound(s: State, bytes: Document -> nat, tails: map<Resource, Ticket>, write: Write,
                        progress: Progress)
    requires Consistent(tails, s.calls) && Sound(s, bytes)
    requires write.ticket < |s.calls| && s.calls[write.ticket].phase == Running
    requires write.from == s.Current(write.ticket)
    requires Justified(write, s.jobs[write.ticket].request, bytes)
    requires JobSound(s.jobs[write.ticket].(progress := progress), write.ticket, Running, write.to,
                      s.writes + [write], bytes)
    requires Unwritten(s.jobs[write.ticket].progress) && (Unwritten(progress) ==> write.migration)
    ensures Sound(AfterWrite(s, write, progress), bytes)
  {
    hide HistorySound, JobsSound, WritesSound, JobSound, Justified, Consistent, Unwritten;
    WriteKeepsHistory(s, write, progress);
    WriteKeepsJobs(s, bytes, tails, write, progress);
    WriteKeepsWrites(s, bytes, write, progress);
  }

  lemma WriteKeepsHistory(s: State, write: Write, progress: Progress)
    requires HistorySound(s) && write.ticket < |s.calls| && write.ticket < |s.jobs|
    requires write.from == s.Current(write.ticket)
    ensures HistorySound(AfterWrite(s, write, progress))
  {
    var after := AfterWrite(s, write, progress);
    assert after.writes[..|s.writes|] == s.writes;
    forall k | 0 <= k < |after.writes|
      ensures after.writes[k].ticket < |s.calls|
      ensures after.writes[k].from
           == StoredAfter(s.initial, s.calls, after.writes[..k], s.calls[after.writes[k].ticket].resource)
    {
      if k < |s.writes| {
        assert after.writes[..k] == s.writes[..k];
      }
    }
  }

  lemma WriteKeepsJobs(s: State, bytes: Document -> nat, tails: map<Resource, Ticket>, write: Write, progress: Progress)
    requires |s.jobs| == |s.calls| && Consistent(tails, s.calls) && JobsSound(s, bytes)
    requires write.ticket < |s.calls| && s.calls[write.ticket].phase == Running
    requires JobSound(s.jobs[write.ticket].(progress := progress), write.ticket, Running, write.to,
                      s.writes + [write], bytes)
    ensures JobsSound(AfterWrite(s, write, progress), bytes)
  {
    hide JobSound, Consistent;
    var after := AfterWrite(s, write, progress);
    RunningIsTheHead(tails, s.calls, write.ticket);
    forall t | 0 <= t < |s.jobs| && t != write.ticket
      ensures JobSound(after.jobs[t], t, after.calls[t].phase, after.Current(t), after.writes, bytes)
    {
      OtherJobStaysSound(s.jobs[t], t, s.calls[t].phase, s.Current(t), after.Current(t), s.writes, write, bytes);
    }
  }

  lemma OtherJobStaysSound(job: Job, ticket: Ticket, phase: Phase, current: Document, after: Document,
                           writes: seq<Write>, write: Write, bytes: Document -> nat)
    requires JobSound(job, ticket, phase, current, writes, bytes)
    requires phase == Running ==> after == current
    ensures JobSound(job, ticket, phase, after, writes + [write], bytes)
  {
    hide Apply, RevisionOf, Effect;
    var more := writes + [write];
    assert forall k :: IsMutationBy(writes, k, ticket) ==> IsMutationBy(more, k, ticket) && more[k] == writes[k];
    assert forall k, decoded :: IsMigrationTo(writes, k, decoded) ==> IsMigrationTo(more, k, decoded);
  }

  lemma WriteKeepsWrites(s: State, bytes: Document -> nat, write: Write, progress: Progress)
    requires WritesSound(s.jobs, s.writes, bytes) && write.ticket < |s.calls| && write.ticket < |s.jobs|
    requires Justified(write, s.jobs[write.ticket].request, bytes)
    requires Unwritten(s.jobs[write.ticket].progress) && (Unwritten(progress) ==> write.migration)
    ensures WritesSound(AfterWrite(s, write, progress).jobs, s.writes + [write], bytes)
  {
    hide Justified, Unwritten;
    var more := s.writes + [write];
    assert forall k, t :: IsMutationBy(more, k, t) && k < |s.writes| ==> IsMutationBy(s.writes, k, t);
  }

  // ---------------------------------------------------------------- the session

  /** Where a job stands once the stored document has been read. */
  function AfterLoad(request: Request, raw: Document, works: bool, now: Instant, bytes: Document -> nat): Progress {
    if !works then Done(Failed(ReadFailed))
    else if Migrated(raw) then Migrating(raw, now)
    else Decide(request, raw, now, bytes)
  }

  function AfterMigrationReadback(request: Request, decoded: Document, raw: Document, works: bool, now: Instant,
                                  bytes: Document -> nat): Progress
  {
    if !works || Migrated(raw) || RevisionOf(raw) != RevisionOf(decoded)
    then Done(Failed(ReadbackMismatch))
    else Decide(request, raw, now, bytes)
  }

  function AfterReadback(before: Document, mutation: Mutation, raw: Document, works: bool): Progress {
    if !works || Migrated(raw) || !VerifyReadback(before, raw, mutation)
    then Done(Failed(ReadbackMismatch))
    else Done(Applied(raw))
  }

  function PhaseOf(progress: Progress): Phase {
    if progress.Done? then Settled(Returned) else Running
  }

  function MigrationWrite(job: Job, ticket: Ticket): Write
    requires job.progress.Migrating?
  {
    var raw, at := job.progress.raw, job.progress.at;
    Write(ticket, raw, Stored(WithLifecycles(raw, at)), true, at)
  }

  function MutationWrite(job: Job, ticket: Ticket): Write
    requires job.progress.Writing?
  {
    Write(ticket, job.progress.before, Stored(job.progress.after), false, job.progress.at)
  }

  function AfterMigrationWrite(s: State, ticket: Ticket, lands: bool, reports: bool): State
    requires ticket < |s.calls| == |s.jobs| && s.jobs[ticket].progress.Migrating?
  {
    var job := s.jobs[ticket];
    var progress := if reports then MigrationWritten(WithLifecycles(job.progress.raw, job.progress.at))
                    else Done(Failed(WriteFailed));
    Advance(if lands then AfterWrite(s, MigrationWrite(job, ticket), progress) else s,
            ticket, PhaseOf(progress), progress)
  }

  function AfterMutationWrite(s: State, ticket: Ticket, lands: bool, reports: bool): State
    requires ticket < |s.calls| == |s.jobs| && s.jobs[ticket].progress.Writing? && s.jobs[ticket].request.Mutate?
  {
    var job := s.jobs[ticket];
    var progress := if reports then Written(job.progress.before, job.progress.after, job.request.mutation)
                    else Done(Failed(WriteFailed));
    Advance(if lands then AfterWrite(s, MutationWrite(job, ticket), progress) else s,
            ticket, PhaseOf(progress), progress)
  }

  class Session {
    const mutex: Mutex
    const bytes: Document -> nat
    ghost const initial: map<Resource, Document>
    var stored: map<Resource, Document>
    var jobs: seq<Job>
    ghost var writes: seq<Write>

    ghost function Now(): State
      reads this, mutex
    {
      State(initial, stored, mutex.calls, jobs, writes)
    }

    ghost predicate Valid()
      reads this, mutex
    {
      mutex.Valid() && |jobs| == |mutex.calls| && Sound(Now(), bytes)
    }

    /** It is this call's turn, and it waits for the storage. */
    ghost predicate AtWork(ticket: Ticket)
      reads this, mutex
    {
      ticket < |mutex.calls| && ticket < |jobs| && mutex.calls[ticket].phase == Running
    }

    constructor (found: map<Resource, Document>, bytes: Document -> nat)
      ensures Valid() && fresh(mutex)
      ensures Now() == State(found, found, [], [], []) && this.bytes == bytes
    {
      mutex := new Mutex();
      this.bytes := bytes;
      initial, stored, jobs, writes := found, found, [], [];
    }

    method Call(resource: Resource, request: Request) returns (ticket: Ticket)
      requires Valid()
      modifies this, mutex
      ensures Valid() && stored == old(stored) && writes == old(writes)
      ensures ticket == |old(jobs)| && jobs == old(jobs) + [Job(request, Entered)]
      ensures Queue(mutex.calls, resource) == Queue(old(mutex.calls), resource) + [ticket]
    {
      ghost var before := Now();
      ticket := mutex.Enter(resource);
      jobs := jobs + [Job(request, Entered)];
      NewCallKeepsSound(before, bytes, mutex.calls, request);
    }

    /** The mutex lets the call in, and the stored document arrives, or the read fails. */
    method Load(ticket: Ticket, works: bool, now: Instant)
      requires Valid() && MayStart(mutex.calls, ticket)
      modifies this, mutex
      ensures Valid()
      ensures ticket < |old(jobs)|
      ensures var progress := AfterLoad(old(jobs[ticket].request), old(Now().Current(ticket)), works, now, bytes);
        Now() == Advance(old(Now()), ticket, PhaseOf(progress), progress)
    {
      hide Sound, AfterLoad, Queue, StoredAt;
      ghost var start := Now();
      LoadKeepsSound(mutex.tails, Now(), bytes, ticket, works, now);
      var progress := AfterLoad(jobs[ticket].request, StoredAt(stored, mutex.calls[ticket].resource), works, now,
                                bytes);
      mutex.Start(ticket);
      Settle(ticket, progress);
      assert Now() == Advance(start, ticket, PhaseOf(progress), progress);
    }

    /** The migrated document is written. The write may land without being reported as done. */
    method WriteMigration(ticket: Ticket, lands: bool, reports: bool)
      requires Valid() && AtWork(ticket) && jobs[ticket].progress.Migrating? && (reports ==> lands)
      modifies this, mutex
      ensures Valid()
      ensures Now() == AfterMigrationWrite(old(Now()), ticket, lands, reports)
    {
      hide Sound, Queue, StoredAt, Stored, WithLifecycles;
      MigrationWriteKeepsSound(mutex.tails, Now(), bytes, ticket, lands, reports);
      ghost var start := Now();
      var resource := mutex.calls[ticket].resource;
      var decoded := WithLifecycles(jobs[ticket].progress.raw, jobs[ticket].progress.at);
      var progress := if reports then MigrationWritten(decoded) else Done(Failed(WriteFailed));
      if lands {
        writes := writes + [MigrationWrite(jobs[ticket], ticket)];
        stored := stored[resource := Stored(decoded)];
      }
      Settle(ticket, progress);
      assert Now() == AfterMigrationWrite(start, ticket, lands, reports);
    }

    /** The migrated document is read back. */
    method ReadMigration(ticket: Ticket, works: bool, now: Instant)
      requires Valid() && AtWork(ticket) && jobs[ticket].progress.MigrationWritten?
      modifies this, mutex
      ensures Valid()
      ensures var job := old(jobs[ticket]);
        var progress := AfterMigrationReadback(job.request, job.progress.decoded, old(Now().Current(ticket)), works,
                                               now, bytes);
        Now() == Advance(old(Now()), ticket, PhaseOf(progress), progress)
    {
      hide Sound, AfterMigrationReadback, Queue, StoredAt;
      MigrationReadbackKeepsSound(Now(), bytes, ticket, works, now);
      var progress := AfterMigrationReadback(jobs[ticket].request, jobs[ticket].progress.decoded,
                                             StoredAt(stored, mutex.calls[ticket].resource), works, now, bytes);
      Settle(ticket, progress);
    }

    /** The mutated document is written. */
    method WriteMutation(ticket: Ticket, lands: bool, reports: bool)
      requires Valid() && AtWork(ticket) && jobs[ticket].progress.Writing? && jobs[ticket].request.Mutate?
      requires reports ==> lands
      modifies this, mutex
      ensures Valid()
      ensures Now() == AfterMutationWrite(old(Now()), ticket, lands, reports)
    {
      hide Sound, Queue, StoredAt, Stored;
      MutationWriteKeepsSound(mutex.tails, Now(), bytes, ticket, lands, reports);
      ghost var start := Now();
      var resource := mutex.calls[ticket].resource;
      var before, after := jobs[ticket].progress.before, jobs[ticket].progress.after;
      var progress := if reports then Written(before, after, jobs[ticket].request.mutation)
                      else Done(Failed(WriteFailed));
      if lands {
        writes := writes + [MutationWrite(jobs[ticket], ticket)];
        stored := stored[resource := Stored(after)];
      }
      Settle(ticket, progress);
      assert Now() == AfterMutationWrite(start, ticket, lands, reports);
    }

    /** The mutated document is read back. */
    method ReadMutation(ticket: Ticket, works: bool)
      requires Valid() && AtWork(ticket) && jobs[ticket].progress.Written?
      modifies this, mutex
      ensures Valid()
      ensures var job := old(jobs[ticket]);
        var progress := AfterReadback(job.progress.before, job.progress.mutation, old(Now().Current(ticket)), works);
        Now() == Advance(old(Now()), ticket, PhaseOf(progress), progress)
    {
      hide Sound, AfterReadback, Queue, StoredAt;
      ReadbackKeepsSound(Now(), bytes, ticket, works);
      var progress := AfterReadback(jobs[ticket].progress.before, jobs[ticket].progress.mutation,
                                    StoredAt(stored, mutex.calls[ticket].resource), works);
      Settle(ticket, progress);
    }

    /** Records the progress and leaves the mutex if the operation is over. */
    method Settle(ticket: Ticket, progress: Progress)
      requires mutex.Valid() && AtWork(ticket)
      modifies this`jobs, mutex
      ensures mutex.Valid()
      ensures Now() == Advance(old(Now()), ticket, PhaseOf(progress), progress)
    {
      jobs := jobs[ticket := jobs[ticket].(progress := progress)];
      if progress.Done? {
        mutex.Settle(ticket, Returned);
      } else {
        assert mutex.calls == mutex.calls[ticket := mutex.calls[ticket].(phase := Running)];
      }
    }
  }

  lemma NewCallKeepsSound(s: State, bytes: Document -> nat, more: seq<Call>, request: Request)
    requires Sound(s, bytes)
    requires |more| == |s.calls| + 1 && more[..|s.calls|] == s.calls && more[|s.calls|].phase == Waiting
    ensures Sound(s.(calls := more, jobs := s.jobs + [Job(request, Entered)]), bytes)
  {
    hide JobSound, Justified, StoredAfter, StoredAt;
    var after := s.(calls := more, jobs := s.jobs + [Job(request, Entered)]);
    assert forall t :: 0 <= t < |s.calls| ==> more[t] == more[..|s.calls|][t];
    MoreCallsHistorySound(s, more);
    OldJobsStaySound(s, bytes, more, request);
    NewJobIsSound(request, |s.calls|, after.Current(|s.calls|), s.writes, bytes);
  }

  lemma OldJobsStaySound(s: State, bytes: Document -> nat, more: seq<Call>, request: Request)
    requires |s.jobs| == |s.calls| && JobsSound(s, bytes)
    requires |more| == |s.calls| + 1 && more[..|s.calls|] == s.calls
    ensures var after := s.(calls := more, jobs := s.jobs + [Job(request, Entered)]);
      forall t :: 0 <= t < |s.jobs| ==>
        JobSound(after.jobs[t], t, after.calls[t].phase, after.Current(t), s.writes, bytes)
  {
    hide JobSound;
    forall t | 0 <= t < |s.jobs|
      ensures JobSound((s.jobs + [Job(request, Entered)])[t], t, more[t].phase, StoredAt(s.stored, more[t].resource),
                       s.writes, bytes)
    {
      assert more[t] == more[..|s.calls|][t];
      assert JobSound(s.jobs[t], t, s.calls[t].phase, s.Current(t), s.writes, bytes);
    }
  }

  lemma NewJobIsSound(request: Request, ticket: Ticket, current: Document, writes: seq<Write>, bytes: Document -> nat)
    ensures JobSound(Job(request, Entered), ticket, Waiting, current, writes, bytes)
  {
  }

  // ---------------------------------------------------------------- each step keeps it sound

  lemma LoadKeepsSound(tails: map<Resource, Ticket>, s: State, bytes: Document -> nat, ticket: Ticket, works: bool,
                       now: Instant)
    requires Sound(s, bytes) && ticket < |s.calls| && s.calls[ticket].phase == Waiting
    ensures var progress := AfterLoad(s.jobs[ticket].request, s.Current(ticket), works, now, bytes);
      Sound(Advance(s, ticket, PhaseOf(progress), progress), bytes)
  {
    hide StoredAfter, StoredAt, Justified, Apply, RevisionOf;
    var progress := AfterLoad(s.jobs[ticket].request, s.Current(ticket), works, now, bytes);
    assert JobSound(s.jobs[ticket], ticket, Waiting, s.Current(ticket), s.writes, bytes);
    ProgressKeepsSound(s, bytes, ticket, PhaseOf(progress), progress);
  }

  lemma MigrationReadbackKeepsSound(s: State, bytes: Document -> nat, ticket: Ticket, works: bool, now: Instant)
    requires Sound(s, bytes) && ticket < |s.calls| && s.calls[ticket].phase == Running
    requires s.jobs[ticket].progress.MigrationWritten?
    ensures var progress := AfterMigrationReadback(s.jobs[ticket].request, s.jobs[ticket].progress.decoded,
                                                   s.Current(ticket), works, now, bytes);
      Sound(Advance(s, ticket, PhaseOf(progress), progress), bytes)
  {
    hide StoredAfter, StoredAt, Justified, Apply, RevisionOf;
    var progress := AfterMigrationReadback(s.jobs[ticket].request, s.jobs[ticket].progress.decoded, s.Current(ticket),
                                           works, now, bytes);
    ProgressKeepsSound(s, bytes, ticket, PhaseOf(progress), progress);
  }

  lemma ReadbackKeepsSound(s: State, bytes: Document -> nat, ticket: Ticket, works: bool)
    requires Sound(s, bytes) && ticket < |s.calls| && s.calls[ticket].phase == Running
    requires s.jobs[ticket].progress.Written?
    ensures var progress := AfterReadback(s.jobs[ticket].progress.before, s.jobs[ticket].progress.mutation,
                                          s.Current(ticket), works);
      Sound(Advance(s, ticket, PhaseOf(progress), progress), bytes)
  {
    hide StoredAfter, StoredAt, Justified, Apply, RevisionOf, VerifyReadback;
    var job, current := s.jobs[ticket], s.Current(ticket);
    assert JobSound(job, ticket, Running, current, s.writes, bytes);
    var k :| IsMutationBy(s.writes, k, ticket) && s.writes[k].from == job.progress.before && s.writes[k].to == current;
    var progress := AfterReadback(job.progress.before, job.progress.mutation, current, works);
    assert progress.answer.Applied? ==> Effect(s.writes[k], current, job.request.mutation);
    ProgressKeepsSound(s, bytes, ticket, PhaseOf(progress), progress);
  }

  lemma MigrationWriteKeepsSound(tails: map<Resource, Ticket>, s: State, bytes: Document -> nat, ticket: Ticket,
                                 lands: bool, reports: bool)
    requires Consistent(tails, s.calls) && Sound(s, bytes)
    requires ticket < |s.calls| && s.calls[ticket].phase == Running && s.jobs[ticket].progress.Migrating?
    requires reports ==> lands
    ensures Sound(AfterMigrationWrite(s, ticket, lands, reports), bytes)
  {
    hide StoredAfter, StoredAt, Apply, RevisionOf, WithLifecycles, Consistent;
    var job, write := s.jobs[ticket], MigrationWrite(s.jobs[ticket], ticket);
    var decoded := WithLifecycles(job.progress.raw, job.progress.at);
    assert JobSound(job, ticket, Running, s.Current(ticket), s.writes, bytes);
    assert IsMigrationTo(s.writes + [write], |s.writes|, decoded);
    WriteFailedIsSound(s, bytes, tails, write, lands, MigrationWritten(decoded), reports);
  }

  lemma MutationWriteKeepsSound(tails: map<Resource, Ticket>, s: State, bytes: Document -> nat, ticket: Ticket,
                                lands: bool, reports: bool)
    requires Consistent(tails, s.calls) && Sound(s, bytes)
    requires ticket < |s.calls| && s.calls[ticket].phase == Running && s.jobs[ticket].progress.Writing?
    requires s.jobs[ticket].request.Mutate? && (reports ==> lands)
    ensures Sound(AfterMutationWrite(s, ticket, lands, reports), bytes)
  {
    hide StoredAfter, StoredAt, Apply, RevisionOf, Consistent;
    var job, write := s.jobs[ticket], MutationWrite(s.jobs[ticket], ticket);
    assert JobSound(job, ticket, Running, s.Current(ticket), s.writes, bytes);
    assert IsMutationBy(s.writes + [write], |s.writes|, ticket);
    WriteFailedIsSound(s, bytes, tails, write, lands,
                       Written(job.progress.before, job.progress.after, job.request.mutation), reports);
  }

  // Whether the write landed and whether it was reported are two matters.
  lemma WriteFailedIsSound(s: State, bytes: Document -> nat, tails: map<Resource, Ticket>, write: Write, lands: bool,
                           next: Progress, reports: bool)
    requires Consistent(tails, s.calls) && Sound(s, bytes)
    requires write.ticket < |s.calls| && s.calls[write.ticket].phase == Running
    requires write.from == s.Current(write.ticket)
    requires Justified(write, s.jobs[write.ticket].request, bytes)
    requires !next.Done? && (Unwritten(next) ==> write.migration)
    requires JobSound(s.jobs[write.ticket].(progress := next), write.ticket, Running, write.to,
                      s.writes + [write], bytes)
    requires Unwritten(s.jobs[write.ticket].progress) && (reports ==> lands)
    ensures var progress := if reports then next else Done(Failed(WriteFailed));
      Sound(Advance(if lands then AfterWrite(s, write, progress) else s,
                    write.ticket, PhaseOf(progress), progress), bytes)
  {
    hide HistorySound, JobsSound, WritesSound, Justified, Consistent, StoredAfter, Apply, RevisionOf;
    var progress := if reports then next else Done(Failed(WriteFailed));
    if lands {
      WriteKeepsSound(s, bytes, tails, write, next);
      var written := AfterWrite(s, write, next);
      assert Sound(Advance(written, write.ticket, PhaseOf(progress), progress), bytes) by {
        ProgressKeepsSound(written, bytes, write.ticket, PhaseOf(progress), progress);
      }
      assert Advance(written, write.ticket, PhaseOf(progress), progress)
          == Advance(AfterWrite(s, write, progress), write.ticket, PhaseOf(progress), progress);
    } else {
      ProgressKeepsSound(s, bytes, write.ticket, PhaseOf(progress), progress);
    }
  }

  // ---------------------------------------------------------------- read-back under the mutex

  // Storing the canonical form keeps the revision and what read-back compares.
  lemma StoringKeepsTheRevision(document: Document)
    requires ValidDocument(document)
    ensures RevisionOf(Stored(document)) == RevisionOf(document)
    ensures forall id :: id in document ==> Comparable(Stored(document)[id], document[id])
  {
    forall id | id in document
      ensures CanonicalEntry(CanonicalEntry(document[id])) == CanonicalEntry(document[id])
    {
      assert ValidEntry(document[id]);
      Json.CanonicalKeepsValue(document[id].value);
    }
  }

  // ---------------------------------------------------------------- only valid documents are stored

  lemma DecodedIsValid(document: Document, at: Instant)
    requires ValidDocument(document)
    ensures ValidDocument(WithLifecycles(document, at)) && !Migrated(WithLifecycles(document, at))
  {
    var decoded := WithLifecycles(document, at);
    forall id | id in decoded
      ensures ValidEntry(decoded[id]) && decoded[id].lifecycle.Some?
    {
      assert ValidEntry(document[id]);
    }
  }

  lemma AppliedIsValid(document: Document, mutation: Mutation, principal: Principal, at: Instant,
                       bytes: Document -> nat)
    requires ValidDocument(document) && Apply(document, mutation, principal, at, bytes).Success?
    ensures ValidDocument(Apply(document, mutation, principal, at, bytes).value)
    ensures !Migrated(document) ==> !Migrated(Apply(document, mutation, principal, at, bytes).value)
  {
    ApplyKeepsTheRest(document, mutation, principal, at, bytes);
    var after := Apply(document, mutation, principal, at, bytes).value;
    if !Migrated(document) {
      forall id | id in after
        ensures after[id].lifecycle.Some?
      {
        if id in document {
          assert document[id].lifecycle.Some?;
        }
      }
    }
  }

  lemma StoredIsValid(document: Document)
    requires ValidDocument(document)
    ensures ValidDocument(Stored(document))
  {
    forall id | id in document
      ensures ValidEntry(CanonicalEntry(document[id]))
    {
      assert ValidEntry(document[id]);
      Json.CanonicalKeepsValue(document[id].value);
    }
  }

  ghost predicate ValidInitially(s: State) {
    forall r :: r in s.initial ==> ValidDocument(s.initial[r])
  }

  lemma {:induction false} StoredAfterIsKnown(s: State, k: nat, resource: Resource)
    requires ValidInitially(s) && k <= |s.writes|
    requires forall i :: 0 <= i < k ==> ValidDocument(s.writes[i].to)
    ensures ValidDocument(StoredAfter(s.initial, s.calls, s.writes[..k], resource))
  {
    hide ValidDocument;
    if k == 0 {
      NothingStoredIsValid();
    } else {
      assert s.writes[..k][..k - 1] == s.writes[..k - 1];
      StoredAfterIsKnown(s, k - 1, resource);
    }
  }

  lemma NothingStoredIsValid()
    ensures ValidDocument(map[])
  {
  }

  // If what was found at first was valid, every call loads and stores valid documents.
  lemma {:induction false} WritesAreValid(s: State, bytes: Document -> nat, k: nat)
    requires Sound(s, bytes) && ValidInitially(s) && k < |s.writes|
    ensures ValidDocument(s.writes[k].from) && ValidDocument(s.writes[k].to)
  {
    hide JobsSound, ValidDocument, Apply, WithLifecycles, Stored;
    forall i | 0 <= i < k
      ensures ValidDocument(s.writes[i].to)
    {
      WritesAreValid(s, bytes, i);
    }
    var write := s.writes[k];
    StoredAfterIsKnown(s, k, s.calls[write.ticket].resource);
    assert Justified(write, s.jobs[write.ticket].request, bytes);
    if write.migration {
      DecodedIsValid(write.from, write.at);
      StoredIsValid(WithLifecycles(write.from, write.at));
    } else {
      var request := s.jobs[write.ticket].request;
      AppliedIsValid(write.from, request.mutation, request.principal, write.at, bytes);
      StoredIsValid(Apply(write.from, request.mutation, request.principal, write.at, bytes).value);
    }
  }

  // While one call works on a resource nothing else changes it: a migration that was written is
  // always accepted, and a mutation that was written is reported a success exactly when it
  // changed something, whenever the storage answers the read.
  lemma ReadbackSeesOnlyOwnWrite(s: State, bytes: Document -> nat, ticket: Ticket, now: Instant)
    requires Sound(s, bytes) && ticket < |s.jobs| && s.calls[ticket].phase == Running
    requires ValidInitially(s)
    ensures var job := s.jobs[ticket];
      job.progress.MigrationWritten? ==>
        AfterMigrationReadback(job.request, job.progress.decoded, s.Current(ticket), true, now, bytes)
          == Decide(job.request, s.Current(ticket), now, bytes)
    ensures var job := s.jobs[ticket];
      job.progress.Written? ==>
        (AfterReadback(job.progress.before, job.progress.mutation, s.Current(ticket), true).answer.Applied? <==>
          VerifyReadback(job.progress.before, job.progress.after, job.progress.mutation))
  {
    hide HistorySound, WritesSound, StoredAt, Apply, Decide;
    var job := s.jobs[ticket];
    assert JobSound(job, ticket, Running, s.Current(ticket), s.writes, bytes);
    match job.progress
    case MigrationWritten(decoded) =>
      var k: nat :| IsMigrationTo(s.writes, k, decoded);
      WritesAreValid(s, bytes, k);
      DecodedIsValid(s.writes[k].from, s.writes[k].at);
      StoringKeepsTheRevision(decoded);
    case Written(before, after, mutation) =>
      var k: nat :| IsMutationBy(s.writes, k, ticket) && s.writes[k].from == before
                    && Apply(before, mutation, job.request.principal, s.writes[k].at, bytes) == Success(after);
      WritesAreValid(s, bytes, k);
      AppliedIsValid(before, mutation, job.request.principal, s.writes[k].at, bytes);
      StoringKeepsTheRevision(after);
      ReadbackIgnoresForm(before, after, Stored(after), mutation);
    case _ =>
  }

  lemma ReadbackIgnoresForm(before: Document, after: Document, same: Document, mutation: Mutation)
    requires after.Keys == same.Keys && forall id :: id in after ==> Comparable(same[id], after[id])
    ensures VerifyReadback(before, after, mutation) <==> VerifyReadback(before, same, mutation)
  {
    assert |after| == |after.Keys| && |same| == |same.Keys|;
  }
}
