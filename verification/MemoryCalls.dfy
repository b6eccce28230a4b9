/** What one call on stored Working Memory comes to when it is alone: every request, from the
    document found to the answer and the document left behind. */
module MemoryCalls {
  import opened Wrappers
  import opened WorkingMemoryDocument
  import opened MemorySession

  /** The steps of a call, taken one after the other with storage that works: load, and where needed
      write the migration and read it back, write the mutation and read it back. */
  function CallAlone(request: Request, raw: Document, loadedAt: Instant, readAt: Instant, bytes: Document -> nat)
    : (Answer, Document)
  {
    match AfterLoad(request, raw, true, loadedAt, bytes)
    case Migrating(_, at) =>
      var decoded := WithLifecycles(raw, at);
      var stored := Stored(decoded);
      Finishes(request, AfterMigrationReadback(request, decoded, stored, true, readAt, bytes), stored)
    case progress => Finishes(request, progress, raw)
  }

  function Finishes(request: Request, progress: Progress, stored: Document): (Answer, Document)
    requires progress.Done? || (progress.Writing? && request.Mutate?)
  {
    match progress
    case Done(answer) => (answer, stored)
    case Writing(before, after, _) =>
      (AfterReadback(before, request.mutation, Stored(after), true).answer, Stored(after))
  }

  /** The document a call works on: what is stored, or its migrated form. */
  function Current(raw: Document, at: Instant): Document {
    if Migrated(raw) then Stored(WithLifecycles(raw, at)) else raw
  }

  // Inspecting answers with the current document; validating and mutating are refused for another
  // revision or for what the mutation may not do; validating changes nothing; and a mutation is
  // stored, and reported as applied unless it made no difference to what read-back compares. A
  // document that needs migrating is left migrated, whatever the answer.
  lemma CallComesTo(request: Request, raw: Document, loadedAt: Instant, readAt: Instant, bytes: Document -> nat)
    requires ValidDocument(raw)
    ensures var document := Current(raw, loadedAt);
      var at := if Migrated(raw) then readAt else loadedAt;
      var (answer, left) := CallAlone(request, raw, loadedAt, readAt, bytes);
      match request
      case Inspect => answer == Inspected(document) && left == document
      case Validate(principal, basedOn, mutation) =>
        && left == document
        && answer == if RevisionOf(document) != basedOn then Failed(RevisionStale)
                     else (match Apply(document, mutation, principal, at, bytes)
                           case Failure(reason) => Failed(Refused(reason))
                           case Success(after) => Validated(after))
      case Mutate(principal, basedOn, mutation) =>
        if RevisionOf(document) != basedOn then answer == Failed(RevisionStale) && left == document
        else match Apply(document, mutation, principal, at, bytes)
             case Failure(reason) => answer == Failed(Refused(reason)) && left == document
             case Success(after) =>
               && left == Stored(after)
               && answer == if VerifyReadback(document, after, mutation) then Applied(Stored(after))
                            else Failed(ReadbackMismatch)
  {
    hide Apply, RevisionOf, VerifyReadback, ValidDocument, Migrated, WithLifecycles, Stored;
    if Migrated(raw) {
      MigrationIsReadBack(raw, loadedAt);
    }
    var document := Current(raw, loadedAt);
    var at := if Migrated(raw) then readAt else loadedAt;
    if request.Mutate? && Apply(document, request.mutation, request.principal, at, bytes).Success? {
      MutationIsReadBack(document, request.mutation, request.principal, at, bytes);
    }
  }

  lemma MigrationIsReadBack(raw: Document, at: Instant)
    requires ValidDocument(raw)
    ensures var decoded := WithLifecycles(raw, at);
      && RevisionOf(Stored(decoded)) == RevisionOf(decoded)
      && ValidDocument(Stored(decoded)) && !Migrated(Stored(decoded))
  {
    hide Apply;
    DecodedIsValid(raw, at);
    StoringKeepsTheRevision(WithLifecycles(raw, at));
    StoredIsValid(WithLifecycles(raw, at));
  }

  lemma MutationIsReadBack(document: Document, mutation: Mutation, principal: Principal, at: Instant,
                           bytes: Document -> nat)
    requires ValidDocument(document) && !Migrated(document)
    requires Apply(document, mutation, principal, at, bytes).Success?
    ensures var after := Apply(document, mutation, principal, at, bytes).value;
      && !Migrated(Stored(after))
      && (VerifyReadback(document, Stored(after), mutation) <==> VerifyReadback(document, after, mutation))
  {
    hide Apply, VerifyReadback;
    AppliedIsValid(document, mutation, principal, at, bytes);
    var after := Apply(document, mutation, principal, at, bytes).value;
    StoringKeepsTheRevision(after);
    ReadbackIgnoresForm(document, after, Stored(after), mutation);
  }

  // What a call answers when the storage fails it: the failed read, the write that is not reported,
  // and a read-back that fails, that still needs migrating, or that shows another document.
  lemma FaultsAreNamed(request: Request, decoded: Document, raw: Document, before: Document, mutation: Mutation,
                       works: bool, now: Instant, bytes: Document -> nat)
    ensures AfterLoad(request, raw, false, now, bytes) == Done(Failed(ReadFailed))
    ensures AfterMigrationReadback(request, decoded, raw, works, now, bytes) == Done(Failed(ReadbackMismatch))
      || (works && !Migrated(raw) && RevisionOf(raw) == RevisionOf(decoded))
    ensures (!works || Migrated(raw) || !VerifyReadback(before, raw, mutation)) ==>
      AfterReadback(before, mutation, raw, works) == Done(Failed(ReadbackMismatch))
  {
    hide Apply, RevisionOf, VerifyReadback;
  }
}
