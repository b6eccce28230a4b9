/** SerializableMutationRunner.run (packages/mutations/src/serializable-runner.ts): the retried
    serializable transaction, against a database whose every reply is chosen by a script. */
module SerializableRunner {
  import opened Wrappers

  type Receipt = nat

  /** What an awaited call may throw: an error of the driver, with its SQLSTATE, or an error of
      the application. */
  datatype CallError =
    | Serialization                        // 40001
    | ConnectionLost                       // class 08
    | OtherDriverError
    | Application(receiptLookupRequired: bool)

  /** Where in the try block of an attempt a call is made. `RollbackCall` and `ExistingReceiptCall`
      belong to a command that turns out to be committed already; `ReceiptParse` is the schema check
      of the receipt after a successful COMMIT. */
  datatype CallSite =
    | BeginCall
    | TimeoutsCall
    | ClaimCall
    | RollbackCall
    | ExistingReceiptCall
    | HandlerCall
    | StageCall
    | CommitCall
    | ReceiptParse

  datatype RunError =
    | OverallTimeout
    | RetryExhausted
    | AmbiguousCommit
    | ReceiptMissing
    | Raised(error: CallError)

  /** One scripted reply. `landed` is a receipt that another executor, or a COMMIT in doubt, has
      made durable meanwhile; `applied` tells whether a COMMIT that reports an error took effect. */
  datatype Reply = Reply(error: Option<CallError>, landed: Option<Receipt>, applied: bool, elapsed: nat)

  const QUIET := Reply(None, None, false, 0)

  datatype Policy = Policy(maxAttempts: nat, overallTimeoutMs: nat, retryDelayMs: nat)

  /** normalizeDatabaseError: a driver error becomes an application error, which keeps its category
      but not its SQLSTATE. Errors that ask for a receipt lookup are scripted as such. */
  function Normalize(error: CallError): CallError {
    if error.Application? then error else Application(false)
  }

  /** Who rethrows driver errors normalized: the claim and the commit function of the bridge always,
      the handler if its domain service does so, as the journal posting service does. */
  predicate Normalizes(site: CallSite, handlerNormalizes: bool) {
    site == ClaimCall || site == StageCall || (site == HandlerCall && handlerNormalizes)
  }

  /** How one attempt left the try block: with a receipt, or by an error that a call raised.
      `raised` is what the call raised and `error` what reached the catch block. */
  datatype Tried =
    | Got(receipt: Receipt)
    | Caught(site: CallSite, raised: CallError, error: CallError)

  function Catch(site: CallSite, raised: CallError, handlerNormalizes: bool): Tried {
    Caught(site, raised, if Normalizes(site, handlerNormalizes) then Normalize(raised) else raised)
  }

  predicate CommitSent(tried: Tried) {
    tried.Caught? && tried.site in {CommitCall, ReceiptParse}
  }

  /** What the catch block throws when it neither retries nor finds a receipt. */
  function CaughtError(tried: Tried): RunError
    requires tried.Caught?
  {
    if CommitSent(tried) then AmbiguousCommit
    else if tried.error == Serialization then RetryExhausted
    else Raised(Normalize(tried.error))
  }

  /** Whether the executor leaves the command alone after this error, and does not mark it failed. */
  ghost predicate LookupRequired(error: RunError) {
    match error
    case Raised(e) => e.Application? && e.receiptLookupRequired
    case _ => true
  }

  /** A serialization failure that a retry may follow: of all calls of an attempt, one by BEGIN, the
      timeout settings, the ROLLBACK or the receipt lookup for a command already committed, or a
      handler that passes it on. Not one by the claim, by the bridge's commit, by COMMIT itself or
      by the lookup of the catch block. */
  ghost predicate Retriable(tried: Tried, handlerNormalizes: bool) {
    && tried.Caught? && tried.raised == Serialization
    && (tried.site in {BeginCall, TimeoutsCall, RollbackCall, ExistingReceiptCall}
        || (tried.site == HandlerCall && !handlerNormalizes))
  }

  /** How an attempt ended for good, or that another one follows. */
  datatype Ending = Returned(receipt: Receipt) | Threw(error: RunError) | Retried

  /** What one attempt did; `lookupRaised` is what the lookup of the catch block raised, if it was
      made and failed. */
  datatype Attempt = Attempt(tried: Tried, lookupRaised: Option<CallError>, ending: Ending)

  /** Attempt number n is followed by a backoff exactly if its failure is retriable and attempts are
      left; otherwise it ends the run as its error demands. */
  ghost predicate EndsRightly(attempt: Attempt, n: nat, policy: Policy, handlerNormalizes: bool) {
    && (attempt.ending == Retried <==> Retriable(attempt.tried, handlerNormalizes) && n < policy.maxAttempts)
    && (attempt.tried.Got? ==> attempt.ending == Returned(attempt.tried.receipt))
    && (attempt.lookupRaised.Some? ==>
          && attempt.tried.Caught? && (CommitSent(attempt.tried) || attempt.tried.error == ConnectionLost)
          && attempt.ending == Threw(Raised(attempt.lookupRaised.value)))
    && (attempt.ending.Threw? && attempt.lookupRaised.None? ==>
          attempt.tried.Caught? && attempt.ending.error == CaughtError(attempt.tried))
    && (attempt.ending.Returned? && attempt.tried.Caught? ==>
          CommitSent(attempt.tried) || attempt.tried.error == ConnectionLost)
  }

  function Delay(policy: Policy, n: nat): nat {
    policy.retryDelayMs * n
  }

  /** The waiting done before attempt n, one backoff after each earlier attempt. */
  function Backoff(policy: Policy, n: nat): nat {
    if n <= 1 then 0 else Backoff(policy, n - 1) + Delay(policy, n - 1)
  }

  lemma BackoffStep(policy: Policy, n: nat)
    requires n >= 1
    ensures Backoff(policy, n + 1) == Backoff(policy, n) + Delay(policy, n)
  {
  }

  lemma {:induction false} BackoffIsTriangular(policy: Policy, n: nat)
    requires n >= 1
    ensures 2 * Backoff(policy, n) == policy.retryDelayMs * (n * (n - 1))
  {
    if n > 1 {
      BackoffIsTriangular(policy, n - 1);
      assert n * (n - 1) == (n - 1) * (n - 2) + 2 * (n - 1);
    }
  }

  lemma {:induction false} BackoffGrows(policy: Policy, m: nat, n: nat)
    requires m <= n
    ensures Backoff(policy, m) <= Backoff(policy, n)
    decreases n
  {
    if m < n {
      BackoffGrows(policy, m, n - 1);
      assert Delay(policy, n - 1) >= 0;
    }
  }

  function ReplyAt(script: seq<Reply>, k: nat): Reply {
    if k < |script| then script[k] else QUIET
  }

  function After(script: seq<Reply>, k: nat): seq<Reply> {
    if k <= |script| then script[k..] else []
  }

  /** The claim of a fresh transaction is the third call that raises. */
  ghost predicate ClaimContended(script: seq<Reply>) {
    && ReplyAt(script, 0).error.None? && ReplyAt(script, 1).error.None?
    && ReplyAt(script, 2).error == Some(Serialization)
  }

  /** A connection is obtained and the first claim is contended. */
  ghost predicate ContendedAtOnce(script: seq<Reply>) {
    ReplyAt(script, 0).error.None? && ClaimContended(After(script, 1))
  }

  /** The calls of an attempt in their order; a command already committed takes another way from the
      fourth call on. */
  function Position(site: CallSite): nat {
    match site
    case BeginCall => 0
    case TimeoutsCall => 1
    case ClaimCall => 2
    case RollbackCall => 3
    case ExistingReceiptCall => 4
    case HandlerCall => 3
    case StageCall => 4
    case CommitCall => 5
    case ReceiptParse => 6
  }

  /** The first `n` calls go through. */
  ghost predicate Passes(script: seq<Reply>, n: nat) {
    forall i :: 0 <= i < n ==> ReplyAt(script, i).error.None?
  }

  /** The call of this site is the first one to raise, and it raised this. */
  ghost predicate RaisedFirst(script: seq<Reply>, before: nat, site: CallSite, raised: CallError) {
    && before <= Position(site)
    && var k := Position(site) - before;
       && Passes(script, k)
       && ReplyAt(script, k).error.Some?
       && (if site == ReceiptParse then raised == Application(false) else ReplyAt(script, k).error == Some(raised))
  }

  lemma RepliesShift(script: seq<Reply>, n: nat)
    ensures forall k: nat :: ReplyAt(After(script, n), k) == ReplyAt(script, n + k)
    ensures forall k: nat :: After(After(script, n), k) == After(script, n + k)
  {
  }

  lemma NextReplies(script: seq<Reply>)
    ensures ReplyAt(After(script, 1), 0) == ReplyAt(script, 1)
    ensures ReplyAt(After(After(script, 1), 1), 0) == ReplyAt(script, 2)
    ensures ReplyAt(After(After(After(script, 1), 1), 1), 0) == ReplyAt(script, 3)
    ensures After(After(script, 1), 1) == After(script, 2)
    ensures After(After(After(script, 1), 1), 1) == After(script, 3)
  {
  }

  lemma RaisedLater(script: seq<Reply>, n: nat, before: nat, site: CallSite, raised: CallError)
    requires Passes(script, n) && RaisedFirst(After(script, n), before + n, site, raised)
    ensures RaisedFirst(script, before, site, raised)
  {
    RepliesShift(script, n);
    forall i | 0 <= i < Position(site) - before
      ensures ReplyAt(script, i).error.None?
    {
      if i >= n {
        assert ReplyAt(After(script, n), i - n).error.None?;
      }
    }
  }

  lemma PassesLater(script: seq<Reply>, n: nat, m: nat)
    requires Passes(script, n) && Passes(After(script, n), m)
    ensures Passes(script, n + m)
  {
    RepliesShift(script, n);
    forall i | 0 <= i < n + m
      ensures ReplyAt(script, i).error.None?
    {
      if i >= n {
        assert ReplyAt(After(script, n), i - n).error.None?;
      }
    }
  }

  /** No call raises. */
  ghost predicate Smooth(script: seq<Reply>) {
    forall i :: 0 <= i < |script| ==> script[i].error.None?
  }

  /** Nobody else makes a receipt durable. */
  ghost predicate Undisturbed(script: seq<Reply>) {
    forall i :: 0 <= i < |script| ==> script[i].landed.None?
  }

  class Database {
    var receipt: Option<Receipt>
    var effects: nat       // how often a commit of the command took effect, whoever's it was
    var script: seq<Reply>
    var now: nat
    var locked: bool
    var obtained: nat
    var released: nat
    var begun: nat
    var closed: nat        // ROLLBACK or COMMIT sent for a begun transaction
    var commits: nat
    var commitOn: nat      // the connection on which the last COMMIT was sent
    var slept: nat

    constructor (script: seq<Reply>)
      ensures this.script == script && receipt.None? && !locked && now == 0
      ensures obtained == released == begun == closed == commits == slept == 0 && OneEffect()
    {
      this.script, effects := script, 0;
      receipt, now, locked := None, 0, false;
      obtained, released, begun, closed, commits, commitOn, slept := 0, 0, 0, 0, 0, 0, 0;
    }

    /** The receipt stands for the one effect there is. */
    ghost predicate OneEffect()
      reads this
    {
      effects == if receipt.Some? then 1 else 0
    }

    /** The next scripted reply, while others may make a receipt durable. */
    method Await() returns (reply: Reply)
      requires !locked
      modifies `script, `now, `receipt, `effects
      ensures old(OneEffect()) ==> OneEffect()
      ensures old(receipt).None? ==> receipt == reply.landed
      ensures reply == ReplyAt(old(script), 0) && script == After(old(script), 1)
      ensures now == old(now) + reply.elapsed
      ensures old(receipt).Some? ==> receipt == old(receipt)
      ensures Smooth(old(script)) ==> reply.error.None? && Smooth(script)
      ensures Undisturbed(old(script)) ==> receipt == old(receipt) && Undisturbed(script)
    {
      if script == [] {
        reply := QUIET;
      } else {
        reply, script := script[0], script[1..];
      }
      now := now + reply.elapsed;
      if receipt.None? {
        receipt := reply.landed;
        effects := effects + if reply.landed.Some? then 1 else 0;
      }
    }

    /** The same while this runner holds the row lock, so that nobody else's commit lands. */
    method AwaitLocked() returns (reply: Reply)
      requires locked
      modifies `script, `now
      ensures reply == ReplyAt(old(script), 0) && script == After(old(script), 1)
      ensures now == old(now) + reply.elapsed
      ensures Smooth(old(script)) ==> reply.error.None? && Smooth(script)
    {
      if script == [] {
        reply := QUIET;
      } else {
        reply, script := script[0], script[1..];
      }
      now := now + reply.elapsed;
    }

    method FindReceipt() returns (found: Result<Option<Receipt>, CallError>)
      requires !locked
      modifies `script, `now, `receipt, `effects
      ensures old(OneEffect()) ==> OneEffect()
      ensures now >= old(now)
      ensures old(receipt).Some? ==> receipt == old(receipt)
      ensures found.Success? ==> found.value == receipt
      ensures Smooth(old(script)) ==> found.Success?
      ensures found.Failure? ==> ReplyAt(old(script), 0).error == Some(found.error)
    {
      var reply := Await();
      found := if reply.error.Some? then Failure(reply.error.value) else Success(receipt);
    }
  }

  // The command is no longer pending: roll back and return what was committed for it.
  method ReturnExisting(db: Database, handlerNormalizes: bool) returns (tried: Tried, began: bool)
    requires !db.locked
    modifies db`script, db`now, db`receipt, db`effects, db`closed
    ensures old(db.OneEffect()) ==> db.OneEffect()
    ensures old(db.receipt).Some? ==> db.receipt == old(db.receipt)
    ensures tried.Got? ==> db.receipt == Some(tried.receipt) && !began
    ensures Smooth(old(db.script)) && old(db.receipt).Some? ==> tried == Got(old(db.receipt).value)
    ensures tried.Caught? && old(db.receipt).Some? ==> RaisedFirst(old(db.script), 3, tried.site, tried.raised)
    ensures tried.Caught? ==> (began <==> tried.site == RollbackCall)
    ensures Passes(old(db.script), 2) ==>
      tried == if db.receipt.Some? then Got(db.receipt.value)
               else Catch(ExistingReceiptCall, Application(true), handlerNormalizes)
    ensures tried.Caught? ==>
      && tried.site in {RollbackCall, ExistingReceiptCall}
      && tried == Catch(tried.site, tried.raised, handlerNormalizes)
    ensures db.closed == old(db.closed) + 1 && db.now >= old(db.now)
  {
    hide ReplyAt, After, Normalizes;
    NextReplies(db.script);
    began := true;
    var reply := db.Await();
    db.closed := db.closed + 1;
    if reply.error.Some? {
      return Catch(RollbackCall, reply.error.value, handlerNormalizes), began;
    }
    began := false;
    var found := db.FindReceipt();
    if found.Failure? {
      return Catch(ExistingReceiptCall, found.error, handlerNormalizes), began;
    }
    if found.value.None? {
      return Catch(ExistingReceiptCall, Application(true), handlerNormalizes), began;
    }
    return Got(found.value.value), began;
  }

  // BEGIN, the timeouts and the claim; None when all three went through.
  method OpenAndClaim(db: Database, handlerNormalizes: bool) returns (tried: Option<Tried>, began: bool)
    requires !db.locked
    modifies db`script, db`now, db`receipt, db`effects, db`begun
    ensures old(db.OneEffect()) ==> db.OneEffect()
    ensures old(db.receipt).Some? ==> db.receipt == old(db.receipt)
    ensures tried.Some? ==>
      && tried.value.Caught? && (began <==> tried.value.site != BeginCall)
      && tried.value.site in {BeginCall, TimeoutsCall, ClaimCall}
      && tried.value == Catch(tried.value.site, tried.value.raised, handlerNormalizes)
    ensures ClaimContended(old(db.script)) ==> tried == Some(Catch(ClaimCall, Serialization, handlerNormalizes))
    ensures tried.None? ==> began && Passes(old(db.script), 3) && db.script == After(old(db.script), 3)
    ensures tried.Some? ==> RaisedFirst(old(db.script), 0, tried.value.site, tried.value.raised)
    ensures Smooth(old(db.script)) ==> tried.None? && Smooth(db.script)
    ensures Undisturbed(old(db.script)) ==> db.receipt == old(db.receipt)
    ensures db.begun == old(db.begun) + (if began then 1 else 0) && db.now >= old(db.now)
  {
    hide ReplyAt, After, Normalizes;
    NextReplies(db.script);
    began := false;
    var reply := db.Await();
    if reply.error.Some? {
      return Some(Catch(BeginCall, reply.error.value, handlerNormalizes)), began;
    }
    began := true;
    db.begun := db.begun + 1;
    reply := db.Await();
    if reply.error.Some? {
      return Some(Catch(TimeoutsCall, reply.error.value, handlerNormalizes)), began;
    }
    reply := db.Await();
    if reply.error.Some? {
      return Some(Catch(ClaimCall, reply.error.value, handlerNormalizes)), began;
    }
    return None, began;
  }

  // The handler and the bridge's commit; None when both went through.
  method Execute(db: Database, handlerNormalizes: bool) returns (tried: Option<Tried>)
    requires db.locked
    modifies db`script, db`now
    ensures Smooth(old(db.script)) ==> tried.None? && Smooth(db.script)
    ensures tried.None? ==> Passes(old(db.script), 2) && db.script == After(old(db.script), 2)
    ensures tried.Some? ==>
      && tried.value.Caught? && tried.value.site in {HandlerCall, StageCall}
      && tried.value == Catch(tried.value.site, tried.value.raised, handlerNormalizes)
      && RaisedFirst(old(db.script), 3, tried.value.site, tried.value.raised)
    ensures db.now >= old(db.now)
  {
    hide ReplyAt, After, Smooth, Normalizes;
    NextReplies(db.script);
    var reply := db.AwaitLocked();
    if reply.error.Some? {
      return Some(Catch(HandlerCall, reply.error.value, handlerNormalizes));
    }
    reply := db.AwaitLocked();
    if reply.error.Some? {
      return Some(Catch(StageCall, reply.error.value, handlerNormalizes));
    }
    return None;
  }

  // COMMIT and the check of the receipt. A receipt that does not pass it is durable all the same.
  method Commit(db: Database, output: Receipt, handlerNormalizes: bool) returns (tried: Tried)
    requires db.locked && db.receipt.None?
    modifies db`script, db`now, db`receipt, db`effects, db`locked, db`closed, db`commits, db`commitOn
    ensures old(db.OneEffect()) ==> db.OneEffect()
    ensures !db.locked
    ensures tried.Got? ==> tried.receipt == output && db.receipt == Some(output) && Passes(old(db.script), 2)
    ensures Smooth(old(db.script)) ==> tried == Got(output)
    ensures tried.Caught? ==>
      && tried.site in {CommitCall, ReceiptParse}
      && tried == Catch(tried.site, tried.raised, handlerNormalizes)
      && RaisedFirst(old(db.script), 5, tried.site, tried.raised)
      && (tried.site == ReceiptParse ==> db.receipt == Some(output))
    ensures db.commits == old(db.commits) + 1 && db.closed == old(db.closed) + 1 && db.commitOn == db.obtained
    ensures db.now >= old(db.now)
  {
    hide ReplyAt, After, Smooth, Normalizes;
    NextReplies(db.script);
    var reply := db.AwaitLocked();
    db.commits, db.commitOn, db.closed := db.commits + 1, db.obtained, db.closed + 1;
    db.locked := false;
    if reply.error.None? || reply.applied {
      db.receipt, db.effects := Some(output), db.effects + 1;
    }
    if reply.error.Some? {
      return Catch(CommitCall, reply.error.value, handlerNormalizes);
    }
    reply := db.Await();
    if reply.error.Some? {
      return Catch(ReceiptParse, Application(false), handlerNormalizes);
    }
    return Got(output);
  }

  // All of this under the lock that the claim took.
  method ExecuteAndCommit(db: Database, output: Receipt, handlerNormalizes: bool) returns (tried: Tried)
    requires !db.locked && db.receipt.None?
    modifies db`script, db`now, db`receipt, db`effects, db`locked, db`closed, db`commits, db`commitOn
    ensures old(db.OneEffect()) ==> db.OneEffect()
    ensures !db.locked
    ensures tried.Got? ==> tried.receipt == output && db.receipt == Some(output)
    ensures Smooth(old(db.script)) ==> tried == Got(output)
    ensures tried.Got? ==> Passes(old(db.script), 4)
    ensures tried.Caught? ==> RaisedFirst(old(db.script), 3, tried.site, tried.raised)
    ensures tried.Caught? ==>
      && tried.site in {HandlerCall, StageCall, CommitCall, ReceiptParse}
      && tried == Catch(tried.site, tried.raised, handlerNormalizes)
    ensures tried.Caught? && tried.site == ReceiptParse ==> db.receipt == Some(output)
    ensures var sent := tried.Got? || CommitSent(tried);
      && db.commits == old(db.commits) + (if sent then 1 else 0)
      && db.closed == old(db.closed) + (if sent then 1 else 0)
      && (sent ==> db.commitOn == db.obtained)
    ensures db.now >= old(db.now)
  {
    hide ReplyAt, After, Smooth, Normalizes, Catch, RaisedFirst, Passes;
    db.locked := true;
    ghost var script := db.script;
    var early := Execute(db, handlerNormalizes);
    if early.Some? {
      db.locked := false;
      return early.value;
    }
    tried := Commit(db, output, handlerNormalizes);
    if tried.Caught? {
      RaisedLater(script, 2, 3, tried.site, tried.raised);
    } else {
      PassesLater(script, 2, 2);
    }
  }

  // The body of the try block, on the connection just obtained. Unless it returns a receipt that
  // is durable, it reports which call raised what.
  method TryOnce(db: Database, output: Receipt, handlerNormalizes: bool) returns (tried: Tried, began: bool)
    requires !db.locked
    modifies db
    ensures old(db.OneEffect()) ==> db.OneEffect()
    ensures !db.locked
    ensures old(db.receipt).Some? ==> db.receipt == old(db.receipt)
    ensures tried.Got? ==> db.receipt == Some(tried.receipt)
    ensures Smooth(old(db.script)) ==> tried.Got?
    ensures Smooth(old(db.script)) && Undisturbed(old(db.script)) && old(db.receipt).None? ==>
      tried == Got(output) && db.commits == old(db.commits) + 1
    ensures old(db.receipt).Some? ==> db.commits == old(db.commits)
    ensures tried.Caught? ==> RaisedFirst(old(db.script), 0, tried.site, tried.raised)
    ensures tried.Caught? && tried.site in {RollbackCall, ExistingReceiptCall} ==> db.receipt.Some?
    ensures tried.Caught? && !CommitSent(tried) ==> (began <==> tried.site !in {BeginCall, ExistingReceiptCall})
    ensures tried.Caught? && tried.site in {HandlerCall, StageCall, CommitCall, ReceiptParse} ==> old(db.receipt).None?
    ensures db.commits <= old(db.commits) + 1
    ensures tried.Caught? ==> db.commits == old(db.commits) + (if CommitSent(tried) then 1 else 0)
    ensures tried.Caught? && tried.site == ReceiptParse ==> db.receipt == Some(output)
    ensures tried.Caught? ==> tried == Catch(tried.site, tried.raised, handlerNormalizes)
    ensures ClaimContended(old(db.script)) ==> tried == Catch(ClaimCall, Serialization, handlerNormalizes)
    ensures db.commits > old(db.commits) ==> db.commitOn == db.obtained
    ensures db.obtained == old(db.obtained) && db.released == old(db.released) && db.slept == old(db.slept)
    ensures db.begun - old(db.begun)
      <= db.closed - old(db.closed) + (if began && tried.Caught? && !CommitSent(tried) then 1 else 0)
    ensures db.now >= old(db.now)
  {
    hide Catch, ClaimContended, RaisedFirst, Passes, ReplyAt, After;
    var early;
    early, began := OpenAndClaim(db, handlerNormalizes);
    if early.Some? {
      return early.value, began;
    }
    ghost var script := old(db.script);
    if db.receipt.Some? {
      tried, began := ReturnExisting(db, handlerNormalizes);
    } else {
      tried := ExecuteAndCommit(db, output, handlerNormalizes);
    }
    if tried.Caught? {
      RaisedLater(script, 3, 0, tried.site, tried.raised);
    }
  }

  // The catch block, after an attempt that raised.
  method HandleCaught(db: Database, tried: Tried, began: bool, n: nat, policy: Policy, handlerNormalizes: bool)
    returns (attempt: Attempt)
    requires !db.locked
    requires tried.Caught? && tried == Catch(tried.site, tried.raised, handlerNormalizes)
    modifies db`script, db`now, db`receipt, db`effects, db`closed, db`slept
    ensures old(db.OneEffect()) ==> db.OneEffect()
    ensures attempt.tried == tried && EndsRightly(attempt, n, policy, handlerNormalizes)
    ensures old(db.receipt).Some? ==> db.receipt == old(db.receipt)
    ensures attempt.ending.Returned? ==> db.receipt == Some(attempt.ending.receipt)
    ensures (CommitSent(tried) || tried.error == ConnectionLost) && old(db.receipt).Some?
            && attempt.lookupRaised.None? ==>
      attempt.ending == Returned(old(db.receipt).value)
    ensures Smooth(old(db.script)) ==> attempt.lookupRaised.None?
    ensures db.slept == old(db.slept) + (if attempt.ending == Retried then Delay(policy, n) else 0)
    ensures db.now - old(db.now) >= db.slept - old(db.slept)
    ensures db.closed == old(db.closed) + (if began && !CommitSent(tried) then 1 else 0)
    ensures db.now >= old(db.now)
  {
    if began && !CommitSent(tried) {
      var rollback := db.Await();
      db.closed := db.closed + 1;
    }
    if CommitSent(tried) || tried.error == ConnectionLost {
      var lookup := db.FindReceipt();
      if lookup.Failure? {
        return Attempt(tried, Some(lookup.error), Threw(Raised(lookup.error)));
      }
      if lookup.value.Some? {
        return Attempt(tried, None, Returned(lookup.value.value));
      }
      if CommitSent(tried) {
        return Attempt(tried, None, Threw(AmbiguousCommit));
      }
    }
    if tried.error == Serialization && n < policy.maxAttempts {
      db.slept, db.now := db.slept + Delay(policy, n), db.now + Delay(policy, n);
      return Attempt(tried, None, Retried);
    }
    return Attempt(tried, None, Threw(CaughtError(tried)));
  }

  // One attempt: try, catch and finally, on the connection just obtained.
  method Attempted(db: Database, output: Receipt, n: nat, policy: Policy, handlerNormalizes: bool)
    returns (attempt: Attempt)
    requires !db.locked
    modifies db
    ensures old(db.OneEffect()) ==> db.OneEffect()
    ensures !db.locked && EndsRightly(attempt, n, policy, handlerNormalizes)
    ensures attempt.tried.Caught? ==> RaisedFirst(old(db.script), 0, attempt.tried.site, attempt.tried.raised)
    ensures attempt.tried.Caught? ==>
      attempt.tried == Catch(attempt.tried.site, attempt.tried.raised, handlerNormalizes)
    ensures ClaimContended(old(db.script)) ==> attempt.tried == Catch(ClaimCall, Serialization, handlerNormalizes)
    ensures old(db.receipt).Some? ==> db.receipt == old(db.receipt)
    ensures attempt.ending.Returned? ==> db.receipt == Some(attempt.ending.receipt)
    ensures Smooth(old(db.script)) ==> attempt.ending.Returned?
    ensures Smooth(old(db.script)) && Undisturbed(old(db.script)) && old(db.receipt).None? ==>
      attempt.ending == Returned(output) && db.commits == old(db.commits) + 1
    ensures old(db.receipt).Some? ==> db.commits == old(db.commits)
    ensures db.commits <= old(db.commits) + 1
    ensures attempt.tried.Caught? ==> db.commits == old(db.commits) + (if CommitSent(attempt.tried) then 1 else 0)
    ensures db.commits > old(db.commits) ==> db.commitOn == db.obtained
    ensures db.obtained == old(db.obtained) && db.released == old(db.released) + 1
    ensures attempt.tried.Caught? && attempt.tried.site == ReceiptParse && attempt.lookupRaised.None? ==>
      attempt.ending == Returned(output)
    ensures db.begun - old(db.begun) <= db.closed - old(db.closed)
    ensures db.slept == old(db.slept) + (if attempt.ending == Retried then Delay(policy, n) else 0)
    ensures db.now - old(db.now) >= db.slept - old(db.slept)
    ensures db.now >= old(db.now)
  {
    hide Catch, ClaimContended, EndsRightly;
    var tried, began := TryOnce(db, output, handlerNormalizes);
    if tried.Got? {
      GotEndsRightly(tried, n, policy, handlerNormalizes);
      attempt := Attempt(tried, None, Returned(tried.receipt));
    } else {
      attempt := HandleCaught(db, tried, began, n, policy, handlerNormalizes);
    }
    db.released := db.released + 1;
  }

  /** What the attempts of a run say about its outcome: all but the last were retried, each for a
      reason that allows it, and the last decides unless time or connections ran out after it. */
  ghost predicate Explains(log: seq<Attempt>, outcome: Result<Receipt, RunError>, policy: Policy,
                           handlerNormalizes: bool)
  {
    && (forall i :: 0 <= i < |log| ==> EndsRightly(log[i], i + 1, policy, handlerNormalizes))
    && (forall i :: 0 <= i < |log| - 1 ==> log[i].ending == Retried)
    && (|log| > 0 ==>
          match log[|log| - 1].ending
          case Returned(receipt) => outcome == Success(receipt)
          case Threw(error) => outcome == Failure(error)
          case Retried => outcome.Failure? && (outcome.error == OverallTimeout || outcome.error.Raised?))
  }

  // The attempt loop. One run sends at most one COMMIT, on the last connection it obtained;
  // makes at most `maxAttempts` attempts; gives back every connection; ends every transaction it
  // began; waits no longer than the policy allows in total; and returns only a durable receipt.
  // `log` holds its attempts. A claim contended on the first attempt ends the run there.
  method Run(db: Database, policy: Policy, outputs: seq<Receipt>, handlerNormalizes: bool)
    returns (outcome: Result<Receipt, RunError>, log: seq<Attempt>)
    requires 1 <= policy.maxAttempts <= 5 && |outputs| >= policy.maxAttempts
    requires !db.locked
    modifies db
    ensures old(db.OneEffect()) ==> db.OneEffect()
    ensures Explains(log, outcome, policy, handlerNormalizes)
    ensures |log| == db.obtained - old(db.obtained)
    ensures policy.overallTimeoutMs > 0 && ContendedAtOnce(old(db.script)) ==>
      |log| == 1 && outcome == Failure(Raised(Application(false)))
    ensures policy.overallTimeoutMs > 0 && Smooth(old(db.script)) ==> |log| == 1 && outcome.Success?
    ensures policy.overallTimeoutMs > 0 && Smooth(old(db.script)) && Undisturbed(old(db.script))
            && old(db.receipt).None? ==>
      outcome == Success(outputs[0]) && db.commits == old(db.commits) + 1
    ensures old(db.receipt).Some? ==> db.commits == old(db.commits)
    ensures outcome.Success? ==> db.receipt == Some(outcome.value)
    ensures old(db.receipt).Some? ==> db.receipt == old(db.receipt)
    ensures db.commits <= old(db.commits) + 1
    ensures db.commits > old(db.commits) ==> db.commitOn == db.obtained
    ensures db.obtained - old(db.obtained) == db.released - old(db.released) <= policy.maxAttempts
    ensures db.begun - old(db.begun) <= db.closed - old(db.closed)
    ensures db.slept - old(db.slept) <= Backoff(policy, policy.maxAttempts)
    ensures outcome == Failure(AmbiguousCommit) ==> db.commits == old(db.commits) + 1
    ensures outcome == Failure(OverallTimeout) ==> db.now - old(db.now) >= policy.overallTimeoutMs
    ensures policy.overallTimeoutMs == 0 ==> outcome == Failure(OverallTimeout) && log == []
    ensures db.now - old(db.now) >= db.slept - old(db.slept)
  {
    hide Smooth, Undisturbed, ContendedAtOnce, Catch, Backoff, Delay;
    hide EndsRightly, AllRetried, Explains, LookupRequired, CaughtError;
    log := [];
    NoneYet(policy, handlerNormalizes);
    var startedAt := db.now;
    var n := 1;
    while n <= policy.maxAttempts
      invariant 1 <= n <= policy.maxAttempts
      invariant !db.locked
      invariant old(db.OneEffect()) ==> db.OneEffect()
      invariant old(db.receipt).Some? ==> db.receipt == old(db.receipt)
      invariant db.commits == old(db.commits)
      invariant db.obtained - old(db.obtained) == db.released - old(db.released) == |log| == n - 1
      invariant db.begun - old(db.begun) <= db.closed - old(db.closed)
      invariant db.slept - old(db.slept) == Backoff(policy, n) <= db.now - startedAt
      invariant AllRetried(log, policy, handlerNormalizes)
      invariant n == 1 ==> db.script == old(db.script) && db.now == startedAt && log == []
      invariant n == 1 ==> db.receipt == old(db.receipt)
      invariant n > 1 ==> !ContendedAtOnce(old(db.script)) && !Smooth(old(db.script)) && policy.overallTimeoutMs > 0
    {
      BackoffGrows(policy, n, policy.maxAttempts);
      BackoffStep(policy, n);
      StopsBetween(log, policy, handlerNormalizes);
      if db.now - startedAt >= policy.overallTimeoutMs {
        return Failure(OverallTimeout), log;
      }
      ConnectedThenClaimed(db.script);
      var connected := db.Await();
      if connected.error.Some? {
        return Failure(Raised(connected.error.value)), log;
      }
      db.obtained := db.obtained + 1;
      var attempt := Attempted(db, outputs[n - 1], n, policy, handlerNormalizes);
      EndingOf(attempt, n, policy, handlerNormalizes);
      StopsAfter(log, attempt, policy, handlerNormalizes);
      log := log + [attempt];
      if attempt.ending.Returned? {
        return Success(attempt.ending.receipt), log;
      }
      if attempt.ending.Threw? {
        return Failure(attempt.ending.error), log;
      }
      n := n + 1;
    }
    return Failure(RetryExhausted), log;
  }

  // Over the attempts of any run: after a serialization failure raised in the try block the runner
  // backs off exactly if it comes from BEGIN, the timeout settings, the ROLLBACK or the receipt
  // lookup for a command already committed, or a handler that passes it on, and attempts are left.
  // Another attempt follows then, unless the time is up or no connection is to be had. Whatever
  // the lookup of the catch block raises ends the run as it is.
  lemma RetriedIff(log: seq<Attempt>, outcome: Result<Receipt, RunError>, policy: Policy, handlerNormalizes: bool,
                   i: nat)
    requires Explains(log, outcome, policy, handlerNormalizes) && i < |log| && log[i].tried.Caught?
    ensures log[i].tried.raised == Serialization ==>
      (log[i].ending == Retried <==>
        && (log[i].tried.site in {BeginCall, TimeoutsCall, RollbackCall, ExistingReceiptCall}
            || (log[i].tried.site == HandlerCall && !handlerNormalizes))
        && i + 1 < policy.maxAttempts)
    ensures log[i].ending == Retried ==> log[i].tried.raised == Serialization
    ensures log[i].ending != Retried ==> i == |log| - 1
    ensures log[i].ending == Retried && i == |log| - 1 ==>
      outcome.Failure? && (outcome.error == OverallTimeout || outcome.error.Raised?)
    ensures log[i].lookupRaised.Some? ==> i == |log| - 1 && outcome == Failure(Raised(log[i].lookupRaised.value))
  {
    assert EndsRightly(log[i], i + 1, policy, handlerNormalizes);
  }

  // What the error of a run that threw says: a COMMIT of unknown outcome, retries used up, or the
  // error that was raised, driver errors as application errors that ask for no lookup.
  lemma ThrownErrorIs(log: seq<Attempt>, outcome: Result<Receipt, RunError>, policy: Policy, handlerNormalizes: bool)
    requires Explains(log, outcome, policy, handlerNormalizes) && log != []
    requires log[|log| - 1].ending.Threw? && log[|log| - 1].lookupRaised.None?
    ensures var tried := log[|log| - 1].tried;
      && tried.Caught?
      && (tried.site in {CommitCall, ReceiptParse} ==> outcome == Failure(AmbiguousCommit))
      && (tried.site !in {CommitCall, ReceiptParse} ==>
            && (tried.error == Serialization ==> outcome == Failure(RetryExhausted))
            && (tried.error.Application? ==> outcome == Failure(Raised(tried.error)))
            && (tried.error in {ConnectionLost, OtherDriverError} ==> outcome == Failure(Raised(Application(false)))))
    ensures LookupRequired(outcome.error) <==>
      outcome.error in {AmbiguousCommit, RetryExhausted, Raised(Application(true))}
  {
    assert EndsRightly(log[|log| - 1], |log|, policy, handlerNormalizes);
  }

  // A row contended at the claim ends the run at that attempt, whichever it is, with an error that
  // asks for no receipt lookup.
  lemma ContendedClaimIsFinal(log: seq<Attempt>, outcome: Result<Receipt, RunError>, policy: Policy,
                              handlerNormalizes: bool, i: nat)
    requires Explains(log, outcome, policy, handlerNormalizes) && i < |log|
    requires log[i].tried == Catch(ClaimCall, Serialization, handlerNormalizes)
    ensures i == |log| - 1 && outcome == Failure(Raised(Application(false)))
    ensures !LookupRequired(outcome.error)
  {
    assert EndsRightly(log[i], i + 1, policy, handlerNormalizes);
  }

  ghost predicate AllRetried(log: seq<Attempt>, policy: Policy, handlerNormalizes: bool) {
    forall i :: 0 <= i < |log| ==> EndsRightly(log[i], i + 1, policy, handlerNormalizes) && log[i].ending == Retried
  }

  lemma {:induction false} NoneYet(policy: Policy, handlerNormalizes: bool)
    ensures AllRetried([], policy, handlerNormalizes) && Backoff(policy, 1) == 0
  {
  }

  lemma ConnectedThenClaimed(script: seq<Reply>)
    ensures ContendedAtOnce(script) <==> ReplyAt(script, 0).error.None? && ClaimContended(After(script, 1))
  {
  }

  lemma StopsBetween(log: seq<Attempt>, policy: Policy, handlerNormalizes: bool)
    requires AllRetried(log, policy, handlerNormalizes)
    ensures Explains(log, Failure(OverallTimeout), policy, handlerNormalizes)
    ensures forall error :: Explains(log, Failure(Raised(error)), policy, handlerNormalizes)
  {
  }

  lemma StopsAfter(log: seq<Attempt>, attempt: Attempt, policy: Policy, handlerNormalizes: bool)
    requires AllRetried(log, policy, handlerNormalizes)
    requires EndsRightly(attempt, |log| + 1, policy, handlerNormalizes)
    ensures match attempt.ending
      case Returned(receipt) => Explains(log + [attempt], Success(receipt), policy, handlerNormalizes)
      case Threw(error) => Explains(log + [attempt], Failure(error), policy, handlerNormalizes)
      case Retried => AllRetried(log + [attempt], policy, handlerNormalizes)
  {
    hide EndsRightly;
  }

  lemma GotEndsRightly(tried: Tried, n: nat, policy: Policy, handlerNormalizes: bool)
    requires tried.Got?
    ensures EndsRightly(Attempt(tried, None, Returned(tried.receipt)), n, policy, handlerNormalizes)
  {
  }

  lemma EndingOf(attempt: Attempt, n: nat, policy: Policy, handlerNormalizes: bool)
    requires EndsRightly(attempt, n, policy, handlerNormalizes)
    ensures attempt.ending == Retried ==> n < policy.maxAttempts && attempt.tried.Caught? && !CommitSent(attempt.tried)
    ensures attempt.tried == Catch(ClaimCall, Serialization, handlerNormalizes) ==>
      attempt.ending == Threw(Raised(Application(false)))
    ensures attempt.ending != Threw(OverallTimeout)
    ensures attempt.ending.Threw? && attempt.ending.error == AmbiguousCommit ==> CommitSent(attempt.tried)
  {
  }
}
