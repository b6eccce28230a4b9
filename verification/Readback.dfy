/** Deterministic read-back of a committed mutation: how the verdict `ok` is formed
    (checked-mutation-executor.ts) and what its schema demands (contracts/src/mutations.ts). */
module Readback {
  import opened Wrappers

  datatype CheckKind =
    | Identifiers | RowValues | Balances | SourceLinks | ArtifactLinks | IdempotencyReceipt

  datatype CheckStatus = Passed | Failed | NotApplicable

  datatype Check = Check(kind: CheckKind, status: CheckStatus, detailCode: Option<string>)

  /** What a handler's own read-back reports. */
  datatype DomainReadback = DomainReadback(checks: seq<Check>, mismatches: seq<string>)

  datatype ReadbackResult = ReadbackResult(ok: bool, checks: seq<Check>, mismatches: seq<string>)

  const ALL_KINDS: seq<CheckKind> :=
    [Identifiers, RowValues, Balances, SourceLinks, ArtifactLinks, IdempotencyReceipt]

  function KindName(kind: CheckKind): string {
    match kind
    case Identifiers => "identifiers"
    case RowValues => "row_values"
    case Balances => "balances"
    case SourceLinks => "source_links"
    case ArtifactLinks => "artifact_links"
    case IdempotencyReceipt => "idempotency_receipt"
  }

  predicate HasStatus(checks: seq<Check>, kind: CheckKind, status: CheckStatus) {
    exists i :: 0 <= i < |checks| && checks[i].kind == kind && checks[i].status == status
  }

  predicate AnyFailed(checks: seq<Check>) {
    exists i :: 0 <= i < |checks| && checks[i].status == Failed
  }

  predicate UniqueKinds(checks: seq<Check>) {
    forall i, j :: 0 <= i < j < |checks| ==> checks[i].kind != checks[j].kind
  }

  predicate FailuresExplained(checks: seq<Check>) {
    forall i :: 0 <= i < |checks| && checks[i].status == Failed ==> checks[i].detailCode.Some?
  }

  /** ReadbackResultSchemaV1, apart from field lengths and formats. */
  predicate Consistent(result: ReadbackResult) {
    && |result.checks| >= 1
    && UniqueKinds(result.checks)
    && FailuresExplained(result.checks)
    && (result.ok ==> !AnyFailed(result.checks) && result.mismatches == [])
    && (!result.ok ==> AnyFailed(result.checks) || result.mismatches != [])
  }

  /** The status of the first check of that kind, as Array.prototype.find returns it. */
  function FirstStatus(checks: seq<Check>, kind: CheckKind): Option<CheckStatus> {
    if checks == [] then None
    else if checks[0].kind == kind then Some(checks[0].status)
    else FirstStatus(checks[1..], kind)
  }

  function RequiredFailures(required: seq<CheckKind>, checks: seq<Check>): seq<string> {
    if required == [] then []
    else
      (if FirstStatus(checks, required[0]) == Some(Passed) then []
       else ["required_check." + KindName(required[0])])
      + RequiredFailures(required[1..], checks)
  }

  function WithReceiptCheck(domain: DomainReadback, receiptOk: bool): seq<Check> {
    domain.checks + [
      if receiptOk then Check(IdempotencyReceipt, Passed, None)
      else Check(IdempotencyReceipt, Failed, Some("receipt_identity_mismatch"))
    ]
  }

  /** `performReadback` once the handler has answered; None when the schema rejects the result. */
  function Perform(required: seq<CheckKind>, domain: DomainReadback, receiptOk: bool): Option<ReadbackResult> {
    var checks := WithReceiptCheck(domain, receiptOk);
    var mismatches := domain.mismatches + RequiredFailures(required, checks);
    var result := ReadbackResult(mismatches == [], checks, mismatches);
    if Consistent(result) then Some(result) else None
  }

  /** `failedReadback`: what is recorded when the read-back itself threw. */
  function FailedReadback(required: seq<CheckKind>, failureCode: string): ReadbackResult {
    ReadbackResult(
      false,
      seq(|ALL_KINDS|, i requires 0 <= i < |ALL_KINDS| =>
        if ALL_KINDS[i] in required then Check(ALL_KINDS[i], Failed, Some(failureCode))
        else Check(ALL_KINDS[i], NotApplicable, None)),
      ["readback_error." + failureCode])
  }

  /** What one execution records: the handler may have thrown (`domain` is None). */
  function Observe(required: seq<CheckKind>, domain: Option<DomainReadback>, receiptOk: bool, failureCode: string)
    : (result: ReadbackResult)
  {
    match domain
    case None => FailedReadback(required, failureCode)
    case Some(answer) =>
      match Perform(required, answer, receiptOk)
      case Some(performed) => performed
      case None => FailedReadback(required, failureCode)
  }

  /** An accepting read-back: everything required passed, nothing failed, nothing differed. */
  predicate Accepts(required: seq<CheckKind>, result: ReadbackResult) {
    && result.ok
    && (forall kind :: kind in required ==> HasStatus(result.checks, kind, Passed))
    && HasStatus(result.checks, IdempotencyReceipt, Passed)
    && !AnyFailed(result.checks)
    && result.mismatches == []
  }

  lemma {:induction false} FirstStatusOccurs(checks: seq<Check>, kind: CheckKind)
    ensures FirstStatus(checks, kind).Some? ==> HasStatus(checks, kind, FirstStatus(checks, kind).value)
    ensures UniqueKinds(checks) ==>
      forall i :: 0 <= i < |checks| && checks[i].kind == kind ==> FirstStatus(checks, kind) == Some(checks[i].status)
  {
    if checks != [] && checks[0].kind != kind {
      var rest := checks[1..];
      FirstStatusOccurs(rest, kind);
      if FirstStatus(rest, kind).Some? {
        var i :| 0 <= i < |rest| && rest[i].kind == kind && rest[i].status == FirstStatus(rest, kind).value;
        assert checks[i + 1] == rest[i];
      }
      if UniqueKinds(checks) {
        forall i | 0 <= i < |checks| && checks[i].kind == kind
          ensures FirstStatus(checks, kind) == Some(checks[i].status)
        {
          assert checks[i] == rest[i - 1];
        }
      }
    }
  }

  lemma {:induction false} RequiredFailuresEmptyIff(required: seq<CheckKind>, checks: seq<Check>)
    ensures RequiredFailures(required, checks) == []
      <==> forall kind :: kind in required ==> FirstStatus(checks, kind) == Some(Passed)
  {
    if required != [] {
      var rest := required[1..];
      RequiredFailuresEmptyIff(rest, checks);
      assert required == [required[0]] + rest;
      assert RequiredFailures(required, checks) == []
        <==> FirstStatus(checks, required[0]) == Some(Passed) && RequiredFailures(rest, checks) == [];
      assert forall kind :: kind in required <==> kind == required[0] || kind in rest;
    }
  }

  lemma KindNamesDiffer(a: CheckKind, b: CheckKind)
    ensures KindName(a) == KindName(b) <==> a == b
  {
    assert |KindName(Identifiers)| == 11 && |KindName(RowValues)| == 10 && |KindName(Balances)| == 8;
    assert |KindName(SourceLinks)| == 12 && |KindName(ArtifactLinks)| == 14 && |KindName(IdempotencyReceipt)| == 19;
  }

  // The mismatches name exactly the required kinds whose first report is not a pass, or is missing.
  lemma {:induction false} FailuresNameTheMissing(required: seq<CheckKind>, checks: seq<Check>, kind: CheckKind)
    ensures "required_check." + KindName(kind) in RequiredFailures(required, checks) <==>
      kind in required && FirstStatus(checks, kind) != Some(Passed)
  {
    hide KindName;
    if required != [] {
      var first, rest := required[0], required[1..];
      FailuresNameTheMissing(rest, checks, kind);
      assert required == [first] + rest;
      KindNamesDiffer(first, kind);
      var prefix := "required_check.";
      assert (prefix + KindName(first))[|prefix|..] == KindName(first);
      assert (prefix + KindName(kind))[|prefix|..] == KindName(kind);
    }
  }

  // A read-back that threw is recorded with every kind once: the required ones as failed for that
  // reason, the others as not applicable.
  lemma FailureNamesTheRequired(required: seq<CheckKind>, failureCode: string, kind: CheckKind)
    ensures var result := FailedReadback(required, failureCode);
      && !result.ok && UniqueKinds(result.checks) && result.mismatches == ["readback_error." + failureCode]
      && exists i :: 0 <= i < |result.checks|
           && result.checks[i] == if kind in required then Check(kind, Failed, Some(failureCode))
                                  else Check(kind, NotApplicable, None)
  {
    var result := FailedReadback(required, failureCode);
    match kind
    case Identifiers => assert result.checks[0].kind == kind;
    case RowValues => assert result.checks[1].kind == kind;
    case Balances => assert result.checks[2].kind == kind;
    case SourceLinks => assert result.checks[3].kind == kind;
    case ArtifactLinks => assert result.checks[4].kind == kind;
    case IdempotencyReceipt => assert result.checks[5].kind == kind;
  }

  lemma AcceptedIsSound(required: seq<CheckKind>, domain: Option<DomainReadback>, receiptOk: bool, failureCode: string)
    requires Observe(required, domain, receiptOk, failureCode).ok
    ensures receiptOk && Accepts(required, Observe(required, domain, receiptOk, failureCode))
  {
    var checks := WithReceiptCheck(domain.value, receiptOk);
    var last := checks[|checks| - 1];
    assert last.kind == IdempotencyReceipt && last.status == if receiptOk then Passed else Failed;
    RequiredFailuresEmptyIff(required, checks);
    forall kind | kind in required
      ensures HasStatus(checks, kind, Passed)
    {
      FirstStatusOccurs(checks, kind);
    }
  }

  // Whatever the handler answers and whatever it requires, the recorded result satisfies the
  // schema, and an accepted one shows every required check and the receipt check as passed.
  lemma ObservedIsSound(required: seq<CheckKind>, domain: Option<DomainReadback>, receiptOk: bool, failureCode: string)
    ensures Consistent(Observe(required, domain, receiptOk, failureCode))
    ensures var result := Observe(required, domain, receiptOk, failureCode);
      result.ok ==> receiptOk && Accepts(required, result)
  {
    hide Accepts, RequiredFailures;
    if Observe(required, domain, receiptOk, failureCode).ok {
      AcceptedIsSound(required, domain, receiptOk, failureCode);
    } else {
      assert Consistent(FailedReadback(required, failureCode));
    }
  }

  // The verdict is exact: `ok` holds if and only if the handler answered without mismatches,
  // reported each kind once and none as failed, the stored receipt carries the command's
  // identity, and every required kind was reported as passed.
  lemma ObservedOkIff(required: seq<CheckKind>, domain: Option<DomainReadback>, receiptOk: bool, failureCode: string)
    ensures Observe(required, domain, receiptOk, failureCode).ok <==>
      && domain.Some?
      && domain.value.mismatches == []
      && receiptOk
      && UniqueKinds(WithReceiptCheck(domain.value, receiptOk))
      && !AnyFailed(domain.value.checks)
      && (forall kind :: kind in required ==>
            kind == IdempotencyReceipt || HasStatus(domain.value.checks, kind, Passed))
  {
    if domain.Some? {
      var own := domain.value.checks;
      var checks := WithReceiptCheck(domain.value, receiptOk);
      var n := |checks| - 1;
      assert forall i :: 0 <= i < n ==> checks[i] == own[i];
      assert checks[n].kind == IdempotencyReceipt && checks[n].status == (if receiptOk then Passed else Failed);
      assert AnyFailed(checks) <==> AnyFailed(own) || !receiptOk by {
        if AnyFailed(own) {
          var i :| 0 <= i < |own| && own[i].status == Failed;
          assert checks[i].status == Failed;
        }
      }
      RequiredFailuresEmptyIff(required, checks);
      if UniqueKinds(checks) {
        forall kind | kind in required
          ensures FirstStatus(checks, kind) == Some(Passed)
            <==> (if kind == IdempotencyReceipt then receiptOk else HasStatus(own, kind, Passed))
        {
          FirstStatusOccurs(checks, kind);
          if kind != IdempotencyReceipt && HasStatus(own, kind, Passed) {
            var i :| 0 <= i < |own| && own[i].kind == kind && own[i].status == Passed;
            assert checks[i].kind == kind;
          }
          if kind != IdempotencyReceipt && FirstStatus(checks, kind) == Some(Passed) {
            var i :| 0 <= i < |checks| && checks[i].kind == kind && checks[i].status == Passed;
            assert own[i] == checks[i];
          }
        }
      }
    }
  }
}
