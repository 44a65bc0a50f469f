/** The key-rotation planners of `libs/config/src/key-rotation.ts`. */
module KeyRotation {
  import opened Common
  import opened Contracts

  type Kid = string
  type Pem = string

  /** A private key. `publicHalf` is the public key its signatures verify under. */
  datatype PrivateKey = PrivateKey(pem: string, publicHalf: Pem)

  datatype KeyPair = KeyPair(kid: Kid, privateKey: PrivateKey, publicKey: Pem)

  /** The four variables a rotation moves. */
  datatype KeyEnv = KeyEnv(
    signingKeyId: Kid,
    privateKey: PrivateKey,
    publicKey: Pem,
    retired: map<Kid, Pem>)
  {
    /** What JWKS serves: the retained keys, overridden by the live signer. */
    function Published(): map<Kid, Pem> {
      retired[signingKeyId := publicKey]
    }

    /** The signer is not also listed as a retained key. */
    predicate SignerApart() {
      signingKeyId !in retired
    }
  }

  datatype RotationStep = PublishStep | ActivateStep | RetireStep

  /** The outcome of a step. Times are epoch milliseconds. */
  datatype Plan = Plan(
    step: RotationStep,
    next: KeyEnv,
    nextStep: Option<RotationStep>,
    nextStepEarliestAt: Option<int>)

  datatype Refusal =
    | AlreadySigning
    | AlreadyPublished
    | NotPublished
    | PropagationIncomplete(earliest: int)
    | CurrentSigner
    | NothingToRetire
    | StillRetained(earliest: int)

  function AddSeconds(from: int, seconds: int): int {
    from + seconds * 1000
  }

  /** Step 1. Refused exactly when the kid is already in JWKS; otherwise JWKS gains one entry. */
  function PlanPublish(current: KeyEnv, incoming: KeyPair, now: int): (r: Result<Plan, Refusal>)
    ensures r.Failure? <==> incoming.kid in current.Published()
    ensures r == Failure(AlreadySigning) <==> incoming.kid == current.signingKeyId
    ensures r.Success? ==>
              && r.value.next.Published() == current.Published()[incoming.kid := incoming.publicKey]
              && r.value.next.signingKeyId == current.signingKeyId
              && r.value.next.privateKey == current.privateKey
              && (current.SignerApart() ==> r.value.next.SignerApart())
  {
    if incoming.kid == current.signingKeyId then Failure(AlreadySigning)
    else if incoming.kid in current.retired then Failure(AlreadyPublished)
    else
      var next := current.(retired := current.retired[incoming.kid := incoming.publicKey]);
      assert next.Published() == current.Published()[incoming.kid := incoming.publicKey];
      Success(Plan(PublishStep, next, Some(ActivateStep), Some(AddSeconds(now, PROPAGATION_WAIT_SECONDS))))
  }

  /** What step 3 must answer. */
  function Activated(current: KeyEnv, kid: Kid, privateKey: PrivateKey,
                     publishedAt: int, now: int, force: bool): Result<Plan, Refusal>
  {
    var earliest := AddSeconds(publishedAt, PROPAGATION_WAIT_SECONDS);
    if kid !in current.retired then Failure(NotPublished)
    else if !force && now < earliest then Failure(PropagationIncomplete(earliest))
    else
      var retained := (map k | k in current.retired && k != kid :: current.retired[k]);
      Success(Plan(ActivateStep,
                   KeyEnv(kid, privateKey, current.retired[kid],
                          retained[current.signingKeyId := current.publicKey]),
                   Some(RetireStep), Some(AddSeconds(now, RETENTION_WAIT_SECONDS))))
  }

  /** Step 3, editing a local copy of the retained map. */
  method PlanActivate(current: KeyEnv, kid: Kid, privateKey: PrivateKey,
                      publishedAt: int, now: int, force: bool)
    returns (r: Result<Plan, Refusal>)
    ensures r == Activated(current, kid, privateKey, publishedAt, now, force)
  {
    if kid !in current.retired {
      return Failure(NotPublished);
    }
    var publicKey := current.retired[kid];
    var earliest := AddSeconds(publishedAt, PROPAGATION_WAIT_SECONDS);
    if !force && now < earliest {
      return Failure(PropagationIncomplete(earliest));
    }
    var retained := current.retired;
    retained := retained - {kid};
    assert retained == (map k | k in current.retired && k != kid :: current.retired[k]);
    retained := retained[current.signingKeyId := current.publicKey];
    r := Success(Plan(ActivateStep, KeyEnv(kid, privateKey, publicKey, retained),
                      Some(RetireStep), Some(AddSeconds(now, RETENTION_WAIT_SECONDS))));
  }

  /** What step 4 must answer. */
  function Retired(current: KeyEnv, kid: Kid, deactivatedAt: int, now: int, force: bool): Result<Plan, Refusal>
  {
    var earliest := AddSeconds(deactivatedAt, RETENTION_WAIT_SECONDS);
    if kid == current.signingKeyId then Failure(CurrentSigner)
    else if kid !in current.retired then Failure(NothingToRetire)
    else if !force && now < earliest then Failure(StillRetained(earliest))
    else
      var retained := map k | k in current.retired && k != kid :: current.retired[k];
      Success(Plan(RetireStep, current.(retired := retained), None, None))
  }

  /** Step 4, editing a local copy of the retained map. */
  method PlanRetire(current: KeyEnv, kid: Kid, deactivatedAt: int, now: int, force: bool)
    returns (r: Result<Plan, Refusal>)
    ensures r == Retired(current, kid, deactivatedAt, now, force)
  {
    if kid == current.signingKeyId {
      return Failure(CurrentSigner);
    }
    if kid !in current.retired {
      return Failure(NothingToRetire);
    }
    var earliest := AddSeconds(deactivatedAt, RETENTION_WAIT_SECONDS);
    if !force && now < earliest {
      return Failure(StillRetained(earliest));
    }
    var retained := current.retired;
    retained := retained - {kid};
    assert retained == (map k | k in current.retired && k != kid :: current.retired[k]);
    r := Success(Plan(RetireStep, current.(retired := retained), None, None));
  }

  /**
   * Switching signers is atomic for verifiers: the published kid-to-key map does not change at all,
   * for every environment in which the kid is not the signer's own (or names the same key).
   */
  lemma ActivateKeepsPublished(current: KeyEnv, kid: Kid, privateKey: PrivateKey,
                               publishedAt: int, now: int, force: bool)
    requires Activated(current, kid, privateKey, publishedAt, now, force).Success?
    ensures var next := Activated(current, kid, privateKey, publishedAt, now, force).value.next;
            && (next.Published() == current.Published() <==>
                kid != current.signingKeyId || current.retired[kid] == current.publicKey)
            && (next.SignerApart() <==> kid != current.signingKeyId)
            && next.signingKeyId == kid
            && next.publicKey == current.retired[kid]
  {
    var next := Activated(current, kid, privateKey, publishedAt, now, force).value.next;
    if kid != current.signingKeyId {
      assert next.Published() == current.Published();
    } else {
      assert next.Published()[kid] == current.retired[kid];
      if current.retired[kid] == current.publicKey {
        assert next.Published() == current.Published();
      }
    }
  }

  /** Retiring withdraws exactly the named key and leaves the signer alone. */
  lemma RetireWithdrawsOneKey(current: KeyEnv, kid: Kid, deactivatedAt: int, now: int, force: bool)
    requires Retired(current, kid, deactivatedAt, now, force).Success?
    ensures var next := Retired(current, kid, deactivatedAt, now, force).value.next;
            && kid in current.Published() && kid !in next.Published()
            && next.Published() == current.Published() - {kid}
            && next.(retired := current.retired) == current
            && (current.SignerApart() ==> next.SignerApart())
  {
    var next := Retired(current, kid, deactivatedAt, now, force).value.next;
    assert next.Published() == current.Published() - {kid};
  }

  /** Why a switch or a withdrawal is refused, and that only the waits can be forced, 360 s and 960 s long. */
  lemma RefusalsInOrder(current: KeyEnv, kid: Kid, privateKey: PrivateKey, from: int, now: int, force: bool)
    ensures var a := Activated(current, kid, privateKey, from, now, force);
            && (a.Failure? <==> kid !in current.retired || (!force && now < from + 360000))
            && (a == Failure(NotPublished) <==> kid !in current.retired)
            && (a.Failure? && kid in current.retired ==> a == Failure(PropagationIncomplete(from + 360000)))
            && (a.Success? ==> a.value.next.privateKey == privateKey)
    ensures var r := Retired(current, kid, from, now, force);
            && (r.Failure? <==>
                kid == current.signingKeyId || kid !in current.retired || (!force && now < from + 960000))
            && (r == Failure(CurrentSigner) <==> kid == current.signingKeyId)
            && (r == Failure(NothingToRetire) <==> kid != current.signingKeyId && kid !in current.retired)
            && (r.Failure? && kid != current.signingKeyId && kid in current.retired ==>
                  r == Failure(StillRetained(from + 960000)))
  {
  }

  /** Following the printed schedule is always accepted: each step's own earliest time admits the next. */
  lemma ScheduleIsAccepted(current: KeyEnv, incoming: KeyPair, publishAt: int, activateAt: int, retireAt: int)
    requires current.SignerApart() && incoming.kid !in current.Published()
    requires AddSeconds(publishAt, PROPAGATION_WAIT_SECONDS) <= activateAt
    requires AddSeconds(activateAt, RETENTION_WAIT_SECONDS) <= retireAt
    ensures var p := PlanPublish(current, incoming, publishAt);
            && p.Success? && p.value.step == PublishStep && p.value.nextStep == Some(ActivateStep)
            && p.value.nextStepEarliestAt == Some(AddSeconds(publishAt, PROPAGATION_WAIT_SECONDS))
            && var a := Activated(p.value.next, incoming.kid, incoming.privateKey, publishAt, activateAt, false);
            && a.Success? && a.value.step == ActivateStep && a.value.nextStep == Some(RetireStep)
            && a.value.nextStepEarliestAt == Some(AddSeconds(activateAt, RETENTION_WAIT_SECONDS))
            && var r := Retired(a.value.next, current.signingKeyId, activateAt, retireAt, false);
            && r.Success? && r.value.step == RetireStep && r.value.nextStep == None
            && r.value.nextStepEarliestAt == None
            && r.value.next == KeyEnv(incoming.kid, incoming.privateKey, incoming.publicKey, current.retired)
  {
    var p := PlanPublish(current, incoming, publishAt).value.next;
    var a := Activated(p, incoming.kid, incoming.privateKey, publishAt, activateAt, false).value.next;
    var r := Retired(a, current.signingKeyId, activateAt, retireAt, false).value.next;
    assert r.retired == current.retired;
  }
}
