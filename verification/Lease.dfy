/** The offline lease: issuing it from licensed grants, and the verifier's reading of its times. */
module Lease {
  import opened Options
  import opened Moments

  /** A licensed grant as the lease lists it; an end is a stored time. */
  datatype Entitled = Entitled(feature: string, expiresAt: Option<int>)

  /** A feature claim; its end is in seconds. */
  datatype Feature = Feature(id: string, exp: Option<int>)

  /** The time claims, in seconds, and the features. */
  datatype Claims = Claims(iat: int, nbf: int, exp: int, features: seq<Feature>)

  function Seconds(t: int): int {
    t / SECOND
  }

  function Deadline(limit: int, grants: seq<Entitled>): int {
    if grants == [] then limit
    else
      var rest := Deadline(limit, grants[1..]);
      if grants[0].expiresAt.Some? && grants[0].expiresAt.value < rest then grants[0].expiresAt.value else rest
  }

  function FeatureOf(grant: Entitled): Feature {
    Feature(grant.feature, if grant.expiresAt.Some? then Some(Seconds(grant.expiresAt.value)) else None)
  }

  function IssueLease(hasSigner: bool, gracePeriod: int, grants: seq<Entitled>, now: int): Option<Claims> {
    if !hasSigner || gracePeriod <= 0 then None
    else
      var iat := Seconds(Iso(now));
      var exp := Seconds(Deadline(Iso(now) + gracePeriod * SECOND, grants));
      if exp <= iat then None
      else Some(Claims(iat, iat, exp, seq(|grants|, i requires 0 <= i < |grants| => FeatureOf(grants[i]))))
  }

  /** A time claim as decoded: the verifier refuses anything but an integer. */
  datatype Claim = IntClaim(value: int) | OtherClaim

  datatype Verdict = Accepted | NotAnInteger | NotYetValid | LeaseExpired | Inconsistent

  function VerifyTimes(iat: Claim, nbf: Claim, exp: Claim, now: int): Verdict {
    if iat.OtherClaim? || nbf.OtherClaim? || exp.OtherClaim? then NotAnInteger
    else if nbf.value > now then NotYetValid
    else if exp.value <= now then LeaseExpired
    else if iat.value > now || nbf.value < iat.value || exp.value <= nbf.value then Inconsistent
    else Accepted
  }

  lemma {:induction false} DeadlineIsEarliest(limit: int, grants: seq<Entitled>)
    ensures Deadline(limit, grants) <= limit
    ensures forall i :: 0 <= i < |grants| && grants[i].expiresAt.Some? ==> Deadline(limit, grants) <= grants[i].expiresAt.value
    ensures Deadline(limit, grants) == limit
         || exists i :: 0 <= i < |grants| && grants[i].expiresAt == Some(Deadline(limit, grants))
  {
    if grants != [] {
      DeadlineIsEarliest(limit, grants[1..]);
      var rest := Deadline(limit, grants[1..]);
      assert forall i :: 0 < i < |grants| ==> grants[i] == grants[1..][i - 1];
      if Deadline(limit, grants) == rest && rest != limit {
        var i :| 0 <= i < |grants[1..]| && grants[1..][i].expiresAt == Some(rest);
        assert grants[i + 1].expiresAt == Some(rest);
      }
    }
  }

  /** An issued lease is accepted exactly from issue to expiry, never outlives the grace period or a feature, and
      ends as late as those allow. */
  lemma LeaseIsExactAndBounded(hasSigner: bool, gracePeriod: int, grants: seq<Entitled>, now: int, t: int)
    requires IssueLease(hasSigner, gracePeriod, grants, now).Some?
    ensures var c := IssueLease(hasSigner, gracePeriod, grants, now).value;
      && (VerifyTimes(IntClaim(c.iat), IntClaim(c.nbf), IntClaim(c.exp), t) == Accepted <==> c.iat <= t < c.exp)
      && c.exp - c.iat <= gracePeriod
      && |c.features| == |grants|
      && (forall i :: 0 <= i < |grants| ==> c.features[i] == FeatureOf(grants[i]))
      && (forall i :: 0 <= i < |grants| && c.features[i].exp.Some? ==> c.exp <= c.features[i].exp.value)
      && (c.exp - c.iat == gracePeriod || exists i :: 0 <= i < |grants| && c.features[i].exp == Some(c.exp))
  {
    var limit := Iso(now) + gracePeriod * SECOND;
    DeadlineIsEarliest(limit, grants);
    var c := IssueLease(hasSigner, gracePeriod, grants, now).value;
    assert Seconds(limit) == c.iat + gracePeriod;
    if c.exp - c.iat != gracePeriod {
      var i :| 0 <= i < |grants| && grants[i].expiresAt == Some(Deadline(limit, grants));
      assert c.features[i].exp == Some(c.exp);
    }
  }

  /** With a signer and a positive grace period, grants that are licensed now always get a lease. */
  lemma LicensedGrantsGetALease(gracePeriod: int, grants: seq<Entitled>, now: int)
    requires gracePeriod > 0
    requires forall i :: 0 <= i < |grants| && grants[i].expiresAt.Some? ==>
      Whole(grants[i].expiresAt.value) && grants[i].expiresAt.value > now
    ensures IssueLease(true, gracePeriod, grants, now).Some?
  {
    var limit := Iso(now) + gracePeriod * SECOND;
    DeadlineIsEarliest(limit, grants);
    IsoOrder(0, now);
    var deadline := Deadline(limit, grants);
    assert Whole(deadline) && deadline > Iso(now);
  }

  /** A lease is issued exactly when a signer is there, the grace period is positive and no grant ends within this second;
      it is issued at this second and lists each grant's feature with its end in seconds. */
  lemma LeaseIsIssuedExactly(hasSigner: bool, gracePeriod: int, grants: seq<Entitled>, now: int)
    ensures IssueLease(hasSigner, gracePeriod, grants, now).Some? <==>
      (hasSigner && gracePeriod > 0
       && forall i :: 0 <= i < |grants| && grants[i].expiresAt.Some? ==> now / SECOND < grants[i].expiresAt.value / SECOND)
    ensures IssueLease(hasSigner, gracePeriod, grants, now).Some? ==>
      var c := IssueLease(hasSigner, gracePeriod, grants, now).value;
      && c.iat == now / SECOND && c.nbf == now / SECOND && |c.features| == |grants|
      && forall i :: 0 <= i < |grants| ==>
           c.features[i].id == grants[i].feature
           && c.features[i].exp == if grants[i].expiresAt.Some? then Some(grants[i].expiresAt.value / SECOND) else None
  {
    var limit := Iso(now) + gracePeriod * SECOND;
    DeadlineIsEarliest(limit, grants);
    IsoOrder(0, now);
    assert Seconds(limit) == now / SECOND + gracePeriod;
    if i :| 0 <= i < |grants| && grants[i].expiresAt.Some? && grants[i].expiresAt.value / SECOND <= now / SECOND {
      SecondsAreMonotone(Deadline(limit, grants), grants[i].expiresAt.value);
    }
  }

  lemma SecondsAreMonotone(s: int, t: int)
    ensures s <= t ==> Seconds(s) <= Seconds(t)
  {
  }

  /** The verifier accepts integer claims only, not before nbf or iat, before exp, and in the order iat, nbf, exp. */
  lemma TimesAreAcceptedExactly(iat: Claim, nbf: Claim, exp: Claim, now: int)
    ensures VerifyTimes(iat, nbf, exp, now) == Accepted <==>
      (iat.IntClaim? && nbf.IntClaim? && exp.IntClaim? && iat.value <= nbf.value <= now < exp.value)
  {
  }
}
