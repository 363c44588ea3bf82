/** app/workflow_tokens/settings.py: lifetimes and the keyring that derives tokens. */
module WorkflowKeyring {
  import opened Common

  datatype Purpose = VerifyEmail | EmailChange | Invite | ResetPassword

  const EVERY_PURPOSE := {VerifyEmail, EmailChange, Invite, ResetPassword}
  const CREDENTIAL_PURPOSES := {Invite, ResetPassword}

  lemma EveryPurpose(p: Purpose)
    ensures p in EVERY_PURPOSE
  {
    match p case VerifyEmail => case EmailChange => case Invite => case ResetPassword =>
  }

  datatype PreviousKey = PreviousKey(keyId: string, secret: string)

  datatype Settings = Settings(
    keyId: string, secret: string, previous: seq<PreviousKey>,
    verifyTtl: Time, inviteTtl: Time, resetTtl: Time)
  {
    function PreviousIds(): seq<string> {
      seq(|previous|, i requires 0 <= i < |previous| => previous[i].keyId)
    }

    /** `validate_derivation_keyring` and the bounds on the lifetimes. */
    predicate Valid() {
      && |PreviousIds()| == |set id | id in PreviousIds()|
      && keyId !in PreviousIds()
      && verifyTtl >= 60 * SECOND && inviteTtl >= 60 * SECOND && resetTtl >= 60 * SECOND
    }

    /** `derivation_secret_for`: the active key, else the first retained key with that id. */
    function SecretFor(id: string): Option<string> {
      if id == keyId then Some(secret) else FirstWithId(previous, id)
    }

    function TtlFor(purpose: Purpose): Time {
      if purpose.VerifyEmail? || purpose.EmailChange? then verifyTtl
      else if purpose.Invite? then inviteTtl
      else resetTtl
    }
  }

  function FirstWithId(keys: seq<PreviousKey>, id: string): Option<string> {
    if keys == [] then None
    else if keys[0].keyId == id then Some(keys[0].secret)
    else FirstWithId(keys[1..], id)
  }

  lemma {:induction false} FirstWithIdFinds(keys: seq<PreviousKey>, id: string)
    ensures match FirstWithId(keys, id)
            case Some(secret) => PreviousKey(id, secret) in keys
            case None => forall k | k in keys :: k.keyId != id
  {
    if keys != [] && keys[0].keyId != id {
      FirstWithIdFinds(keys[1..], id);
    }
  }

  lemma {:induction false} DistinctWhenCountsAgree(ids: seq<string>, i: nat, j: nat)
    requires |ids| == |set id | id in ids| && i < j < |ids|
    ensures ids[i] != ids[j]
  {
    if ids[i] == ids[j] {
      var rest := ids[..j] + ids[j + 1..];
      assert (set id | id in ids) == (set id | id in rest) by {
        forall id | id in ids ensures id in rest {
          var k :| 0 <= k < |ids| && ids[k] == id;
          assert id == rest[if k < j then k else if k == j then i else k - 1];
        }
      }
      SetNoLarger(rest);
    }
  }

  lemma {:induction false} SetNoLarger(ids: seq<string>)
    ensures |set id | id in ids| <= |ids|
  {
    if ids == [] {
      assert (set id | id in ids) == {};
    } else {
      SetNoLarger(ids[1..]);
      assert (set id | id in ids) == {ids[0]} + (set id | id in ids[1..]);
    }
  }

  /** In a validated keyring the lookup does not depend on the order of the retained keys: it
      finds exactly the secrets that were configured. */
  lemma LookupIsExact(s: Settings, id: string, secret: string)
    requires s.Valid()
    ensures s.SecretFor(id) == Some(secret) <==>
              (id == s.keyId && secret == s.secret) || PreviousKey(id, secret) in s.previous
  {
    FirstWithIdFinds(s.previous, id);
    var ids := s.PreviousIds();
    if PreviousKey(id, secret) in s.previous {
      var j :| 0 <= j < |s.previous| && s.previous[j] == PreviousKey(id, secret);
      assert ids[j] == id;
      if id != s.keyId {
        var found := PreviousKey(id, FirstWithId(s.previous, id).value);
        var i :| 0 <= i < |s.previous| && s.previous[i] == found;
        assert ids[i] == id;
        if i < j {
          DistinctWhenCountsAgree(ids, i, j);
        } else if j < i {
          DistinctWhenCountsAgree(ids, j, i);
        }
      }
    }
  }

  /** Rotation: a new active key, with the former one retained in front of the others. */
  function Rotate(s: Settings, keyId: string, secret: string): Settings {
    s.(keyId := keyId, secret := secret, previous := [PreviousKey(s.keyId, s.secret)] + s.previous)
  }

  lemma RotationKeepsValid(s: Settings, keyId: string, secret: string)
    requires s.Valid() && keyId != s.keyId && keyId !in s.PreviousIds()
    ensures Rotate(s, keyId, secret).Valid()
  {
    var r := Rotate(s, keyId, secret);
    assert r.PreviousIds() == [s.keyId] + s.PreviousIds();
    assert (set k | k in r.PreviousIds()) == {s.keyId} + (set k | k in s.PreviousIds());
  }

  lemma RotationRetainsEveryKey(s: Settings, keyId: string, secret: string, id: string)
    requires s.Valid() && keyId != s.keyId && keyId !in s.PreviousIds()
    ensures Rotate(s, keyId, secret).Valid()
    ensures s.SecretFor(id).Some? ==> Rotate(s, keyId, secret).SecretFor(id) == s.SecretFor(id)
  {
    RotationKeepsValid(s, keyId, secret);
    assert Rotate(s, keyId, secret).previous[1..] == s.previous;
    FirstWithIdFinds(s.previous, id);
    if s.SecretFor(id).Some? && id != s.keyId {
      var k := PreviousKey(id, s.SecretFor(id).value);
      var i :| 0 <= i < |s.previous| && s.previous[i] == k;
      assert s.PreviousIds()[i] == id;
    }
  }
}
