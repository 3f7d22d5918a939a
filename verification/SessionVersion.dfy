/** The session version of an account: how it is stored, claimed by a token, compared and filtered on. */
module SessionVersion {
  import opened Options

  /** A stored field or a token claim, as far as version checks look at it. */
  datatype JsValue = Absent | Null | Integer(value: int) | OtherValue

  const MAX_SAFE_INTEGER: nat := 9_007_199_254_740_991

  predicate IsVersion(v: JsValue) {
    v.Integer? && 0 <= v.value <= MAX_SAFE_INTEGER
  }

  /** The version in force; anything that is not a version counts as 0. */
  function CurrentVersion(stored: JsValue): nat {
    if IsVersion(stored) then stored.value else 0
  }

  /** The version a verified token claims; a claim that is present but invalid claims nothing. */
  function ClaimedVersion(claim: JsValue): Option<nat> {
    if claim.Absent? then Some(0) else if IsVersion(claim) then Some(claim.value) else None
  }

  predicate IsSessionCurrent(claim: JsValue, stored: JsValue) {
    ClaimedVersion(claim).Some? && ClaimedVersion(claim).value == CurrentVersion(stored)
  }

  /** The database filter for a version that was read: 0 also finds an absent or null field. */
  predicate FilterMatches(version: nat, stored: JsValue) {
    if version == 0 then stored in {Absent, Null, Integer(0)} else stored == Integer(version)
  }

  predicate WellStored(stored: JsValue) {
    stored in {Absent, Null} || IsVersion(stored)
  }

  /**
   * A document is found again by the version read from it exactly when the field was absent, null or
   * a version; any other stored value reads as 0 and is then never matched.
   */
  lemma FilterFindsWhatWasRead(stored: JsValue)
    ensures FilterMatches(CurrentVersion(stored), stored) <==> WellStored(stored)
  {
    if stored.Integer? && FilterMatches(CurrentVersion(stored), stored) { assert IsVersion(stored); }
  }

  /** On well stored fields the filter and the comparison are the same test. */
  lemma FilterIsVersionTest(version: nat, stored: JsValue)
    requires WellStored(stored)
    ensures FilterMatches(version, stored) <==> CurrentVersion(stored) == version
  {
    if IsVersion(stored) { assert stored == Integer(stored.value); }
  }

  /**
   * A claim is current exactly when it is the stored number, or absent while that number is 0; a stored
   * value that is not a whole number from 0 to 2^53 - 1 counts as 0.
   */
  lemma CurrentExactly(claim: JsValue, stored: JsValue)
    ensures var v := if stored.Integer? && 0 <= stored.value < 0x20_0000_0000_0000 then stored.value else 0;
            IsSessionCurrent(claim, stored) <==> claim == Integer(v) || (claim == Absent && v == 0)
  {}

  /**
   * Writing version + 1 revokes every token that was current, and only the new version is current:
   * so long as version + 1 is itself a version. At the largest one the field reads as 0 again.
   */
  lemma BumpRevokes(stored: JsValue)
    requires WellStored(stored)
    ensures var v := CurrentVersion(stored); var bumped := Integer(v + 1);
            && (v < MAX_SAFE_INTEGER <==> CurrentVersion(bumped) == v + 1)
            && (v < MAX_SAFE_INTEGER <==>
                  forall claim: JsValue :: IsSessionCurrent(claim, bumped) <==> claim == Integer(v + 1))
  {
    var v := CurrentVersion(stored);
    if v >= MAX_SAFE_INTEGER {
      assert IsSessionCurrent(Absent, Integer(v + 1));
    }
  }
}
