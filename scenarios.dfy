/** A client of the store's contracts: the reward-cycle walk-through of
    record_visit.test.ts, derived from the method contracts alone. */
module Scenarios {
  import opened Wrappers
  import opened Schema
  import opened Store

  /** A new database holding one registered user with pass PASS123. */
  method MemberWithPass() returns (db: Database)
    ensures fresh(db) && db.Valid()
    ensures |db.users| == 1 && db.users[0].passSerialNumber == Some("PASS123")
    ensures db.users[0].totalVisits == 0 && db.users[0].currentRewardPoints == 0
  {
    db := new Database();
    var created := db.CreateUser("John", "Doe", "+1234567890", 1);
    assert created.Success? && created.value.id == 1 && |db.users| == 1;
    var serialSet := db.UpdateUserPassSerial(1, "PASS123", 2);
  }

  /** Five scans: the first four add a point each, the fifth completes the
      cycle, resets the points and marks its visit as the reward visit. */
  method RewardCycleWalkThrough()
  {
    var db := MemberWithPass();
    var r := db.RecordVisit("PASS123", 3);
    assert db.users[0].currentRewardPoints == 1 && db.users[0].passSerialNumber == Some("PASS123");
    r := db.RecordVisit("PASS123", 4);
    assert db.users[0].currentRewardPoints == 2 && db.users[0].passSerialNumber == Some("PASS123");
    r := db.RecordVisit("PASS123", 5);
    assert db.users[0].currentRewardPoints == 3 && db.users[0].passSerialNumber == Some("PASS123");
    r := db.RecordVisit("PASS123", 6);
    assert db.users[0].currentRewardPoints == 4 && db.users[0].passSerialNumber == Some("PASS123");
    assert !r.value.rewardTriggered;
    r := db.RecordVisit("PASS123", 7);
    assert r.value.rewardTriggered && r.value.visit.isRewardVisit && !r.value.isRewardEligible;
    assert r.value.user.totalVisits == 5 && r.value.user.currentRewardPoints == 0;
  }

  /** An unknown serial is reported and writes no visit. */
  method UnknownSerialWritesNothing(db: Database)
    requires db.Valid()
    requires forall k :: 0 <= k < |db.users| ==> db.users[k].passSerialNumber != Some("INVALID123")
    modifies db
  {
    var before := db.visits;
    var missing := db.RecordVisit("INVALID123", 8);
    assert missing == Failure(UserNotFoundWithSerial("INVALID123"));
    assert db.visits == before;
  }
}
