/** The database and the handlers that read or write it. Each handler is a
    method (when it writes) or a function (when it only reads) of one
    `Database` object whose fields are the three tables, kept in
    insertion order, and the three serial id sequences. */
module Store {
  import opened Wrappers
  import opened Schema
  import opened Rewards
  import opened Validation
  import Listing

  /** A user row with the two derived fields of the stats queries. */
  datatype UserWithStats = UserWithStats(user: User, isEligibleForReward: bool, visitsUntilReward: int)

  /** What recordVisit returns. */
  datatype RecordVisitResult = RecordVisitResult(
    visit: Visit, user: User, isRewardEligible: bool, rewardTriggered: bool)

  /** What handlePassScanWebhook returns. */
  datatype ScanResult = ScanResult(
    visitId: nat,
    userId: nat,
    rewardPointsEarned: int,
    totalVisits: nat,
    currentRewardPoints: nat,
    isRewardVisit: bool,
    isEligibleForReward: bool)

  /** The user row after an accrual: both counters and `updated_at`. */
  function Accrued(u: User, a: Accrual, now: Timestamp): User
  {
    u.(totalVisits := a.totalVisits, currentRewardPoints := a.rewardPoints, updatedAt := now)
  }

  /** The user row after a serial assignment: the serial and `updated_at`. */
  function AssignSerial(u: User, serial: string, now: Timestamp): (r: User)
    ensures r.passSerialNumber == Some(serial) && r.updatedAt == now
    ensures r.(passSerialNumber := u.passSerialNumber, updatedAt := u.updatedAt) == u
  {
    u.(passSerialNumber := Some(serial), updatedAt := now)
  }

  /** The notification row after a claim. */
  function Claimed(n: RewardNotification, now: Timestamp): (r: RewardNotification)
    ensures r.rewardClaimed && r.rewardClaimedAt == Some(now)
    ensures r.id == n.id && r.userId == n.userId && r.notificationSentAt == n.notificationSentAt
  {
    n.(rewardClaimed := true, rewardClaimedAt := Some(now))
  }

  /** Claiming again only moves the claim time. */
  lemma ClaimTwice(n: RewardNotification, first: Timestamp, second: Timestamp)
    ensures Claimed(Claimed(n, first), second) == Claimed(n, second)
    ensures Claimed(Claimed(n, first), second).(rewardClaimedAt := Some(first)) == Claimed(n, first)
  {
  }

  /** Serial ids (positive, increasing in insertion order, below the
      sequence's next value) and the unique phone number. */
  ghost predicate UsersWellFormed(users: seq<User>, nextId: nat)
  {
    && 0 < nextId
    && (forall i :: 0 <= i < |users| ==> 0 < users[i].id < nextId)
    && (forall i, j :: 0 <= i < j < |users| ==> users[i].id < users[j].id)
    && (forall i, j :: 0 <= i < j < |users| ==> users[i].phoneNumber != users[j].phoneNumber)
  }

  /** Serial ids and the foreign key `visits.user_id -> users.id`. */
  ghost predicate VisitsWellFormed(visits: seq<Visit>, nextId: nat, userIds: set<int>)
  {
    && 0 < nextId
    && (forall i :: 0 <= i < |visits| ==> 0 < visits[i].id < nextId)
    && (forall i, j :: 0 <= i < j < |visits| ==> visits[i].id < visits[j].id)
    && (forall i :: 0 <= i < |visits| ==> visits[i].userId in userIds)
  }

  /** Serial ids and the foreign key `reward_notifications.user_id -> users.id`. */
  ghost predicate NotificationsWellFormed(rows: seq<RewardNotification>, nextId: nat, userIds: set<int>)
  {
    && 0 < nextId
    && (forall i :: 0 <= i < |rows| ==> 0 < rows[i].id < nextId)
    && (forall i, j :: 0 <= i < j < |rows| ==> rows[i].id < rows[j].id)
    && (forall i :: 0 <= i < |rows| ==> rows[i].userId in userIds)
  }

  /** Every user's points equal its visit count modulo 5. */
  ghost predicate UsersInCycle(users: seq<User>)
  {
    forall i :: 0 <= i < |users| ==> InCycle(users[i].totalVisits, users[i].currentRewardPoints)
  }

  /** Rewriting one user row without touching its id or phone number. */
  lemma RewriteUser(users: seq<User>, nextId: nat, i: nat, u: User)
    requires UsersWellFormed(users, nextId) && i < |users|
    requires u.id == users[i].id && u.phoneNumber == users[i].phoneNumber
    ensures UsersWellFormed(users[i := u], nextId)
    ensures UserIds(users[i := u]) == UserIds(users)
    ensures UsersInCycle(users) && InCycle(u.totalVisits, u.currentRewardPoints) ==> UsersInCycle(users[i := u])
  {
    SameUserIds(users, users[i := u]);
  }

  /** Appending a user with the next id and an unused phone number. */
  lemma AppendUser(users: seq<User>, nextId: nat, u: User)
    requires UsersWellFormed(users, nextId) && u.id == nextId
    requires forall k :: 0 <= k < |users| ==> users[k].phoneNumber != u.phoneNumber
    ensures UsersWellFormed(users + [u], nextId + 1)
    ensures UserIds(users + [u]) == UserIds(users) + {u.id}
    ensures UsersInCycle(users) && InCycle(u.totalVisits, u.currentRewardPoints) ==> UsersInCycle(users + [u])
  {
    var s := users + [u];
    assert forall k :: 0 <= k < |users| ==> s[k] == users[k];
    assert s[|users|] == u;
    forall id | id in UserIds(s) ensures id in UserIds(users) + {u.id} {
      var k :| 0 <= k < |s| && s[k].id == id;
      if k < |users| { assert users[k].id == id; }
    }
    forall id | id in UserIds(users) + {u.id} ensures id in UserIds(s) {
      if id == u.id { assert s[|users|].id == id; }
      else {
        var k :| 0 <= k < |users| && users[k].id == id;
        assert s[k].id == id;
      }
    }
  }

  /** Appending a visit with the next id for an existing user. */
  lemma AppendVisit(visits: seq<Visit>, nextId: nat, userIds: set<int>, v: Visit)
    requires VisitsWellFormed(visits, nextId, userIds)
    requires v.id == nextId && v.userId in userIds
    ensures VisitsWellFormed(visits + [v], nextId + 1, userIds)
  {
    var s := visits + [v];
    assert forall k :: 0 <= k < |visits| ==> s[k] == visits[k];
  }

  /** Appending a notification with the next id for an existing user. */
  lemma AppendNotification(rows: seq<RewardNotification>, nextId: nat, userIds: set<int>, n: RewardNotification)
    requires NotificationsWellFormed(rows, nextId, userIds)
    requires n.id == nextId && n.userId in userIds
    ensures NotificationsWellFormed(rows + [n], nextId + 1, userIds)
  {
    var s := rows + [n];
    assert forall k :: 0 <= k < |rows| ==> s[k] == rows[k];
  }

  class Database {
    var users: seq<User>
    var visits: seq<Visit>
    var notifications: seq<RewardNotification>
    /** The next value of each table's `serial` id sequence. */
    var nextUserId: nat
    var nextVisitId: nat
    var nextNotificationId: nat

    /** The table constraints: serial ids, the unique phone number and the
        two foreign keys into `users`. */
    ghost predicate Valid()
      reads this
    {
      && UsersWellFormed(users, nextUserId)
      && VisitsWellFormed(visits, nextVisitId, UserIds(users))
      && NotificationsWellFormed(notifications, nextNotificationId, UserIds(users))
    }

    /** Every user's points equal its visit count modulo 5. */
    ghost predicate AllInCycle()
      reads this
    {
      UsersInCycle(users)
    }

    constructor ()
      ensures Valid() && AllInCycle()
      ensures users == [] && visits == [] && notifications == []
      ensures nextUserId == 1 && nextVisitId == 1 && nextNotificationId == 1
    {
      users, visits, notifications := [], [], [];
      nextUserId, nextVisitId, nextNotificationId := 1, 1, 1;
    }

    /** createUser: inserts a row with zero counters, no pass serial and
        both timestamps `now`; a phone number already in use violates the
        unique constraint and nothing is inserted. */
    method CreateUser(firstName: string, lastName: string, phoneNumber: string, now: Timestamp)
      returns (r: Result<User, Error>)
      requires Valid()
      modifies this
      ensures Valid()
      ensures FindByPhone(old(users), phoneNumber).Some? ==>
        r == Failure(DuplicatePhoneNumber(phoneNumber)) && unchanged(this)
      ensures FindByPhone(old(users), phoneNumber).None? ==>
        && r == Success(User(old(nextUserId), firstName, lastName, phoneNumber, 0, 0, None, now, now))
        && users == old(users) + [r.value]
        && (forall k :: 0 <= k < |old(users)| ==> old(users)[k].id < r.value.id)
        && visits == old(visits) && notifications == old(notifications)
        && nextUserId == old(nextUserId) + 1
        && nextVisitId == old(nextVisitId) && nextNotificationId == old(nextNotificationId)
      ensures old(AllInCycle()) ==> AllInCycle()
    {
      if FindByPhone(users, phoneNumber).Some? {
        return Failure(DuplicatePhoneNumber(phoneNumber));
      }
      var user := User(nextUserId, firstName, lastName, phoneNumber, 0, 0, None, now, now);
      AppendUser(users, nextUserId, user);
      users := users + [user];
      nextUserId := nextUserId + 1;
      r := Success(user);
    }

    /** recordVisit: the first user holding the serial gets one more visit
        under the points rule, and a visit row stamped `now` is appended. */
    method RecordVisit(serial: string, now: Timestamp) returns (r: Result<RecordVisitResult, Error>)
      requires Valid()
      modifies this
      ensures Valid()
      ensures FindBySerial(old(users), serial).None? ==>
        r == Failure(UserNotFoundWithSerial(serial)) && unchanged(this)
      ensures FindBySerial(old(users), serial).Some? ==>
        var i := FindBySerial(old(users), serial).value;
        var u := old(users)[i];
        var a := PointsRule(u.totalVisits, u.currentRewardPoints);
        && r.Success?
        && r.value.visit == Visit(old(nextVisitId), u.id, serial, now, 1, a.rewardTriggered)
        && visits == old(visits) + [r.value.visit]
        && users == old(users)[i := Accrued(u, a, now)]
        && r.value.user == users[i]
        && r.value.rewardTriggered == a.rewardTriggered
        && !r.value.isRewardEligible
        && notifications == old(notifications)
        && nextVisitId == old(nextVisitId) + 1
        && nextUserId == old(nextUserId) && nextNotificationId == old(nextNotificationId)
      ensures old(AllInCycle()) ==> AllInCycle()
    {
      var found := FindBySerial(users, serial);
      if found.None? {
        return Failure(UserNotFoundWithSerial(serial));
      }
      var i := found.value;
      var user := users[i];
      var a := PointsRule(user.totalVisits, user.currentRewardPoints);
      if UsersInCycle(users) {
        PointsRuleKeepsCycle(user.totalVisits, user.currentRewardPoints);
      }
      var visit := Accrue(i, serial, now, a, now);
      r := Success(RecordVisitResult(visit, users[i], users[i].currentRewardPoints >= RewardThreshold, a.rewardTriggered));
    }

    /** handlePassScanWebhook: like recordVisit but under the modulo rule,
        with the visit stamped at the reported scan time (`None` when the
        reported time does not parse, which fails before any write), and
        reporting whether the user is now one visit from a reward. */
    method HandlePassScanWebhook(serial: string, scannedAt: Option<Timestamp>, now: Timestamp)
      returns (r: Result<ScanResult, Error>)
      requires Valid()
      modifies this
      ensures Valid()
      ensures FindBySerial(old(users), serial).None? ==>
        r == Failure(UserNotFoundForSerial(serial)) && unchanged(this)
      ensures FindBySerial(old(users), serial).Some? && scannedAt.None? ==>
        r == Failure(InvalidTimeValue) && unchanged(this)
      ensures FindBySerial(old(users), serial).Some? && scannedAt.Some? ==>
        var i := FindBySerial(old(users), serial).value;
        var u := old(users)[i];
        var a := ModuloRule(u.totalVisits, u.currentRewardPoints);
        && visits == old(visits) + [Visit(old(nextVisitId), u.id, serial, scannedAt.value, 1, a.rewardTriggered)]
        && users == old(users)[i := Accrued(u, a, now)]
        && r == Success(ScanResult(old(nextVisitId), u.id, 1, users[i].totalVisits, users[i].currentRewardPoints,
                                   a.rewardTriggered, OneVisitAway(users[i].currentRewardPoints)))
        && notifications == old(notifications)
        && nextVisitId == old(nextVisitId) + 1
        && nextUserId == old(nextUserId) && nextNotificationId == old(nextNotificationId)
      ensures old(AllInCycle()) ==> AllInCycle()
    {
      var found := FindBySerial(users, serial);
      if found.None? {
        return Failure(UserNotFoundForSerial(serial));
      }
      var i := found.value;
      var user := users[i];
      var a := ModuloRule(user.totalVisits, user.currentRewardPoints);
      if scannedAt.None? {
        return Failure(InvalidTimeValue);
      }
      if UsersInCycle(users) {
        ModuloRuleKeepsCycle(user.totalVisits, user.currentRewardPoints);
      }
      var visit := Accrue(i, serial, scannedAt.value, a, now);
      r := Success(ScanResult(visit.id, user.id, 1, a.totalVisits, a.rewardPoints,
                              a.rewardTriggered, OneVisitAway(a.rewardPoints)));
    }

    /** The writes shared by the two accrual handlers: a visit row for
        user `i`, then that user's counters and `updated_at`. */
    method Accrue(i: nat, serial: string, visitedAt: Timestamp, a: Accrual, now: Timestamp) returns (visit: Visit)
      requires Valid() && i < |users|
      modifies this
      ensures Valid()
      ensures visit == Visit(old(nextVisitId), old(users)[i].id, serial, visitedAt, 1, a.rewardTriggered)
      ensures visits == old(visits) + [visit]
      ensures users == old(users)[i := Accrued(old(users)[i], a, now)]
      ensures notifications == old(notifications)
      ensures nextVisitId == old(nextVisitId) + 1
      ensures nextUserId == old(nextUserId) && nextNotificationId == old(nextNotificationId)
      ensures old(AllInCycle()) && InCycle(a.totalVisits, a.rewardPoints) ==> AllInCycle()
    {
      var user := users[i];
      visit := Visit(nextVisitId, user.id, serial, visitedAt, 1, a.rewardTriggered);
      assert user.id in UserIds(users);
      AppendVisit(visits, nextVisitId, UserIds(users), visit);
      visits := visits + [visit];
      nextVisitId := nextVisitId + 1;
      var updated := Accrued(user, a, now);
      RewriteUser(users, nextUserId, i, updated);
      users := users[i := updated];
    }

    /** updateUserPassSerial: overwrites the serial of user `userId`. */
    method UpdateUserPassSerial(userId: int, serial: string, now: Timestamp) returns (r: Result<User, Error>)
      requires Valid()
      modifies this
      ensures Valid()
      ensures FindUserById(old(users), userId).None? ==>
        r == Failure(UserIdNotFound(userId)) && unchanged(this)
      ensures FindUserById(old(users), userId).Some? ==>
        var i := FindUserById(old(users), userId).value;
        && users == old(users)[i := AssignSerial(old(users)[i], serial, now)]
        && r == Success(users[i])
        && visits == old(visits) && notifications == old(notifications)
        && nextUserId == old(nextUserId) && nextVisitId == old(nextVisitId)
        && nextNotificationId == old(nextNotificationId)
      ensures old(AllInCycle()) ==> AllInCycle()
    {
      var found := FindUserById(users, userId);
      if found.None? {
        return Failure(UserIdNotFound(userId));
      }
      SetSerial(found.value, serial, now);
      r := Success(users[found.value]);
    }

    /** handlePassCreationWebhook: the same update, driven by the wallet
        service's payload; its URL and pass type are not stored. */
    method HandlePassCreationWebhook(payload: PassCreationPayload, now: Timestamp) returns (r: Result<User, Error>)
      requires Valid()
      modifies this
      ensures Valid()
      ensures FindUserById(old(users), payload.userId).None? ==>
        r == Failure(UserIDNotFound(payload.userId)) && unchanged(this)
      ensures FindUserById(old(users), payload.userId).Some? ==>
        var i := FindUserById(old(users), payload.userId).value;
        && users == old(users)[i := AssignSerial(old(users)[i], payload.passSerialNumber, now)]
        && r == Success(users[i])
        && visits == old(visits) && notifications == old(notifications)
        && nextUserId == old(nextUserId) && nextVisitId == old(nextVisitId)
        && nextNotificationId == old(nextNotificationId)
      ensures old(AllInCycle()) ==> AllInCycle()
    {
      var found := FindUserById(users, payload.userId);
      if found.None? {
        return Failure(UserIDNotFound(payload.userId));
      }
      SetSerial(found.value, payload.passSerialNumber, now);
      r := Success(users[found.value]);
    }

    /** The row update shared by the two serial handlers. */
    method SetSerial(i: nat, serial: string, now: Timestamp)
      requires Valid() && i < |users|
      modifies this
      ensures Valid()
      ensures users == old(users)[i := AssignSerial(old(users)[i], serial, now)]
      ensures visits == old(visits) && notifications == old(notifications)
      ensures nextUserId == old(nextUserId) && nextVisitId == old(nextVisitId)
      ensures nextNotificationId == old(nextNotificationId)
      ensures old(AllInCycle()) ==> AllInCycle()
    {
      var updated := AssignSerial(users[i], serial, now);
      RewriteUser(users, nextUserId, i, updated);
      users := users[i := updated];
    }

    /** createRewardNotification: appends an unclaimed notification sent
        `now`; a user id with no user violates the foreign key. */
    method CreateRewardNotification(userId: int, now: Timestamp) returns (r: Result<RewardNotification, Error>)
      requires Valid()
      modifies this
      ensures Valid()
      ensures userId !in UserIds(old(users)) ==>
        r == Failure(UserForeignKeyViolation(userId)) && unchanged(this)
      ensures userId in UserIds(old(users)) ==>
        && r == Success(RewardNotification(old(nextNotificationId), userId, now, false, None))
        && notifications == old(notifications) + [r.value]
        && (forall k :: 0 <= k < |old(notifications)| ==> old(notifications)[k].id < r.value.id)
        && users == old(users) && visits == old(visits)
        && nextNotificationId == old(nextNotificationId) + 1
        && nextUserId == old(nextUserId) && nextVisitId == old(nextVisitId)
      ensures AllInCycle() == old(AllInCycle())
    {
      if userId !in UserIds(users) {
        return Failure(UserForeignKeyViolation(userId));
      }
      var row := RewardNotification(nextNotificationId, userId, now, false, None);
      AppendNotification(notifications, nextNotificationId, UserIds(users), row);
      notifications := notifications + [row];
      nextNotificationId := nextNotificationId + 1;
      r := Success(row);
    }

    /** claimReward: marks notification `notificationId` claimed at `now`,
        whether or not it was claimed before. */
    method ClaimReward(notificationId: int, now: Timestamp) returns (r: Result<RewardNotification, Error>)
      requires Valid()
      modifies this
      ensures Valid()
      ensures FindNotification(old(notifications), notificationId).None? ==>
        r == Failure(RewardNotificationNotFound) && unchanged(this)
      ensures FindNotification(old(notifications), notificationId).Some? ==>
        var i := FindNotification(old(notifications), notificationId).value;
        && notifications == old(notifications)[i := Claimed(old(notifications)[i], now)]
        && r == Success(notifications[i])
        && users == old(users) && visits == old(visits)
        && nextUserId == old(nextUserId) && nextVisitId == old(nextVisitId)
        && nextNotificationId == old(nextNotificationId)
      ensures AllInCycle() == old(AllInCycle())
    {
      var found := FindNotification(notifications, notificationId);
      if found.None? {
        return Failure(RewardNotificationNotFound);
      }
      var i := found.value;
      var claimed := Claimed(notifications[i], now);
      assert forall k :: 0 <= k < |notifications| && k != i ==> notifications[i := claimed][k] == notifications[k];
      notifications := notifications[i := claimed];
      r := Success(notifications[i]);
    }

    /** getUserWithStats: the row with id `userId`, or null, with the
        threshold projection of its points. */
    function GetUserWithStats(userId: int): (r: Option<UserWithStats>)
      reads this
      ensures r.None? <==> forall k :: 0 <= k < |users| ==> users[k].id != userId
      ensures r.Some? ==> r.value.user in users && r.value.user.id == userId
      ensures r.Some? ==> (r.value.isEligibleForReward <==> r.value.user.currentRewardPoints >= RewardThreshold)
      ensures r.Some? ==> (r.value.visitsUntilReward == 0 <==> r.value.isEligibleForReward)
      ensures r.Some? && !r.value.isEligibleForReward ==>
        r.value.visitsUntilReward == RewardThreshold - r.value.user.currentRewardPoints
    {
      match FindUserById(users, userId)
      case None => None
      case Some(i) =>
        var s := StatsWithThreshold(users[i].currentRewardPoints);
        Some(UserWithStats(users[i], s.isEligibleForReward, s.visitsUntilReward))
    }

    /** getUserById: the row with id `userId`, or null, with the
        `Math.max` projection of its points. */
    function GetUserById(userId: int): (r: Option<UserWithStats>)
      reads this
      ensures r.None? <==> forall k :: 0 <= k < |users| ==> users[k].id != userId
      ensures r.Some? ==> r.value.user in users && r.value.user.id == userId
      ensures r.Some? ==> (r.value.isEligibleForReward <==> r.value.user.currentRewardPoints >= RewardThreshold)
      ensures r.Some? ==> r.value.visitsUntilReward >= 0
      ensures r.Some? ==> r.value.visitsUntilReward >= RewardThreshold - r.value.user.currentRewardPoints
      ensures r.Some? ==> (r.value.visitsUntilReward == 0
                       || r.value.visitsUntilReward == RewardThreshold - r.value.user.currentRewardPoints)
    {
      match FindUserById(users, userId)
      case None => None
      case Some(i) =>
        var s := StatsWithMax(users[i].currentRewardPoints);
        Some(UserWithStats(users[i], s.isEligibleForReward, s.visitsUntilReward))
    }

    /** The two user queries return the same view. */
    lemma ByIdAgreesWithStats(userId: int)
      ensures GetUserById(userId) == GetUserWithStats(userId)
    {
      if FindUserById(users, userId).Some? {
        ProjectionsAgree(users[FindUserById(users, userId).value].currentRewardPoints);
      }
    }

    /** getUserByPhone: the row with that exact phone number, or null. */
    function GetUserByPhone(phoneNumber: string): (r: Option<User>)
      reads this
      ensures r.None? <==> forall k :: 0 <= k < |users| ==> users[k].phoneNumber != phoneNumber
      ensures r.Some? ==> r.value in users && r.value.phoneNumber == phoneNumber
    {
      match FindByPhone(users, phoneNumber)
      case None => None
      case Some(i) => Some(users[i])
    }

    /** Phone numbers are unique, so the row found is the only match. */
    lemma PhoneMatchIsUnique(phoneNumber: string, k: nat)
      requires Valid()
      requires k < |users| && users[k].phoneNumber == phoneNumber
      ensures GetUserByPhone(phoneNumber) == Some(users[k])
    {
      var i := FindByPhone(users, phoneNumber).value;
      assert !(i < k) && !(k < i);
    }

    /** getUserVisits: exactly the user's visits, newest first. */
    function GetUserVisits(userId: int): (r: seq<Visit>)
      reads this
      ensures forall i :: 0 <= i < |r| ==> r[i].userId == userId
      ensures forall v :: multiset(r)[v] == if v.userId == userId then multiset(visits)[v] else 0
      ensures forall i, j :: 0 <= i < j < |r| ==> r[i].visitedAt >= r[j].visitedAt
      ensures (forall k :: 0 <= k < |visits| ==> visits[k].userId != userId) ==> r == []
    {
      Listing.SelectDesc(visits, (v: Visit) => v.userId == userId, (v: Visit) => v.visitedAt)
    }

    /** getUserRewardNotifications: exactly the user's notifications,
        newest first, with their stored claim state. */
    function GetUserRewardNotifications(userId: int): (r: seq<RewardNotification>)
      reads this
      ensures forall i :: 0 <= i < |r| ==> r[i].userId == userId
      ensures forall n :: multiset(r)[n] == if n.userId == userId then multiset(notifications)[n] else 0
      ensures forall i, j :: 0 <= i < j < |r| ==> r[i].notificationSentAt >= r[j].notificationSentAt
      ensures (forall k :: 0 <= k < |notifications| ==> notifications[k].userId != userId) ==> r == []
    {
      Listing.SelectDesc(notifications, (n: RewardNotification) => n.userId == userId,
                         (n: RewardNotification) => n.notificationSentAt)
    }
  }
}
