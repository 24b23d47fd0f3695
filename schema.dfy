/** Rows of the three tables (users, visits, reward_notifications) and the
    errors the handlers raise. Timestamps are an abstract clock value. */
module Schema {
  import opened Wrappers
  import opened Text
  import Listing

  type Timestamp = nat

  /** A row of `users`. `passSerialNumber` is nullable and not unique. */
  datatype User = User(
    id: nat,
    firstName: string,
    lastName: string,
    phoneNumber: string,
    totalVisits: nat,
    currentRewardPoints: nat,
    passSerialNumber: Option<string>,
    createdAt: Timestamp,
    updatedAt: Timestamp)

  /** A row of `visits`. */
  datatype Visit = Visit(
    id: nat,
    userId: nat,
    passSerialNumber: string,
    visitedAt: Timestamp,
    rewardPointsEarned: int,
    isRewardVisit: bool)

  /** A row of `reward_notifications`. */
  datatype RewardNotification = RewardNotification(
    id: nat,
    userId: nat,
    notificationSentAt: Timestamp,
    rewardClaimed: bool,
    rewardClaimedAt: Option<Timestamp>)

  /** What a handler throws. The first five carry the handler's own
      message; the last three come from the database or the driver. */
  datatype Error =
    | UserNotFoundWithSerial(serial: string)
    | UserNotFoundForSerial(serial: string)
    | UserIdNotFound(userId: int)
    | UserIDNotFound(userId: int)
    | RewardNotificationNotFound
    | DuplicatePhoneNumber(phoneNumber: string)
    | UserForeignKeyViolation(userId: int)
    | InvalidTimeValue
  {
    /** The handler-raised errors, whose text the handlers write out. */
    predicate HasHandlerMessage()
    {
      !DuplicatePhoneNumber? && !UserForeignKeyViolation?
    }

    /** The text the handler throws. A serial error ends with the serial;
        an id error has the id in decimal between a fixed prefix and
        " not found". */
    function Message(): (m: string)
      requires HasHandlerMessage()
      ensures (UserNotFoundWithSerial? || UserNotFoundForSerial?) ==>
        |m| >= |serial| && m[|m| - |serial|..] == serial
      ensures (UserIdNotFound? || UserIDNotFound?) ==>
        |m| >= 23 && m[13..|m| - 10] == IntToString(userId) && m[|m| - 10..] == " not found"
    {
      match this
      case UserNotFoundWithSerial(s) => "User not found with pass serial number: " + s
      case UserNotFoundForSerial(s) => "User not found for pass serial number: " + s
      case UserIdNotFound(n) => "User with id " + IntToString(n) + " not found"
      case UserIDNotFound(n) => "User with ID " + IntToString(n) + " not found"
      case RewardNotificationNotFound => "Reward notification not found"
      case InvalidTimeValue => "Invalid time value"
    }
  }

  /** `${n}` for an integer: a '-' exactly for negative numbers, then the
      decimal digits of its magnitude. */
  function IntToString(n: int): (r: string)
    ensures |r| >= 1 && (r[0] == '-' <==> n < 0)
    ensures n < 0 ==> IsDigits(r[1..]) && DigitsValue(r[1..]) == -n
    ensures n >= 0 ==> IsDigits(r) && DigitsValue(r) == n
  {
    if n < 0 then
      var r := "-" + NatToString(-n);
      assert r[1..] == NatToString(-n);
      r
    else NatToString(n)
  }

  /** Different integers render differently. */
  lemma IntToStringInjective(n: int, k: int)
    requires IntToString(n) == IntToString(k)
    ensures n == k
  {
  }

  /** Two failures of the same kind with the same message are about the
      same serial or the same user id. */
  lemma MessageIdentifiesSubject(a: Error, b: Error)
    requires a.HasHandlerMessage() && b.HasHandlerMessage()
    requires || (a.UserNotFoundWithSerial? && b.UserNotFoundWithSerial?)
             || (a.UserNotFoundForSerial? && b.UserNotFoundForSerial?)
             || (a.UserIdNotFound? && b.UserIdNotFound?)
             || (a.UserIDNotFound? && b.UserIDNotFound?)
    requires a.Message() == b.Message()
    ensures a == b
  {
    if a.UserIdNotFound? || a.UserIDNotFound? {
      IntToStringInjective(a.userId, b.userId);
    } else {
      assert |a.serial| == |b.serial|;
    }
  }

  /** The ids present in a table of users. */
  function UserIds(users: seq<User>): set<int>
  {
    set k | 0 <= k < |users| :: users[k].id
  }

  /** Rewriting rows without touching their ids keeps the id set. */
  lemma SameUserIds(a: seq<User>, b: seq<User>)
    requires |a| == |b|
    requires forall k :: 0 <= k < |a| ==> a[k].id == b[k].id
    ensures UserIds(a) == UserIds(b)
  {
    forall id | id in UserIds(a) ensures id in UserIds(b) {
      var k :| 0 <= k < |a| && a[k].id == id;
      assert b[k].id == id;
    }
    forall id | id in UserIds(b) ensures id in UserIds(a) {
      var k :| 0 <= k < |b| && b[k].id == id;
      assert a[k].id == id;
    }
  }

  /** `where users.pass_serial_number = serial`, first row. */
  function FindBySerial(users: seq<User>, serial: string): (r: Option<nat>)
    ensures r.Some? ==> r.value < |users| && users[r.value].passSerialNumber == Some(serial)
    ensures r.Some? ==> forall j :: 0 <= j < r.value ==> users[j].passSerialNumber != Some(serial)
    ensures r.None? <==> forall j :: 0 <= j < |users| ==> users[j].passSerialNumber != Some(serial)
  {
    Listing.FirstIndex(users, (u: User) => u.passSerialNumber == Some(serial))
  }

  /** `where users.id = userId`, first row. */
  function FindUserById(users: seq<User>, userId: int): (r: Option<nat>)
    ensures r.Some? ==> r.value < |users| && users[r.value].id == userId
    ensures r.Some? ==> forall j :: 0 <= j < r.value ==> users[j].id != userId
    ensures r.None? <==> forall j :: 0 <= j < |users| ==> users[j].id != userId
  {
    Listing.FirstIndex(users, (u: User) => u.id == userId)
  }

  /** `where users.phone_number = phoneNumber`, first row. */
  function FindByPhone(users: seq<User>, phoneNumber: string): (r: Option<nat>)
    ensures r.Some? ==> r.value < |users| && users[r.value].phoneNumber == phoneNumber
    ensures r.Some? ==> forall j :: 0 <= j < r.value ==> users[j].phoneNumber != phoneNumber
    ensures r.None? <==> forall j :: 0 <= j < |users| ==> users[j].phoneNumber != phoneNumber
  {
    Listing.FirstIndex(users, (u: User) => u.phoneNumber == phoneNumber)
  }

  /** `where reward_notifications.id = notificationId`, first row. */
  function FindNotification(rows: seq<RewardNotification>, notificationId: int): (r: Option<nat>)
    ensures r.Some? ==> r.value < |rows| && rows[r.value].id == notificationId
    ensures r.Some? ==> forall j :: 0 <= j < r.value ==> rows[j].id != notificationId
    ensures r.None? <==> forall j :: 0 <= j < |rows| ==> rows[j].id != notificationId
  {
    Listing.FirstIndex(rows, (n: RewardNotification) => n.id == notificationId)
  }
}
