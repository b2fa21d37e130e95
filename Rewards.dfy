/**
 * The rewards service: redeeming a reward (`POST /rewards/:rewardId/redeem`)
 * and the pure rules of the two listings (`GET /rewards`,
 * `GET /rewards/redeemed`): the status filters, the list-time eligibility,
 * the displayed status of a redemption and the pagination arithmetic.
 *
 * Redemption is modelled twice: `Redeem` is the request as a function from
 * the store before to the response and the store after, and
 * `RewardsService.RedeemReward` performs it step by step on a mutable store,
 * taking a snapshot at BEGIN and restoring it on ROLLBACK. Times are
 * milliseconds; share counts are exact reals.
 */
module Rewards {
  import opened Wrappers

  type Id = string

  /** A redemption stays usable for 30 days, or until the reward ends if that is sooner. */
  const RedemptionWindowMs: int := 30 * DayMs

  datatype Reward = Reward(
    teamId: Id, name: string, description: string, rewardType: string,
    isActive: bool, startDate: int, endDate: Option<int>, remaining: int,
    requiredShares: Option<real>, requiredHoldDays: Option<int>)

  /** A row of the holdings of a user's portfolio, as the eligibility queries join them. */
  datatype HoldingRow = HoldingRow(userId: Id, teamId: Id, shares: real, createdAt: int)

  datatype UserReward = UserReward(
    userId: Id, rewardId: Id, status: string, redemptionCode: string, redeemedAt: int, expiresAt: int)

  /** A `reward_redemption` activity; its metadata holds the reward's id and name. */
  datatype Activity = Activity(activityId: Id, userId: Id, activityType: string, referenceId: Id, rewardId: Id, rewardName: string)

  /** The tables redemption reads and writes; teams appear only through their names. */
  datatype Store = Store(
    rewards: map<Id, Reward>,
    teamNames: map<Id, string>,
    holdings: seq<HoldingRow>,
    userRewards: map<Id, UserReward>,
    activities: seq<Activity>)

  /** The ids `uuidv4` supplies and the random code suffix `Math.random` supplies. */
  datatype RedemptionIds = RedemptionIds(userRewardId: Id, activityId: Id, codeSuffix: string)

  datatype Response =
    | Redeemed(userRewardId: Id, redemptionCode: string, redeemInstructions: string, expiresAt: int, message: string)
    | Refused(httpStatus: int, code: string, message: string)
  {
    function HttpStatus(): int
    {
      if Redeemed? then 200 else httpStatus
    }
  }

  const Unauthorized := Refused(401, "UNAUTHORIZED", "User ID is required")
  const RewardNotFound := Refused(404, "REWARD_NOT_FOUND", "Reward not found")
  const RewardInactive := Refused(403, "REWARD_INACTIVE", "This reward is not currently active")
  const RewardNotStarted := Refused(403, "REWARD_NOT_STARTED", "This reward is not yet available")
  const RewardExpired := Refused(403, "REWARD_EXPIRED", "This reward has expired")
  const OutOfStock := Refused(409, "REWARD_OUT_OF_STOCK", "This reward is no longer available")
  const AlreadyRedeemed := Refused(409, "REWARD_ALREADY_REDEEMED", "You have already redeemed this reward")
  const NotEligible := Refused(403, "NOT_ELIGIBLE", "You do not meet the requirements for this reward")
  const InternalError := Refused(500, "INTERNAL_SERVER_ERROR", "An error occurred while redeeming the reward")
  const SuccessPrefix := "You have successfully redeemed: "

  // ---------------------------------------------------------------------------
  // Shareholding requirements
  // ---------------------------------------------------------------------------

  /** The user's total shares in a team, zero when they hold none. */
  function TotalShares(holdings: seq<HoldingRow>, userId: Id, teamId: Id): (r: real)
    ensures (forall i :: 0 <= i < |holdings| ==> holdings[i].userId != userId || holdings[i].teamId != teamId) ==> r == 0.0
  {
    if holdings == [] then 0.0
    else
      var last := holdings[|holdings| - 1];
      TotalShares(holdings[..|holdings| - 1], userId, teamId)
        + (if last.userId == userId && last.teamId == teamId then last.shares else 0.0)
  }

  /** Some holding of the user in the team was created no later than `cutoff`. */
  predicate HeldSince(holdings: seq<HoldingRow>, userId: Id, teamId: Id, cutoff: int)
    ensures (forall i :: 0 <= i < |holdings| ==> holdings[i].userId != userId || holdings[i].teamId != teamId)
            ==> !HeldSince(holdings, userId, teamId, cutoff)
  {
    exists i :: 0 <= i < |holdings| && holdings[i].userId == userId && holdings[i].teamId == teamId
                && holdings[i].createdAt <= cutoff
  }

  /** Redemption-time eligibility: every requirement that is set (non-zero) is met. */
  predicate RedeemEligible(holdings: seq<HoldingRow>, userId: Id, reward: Reward, now: int)
    ensures !TruthyNumber(reward.requiredShares) && !TruthyInt(reward.requiredHoldDays) ==> RedeemEligible(holdings, userId, reward, now)
    ensures holdings == [] && TruthyNumber(reward.requiredShares) && reward.requiredShares.value > 0.0
            ==> !RedeemEligible(holdings, userId, reward, now)
  {
    && (TruthyNumber(reward.requiredShares) ==>
          TotalShares(holdings, userId, reward.teamId) >= reward.requiredShares.value)
    && (TruthyInt(reward.requiredHoldDays) ==>
          HeldSince(holdings, userId, reward.teamId, now - reward.requiredHoldDays.value * DayMs))
  }

  /**
   * Listing-time eligibility, a SQL CASE: a share requirement, when present
   * (even zero), is the only test; otherwise a hold-days requirement, when
   * present (even zero); otherwise eligible.
   */
  function ListEligible(holdings: seq<HoldingRow>, userId: Id, reward: Reward, now: int): (r: bool)
    ensures reward.requiredShares.Some? ==> (r <==> TotalShares(holdings, userId, reward.teamId) >= reward.requiredShares.value)
    ensures reward.requiredShares.None? && reward.requiredHoldDays.Some? ==>
              (r <==> HeldSince(holdings, userId, reward.teamId, now - reward.requiredHoldDays.value * DayMs))
    ensures reward.requiredShares.None? && reward.requiredHoldDays.None? ==> r
  {
    match reward.requiredShares
    case Some(required) => TotalShares(holdings, userId, reward.teamId) >= required
    case None =>
      match reward.requiredHoldDays
      case Some(days) => HeldSince(holdings, userId, reward.teamId, now - days * DayMs)
      case None => true
  }

  /** No holding row has negative shares. */
  predicate SharesNonNegative(holdings: seq<HoldingRow>)
  {
    forall i :: 0 <= i < |holdings| ==> holdings[i].shares >= 0.0
  }

  lemma {:induction false} TotalSharesNonNegative(holdings: seq<HoldingRow>, userId: Id, teamId: Id)
    requires SharesNonNegative(holdings)
    ensures TotalShares(holdings, userId, teamId) >= 0.0
  {
    if holdings != [] {
      TotalSharesNonNegative(holdings[..|holdings| - 1], userId, teamId);
    }
  }

  /**
   * A user who may redeem is also shown as eligible, except when the only
   * requirement is a hold of zero days: the listing then still asks for
   * some holding, the redemption asks for none.
   */
  lemma RedeemEligibleIsListed(holdings: seq<HoldingRow>, userId: Id, reward: Reward, now: int)
    requires SharesNonNegative(holdings)
    requires !(reward.requiredShares.None? && reward.requiredHoldDays == Some(0))
    requires RedeemEligible(holdings, userId, reward, now)
    ensures ListEligible(holdings, userId, reward, now)
  {
    TotalSharesNonNegative(holdings, userId, reward.teamId);
  }

  /**
   * A user shown as eligible may redeem, unless the reward sets both a share
   * and a hold-days requirement: the listing then ignores the hold days.
   */
  lemma ListedIsRedeemEligible(holdings: seq<HoldingRow>, userId: Id, reward: Reward, now: int)
    requires reward.requiredShares.None? || !TruthyInt(reward.requiredHoldDays)
    requires ListEligible(holdings, userId, reward, now)
    ensures RedeemEligible(holdings, userId, reward, now)
  {
  }

  /**
   * The rules also part the other way for a zero-day hold and no share
   * requirement: redemption ignores a hold of 0 days, but the listing's CASE
   * still asks for some holding, so a user with none may redeem a reward
   * the listing shows as not eligible.
   */
  lemma ZeroHoldDaysRedeemableButNotListed()
    ensures var reward := Reward("t", "Meet the team", "", "experience", true, 0, None, 5, None, Some(0));
            RedeemEligible([], "u", reward, 100 * DayMs) && !ListEligible([], "u", reward, 100 * DayMs)
  {
  }

  /** The two rules part: a reward needing 10 shares held 30 days is listed as eligible for a day-old holding of 10, but cannot be redeemed. */
  lemma ListingIgnoresHoldDaysWhenSharesRequired()
    ensures var holdings := [HoldingRow("u", "t", 10.0, 100 * DayMs - DayMs)];
            var reward := Reward("t", "Signed ball", "", "merchandise", true, 0, None, 5, Some(10.0), Some(30));
            ListEligible(holdings, "u", reward, 100 * DayMs) && !RedeemEligible(holdings, "u", reward, 100 * DayMs)
  {
    var holdings := [HoldingRow("u", "t", 10.0, 100 * DayMs - DayMs)];
    assert TotalShares(holdings, "u", "t") == TotalShares([], "u", "t") + 10.0;
  }

  // ---------------------------------------------------------------------------
  // Listing filters and display
  // ---------------------------------------------------------------------------

  /** `status=active`: live now and in stock. */
  predicate ActiveFilter(reward: Reward, now: int)
    ensures ActiveFilter(reward, now) ==> reward.isActive && reward.remaining > 0 && reward.startDate <= now
  {
    reward.isActive && reward.startDate <= now && (reward.endDate.None? || reward.endDate.value >= now) && reward.remaining > 0
  }

  /** `status=upcoming`: switched on but not yet started. */
  predicate UpcomingFilter(reward: Reward, now: int)
    ensures UpcomingFilter(reward, now) ==> reward.isActive && !ActiveFilter(reward, now)
  {
    reward.isActive && reward.startDate > now
  }

  /** The listing's row filter: team and type when given, then the status filter; other statuses filter nothing. */
  predicate ListFilter(reward: Reward, teamId: string, rewardType: string, status: string, now: int)
  {
    && (teamId != "" ==> reward.teamId == teamId)
    && (rewardType != "all" ==> reward.rewardType == rewardType)
    && (status == "active" ==> ActiveFilter(reward, now))
    && (status == "upcoming" ==> UpcomingFilter(reward, now))
  }

  /**
   * The status filter only narrows the team and type filters: `active` and
   * `upcoming` select disjoint rows, any other status selects the same rows
   * as no status filter, and with no team, type `all` and such a status
   * every reward is listed.
   */
  lemma ListFilterStatus(reward: Reward, teamId: string, rewardType: string, status: string, now: int)
    ensures ListFilter(reward, teamId, rewardType, status, now) ==> ListFilter(reward, teamId, rewardType, "all", now)
    ensures !(ListFilter(reward, teamId, rewardType, "active", now) && ListFilter(reward, teamId, rewardType, "upcoming", now))
    ensures ListFilter(reward, teamId, rewardType, "active", now) <==>
              ListFilter(reward, teamId, rewardType, "all", now) && ActiveFilter(reward, now)
    ensures status !in {"active", "upcoming"} ==>
              (ListFilter(reward, teamId, rewardType, status, now) <==> ListFilter(reward, teamId, rewardType, "all", now))
    ensures status !in {"active", "upcoming"} ==> ListFilter(reward, "", "all", status, now)
  {
    ActiveAndUpcomingDisjoint(reward, now);
  }

  /** No reward is both active and upcoming. */
  lemma ActiveAndUpcomingDisjoint(reward: Reward, now: int)
    ensures !(ActiveFilter(reward, now) && UpcomingFilter(reward, now))
  {
  }

  /** The status a redemption is shown with: `expired` once its expiry has passed, its stored status before. */
  function DisplayStatus(userReward: UserReward, now: int): (r: string)
    ensures userReward.expiresAt <= now ==> r == "expired"
    ensures userReward.expiresAt > now ==> r == userReward.status
  {
    if userReward.expiresAt <= now then "expired" else userReward.status
  }

  /** `status=active` on the redeemed list: redeemed and not yet expired. */
  predicate RedeemedActiveFilter(userReward: UserReward, now: int)
    ensures RedeemedActiveFilter(userReward, now) ==> DisplayStatus(userReward, now) == "redeemed"
  {
    userReward.status == "redeemed" && userReward.expiresAt > now
  }

  /** `status=expired` on the redeemed list: marked expired, or redeemed and past its expiry. */
  predicate RedeemedExpiredFilter(userReward: UserReward, now: int)
    ensures RedeemedExpiredFilter(userReward, now) ==> DisplayStatus(userReward, now) == "expired"
    ensures RedeemedExpiredFilter(userReward, now) ==> !RedeemedActiveFilter(userReward, now)
  {
    userReward.status == "expired" || (userReward.status == "redeemed" && userReward.expiresAt <= now)
  }

  /**
   * The redeemed-list filters agree with the displayed status: the active
   * filter keeps exactly what is shown as `redeemed`, and for the two stored
   * statuses the expired filter keeps exactly what is shown as `expired`.
   */
  lemma RedeemedFiltersMatchDisplay(userReward: UserReward, now: int)
    ensures RedeemedActiveFilter(userReward, now) <==> DisplayStatus(userReward, now) == "redeemed"
    ensures RedeemedExpiredFilter(userReward, now) ==> DisplayStatus(userReward, now) == "expired"
    ensures userReward.status in {"redeemed", "expired"} ==>
              (RedeemedExpiredFilter(userReward, now) <==> DisplayStatus(userReward, now) == "expired")
    ensures !(RedeemedActiveFilter(userReward, now) && RedeemedExpiredFilter(userReward, now))
  {
  }

  // ---------------------------------------------------------------------------
  // Pagination
  // ---------------------------------------------------------------------------

  /** The first row of `page` (counted from 1) when pages hold `limit` rows. */
  function Offset(page: int, limit: int): (r: int)
    ensures page >= 1 && limit >= 0 ==> r >= 0
  {
    (page - 1) * limit
  }

  /** Consecutive pages are adjacent: each starts `limit` rows after the one before. */
  lemma OffsetsAdjacent(page: int, limit: int)
    ensures Offset(page + 1, limit) == Offset(page, limit) + limit
  {
  }

  /**
   * The number of pages needed for `totalItems` rows, `limit` to a page,
   * rounding up; no page count exists for a limit that is not positive.
   */
  function TotalPages(totalItems: nat, limit: int): (r: Option<nat>)
    ensures r.Some? <==> limit > 0
    ensures r.Some? ==> (r.value - 1) * limit < totalItems <= r.value * limit || (totalItems == 0 && r.value == 0)
  {
    if limit <= 0 then None
    else
      var pages := (totalItems + limit - 1) / limit;
      PagesBound(totalItems, limit);
      Some(pages)
  }

  lemma PagesBound(totalItems: nat, limit: int)
    requires limit > 0
    ensures var pages := (totalItems + limit - 1) / limit;
            (pages - 1) * limit < totalItems <= pages * limit || (totalItems == 0 && pages == 0)
  {
    var pages := (totalItems + limit - 1) / limit;
    var rest := (totalItems + limit - 1) % limit;
    assert pages * limit + rest == totalItems + limit - 1;
  }

  /** Every row falls on exactly one page between 1 and the page count: the one starting at its offset's floor. */
  lemma PagesCoverItems(totalItems: nat, limit: int, i: nat)
    requires limit > 0 && i < totalItems
    ensures var page := i / limit + 1;
            && 1 <= page <= TotalPages(totalItems, limit).value
            && Offset(page, limit) <= i < Offset(page, limit) + limit
  {
    var q := i / limit;
    var pages := TotalPages(totalItems, limit).value;
    FloorDivision(i, limit);
    assert q * limit <= i < pages * limit;
    LessByFactor(q, pages, limit);
  }

  /** Integer division rounds down: the row's page starts at or before it and ends after it. */
  lemma FloorDivision(i: nat, limit: int)
    requires limit > 0
    ensures (i / limit) * limit <= i < (i / limit) * limit + limit
  {
    assert (i / limit) * limit + i % limit == i;
  }

  /** Multiplying by a positive factor keeps strict order, so the order carries back to the factors. */
  lemma LessByFactor(a: int, b: int, c: int)
    requires c > 0 && a * c < b * c
    ensures a < b
  {
  }

  // ---------------------------------------------------------------------------
  // Redemption as a function of the store
  // ---------------------------------------------------------------------------

  function UpperAscii(c: char): (r: char)
  {
    if 'a' <= c <= 'z' then (c as int - 'a' as int + 'A' as int) as char else c
  }

  predicate IsLowerAscii(c: char)
  {
    'a' <= c <= 'z'
  }

  /** ASCII upper-casing, character by character. */
  function Upper(s: string): (r: string)
    ensures |r| == |s|
    ensures forall i :: 0 <= i < |s| ==> r[i] == UpperAscii(s[i]) && !IsLowerAscii(r[i])
  {
    seq(|s|, i requires 0 <= i < |s| => UpperAscii(s[i]))
  }

  /** The redemption code: the team name's first three characters upper-cased, a dash, the upper-cased suffix. */
  function RedemptionCode(teamName: string, suffix: string): (r: string)
    ensures |r| == (if |teamName| < 3 then |teamName| else 3) + 1 + |suffix|
    ensures r[if |teamName| < 3 then |teamName| else 3] == '-'
  {
    Upper(teamName[..if |teamName| < 3 then |teamName| else 3]) + "-" + Upper(suffix)
  }

  /**
   * The code splits back into its parts: at most three upper-cased name
   * characters, the dash right after them, and the upper-cased suffix; no
   * ASCII lower-case letter appears anywhere.
   */
  lemma RedemptionCodeShape(teamName: string, suffix: string)
    ensures var k := if |teamName| < 3 then |teamName| else 3;
            var code := RedemptionCode(teamName, suffix);
            && |code| == k + 1 + |suffix|
            && code[..k] == Upper(teamName[..k])
            && code[k] == '-'
            && code[k + 1..] == Upper(suffix)
            && (forall i :: 0 <= i < |code| ==> !IsLowerAscii(code[i]))
  {
    var k := if |teamName| < 3 then |teamName| else 3;
    var code := RedemptionCode(teamName, suffix);
    var prefix, rest := Upper(teamName[..k]), Upper(suffix);
    assert code == prefix + "-" + rest;
    assert code[..k] == prefix;
    assert code[k + 1..] == rest;
    forall i | 0 <= i < |code| ensures !IsLowerAscii(code[i]) {
      if i < k {
        assert code[i] == prefix[i];
      } else if i > k {
        assert code[i] == rest[i - k - 1];
      }
    }
  }

  /** The redemption's expiry: 30 days from now, or the reward's end when that is earlier. */
  function ExpiresAt(reward: Reward, now: int): (r: int)
    ensures r <= now + RedemptionWindowMs
    ensures reward.endDate.Some? ==> r <= reward.endDate.value
    ensures r == now + RedemptionWindowMs || (reward.endDate.Some? && r == reward.endDate.value)
  {
    var thirtyDaysFromNow := now + RedemptionWindowMs;
    if reward.endDate.Some? && reward.endDate.value < thirtyDaysFromNow then reward.endDate.value else thirtyDaysFromNow
  }

  predicate RedeemedBefore(userRewards: map<Id, UserReward>, userId: Id, rewardId: Id)
  {
    exists id :: id in userRewards && userRewards[id].userId == userId && userRewards[id].rewardId == rewardId
  }

  predicate ActivityIdUsed(activities: seq<Activity>, id: Id)
  {
    exists i :: 0 <= i < |activities| && activities[i].activityId == id
  }

  /** The checks made after BEGIN and before anything is written, in order: the first that fails. */
  function Precheck(s: Store, userId: Id, rewardId: Id, now: int): (r: Option<Response>)
    ensures r.None? ==> rewardId in s.rewards && s.rewards[rewardId].teamId in s.teamNames
    ensures r.Some? ==> r.value.Refused? && r.value.httpStatus in {403, 404, 409}
  {
    if rewardId !in s.rewards || s.rewards[rewardId].teamId !in s.teamNames then Some(RewardNotFound)
    else
      var reward := s.rewards[rewardId];
      if !reward.isActive then Some(RewardInactive)
      else if reward.startDate > now then Some(RewardNotStarted)
      else if reward.endDate.Some? && reward.endDate.value < now then Some(RewardExpired)
      else if reward.remaining <= 0 then Some(OutOfStock)
      else if RedeemedBefore(s.userRewards, userId, rewardId) then Some(AlreadyRedeemed)
      else if !RedeemEligible(s.holdings, userId, reward, now) then Some(NotEligible)
      else None
  }

  /** The row a redemption inserts. */
  function NewUserReward(s: Store, userId: Id, rewardId: Id, ids: RedemptionIds, now: int): UserReward
    requires rewardId in s.rewards && s.rewards[rewardId].teamId in s.teamNames
  {
    var reward := s.rewards[rewardId];
    UserReward(userId, rewardId, "redeemed", RedemptionCode(s.teamNames[reward.teamId], ids.codeSuffix),
               now, ExpiresAt(reward, now))
  }

  /** The writes of an admitted redemption; a taken id makes its INSERT fail and the request roll back. */
  function Commit(s: Store, userId: Id, rewardId: Id, ids: RedemptionIds, now: int): (r: (Response, Store))
    requires Precheck(s, userId, rewardId, now).None?
    ensures r.0 == InternalError || r.0.Redeemed?
    ensures r.0 == InternalError ==> r.1 == s
    ensures r.0.Redeemed? ==> && r.0.userRewardId == ids.userRewardId && ids.userRewardId !in s.userRewards
                              && r.1.userRewards.Keys == s.userRewards.Keys + {ids.userRewardId}
                              && rewardId in r.1.rewards && r.1.rewards[rewardId].remaining == s.rewards[rewardId].remaining - 1
  {
    var reward := s.rewards[rewardId];
    var row := NewUserReward(s, userId, rewardId, ids, now);
    if ids.userRewardId in s.userRewards || ActivityIdUsed(s.activities, ids.activityId) then (InternalError, s)
    else
      (Redeemed(ids.userRewardId, row.redemptionCode, reward.description, row.expiresAt, SuccessPrefix + reward.name),
       s.(rewards := s.rewards[rewardId := reward.(remaining := reward.remaining - 1)],
          userRewards := s.userRewards[ids.userRewardId := row],
          activities := s.activities + [Activity(ids.activityId, userId, "reward_redemption", ids.userRewardId,
                                                 rewardId, reward.name)]))
  }

  /** `POST /rewards/:rewardId/redeem` by `userId`: the response and the store after COMMIT or ROLLBACK. */
  function Redeem(s: Store, userId: Id, rewardId: Id, ids: RedemptionIds, now: int): (r: (Response, Store))
    ensures r.0.HttpStatus() in {200, 401, 403, 404, 409, 500}
    ensures !r.0.Redeemed? ==> r.1 == s
    ensures r.0.Redeemed? ==> && r.0.userRewardId == ids.userRewardId && ids.userRewardId !in s.userRewards
                              && r.1.userRewards.Keys == s.userRewards.Keys + {ids.userRewardId}
  {
    if userId == "" then (Unauthorized, s)
    else match Precheck(s, userId, rewardId, now)
      case Some(refusal) => (refusal, s)
      case None => Commit(s, userId, rewardId, ids, now)
  }

  // ---------------------------------------------------------------------------
  // Store invariant
  // ---------------------------------------------------------------------------

  /**
   * The facts every committed store satisfies: stock never negative, at most
   * one redemption per user and reward, every redemption of a known reward
   * and within the redemption window, every activity pointing at its
   * redemption.
   */
  ghost predicate StoreInvariant(s: Store)
  {
    && (forall id :: id in s.rewards ==> s.rewards[id].remaining >= 0)
    && (forall a, b :: a in s.userRewards && b in s.userRewards && a != b ==>
          !(s.userRewards[a].userId == s.userRewards[b].userId && s.userRewards[a].rewardId == s.userRewards[b].rewardId))
    && (forall id :: id in s.userRewards ==>
          s.userRewards[id].rewardId in s.rewards
          && s.userRewards[id].expiresAt <= s.userRewards[id].redeemedAt + RedemptionWindowMs)
    && (forall i :: 0 <= i < |s.activities| ==> s.activities[i].referenceId in s.userRewards)
  }

  // ---------------------------------------------------------------------------
  // Redemption on a mutable store
  // ---------------------------------------------------------------------------

  /** The service's tables, updated in place by each redemption. */
  class RewardsService {
    var rewards: map<Id, Reward>
    var teamNames: map<Id, string>
    var holdings: seq<HoldingRow>
    var userRewards: map<Id, UserReward>
    var activities: seq<Activity>

    function State(): Store
      reads this
    {
      Store(rewards, teamNames, holdings, userRewards, activities)
    }

    ghost predicate Valid()
      reads this
    {
      StoreInvariant(State())
    }

    constructor (initial: Store)
      requires StoreInvariant(initial)
      ensures Valid() && State() == initial
    {
      rewards, teamNames, holdings := initial.rewards, initial.teamNames, initial.holdings;
      userRewards, activities := initial.userRewards, initial.activities;
    }

    /** ROLLBACK: every table goes back to the snapshot taken at BEGIN. */
    method Rollback(begin: Store)
      modifies this
      ensures State() == begin
    {
      rewards, teamNames, holdings := begin.rewards, begin.teamNames, begin.holdings;
      userRewards, activities := begin.userRewards, begin.activities;
    }

    /**
     * `POST /rewards/:rewardId/redeem`: between BEGIN and COMMIT, the checks
     * in order, then the user-reward row, the stock decrement and the
     * activity record.
     */
    method RedeemReward(userId: Id, rewardId: Id, ids: RedemptionIds, now: int) returns (res: Response)
      requires Valid()
      modifies this
      ensures Valid()
      ensures (res, State()) == Redeem(old(State()), userId, rewardId, ids, now)
    {
      RedeemPreservesInvariant(State(), userId, rewardId, ids, now);
      if userId == "" {
        return Unauthorized;
      }
      var begin := State();
      var rejection := CheckRedemption(userId, rewardId, now);
      if rejection.Some? {
        Rollback(begin);
        return rejection.value;
      }
      res := CommitRedemption(userId, rewardId, ids, now);
    }

    /** The reads after BEGIN: the reward and its team, its window and stock, earlier redemptions, eligibility. */
    method CheckRedemption(userId: Id, rewardId: Id, now: int) returns (rejection: Option<Response>)
      ensures rejection == Precheck(State(), userId, rewardId, now)
    {
      if rewardId !in rewards || rewards[rewardId].teamId !in teamNames {
        return Some(RewardNotFound);
      }
      var reward := rewards[rewardId];
      if !reward.isActive {
        return Some(RewardInactive);
      }
      if reward.startDate > now {
        return Some(RewardNotStarted);
      }
      if reward.endDate.Some? && reward.endDate.value < now {
        return Some(RewardExpired);
      }
      if reward.remaining <= 0 {
        return Some(OutOfStock);
      }
      if RedeemedBefore(userRewards, userId, rewardId) {
        return Some(AlreadyRedeemed);
      }
      var isEligible := true;
      if TruthyNumber(reward.requiredShares) {
        var totalShares := TotalShares(holdings, userId, reward.teamId);
        if totalShares < reward.requiredShares.value {
          isEligible := false;
        }
      }
      if TruthyInt(reward.requiredHoldDays) {
        var meetsHoldRequirement := HeldSince(holdings, userId, reward.teamId, now - reward.requiredHoldDays.value * DayMs);
        if !meetsHoldRequirement {
          isEligible := false;
        }
      }
      if !isEligible {
        return Some(NotEligible);
      }
      return None;
    }

    /** The writes of an admitted redemption, up to COMMIT; a failed INSERT rolls everything back. */
    method CommitRedemption(userId: Id, rewardId: Id, ids: RedemptionIds, now: int) returns (res: Response)
      requires Precheck(State(), userId, rewardId, now).None?
      modifies this
      ensures (res, State()) == Commit(old(State()), userId, rewardId, ids, now)
    {
      var begin := State();
      var reward := rewards[rewardId];
      var redemptionCode := RedemptionCode(teamNames[reward.teamId], ids.codeSuffix);
      var expiresAt := now + RedemptionWindowMs;
      if reward.endDate.Some? && reward.endDate.value < expiresAt {
        expiresAt := reward.endDate.value;
      }
      if ids.userRewardId in userRewards {
        Rollback(begin);
        return InternalError;
      }
      userRewards := userRewards[ids.userRewardId := UserReward(userId, rewardId, "redeemed", redemptionCode, now, expiresAt)];
      rewards := rewards[rewardId := rewards[rewardId].(remaining := rewards[rewardId].remaining - 1)];
      if ActivityIdUsed(activities, ids.activityId) {
        Rollback(begin);
        return InternalError;
      }
      activities := activities + [Activity(ids.activityId, userId, "reward_redemption", ids.userRewardId, rewardId, reward.name)];
      res := Redeemed(ids.userRewardId, redemptionCode, reward.description, expiresAt, SuccessPrefix + reward.name);
    }
  }

  // ---------------------------------------------------------------------------
  // Properties of redemption
  // ---------------------------------------------------------------------------

  /** Committing a redemption keeps the store invariant. */
  lemma RedeemPreservesInvariant(s: Store, userId: Id, rewardId: Id, ids: RedemptionIds, now: int)
    requires StoreInvariant(s)
    ensures StoreInvariant(Redeem(s, userId, rewardId, ids, now).1)
  {
    if userId != "" && Precheck(s, userId, rewardId, now).None?
       && ids.userRewardId !in s.userRewards && !ActivityIdUsed(s.activities, ids.activityId) {
      var s' := Redeem(s, userId, rewardId, ids, now).1;
      var row := NewUserReward(s, userId, rewardId, ids, now);
      assert s'.userRewards == s.userRewards[ids.userRewardId := row];
      forall a, b | a in s'.userRewards && b in s'.userRewards && a != b
        ensures !(s'.userRewards[a].userId == s'.userRewards[b].userId
                  && s'.userRewards[a].rewardId == s'.userRewards[b].rewardId)
      {
        if a == ids.userRewardId || b == ids.userRewardId {
          assert !RedeemedBefore(s.userRewards, userId, rewardId);
        }
      }
    }
  }

  /**
   * Each refusal has exactly one cause, tried in the handler's order, and a
   * refused request changes nothing.
   */
  lemma RefusalCauses(s: Store, userId: Id, rewardId: Id, ids: RedemptionIds, now: int)
    ensures var (r, s') := Redeem(s, userId, rewardId, ids, now);
            && (r.Refused? ==> s' == s)
            && (r == Unauthorized <==> userId == "")
            && (r == RewardNotFound <==> userId != "" && (rewardId !in s.rewards || s.rewards[rewardId].teamId !in s.teamNames))
    ensures userId != "" && rewardId in s.rewards && s.rewards[rewardId].teamId in s.teamNames ==>
            var r := Redeem(s, userId, rewardId, ids, now).0;
            var reward := s.rewards[rewardId];
            var inWindow := reward.isActive && reward.startDate <= now && (reward.endDate.None? || reward.endDate.value >= now);
            && (r == RewardInactive <==> !reward.isActive)
            && (r == RewardNotStarted <==> reward.isActive && reward.startDate > now)
            && (r == RewardExpired <==> reward.isActive && reward.startDate <= now
                                        && reward.endDate.Some? && reward.endDate.value < now)
            && (r == OutOfStock <==> inWindow && reward.remaining <= 0)
            && (r == AlreadyRedeemed <==> ActiveFilter(reward, now) && RedeemedBefore(s.userRewards, userId, rewardId))
            && (r == NotEligible <==> ActiveFilter(reward, now) && !RedeemedBefore(s.userRewards, userId, rewardId)
                                      && !RedeemEligible(s.holdings, userId, reward, now))
            && (r.Redeemed? || r == InternalError <==>
                  ActiveFilter(reward, now) && !RedeemedBefore(s.userRewards, userId, rewardId)
                  && RedeemEligible(s.holdings, userId, reward, now))
  {
  }

  /**
   * A successful redemption inserts exactly one `redeemed` row for the user
   * and reward under the new id, takes exactly one unit of stock, which stays
   * non-negative, and appends exactly one activity pointing at the row;
   * nothing else changes.
   */
  lemma RedeemEffect(s: Store, userId: Id, rewardId: Id, ids: RedemptionIds, now: int)
    requires Redeem(s, userId, rewardId, ids, now).0.Redeemed?
    ensures rewardId in s.rewards && s.rewards[rewardId].teamId in s.teamNames
    ensures var (r, s') := Redeem(s, userId, rewardId, ids, now);
            var reward := s.rewards[rewardId];
            && ids.userRewardId !in s.userRewards
            && s'.userRewards.Keys == s.userRewards.Keys + {ids.userRewardId}
            && (forall id :: id in s.userRewards ==> s'.userRewards[id] == s.userRewards[id])
            && s'.userRewards[ids.userRewardId]
                 == UserReward(userId, rewardId, "redeemed", r.redemptionCode, now, r.expiresAt)
            && s'.rewards.Keys == s.rewards.Keys
            && s'.rewards[rewardId] == reward.(remaining := reward.remaining - 1)
            && s'.rewards[rewardId].remaining >= 0
            && (forall id :: id in s.rewards && id != rewardId ==> s'.rewards[id] == s.rewards[id])
            && s'.activities == s.activities + [Activity(ids.activityId, userId, "reward_redemption", ids.userRewardId, rewardId, reward.name)]
            && s'.holdings == s.holdings && s'.teamNames == s.teamNames
            && r.userRewardId == ids.userRewardId && r.redeemInstructions == reward.description
            && r.message == SuccessPrefix + reward.name
  {
  }

  /**
   * The redemption's expiry lies between now and the end of the 30-day
   * window, never after the reward's end, and is the earlier of the two.
   */
  lemma RedeemExpiryBounds(s: Store, userId: Id, rewardId: Id, ids: RedemptionIds, now: int)
    requires Redeem(s, userId, rewardId, ids, now).0.Redeemed?
    ensures var r := Redeem(s, userId, rewardId, ids, now).0;
            var reward := s.rewards[rewardId];
            && now <= r.expiresAt <= now + RedemptionWindowMs
            && (reward.endDate.Some? ==> r.expiresAt <= reward.endDate.value)
            && (reward.endDate.None? || reward.endDate.value >= now + RedemptionWindowMs ==> r.expiresAt == now + RedemptionWindowMs)
  {
  }

  /** The code handed out is the team's code prefix, a dash and the upper-cased suffix. */
  lemma RedeemCode(s: Store, userId: Id, rewardId: Id, ids: RedemptionIds, now: int)
    requires Redeem(s, userId, rewardId, ids, now).0.Redeemed?
    ensures rewardId in s.rewards && s.rewards[rewardId].teamId in s.teamNames
    ensures Redeem(s, userId, rewardId, ids, now).0.redemptionCode
              == RedemptionCode(s.teamNames[s.rewards[rewardId].teamId], ids.codeSuffix)
  {
  }

  /** A user redeems a reward at most once: once it succeeded, any later redemption of it by them is refused. */
  lemma RedeemAtMostOnce(s: Store, userId: Id, rewardId: Id, ids: RedemptionIds, now: int, ids2: RedemptionIds, later: int)
    requires Redeem(s, userId, rewardId, ids, now).0.Redeemed?
    ensures Redeem(Redeem(s, userId, rewardId, ids, now).1, userId, rewardId, ids2, later).0.Refused?
  {
    var s' := Redeem(s, userId, rewardId, ids, now).1;
    assert s'.userRewards[ids.userRewardId].userId == userId;
    assert RedeemedBefore(s'.userRewards, userId, rewardId);
  }

  /** The redemptions of one reward. */
  function RedemptionsOf(userRewards: map<Id, UserReward>, rewardId: Id): set<Id>
  {
    set id | id in userRewards && userRewards[id].rewardId == rewardId
  }

  /**
   * Stock is conserved: for every reward, its remaining count plus the number
   * of its redemptions is the same before and after any request.
   */
  lemma RedeemConservesStock(s: Store, userId: Id, rewardId: Id, ids: RedemptionIds, now: int, other: Id)
    requires other in s.rewards
    ensures var s' := Redeem(s, userId, rewardId, ids, now).1;
            other in s'.rewards
            && s'.rewards[other].remaining + |RedemptionsOf(s'.userRewards, other)|
               == s.rewards[other].remaining + |RedemptionsOf(s.userRewards, other)|
  {
    if userId != "" && Precheck(s, userId, rewardId, now).None?
       && !(ids.userRewardId in s.userRewards || ActivityIdUsed(s.activities, ids.activityId)) {
      var s' := Redeem(s, userId, rewardId, ids, now).1;
      var row := NewUserReward(s, userId, rewardId, ids, now);
      assert s'.userRewards == s.userRewards[ids.userRewardId := row];
      RedemptionsAfterInsert(s.userRewards, ids.userRewardId, row, other);
    }
  }

  /** Inserting a new row adds it to the redemptions of its own reward and to no other. */
  lemma RedemptionsAfterInsert(userRewards: map<Id, UserReward>, id: Id, row: UserReward, rewardId: Id)
    requires id !in userRewards
    ensures |RedemptionsOf(userRewards[id := row], rewardId)|
            == |RedemptionsOf(userRewards, rewardId)| + (if row.rewardId == rewardId then 1 else 0)
  {
    if row.rewardId == rewardId {
      assert RedemptionsOf(userRewards[id := row], rewardId) == RedemptionsOf(userRewards, rewardId) + {id};
    } else {
      assert RedemptionsOf(userRewards[id := row], rewardId) == RedemptionsOf(userRewards, rewardId);
    }
  }

  /** A reward passes the `active` filter exactly when redemption's window and stock checks all pass. */
  lemma ActiveFilterIsRedeemWindow(s: Store, userId: Id, rewardId: Id, ids: RedemptionIds, now: int)
    requires userId != "" && rewardId in s.rewards && s.rewards[rewardId].teamId in s.teamNames
    ensures var r := Redeem(s, userId, rewardId, ids, now).0;
            (ActiveFilter(s.rewards[rewardId], now) <==> r !in {RewardInactive, RewardNotStarted, RewardExpired, OutOfStock})
    ensures UpcomingFilter(s.rewards[rewardId], now) ==> Redeem(s, userId, rewardId, ids, now).0 == RewardNotStarted
  {
    RefusalCauses(s, userId, rewardId, ids, now);
  }
}
