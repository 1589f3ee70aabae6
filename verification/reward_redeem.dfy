/** Reward redemption: ordered validations, then one store transaction that
    records the redemption, debits the balance and decrements the stock. */
module RewardRedeem {
  import opened Wrappers
  import opened Entities

  /** Both ids come from the JSON body and may be absent. */
  datatype RedeemRequest = RedeemRequest(userId: Option<Id>, rewardId: Option<Id>)

  datatype RedeemError = MissingIds | UserOrRewardNotFound | InsufficientTokens | RewardNotAvailable {
    function Status(): int
    {
      match this
      case MissingIds => 400
      case UserOrRewardNotFound => 404
      case InsufficientTokens => 400
      case RewardNotAvailable => 400
    }
    function Message(): string
    {
      match this
      case MissingIds => "User ID and Reward ID are required"
      case UserOrRewardNotFound => "User or reward not found"
      case InsufficientTokens => "Insufficient tokens"
      case RewardNotAvailable => "Reward is not available"
    }
  }

  /** The success body: the new redemption row and the user's balance after the debit. */
  datatype Redeemed = Redeemed(store: Store, redemption: Redemption, newTokenBalance: int)

  /** A request field counts as given when it is present and not the empty
      string, the two ways a JSON string can be falsy. */
  predicate Given(id: Option<Id>)
  {
    id.Some? && id.value != ""
  }

  /** A reward can be handed out when it is active and has stock left. */
  predicate Available(r: Reward)
  {
    r.isActive && r.stock > 0
  }

  /** The redeem handler. Every failure is reported before any write, so an
      Err leaves the store as it was. */
  function Redeem(s: Store, req: RedeemRequest): (r: Result<Redeemed, RedeemError>)
    ensures !Given(req.userId) || !Given(req.rewardId) ==> r == Err(MissingIds)
    ensures Given(req.userId) && Given(req.rewardId) ==>
      var u, w := req.userId.value, req.rewardId.value;
      && (u !in s.users || w !in s.rewards ==> r == Err(UserOrRewardNotFound))
      && (u in s.users && w in s.rewards ==>
            var user, reward := s.users[u], s.rewards[w];
            && (user.tokens < reward.tokenCost ==> r == Err(InsufficientTokens))
            && (user.tokens >= reward.tokenCost && !Available(reward) ==> r == Err(RewardNotAvailable))
            && (user.tokens >= reward.tokenCost && Available(reward) <==> r.Ok?))
    ensures r.Ok? ==>
      && Given(req.userId) && Given(req.rewardId)
      && req.userId.value in s.users && req.rewardId.value in s.rewards
    ensures r.Ok? ==>
      var u, w, s' := req.userId.value, req.rewardId.value, r.value.store;
      var user, reward := s.users[u], s.rewards[w];
      && r.value.redemption == Redemption(u, w, reward.tokenCost, PENDING)
      && s'.redemptions == s.redemptions + [r.value.redemption]
      && s'.users.Keys == s.users.Keys
      && s'.users[u] == user.(tokens := user.tokens - reward.tokenCost)
      && s'.users[u].tokens >= 0
      && r.value.newTokenBalance == s'.users[u].tokens
      && s'.rewards.Keys == s.rewards.Keys
      && s'.rewards[w] == reward.(stock := reward.stock - 1)
      && s'.rewards[w].stock >= 0
      && (forall v :: v in s.users && v != u ==> s'.users[v] == s.users[v])
      && (forall x :: x in s.rewards && x != w ==> s'.rewards[x] == s.rewards[x])
      && s'.transactions == s.transactions
  {
    if !Given(req.userId) || !Given(req.rewardId) then Err(MissingIds)
    else
      var u, w := req.userId.value, req.rewardId.value;
      if u !in s.users || w !in s.rewards then Err(UserOrRewardNotFound)
      else
        var user, reward := s.users[u], s.rewards[w];
        if user.tokens < reward.tokenCost then Err(InsufficientTokens)
        else if !reward.isActive || reward.stock <= 0 then Err(RewardNotAvailable)
        else
          var redemption := Redemption(u, w, reward.tokenCost, PENDING);
          var debited := user.(tokens := user.tokens - reward.tokenCost);
          var taken := reward.(stock := reward.stock - 1);
          var s' := s.(redemptions := s.redemptions + [redemption],
                       users := s.users[u := debited],
                       rewards := s.rewards[w := taken]);
          Ok(Redeemed(s', redemption, debited.tokens))
  }

  /** The balance check comes first: an unaffordable reward is reported as
      "Insufficient tokens" even when it is also inactive or out of stock. */
  lemma InsufficientBeforeUnavailable(s: Store, u: Id, w: Id)
    requires u != "" && w != ""
    requires u in s.users && w in s.rewards
    requires s.users[u].tokens < s.rewards[w].tokenCost
    ensures Redeem(s, RedeemRequest(Some(u), Some(w))) == Err(InsufficientTokens)
  {
  }

  /** A user who can afford a reward only once: the second redemption of
      the same reward fails as unaffordable or unavailable and leaves the
      first one's effects as they are. */
  lemma RedeemTwice(s: Store, u: Id, w: Id)
    requires u != "" && w != ""
    requires Redeem(s, RedeemRequest(Some(u), Some(w))).Ok?
    requires s.users[u].tokens < 2 * s.rewards[w].tokenCost || s.rewards[w].stock == 1
    ensures var s' := Redeem(s, RedeemRequest(Some(u), Some(w))).value.store;
      Redeem(s', RedeemRequest(Some(u), Some(w))).Err?
  {
  }

  /** The last unit of a reward goes to the first of two users who both
      afford it; the second is told it is not available, and the stock
      ends at zero. */
  lemma LastUnitOnce(s: Store, u1: Id, u2: Id, w: Id)
    requires u1 != "" && u2 != "" && w != "" && u1 != u2
    requires u1 in s.users && u2 in s.users && w in s.rewards
    requires s.rewards[w].isActive && s.rewards[w].stock == 1
    requires s.users[u1].tokens >= s.rewards[w].tokenCost
    requires s.users[u2].tokens >= s.rewards[w].tokenCost
    ensures Redeem(s, RedeemRequest(Some(u1), Some(w))).Ok?
    ensures var s' := Redeem(s, RedeemRequest(Some(u1), Some(w))).value.store;
      && s'.rewards[w].stock == 0
      && Redeem(s', RedeemRequest(Some(u2), Some(w))) == Err(RewardNotAvailable)
  {
  }
}
