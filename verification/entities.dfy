/** The rows of the relational store the ledger handlers read and write,
    and the relations between two states of that store. */
module Entities {
  import opened Wrappers

  /** Primary keys are opaque string ids. */
  type Id = string

  datatype Role = USER | ADMIN

  /** A user row, restricted to the columns the ledger touches.
      The float column carbonSaved is kept as carbonUnits, a count of
      0.05 kg steps, since every write adds exactly one such step. */
  datatype User = User(
    name: string,
    tokens: int,
    totalBottles: int,
    carbonUnits: int,
    role: Role)

  datatype Reward = Reward(
    title: string,
    tokenCost: int,
    stock: int,
    isActive: bool)

  datatype RedemptionStatus = PENDING | FULFILLED | REJECTED

  datatype Redemption = Redemption(
    userId: Id,
    rewardId: Id,
    tokensCost: int,
    status: RedemptionStatus)

  /** A QR transaction row: an earn code emitted by a machine, consumed at most once. */
  datatype Transaction = Transaction(
    qrCode: string,
    userId: Option<Id>,
    machineId: string,
    machineLocation: Option<string>,
    itemType: string,
    tokensEarned: int,
    scanned: bool,
    scannedAt: Option<nat>)

  /** The whole store: users and rewards by id, transactions by their unique
      qrCode, and the redemption table in creation order. */
  datatype Store = Store(
    users: map<Id, User>,
    rewards: map<Id, Reward>,
    transactions: map<string, Transaction>,
    redemptions: seq<Redemption>)

  /** The global invariant: balances, bottle counts and stock are never
      negative, every code is worth a positive number of tokens, and each
      transaction is filed under its own code. */
  predicate Valid(s: Store)
  {
    && (forall u :: u in s.users ==> s.users[u].tokens >= 0 && s.users[u].totalBottles >= 0)
    && (forall r :: r in s.rewards ==> s.rewards[r].stock >= 0)
    && (forall c :: c in s.transactions ==>
          s.transactions[c].tokensEarned > 0 && s.transactions[c].qrCode == c)
  }

  /** From s to s' no code disappears, and a code that was scanned in s is
      still there with exactly the same record: it is never unscanned,
      reassigned or re-valued. */
  predicate CodesSettled(s: Store, s': Store)
  {
    && s.transactions.Keys <= s'.transactions.Keys
    && forall c :: c in s.transactions && s.transactions[c].scanned ==>
         c in s'.transactions && s'.transactions[c] == s.transactions[c]
  }

  /** From s to s' no user or reward row is created or deleted, and the
      redemption table only grows at its end. */
  predicate AccountsKept(s: Store, s': Store)
  {
    && s'.users.Keys == s.users.Keys
    && s'.rewards.Keys == s.rewards.Keys
    && |s.redemptions| <= |s'.redemptions|
    && s'.redemptions[..|s.redemptions|] == s.redemptions
  }
}
