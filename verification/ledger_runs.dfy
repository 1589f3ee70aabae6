/** The three ledger handlers as steps of one sequential state machine over
    the store, and what holds along any run of them: the invariant, the
    single use of codes, the append-only redemption table, and token
    conservation. */
module LedgerRuns {
  import opened Wrappers
  import opened Entities
  import opened QrGenerate
  import opened QrScan
  import opened RewardRedeem

  /** One request, with the random suffix, the clock reading and the
      store fault, if any, a scan meets. */
  datatype Op =
    | GenerateOp(greq: GenerateRequest, nonce: string)
    | ScanOp(sreq: ScanRequest, now: nat, fault: ScanFault)
    | RedeemOp(rreq: RedeemRequest)

  /** No scan in ops meets a store fault on its second write, the one
      fault that leaves a consumed code uncredited. */
  predicate NoCreditFault(ops: seq<Op>)
  {
    forall i :: 0 <= i < |ops| ==> !(ops[i].ScanOp? && ops[i].fault.CreditFault?)
  }

  /** The store after one request; a refused generation or redemption
      leaves it as it was. */
  function Step(s: Store, op: Op): Store
  {
    match op
    case GenerateOp(req, nonce) =>
      (match Generate(s, req, nonce) case Ok(g) => g.store case Err(_) => s)
    case ScanOp(req, now, fault) => Scan(s, req, now, fault).store
    case RedeemOp(req) =>
      (match Redeem(s, req) case Ok(d) => d.store case Err(_) => s)
  }

  /** The store after a sequence of requests served one at a time. */
  function Run(s: Store, ops: seq<Op>): Store
    decreases |ops|
  {
    if |ops| == 0 then s else Run(Step(s, ops[0]), ops[1..])
  }

  /** A freshly generated code can be scanned once by an existing user,
      who is credited the item's token value; any later scan of it fails. */
  lemma GenerateThenScanOnce(s: Store, req: GenerateRequest, nonce: string,
                             u: Id, now1: nat, u2: Id, now2: nat, fault2: ScanFault)
    requires Generate(s, req, nonce).Ok?
    requires u in s.users
    ensures var g := Generate(s, req, nonce).value;
      var o1 := Scan(g.store, ScanRequest(u, g.qrCode), now1, NoFault);
      var o2 := Scan(o1.store, ScanRequest(u2, g.qrCode), now2, fault2);
      && o1.response == Ok(ScanReply(TokensFor(req.itemType), s.users[u].tokens + TokensFor(req.itemType)))
      && o1.store.transactions[g.qrCode].userId == Some(u)
      && o2.store == o1.store
      && (!fault2.LookupFault? ==> o2.response == Err(QrCodeAlreadyUsed))
  {
  }

  // ---------------------------------------------------------------------
  // Invariant and frame of a single step

  lemma StepPreservesValid(s: Store, op: Op)
    requires Valid(s)
    ensures Valid(Step(s, op))
  {
  }

  lemma StepSettles(s: Store, op: Op)
    ensures CodesSettled(s, Step(s, op))
    ensures AccountsKept(s, Step(s, op))
  {
  }

  // ---------------------------------------------------------------------
  // Along a run

  /** Balances, bottle counts and stock stay non-negative, and codes keep a
      positive value, whatever sequence of requests is served. */
  lemma {:induction false} RunPreservesValid(s: Store, ops: seq<Op>)
    requires Valid(s)
    ensures Valid(Run(s, ops))
    decreases |ops|
  {
    if |ops| > 0 {
      StepPreservesValid(s, ops[0]);
      RunPreservesValid(Step(s, ops[0]), ops[1..]);
    }
  }

  /** Along any run a consumed code is never unconsumed, reassigned or
      re-valued, no account appears or disappears, and the redemption
      table only grows at its end. */
  lemma {:induction false} RunSettles(s: Store, ops: seq<Op>)
    ensures CodesSettled(s, Run(s, ops))
    ensures AccountsKept(s, Run(s, ops))
    decreases |ops|
  {
    if |ops| > 0 {
      var s1 := Step(s, ops[0]);
      StepSettles(s, ops[0]);
      RunSettles(s1, ops[1..]);
      var sN := Run(s1, ops[1..]);
      assert sN.redemptions[..|s.redemptions|] == sN.redemptions[..|s1.redemptions|][..|s.redemptions|];
    }
  }

  // ---------------------------------------------------------------------
  // Token accounting

  /** Codes scanned in s' that were not yet scanned (or did not exist) in s. */
  function Consumed(s: Store, s': Store): set<string>
  {
    set c | c in s'.transactions.Keys && s'.transactions[c].scanned
                && !(c in s.transactions && s.transactions[c].scanned)
  }

  /** What code c is worth to user u: its tokens if it is assigned to u. */
  function Worth(t: map<string, Transaction>, c: string, u: Id): int
  {
    if c in t && t[c].userId == Some(u) then t[c].tokensEarned else 0
  }

  ghost function Pick(cs: set<string>): (c: string)
    requires cs != {}
    ensures c in cs
  {
    var c :| c in cs; c
  }

  /** Total worth to u of the codes in cs. */
  ghost function Earned(t: map<string, Transaction>, cs: set<string>, u: Id): int
    decreases cs
  {
    if cs == {} then 0
    else
      var c := Pick(cs);
      Worth(t, c, u) + Earned(t, cs - {c}, u)
  }

  /** Total cost of the redemptions by u in rs. */
  function Debited(rs: seq<Redemption>, u: Id): int
  {
    if |rs| == 0 then 0
    else (if rs[0].userId == u then rs[0].tokensCost else 0) + Debited(rs[1..], u)
  }

  lemma {:induction false} EarnedRemove(t: map<string, Transaction>, cs: set<string>, u: Id, c: string)
    requires c in cs
    ensures Earned(t, cs, u) == Worth(t, c, u) + Earned(t, cs - {c}, u)
    decreases cs
  {
    var p := Pick(cs);
    if p != c {
      calc {
        Earned(t, cs, u);
        Worth(t, p, u) + Earned(t, cs - {p}, u);
        { EarnedRemove(t, cs - {p}, u, c); }
        Worth(t, p, u) + Worth(t, c, u) + Earned(t, cs - {p} - {c}, u);
        { assert cs - {p} - {c} == cs - {c} - {p}; }
        Worth(t, c, u) + Worth(t, p, u) + Earned(t, cs - {c} - {p}, u);
        { EarnedRemove(t, cs - {c}, u, p); }
        Worth(t, c, u) + Earned(t, cs - {c}, u);
      }
    }
  }

  lemma {:induction false} EarnedUnion(t: map<string, Transaction>, a: set<string>, b: set<string>, u: Id)
    requires a !! b
    ensures Earned(t, a + b, u) == Earned(t, a, u) + Earned(t, b, u)
    decreases a
  {
    if a == {} {
      assert a + b == b;
    } else {
      var c := Pick(a);
      EarnedRemove(t, a + b, u, c);
      assert (a + b) - {c} == (a - {c}) + b;
      EarnedUnion(t, a - {c}, b, u);
    }
  }

  lemma {:induction false} EarnedAgree(t1: map<string, Transaction>, t2: map<string, Transaction>, cs: set<string>, u: Id)
    requires forall c :: c in cs ==> Worth(t1, c, u) == Worth(t2, c, u)
    ensures Earned(t1, cs, u) == Earned(t2, cs, u)
    decreases cs
  {
    if cs != {} {
      var c := Pick(cs);
      EarnedAgree(t1, t2, cs - {c}, u);
    }
  }

  lemma EarnedSingle(t: map<string, Transaction>, c: string, u: Id)
    ensures Earned(t, {c}, u) == Worth(t, c, u)
  {
    EarnedRemove(t, {c}, u, c);
    assert {c} - {c} == {};
  }

  lemma {:induction false} DebitedAppend(a: seq<Redemption>, b: seq<Redemption>, u: Id)
    ensures Debited(a + b, u) == Debited(a, u) + Debited(b, u)
    decreases |a|
  {
    if |a| == 0 {
      assert a + b == b;
    } else {
      assert (a + b)[1..] == a[1..] + b;
      DebitedAppend(a[1..], b, u);
    }
  }

  /** One step of conservation: an existing user's balance moves by the
      worth to that user of the codes consumed in the step, minus the cost
      of the redemptions the step records for them. A store fault on a
      scan's second write can only make the balance fall short of that. */
  lemma StepConservation(s: Store, op: Op, u: Id)
    requires u in s.users
    ensures u in Step(s, op).users
    ensures |s.redemptions| <= |Step(s, op).redemptions|
    ensures var s' := Step(s, op);
      NoCreditFault([op]) ==>
        s'.users[u].tokens == s.users[u].tokens
          + Earned(s'.transactions, Consumed(s, s'), u)
          - Debited(s'.redemptions[|s.redemptions|..], u)
    ensures var s' := Step(s, op);
      Valid(s) ==>
        s'.users[u].tokens <= s.users[u].tokens
          + Earned(s'.transactions, Consumed(s, s'), u)
          - Debited(s'.redemptions[|s.redemptions|..], u)
  {
    var s' := Step(s, op);
    StepSettles(s, op);
    match op
    case GenerateOp(req, nonce) =>
      assert Consumed(s, s') == {};
      assert s'.redemptions[|s.redemptions|..] == [];
    case ScanOp(req, now, fault) =>
      assert s'.redemptions[|s.redemptions|..] == [];
      if !EarlyFault(fault) && req.qrCode in s.transactions && !s.transactions[req.qrCode].scanned {
        assert Consumed(s, s') == {req.qrCode};
        EarnedSingle(s'.transactions, req.qrCode, u);
        assert NoCreditFault([op]) ==> !fault.CreditFault? by {
          if NoCreditFault([op]) { assert !([op][0].ScanOp? && [op][0].fault.CreditFault?); }
        }
      } else {
        assert Consumed(s, s') == {};
      }
    case RedeemOp(req) =>
      assert Consumed(s, s') == {};
      match Redeem(s, req)
      case Err(_) =>
        assert s'.redemptions[|s.redemptions|..] == [];
      case Ok(d) =>
        assert s'.redemptions[|s.redemptions|..] == [d.redemption];
        assert Debited([d.redemption], u) == (if d.redemption.userId == u then d.redemption.tokensCost else 0);
  }

  /** The codes consumed from s to sN are those consumed up to s1 plus
      those consumed after it, and the earlier ones are worth the same in
      sN as in s1, since consumed codes are frozen. */
  lemma EarnedSplit(s: Store, s1: Store, sN: Store, u: Id)
    requires CodesSettled(s, s1) && CodesSettled(s1, sN)
    ensures Earned(sN.transactions, Consumed(s, sN), u)
         == Earned(s1.transactions, Consumed(s, s1), u) + Earned(sN.transactions, Consumed(s1, sN), u)
  {
    assert Consumed(s, sN) == Consumed(s, s1) + Consumed(s1, sN);
    assert Consumed(s, s1) !! Consumed(s1, sN);
    EarnedUnion(sN.transactions, Consumed(s, s1), Consumed(s1, sN), u);
    EarnedAgree(sN.transactions, s1.transactions, Consumed(s, s1), u);
  }

  /** The redemptions recorded from s to sN are those recorded up to s1
      followed by those recorded after it. */
  lemma DebitedSplit(s: Store, s1: Store, sN: Store, u: Id)
    requires AccountsKept(s, s1) && AccountsKept(s1, sN)
    ensures |s.redemptions| <= |sN.redemptions|
    ensures Debited(sN.redemptions[|s.redemptions|..], u)
         == Debited(s1.redemptions[|s.redemptions|..], u) + Debited(sN.redemptions[|s1.redemptions|..], u)
  {
    assert sN.redemptions[|s.redemptions|..]
        == s1.redemptions[|s.redemptions|..] + sN.redemptions[|s1.redemptions|..];
    DebitedAppend(s1.redemptions[|s.redemptions|..], sN.redemptions[|s1.redemptions|..], u);
  }

  lemma NoCreditFaultSplit(ops: seq<Op>)
    requires |ops| > 0 && NoCreditFault(ops)
    ensures NoCreditFault([ops[0]]) && NoCreditFault(ops[1..])
  {
    assert [ops[0]][0] == ops[0];
    forall i | 0 <= i < |ops[1..]|
      ensures !(ops[1..][i].ScanOp? && ops[1..][i].fault.CreditFault?)
    {
      assert ops[1..][i] == ops[i + 1];
    }
  }

  /** Token conservation: along any run in which no scan's second write
      faults, an existing user's balance changes by exactly the tokens of
      the codes consumed during the run and assigned to that user, minus the costs of the
      redemptions recorded for them; a code counts once, however often it
      is scanned. Along any run at all, faults included, the balance never
      exceeds that amount: a lost credit only takes tokens away. */
  lemma {:induction false} Conservation(s: Store, ops: seq<Op>, u: Id)
    requires u in s.users
    ensures u in Run(s, ops).users
    ensures |s.redemptions| <= |Run(s, ops).redemptions|
    ensures var s' := Run(s, ops);
      NoCreditFault(ops) ==>
        s'.users[u].tokens == s.users[u].tokens
          + Earned(s'.transactions, Consumed(s, s'), u)
          - Debited(s'.redemptions[|s.redemptions|..], u)
    ensures var s' := Run(s, ops);
      Valid(s) ==>
        s'.users[u].tokens <= s.users[u].tokens
          + Earned(s'.transactions, Consumed(s, s'), u)
          - Debited(s'.redemptions[|s.redemptions|..], u)
    decreases |ops|
  {
    RunSettles(s, ops);
    if |ops| == 0 {
      assert Consumed(s, s) == {};
      assert s.redemptions[|s.redemptions|..] == [];
    } else {
      var s1 := Step(s, ops[0]);
      var sN := Run(s1, ops[1..]);
      StepConservation(s, ops[0], u);
      StepSettles(s, ops[0]);
      Conservation(s1, ops[1..], u);
      RunSettles(s1, ops[1..]);
      if NoCreditFault(ops) {
        NoCreditFaultSplit(ops);
      }
      if Valid(s) {
        StepPreservesValid(s, ops[0]);
      }
      EarnedSplit(s, s1, sN, u);
      DebitedSplit(s, s1, sN, u);
    }
  }
}
