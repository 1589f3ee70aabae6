/** QR scanning (the user-facing endpoint): look the code up, refuse a
    consumed one, then write twice: first mark the transaction scanned,
    then credit the user. The two writes are separate store calls, so a
    failure of the second leaves the first in place. */
module QrScan {
  import opened Wrappers
  import opened Entities

  datatype ScanRequest = ScanRequest(userId: Id, qrCode: string)

  datatype ScanError = InvalidQrCode | QrCodeAlreadyUsed | InternalServerError {
    function Status(): int
    {
      match this
      case InvalidQrCode => 404
      case QrCodeAlreadyUsed => 400
      case InternalServerError => 500
    }
    function Message(): string
    {
      match this
      case InvalidQrCode => "Invalid QR code"
      case QrCodeAlreadyUsed => "QR code already used"
      case InternalServerError => "Internal server error"
    }
  }

  /** The success body: the code's token value and the user's balance after the credit. */
  datatype ScanReply = ScanReply(tokensEarned: int, newBalance: int)

  /** A scan may fail after it has written, so it returns the store it leaves
      behind together with the response. */
  datatype ScanOutcome = ScanOutcome(store: Store, response: Result<ScanReply, ScanError>)

  /** First write: the transaction becomes scanned, is stamped with the
      clock reading and is reassigned to the scanning user; nothing else in
      the store moves. */
  function MarkScanned(s: Store, qrCode: string, userId: Id, now: nat): (s': Store)
    requires qrCode in s.transactions
    ensures s'.transactions.Keys == s.transactions.Keys
    ensures var t, t' := s.transactions[qrCode], s'.transactions[qrCode];
      && t'.scanned && t'.scannedAt == Some(now) && t'.userId == Some(userId)
      && t'.qrCode == t.qrCode && t'.machineId == t.machineId
      && t'.machineLocation == t.machineLocation && t'.itemType == t.itemType
      && t'.tokensEarned == t.tokensEarned
    ensures forall c :: c in s.transactions && c != qrCode ==> s'.transactions[c] == s.transactions[c]
    ensures s'.users == s.users && s'.rewards == s.rewards && s'.redemptions == s.redemptions
  {
    var t := s.transactions[qrCode];
    s.(transactions := s.transactions[qrCode := t.(scanned := true, scannedAt := Some(now), userId := Some(userId))])
  }

  /** Second write: increments the user's tokens by the code's value and
      the bottle and carbon counters by one. It fails, reported as None,
      when the row is missing (the store refuses to update it) or when the
      store faults, which the model receives as the flag fault. */
  function CreditUser(s: Store, userId: Id, tokens: int, fault: bool): (r: Option<Store>)
    ensures r.None? <==> fault || userId !in s.users
    ensures r.Some? ==> r.value.users.Keys == s.users.Keys
    ensures r.Some? ==>
      var u := s.users[userId];
      && r.value.users[userId] == u.(tokens := u.tokens + tokens,
                                     totalBottles := u.totalBottles + 1,
                                     carbonUnits := u.carbonUnits + 1)
      && (forall v :: v in s.users && v != userId ==> r.value.users[v] == s.users[v])
      && r.value.transactions == s.transactions
      && r.value.rewards == s.rewards
      && r.value.redemptions == s.redemptions
  {
    if fault || userId !in s.users then None
    else
      var u := s.users[userId];
      Some(s.(users := s.users[userId := u.(tokens := u.tokens + tokens,
                                            totalBottles := u.totalBottles + 1,
                                            carbonUnits := u.carbonUnits + 1)]))
  }

  /** Where, if anywhere, the store faults during a scan: on the code
      lookup, on the first write, or on the second write. Each lands in the
      handler's catch-all 500. */
  datatype ScanFault = NoFault | LookupFault | MarkFault | CreditFault

  /** The faults that strike before anything is written. */
  predicate EarlyFault(fault: ScanFault)
  {
    fault.LookupFault? || fault.MarkFault?
  }

  /** The scan handler, with the clock passed in as now and the store's
      fault, if any, passed in as fault. Past the checks and the first
      write, the code is consumed whatever happens to the credit. */
  function Scan(s: Store, req: ScanRequest, now: nat, fault: ScanFault): (out: ScanOutcome)
    ensures fault.LookupFault? ==> out == ScanOutcome(s, Err(InternalServerError))
    ensures !fault.LookupFault? && req.qrCode !in s.transactions ==>
              out == ScanOutcome(s, Err(InvalidQrCode))
    ensures !fault.LookupFault? && req.qrCode in s.transactions && s.transactions[req.qrCode].scanned ==>
              out == ScanOutcome(s, Err(QrCodeAlreadyUsed))
    ensures fault.MarkFault? && req.qrCode in s.transactions && !s.transactions[req.qrCode].scanned ==>
              out == ScanOutcome(s, Err(InternalServerError))
    ensures !EarlyFault(fault) && req.qrCode in s.transactions && !s.transactions[req.qrCode].scanned ==>
      var t, s', uid := s.transactions[req.qrCode], out.store, req.userId;
      && s'.transactions.Keys == s.transactions.Keys
      && s'.transactions[req.qrCode] == t.(scanned := true, scannedAt := Some(now), userId := Some(uid))
      && (forall c :: c in s.transactions && c != req.qrCode ==> s'.transactions[c] == s.transactions[c])
      && s'.rewards == s.rewards
      && s'.redemptions == s.redemptions
      && s'.users.Keys == s.users.Keys
      && (forall v :: v in s.users && v != uid ==> s'.users[v] == s.users[v])
      && (out.response.Ok? <==> !fault.CreditFault? && uid in s.users)
      && (out.response.Ok? ==>
            var u := s.users[uid];
            && s'.users[uid] == u.(tokens := u.tokens + t.tokensEarned,
                                   totalBottles := u.totalBottles + 1,
                                   carbonUnits := u.carbonUnits + 1)
            && out.response == Ok(ScanReply(t.tokensEarned, s'.users[uid].tokens)))
      && (out.response.Err? ==>
            out.response == Err(InternalServerError) && s'.users == s.users)
  {
    if fault.LookupFault? then ScanOutcome(s, Err(InternalServerError))
    else if req.qrCode !in s.transactions then ScanOutcome(s, Err(InvalidQrCode))
    else
      var t := s.transactions[req.qrCode];
      if t.scanned then ScanOutcome(s, Err(QrCodeAlreadyUsed))
      else if fault.MarkFault? then ScanOutcome(s, Err(InternalServerError))
      else
        var marked := MarkScanned(s, req.qrCode, req.userId, now);
        match CreditUser(marked, req.userId, t.tokensEarned, fault.CreditFault?)
        case None => ScanOutcome(marked, Err(InternalServerError))
        case Some(credited) =>
          ScanOutcome(credited, Ok(ScanReply(t.tokensEarned, credited.users[req.userId].tokens)))
  }

  /** Single use: once a scan has got past the checks and the first write,
      every later scan of the same code, by the same user or another,
      changes nothing and, unless the lookup itself faults, fails as
      already used, so the code's tokens are credited at most once. */
  lemma ScanTwice(s: Store, first: ScanRequest, second: ScanRequest,
                  now1: nat, fault1: ScanFault, now2: nat, fault2: ScanFault)
    requires first.qrCode in s.transactions && !s.transactions[first.qrCode].scanned
    requires !EarlyFault(fault1)
    requires second.qrCode == first.qrCode
    ensures var o1 := Scan(s, first, now1, fault1);
      var o2 := Scan(o1.store, second, now2, fault2);
      && o2.store == o1.store
      && (!fault2.LookupFault? ==> o2.response == Err(QrCodeAlreadyUsed))
  {
  }

  /** A fault on the lookup or the first write answers 500 and writes
      nothing, so the code is still there to be claimed: a later scan by an
      existing user that meets no fault is credited in full. */
  lemma ScanEarlyFaultKeepsCode(s: Store, req: ScanRequest, now: nat, fault: ScanFault, later: nat)
    requires EarlyFault(fault)
    requires req.qrCode in s.transactions && !s.transactions[req.qrCode].scanned
    requires req.userId in s.users
    ensures var o := Scan(s, req, now, fault);
      && o == ScanOutcome(s, Err(InternalServerError))
      && Scan(o.store, req, later, NoFault).response
           == Ok(ScanReply(s.transactions[req.qrCode].tokensEarned,
                           s.users[req.userId].tokens + s.transactions[req.qrCode].tokensEarned))
  {
  }

  /** The two writes are not atomic: when the scanning user does not
      exist, the code is consumed and assigned to that id, nobody is
      credited, and the code can never be claimed again. */
  lemma ScanUnknownUserLosesCode(s: Store, req: ScanRequest, now: nat, fault: ScanFault,
                                 retry: ScanRequest, later: nat, fault2: ScanFault)
    requires req.qrCode in s.transactions && !s.transactions[req.qrCode].scanned
    requires !EarlyFault(fault) && !fault2.LookupFault?
    requires req.userId !in s.users
    requires retry.qrCode == req.qrCode
    ensures var o := Scan(s, req, now, fault);
      && o.response == Err(InternalServerError)
      && o.store.transactions[req.qrCode].scanned
      && o.store.users == s.users
      && Scan(o.store, retry, later, fault2).response == Err(QrCodeAlreadyUsed)
  {
  }

  /** The same loss for an existing user: a store fault on the second write
      leaves the code consumed and assigned to that user, whose balance has
      not moved, and every later scan of the code fails as already used. */
  lemma ScanFaultLosesCredit(s: Store, req: ScanRequest, now: nat,
                             retry: ScanRequest, later: nat, fault2: ScanFault)
    requires req.qrCode in s.transactions && !s.transactions[req.qrCode].scanned
    requires req.userId in s.users
    requires retry.qrCode == req.qrCode && !fault2.LookupFault?
    ensures var o := Scan(s, req, now, CreditFault);
      && o.response == Err(InternalServerError)
      && o.store.transactions[req.qrCode].scanned
      && o.store.transactions[req.qrCode].userId == Some(req.userId)
      && o.store.users[req.userId].tokens == s.users[req.userId].tokens
      && Scan(o.store, retry, later, fault2).response == Err(QrCodeAlreadyUsed)
  {
  }
}
