/** QR generation (the machine-facing endpoint): choose the token value of
    the deposited item, build the code string, and file an unscanned
    transaction under it. */
module QrGenerate {
  import opened Wrappers
  import opened Entities

  /** Token value of an item type that is not in the table. */
  const DefaultTokens: int := 10

  /** Every code starts with this tag, followed by the machine id. */
  const CodePrefix: string := "RVM-"

  /** Token value of one deposited item: the four known item types have
      fixed values, anything else earns the default. */
  function TokensFor(itemType: string): (t: int)
    ensures t > 0
    ensures t == DefaultTokens || t == 5 || t == 15 || t == 20
  {
    if itemType == "PLASTIC_BOTTLE" then 10
    else if itemType == "ALUMINUM_CAN" then 15
    else if itemType == "GLASS_BOTTLE" then 20
    else if itemType == "PAPER" then 5
    else DefaultTokens
  }

  /** The code string: tag, machine id, a hyphen, then the random hex
      suffix, which the model receives as the nonce. */
  function QrCodeFor(machineId: string, nonce: string): (code: string)
    ensures |code| == |CodePrefix| + |machineId| + 1 + |nonce|
    ensures code[..|CodePrefix|] == CodePrefix
    ensures code[|CodePrefix|..|CodePrefix| + |machineId|] == machineId
    ensures code[|CodePrefix| + |machineId|] == '-'
    ensures code[|CodePrefix| + |machineId| + 1..] == nonce
  {
    CodePrefix + machineId + "-" + nonce
  }

  /** Position of the last occurrence of ch in s, if any. */
  function LastIndexOf(s: string, ch: char): (r: Option<nat>)
    ensures r.None? <==> ch !in s
    ensures r.Some? ==> r.value < |s| && s[r.value] == ch && ch !in s[r.value + 1..]
  {
    if |s| == 0 then None
    else if s[|s| - 1] == ch then Some(|s| - 1)
    else match LastIndexOf(s[..|s| - 1], ch)
      case None => None
      case Some(i) =>
        assert s[i + 1..] == s[..|s| - 1][i + 1..] + [s[|s| - 1]];
        Some(i)
  }

  /** Reads a code string back into its machine id and suffix, splitting at
      the last hyphen: the hex suffix never holds one, while machine ids
      such as "RVM-3" may. */
  function ParseQrCode(code: string): Option<(string, string)>
  {
    if |code| < |CodePrefix| || code[..|CodePrefix|] != CodePrefix then None
    else
      var rest := code[|CodePrefix|..];
      match LastIndexOf(rest, '-')
      case None => None
      case Some(i) => Some((rest[..i], rest[i + 1..]))
  }

  /** A code built with a hyphen-free suffix, as every hex suffix is, parses
      back to the machine id and the suffix it was built from, whatever the
      machine id. */
  lemma ParseQrCodeFor(machineId: string, nonce: string)
    requires '-' !in nonce
    ensures ParseQrCode(QrCodeFor(machineId, nonce)) == Some((machineId, nonce))
  {
    var code := QrCodeFor(machineId, nonce);
    var rest := code[|CodePrefix|..];
    assert rest == machineId + "-" + nonce;
    assert rest[|machineId|] == '-';
    var i := LastIndexOf(rest, '-');
    assert i.Some?;
    assert i.value == |machineId|;
    assert rest[..|machineId|] == machineId;
    assert rest[|machineId| + 1..] == nonce;
  }

  /** Conversely, every string that parses is the code built from the parsed
      machine id and a hyphen-free suffix. */
  lemma QrCodeForParse(code: string, machineId: string, nonce: string)
    requires ParseQrCode(code) == Some((machineId, nonce))
    ensures '-' !in nonce
    ensures code == QrCodeFor(machineId, nonce)
  {
    var rest := code[|CodePrefix|..];
    var i := LastIndexOf(rest, '-').value;
    assert rest[..i] == machineId && rest[i + 1..] == nonce;
    assert rest == machineId + "-" + nonce;
    assert code == CodePrefix + rest;
    assert CodePrefix + (machineId + "-" + nonce) == CodePrefix + machineId + "-" + nonce;
  }

  /** Codes with hyphen-free suffixes are equal only when both the machine
      and the suffix are equal, for any machine ids. */
  lemma QrCodeForInjective(m1: string, n1: string, m2: string, n2: string)
    requires '-' !in n1 && '-' !in n2
    requires QrCodeFor(m1, n1) == QrCodeFor(m2, n2)
    ensures m1 == m2 && n1 == n2
  {
    ParseQrCodeFor(m1, n1);
    ParseQrCodeFor(m2, n2);
  }

  datatype GenerateRequest = GenerateRequest(
    userId: Option<Id>,
    itemType: string,
    machineId: string,
    machineLocation: Option<string>)

  /** The only failure: creating a row whose code already exists breaks the
      unique constraint on qrCode and the handler answers 500. */
  datatype GenerateError = GenerateInternalError {
    function Status(): int { 500 }
    function Message(): string { "Internal server error" }
  }

  /** A successful generation answers 201 with the code and the new row. */
  datatype Generated = Generated(store: Store, qrCode: string, transaction: Transaction)

  /** The generation handler, with the random suffix passed in as nonce. */
  function Generate(s: Store, req: GenerateRequest, nonce: string): (r: Result<Generated, GenerateError>)
    ensures r.Err? <==> QrCodeFor(req.machineId, nonce) in s.transactions
    ensures r.Ok? ==>
      var g := r.value;
      && g.qrCode == QrCodeFor(req.machineId, nonce)
      && g.transaction.qrCode == g.qrCode
      && !g.transaction.scanned && g.transaction.scannedAt.None?
      && g.transaction.userId == req.userId
      && g.transaction.machineId == req.machineId
      && g.transaction.machineLocation == req.machineLocation
      && g.transaction.itemType == req.itemType
      && g.transaction.tokensEarned == TokensFor(req.itemType)
      && g.store.transactions.Keys == s.transactions.Keys + {g.qrCode}
      && g.store.transactions[g.qrCode] == g.transaction
      && (forall c :: c in s.transactions ==> g.store.transactions[c] == s.transactions[c])
      && g.store.users == s.users
      && g.store.rewards == s.rewards
      && g.store.redemptions == s.redemptions
  {
    var code := QrCodeFor(req.machineId, nonce);
    if code in s.transactions then Err(GenerateInternalError)
    else
      var t := Transaction(code, req.userId, req.machineId, req.machineLocation,
                           req.itemType, TokensFor(req.itemType), false, None);
      Ok(Generated(s.(transactions := s.transactions[code := t]), code, t))
  }

  /** The four table entries and the default, as listed by the handler. */
  lemma TokenTable(itemType: string)
    ensures TokensFor("PLASTIC_BOTTLE") == 10
    ensures TokensFor("ALUMINUM_CAN") == 15
    ensures TokensFor("GLASS_BOTTLE") == 20
    ensures TokensFor("PAPER") == 5
    ensures itemType !in {"PLASTIC_BOTTLE", "ALUMINUM_CAN", "GLASS_BOTTLE", "PAPER"} ==>
              TokensFor(itemType) == DefaultTokens
  {
  }
}
