/** x402 payment records, their wire form, and the parsers of untrusted JSON. */
module X402 {
  import opened Common
  import opened Decimal
  import opened Json

  datatype Scheme = Exact | Upto

  datatype Network = SuiMainnet | SuiTestnet | SuiDevnet | BaseMainnet | SolanaMainnet

  datatype PaymentDetails = PaymentDetails(
    scheme: Scheme, network: Network, serverObjectId: string, toolName: string,
    amountAtomic: int, tokenType: string, validUntilMs: JsNumber, metadata: Option<map<string, Json>>)

  datatype PaymentDetailsWire = PaymentDetailsWire(
    scheme: Scheme, network: Network, serverObjectId: string, toolName: string,
    amountAtomic: string, tokenType: string, validUntilMs: JsNumber, metadata: Option<map<string, Json>>)

  datatype PaymentPayload = PaymentPayload(
    signature: string, payerAddress: string, sessionObjectId: string,
    intentId: Option<string>, details: PaymentDetails)

  datatype PaymentPayloadWire = PaymentPayloadWire(
    signature: string, payerAddress: string, sessionObjectId: string,
    intentId: Option<string>, details: PaymentDetailsWire)

  /** The fields of a settle result that are not amounts travel unchanged as `rest`. */
  datatype SettleResult<R> = SettleResult(
    rest: R, settledAmountAtomic: Option<int>, quotedMaxAtomic: Option<int>, unusedAtomic: Option<int>)

  datatype SettleResultWire<R> = SettleResultWire(
    rest: R, settledAmountAtomic: Option<string>, quotedMaxAtomic: Option<string>, unusedAtomic: Option<string>)

  // ----- decimal codec -----

  /** Throws (Err) unless the text is a canonical decimal. */
  function BigintFromAtomicString(s: string): Result<int, string> {
    if IsCanonical(s) then Ok(Value(s)) else Err("invalid atomic string")
  }

  /** Throws (Err) on a negative amount. */
  function AtomicStringFromBigint(n: int): Result<string, string> {
    if n < 0 then Err("atomic amount must be non-negative") else Ok(Print(n))
  }

  /** The two directions of the codec are inverse to each other, on everything either accepts. */
  lemma DecimalCodecBijective(n: int, s: string)
    ensures AtomicStringFromBigint(n) == Ok(s) <==> BigintFromAtomicString(s) == Ok(n)
  {
    if n >= 0 {
      ValueOfPrint(n);
    }
    if IsCanonical(s) {
      PrintOfValue(s);
    }
  }

  // ----- record codecs -----

  function DetailsToWire(d: PaymentDetails): Result<PaymentDetailsWire, string> {
    match AtomicStringFromBigint(d.amountAtomic)
    case Err(e) => Err(e)
    case Ok(a) => Ok(PaymentDetailsWire(
      d.scheme, d.network, d.serverObjectId, d.toolName, a, d.tokenType, d.validUntilMs, d.metadata))
  }

  function DetailsFromWire(w: PaymentDetailsWire): Result<PaymentDetails, string> {
    match BigintFromAtomicString(w.amountAtomic)
    case Err(e) => Err(e)
    case Ok(a) => Ok(PaymentDetails(
      w.scheme, w.network, w.serverObjectId, w.toolName, a, w.tokenType, w.validUntilMs, w.metadata))
  }

  function PayloadToWire(p: PaymentPayload): Result<PaymentPayloadWire, string> {
    match DetailsToWire(p.details)
    case Err(e) => Err(e)
    case Ok(d) => Ok(PaymentPayloadWire(p.signature, p.payerAddress, p.sessionObjectId, p.intentId, d))
  }

  function PayloadFromWire(w: PaymentPayloadWire): Result<PaymentPayload, string> {
    match DetailsFromWire(w.details)
    case Err(e) => Err(e)
    case Ok(d) => Ok(PaymentPayload(w.signature, w.payerAddress, w.sessionObjectId, w.intentId, d))
  }

  function OptionFromWire(s: Option<string>): Result<Option<int>, string> {
    match s
    case None => Ok(None)
    case Some(t) => match BigintFromAtomicString(t) case Err(e) => Err(e) case Ok(n) => Ok(Some(n))
  }

  method SettleResultToWire<R>(r: SettleResult<R>) returns (w: Result<SettleResultWire<R>, string>)
    ensures w.Ok? <==> NonNegative(r)
    ensures forall out :: w == Ok(out) ==> ResultFromWire(out) == Ok(r) && AmountsPrinted(r, out)
  {
    hide Print, Value, IsCanonical;
    var out := SettleResultWire(r.rest, None, None, None);
    if r.settledAmountAtomic.Some? {
      var n := r.settledAmountAtomic.value;
      var s := AtomicStringFromBigint(n);
      if s.Err? { return Err(s.error); }
      DecimalCodecBijective(n, s.value);
      out := out.(settledAmountAtomic := Some(s.value));
    }
    if r.quotedMaxAtomic.Some? {
      var n := r.quotedMaxAtomic.value;
      var s := AtomicStringFromBigint(n);
      if s.Err? { return Err(s.error); }
      DecimalCodecBijective(n, s.value);
      out := out.(quotedMaxAtomic := Some(s.value));
    }
    if r.unusedAtomic.Some? {
      var n := r.unusedAtomic.value;
      var s := AtomicStringFromBigint(n);
      if s.Err? { return Err(s.error); }
      DecimalCodecBijective(n, s.value);
      out := out.(unusedAtomic := Some(s.value));
    }
    w := Ok(out);
  }

  predicate OptNonNegative(n: Option<int>) { n.Some? ==> n.value >= 0 }

  predicate OptPrinted(n: Option<int>, s: Option<string>) {
    (n.None? <==> s.None?) && (n.Some? && n.value >= 0 ==> s == Some(Print(n.value)))
  }

  /** Each amount is printed under its own name, and the rest is carried over. */
  predicate AmountsPrinted<R(==)>(r: SettleResult<R>, w: SettleResultWire<R>) {
    && w.rest == r.rest
    && OptPrinted(r.settledAmountAtomic, w.settledAmountAtomic)
    && OptPrinted(r.quotedMaxAtomic, w.quotedMaxAtomic)
    && OptPrinted(r.unusedAtomic, w.unusedAtomic)
  }

  predicate NonNegative<R>(r: SettleResult<R>) {
    OptNonNegative(r.settledAmountAtomic) && OptNonNegative(r.quotedMaxAtomic) && OptNonNegative(r.unusedAtomic)
  }

  function ResultFromWire<R>(w: SettleResultWire<R>): Result<SettleResult<R>, string> {
    match (OptionFromWire(w.settledAmountAtomic), OptionFromWire(w.quotedMaxAtomic), OptionFromWire(w.unusedAtomic))
    case (Ok(a), Ok(b), Ok(c)) => Ok(SettleResult(w.rest, a, b, c))
    case (Err(e), _, _) => Err(e)
    case (_, Err(e), _) => Err(e)
    case (_, _, Err(e)) => Err(e)
  }

  /** `ToWire` succeeds exactly on a non-negative amount, and then `FromWire` undoes it. */
  lemma PayloadWireRoundTrip(p: PaymentPayload)
    ensures PayloadToWire(p).Ok? <==> p.details.amountAtomic >= 0
    ensures PayloadToWire(p).Ok? ==> PayloadFromWire(PayloadToWire(p).value) == Ok(p)
  {
    var n := p.details.amountAtomic;
    if n >= 0 {
      DecimalCodecBijective(n, Print(n));
    }
  }

  /** On the wire only the amount is written differently, in decimal; every other field is carried over. */
  lemma WireFields(p: PaymentPayload)
    requires p.details.amountAtomic >= 0
    ensures PayloadToWire(p).Ok?
    ensures var w, d, e := PayloadToWire(p).value, PayloadToWire(p).value.details, p.details;
            && w.signature == p.signature && w.payerAddress == p.payerAddress
            && w.sessionObjectId == p.sessionObjectId && w.intentId == p.intentId
            && d.scheme == e.scheme && d.network == e.network
            && d.serverObjectId == e.serverObjectId && d.toolName == e.toolName
            && d.amountAtomic == Print(e.amountAtomic) && d.tokenType == e.tokenType
            && d.validUntilMs == e.validUntilMs && d.metadata == e.metadata
  {
    hide Print;
  }

  /** What `FromWire` accepts, `ToWire` prints back unchanged. */
  lemma WirePayloadRoundTrip(w: PaymentPayloadWire)
    ensures PayloadFromWire(w).Ok? <==> IsCanonical(w.details.amountAtomic)
    ensures PayloadFromWire(w).Ok? ==> PayloadToWire(PayloadFromWire(w).value) == Ok(w)
  {
    var s := w.details.amountAtomic;
    if IsCanonical(s) {
      DecimalCodecBijective(Value(s), s);
    }
  }

  // ----- parsing untrusted JSON -----

  function SchemeName(s: Scheme): string { match s case Exact => "exact" case Upto => "upto" }

  function NetworkName(n: Network): string {
    match n
    case SuiMainnet => "sui-mainnet"
    case SuiTestnet => "sui-testnet"
    case SuiDevnet => "sui-devnet"
    case BaseMainnet => "base-mainnet"
    case SolanaMainnet => "solana-mainnet"
  }

  function SchemeOf(j: Option<Json>): Option<Scheme> {
    match j
    case Some(JString(s)) => if s == "exact" then Some(Exact) else if s == "upto" then Some(Upto) else None
    case _ => None
  }

  function NetworkOf(j: Option<Json>): Option<Network> {
    match j
    case Some(JString(s)) =>
      if s == "sui-mainnet" then Some(SuiMainnet)
      else if s == "sui-testnet" then Some(SuiTestnet)
      else if s == "sui-devnet" then Some(SuiDevnet)
      else if s == "base-mainnet" then Some(BaseMainnet)
      else if s == "solana-mainnet" then Some(SolanaMainnet)
      else None
    case _ => None
  }

  predicate IsHexPrefixed(s: string) { StartsWith(s, "0x") }

  /** `s.includes("::")`. */
  predicate HasModulePath(s: string) { exists i | 0 <= i < |s| - 1 :: s[i] == ':' && s[i + 1] == ':' }

  predicate IsText(j: Option<Json>) { j.Some? && j.value.JString? }

  predicate IsObject(j: Option<Json>) { j.Some? && j.value.JObject? }

  function ParseDetails(raw: Option<Json>): Result<PaymentDetailsWire, string> {
    if !IsObject(raw) then Err("details is not an object") else
    var f := raw.value.fields;
    var scheme, network := SchemeOf(Field(f, "scheme")), NetworkOf(Field(f, "network"));
    var server, tool := Field(f, "serverObjectId"), Field(f, "toolName");
    var amount, token := Field(f, "amountAtomic"), Field(f, "tokenType");
    var until, metadata := Field(f, "validUntilMs"), Field(f, "metadata");
    if scheme.None? then Err("unsupported scheme")
    else if network.None? then Err("unsupported network")
    else if !(IsText(server) && IsHexPrefixed(server.value.s)) then Err("serverObjectId")
    else if !(IsText(tool) && tool.value.s != "") then Err("toolName")
    else if !(IsText(amount) && IsCanonical(amount.value.s)) then Err("amountAtomic")
    else if !(IsText(token) && HasModulePath(token.value.s)) then Err("tokenType")
    else if !(until.Some? && until.value.JNumber? && until.value.n.mantissa > 0) then Err("validUntilMs")
    else if metadata.Some? && !IsObject(metadata) then Err("metadata")
    else Ok(PaymentDetailsWire(
      scheme.value, network.value, server.value.s, tool.value.s, amount.value.s, token.value.s, until.value.n,
      if metadata.None? then None else Some(metadata.value.fields)))
  }

  function ParsePayload(json: Json): Result<PaymentPayloadWire, string> {
    if !json.JObject? then Err("payload is not an object") else
    var f := json.fields;
    var signature, payer := Field(f, "signature"), Field(f, "payerAddress");
    var session, intent := Field(f, "sessionObjectId"), Field(f, "intentId");
    if !(IsText(signature) && signature.value.s != "") then Err("signature")
    else if !(IsText(payer) && IsHexPrefixed(payer.value.s)) then Err("payerAddress")
    else if !(IsText(session) && IsHexPrefixed(session.value.s)) then Err("sessionObjectId")
    else if intent.Some? && !(IsText(intent) && IsHexPrefixed(intent.value.s)) then Err("intentId")
    else match ParseDetails(Field(f, "details"))
      case Err(e) => Err(e)
      case Ok(d) => Ok(PaymentPayloadWire(
        signature.value.s, payer.value.s, session.value.s,
        if intent.None? then None else Some(intent.value.s), d))
  }

  /** The JSON object a wire record serialises to; absent optional fields are not printed. */
  function DetailsJson(w: PaymentDetailsWire): Json {
    var base := map[
      "scheme" := JString(SchemeName(w.scheme)),
      "network" := JString(NetworkName(w.network)),
      "serverObjectId" := JString(w.serverObjectId),
      "toolName" := JString(w.toolName),
      "amountAtomic" := JString(w.amountAtomic),
      "tokenType" := JString(w.tokenType),
      "validUntilMs" := JNumber(w.validUntilMs)];
    JObject(match w.metadata case None => base case Some(m) => base["metadata" := JObject(m)])
  }

  function PayloadJson(w: PaymentPayloadWire): Json {
    var base := map[
      "signature" := JString(w.signature),
      "payerAddress" := JString(w.payerAddress),
      "sessionObjectId" := JString(w.sessionObjectId),
      "details" := DetailsJson(w.details)];
    JObject(match w.intentId case None => base case Some(i) => base["intentId" := JString(i)])
  }

  predicate WellFormedDetails(w: PaymentDetailsWire) {
    && IsHexPrefixed(w.serverObjectId) && w.toolName != "" && IsCanonical(w.amountAtomic)
    && HasModulePath(w.tokenType) && w.validUntilMs.mantissa > 0
  }

  predicate WellFormed(w: PaymentPayloadWire) {
    && w.signature != "" && IsHexPrefixed(w.payerAddress) && IsHexPrefixed(w.sessionObjectId)
    && (w.intentId.Some? ==> IsHexPrefixed(w.intentId.value))
    && WellFormedDetails(w.details)
  }

  lemma ParsePrintedDetails(w: PaymentDetailsWire)
    ensures ParseDetails(Some(DetailsJson(w))).Ok? <==> WellFormedDetails(w)
    ensures WellFormedDetails(w) ==> ParseDetails(Some(DetailsJson(w))) == Ok(w)
  {
    var f := DetailsJson(w).fields;
    assert SchemeOf(Field(f, "scheme")) == Some(w.scheme);
    assert NetworkOf(Field(f, "network")) == Some(w.network);
    assert Field(f, "metadata") == match w.metadata { case None => None case Some(m) => Some(JObject(m)) };
  }

  /** The parser accepts a printed record exactly when it is well formed, and returns it unchanged. */
  lemma ParsePrintedPayload(w: PaymentPayloadWire)
    ensures ParsePayload(PayloadJson(w)).Ok? <==> WellFormed(w)
    ensures WellFormed(w) ==> ParsePayload(PayloadJson(w)) == Ok(w)
  {
    hide ParseDetails, DetailsJson, WellFormedDetails, IsHexPrefixed;
    ParsePrintedDetails(w.details);
    var f := PayloadJson(w).fields;
    assert Field(f, "details") == Some(DetailsJson(w.details));
    assert Field(f, "intentId") == match w.intentId { case None => None case Some(i) => Some(JString(i)) };
  }

  /** Whatever JSON it is given, the parser returns only well-formed records. */
  lemma ParsedIsWellFormed(json: Json)
    requires ParsePayload(json).Ok?
    ensures WellFormed(ParsePayload(json).value)
    ensures ParsePayload(PayloadJson(ParsePayload(json).value)) == ParsePayload(json)
  {
    hide *;
    ParsesWellFormed(json, ParsePayload(json).value);
    ParsePrintedPayload(ParsePayload(json).value);
  }

  /** The fields of a JSON object in which details are written; others may stand beside them. */
  ghost predicate SpellsDetails(f: map<string, Json>, w: PaymentDetailsWire) {
    && Field(f, "scheme") == Some(JString(if w.scheme == Exact then "exact" else "upto"))
    && (w.network == SuiMainnet ==> Field(f, "network") == Some(JString("sui-mainnet")))
    && (w.network == SuiTestnet ==> Field(f, "network") == Some(JString("sui-testnet")))
    && (w.network == SuiDevnet ==> Field(f, "network") == Some(JString("sui-devnet")))
    && (w.network == BaseMainnet ==> Field(f, "network") == Some(JString("base-mainnet")))
    && (w.network == SolanaMainnet ==> Field(f, "network") == Some(JString("solana-mainnet")))
    && Field(f, "serverObjectId") == Some(JString(w.serverObjectId))
    && Field(f, "toolName") == Some(JString(w.toolName))
    && Field(f, "amountAtomic") == Some(JString(w.amountAtomic))
    && Field(f, "tokenType") == Some(JString(w.tokenType))
    && Field(f, "validUntilMs") == Some(JNumber(w.validUntilMs))
    && Field(f, "metadata") == if w.metadata.Some? then Some(JObject(w.metadata.value)) else None
  }

  ghost predicate Spells(json: Json, w: PaymentPayloadWire) {
    && json.JObject?
    && Field(json.fields, "signature") == Some(JString(w.signature))
    && Field(json.fields, "payerAddress") == Some(JString(w.payerAddress))
    && Field(json.fields, "sessionObjectId") == Some(JString(w.sessionObjectId))
    && Field(json.fields, "intentId") == (if w.intentId.Some? then Some(JString(w.intentId.value)) else None)
    && "details" in json.fields && json.fields["details"].JObject?
    && SpellsDetails(json.fields["details"].fields, w.details)
  }

  lemma ParsesDetailsIff(f: map<string, Json>, w: PaymentDetailsWire)
    ensures ParseDetails(Some(JObject(f))) == Ok(w) <==> WellFormedDetails(w) && SpellsDetails(f, w)
  {
    hide IsCanonical;
    hide HasModulePath;
    hide IsHexPrefixed;
  }

  /**
   * The parser accepts a JSON value as a record exactly when the value spells the record out and every field is as it
   * must be: a signature, a tool, hexadecimal ids, a canonical amount, a token with a module path and a positive expiry.
   */
  lemma ParsesIff(json: Json, w: PaymentPayloadWire)
    ensures ParsePayload(json) == Ok(w) <==>
      && Spells(json, w)
      && w.signature != "" && w.details.toolName != ""
      && "0x" <= w.payerAddress && "0x" <= w.sessionObjectId && "0x" <= w.details.serverObjectId
      && (w.intentId.Some? ==> "0x" <= w.intentId.value)
      && (exists n: nat :: w.details.amountAtomic == Print(n))
      && (exists a: string, b: string :: w.details.tokenType == a + "::" + b)
      && !Before(w.details.validUntilMs, 0) && w.details.validUntilMs.mantissa != 0
  {
    FieldsAsRequired(w);
    ParsesWellFormed(json, w);
    hide *;
  }

  lemma FieldsAsRequired(w: PaymentPayloadWire)
    ensures WellFormed(w) <==>
      && w.signature != "" && w.details.toolName != ""
      && "0x" <= w.payerAddress && "0x" <= w.sessionObjectId && "0x" <= w.details.serverObjectId
      && (w.intentId.Some? ==> "0x" <= w.intentId.value)
      && (exists n: nat :: w.details.amountAtomic == Print(n))
      && (exists a: string, b: string :: w.details.tokenType == a + "::" + b)
      && !Before(w.details.validUntilMs, 0) && w.details.validUntilMs.mantissa != 0
  {
    hide Print;
    hide IsCanonical;
    hide HasModulePath;
    CanonicalIsPrinted(w.details.amountAtomic);
    ModulePathMeans(w.details.tokenType);
    BeforeMeans(w.details.validUntilMs, 0);
  }

  lemma CanonicalIsPrinted(s: string)
    ensures IsCanonical(s) <==> exists n: nat :: s == Print(n)
  {
    if IsCanonical(s) {
      PrintOfValue(s);
    }
  }

  lemma ModulePathMeans(s: string)
    ensures HasModulePath(s) <==> exists a: string, b: string :: s == a + "::" + b
  {
    if HasModulePath(s) {
      var i :| 0 <= i < |s| - 1 && s[i] == ':' && s[i + 1] == ':';
      assert s[i..i + 2] == "::";
      assert s == s[..i] + "::" + s[i + 2..];
    }
    if exists a: string, b: string :: s == a + "::" + b {
      var a: string, b: string :| s == a + "::" + b;
      assert s[|a|] == ':' && s[|a| + 1] == ':';
    }
  }

  lemma ParsesWellFormed(json: Json, w: PaymentPayloadWire)
    ensures ParsePayload(json) == Ok(w) <==> WellFormed(w) && Spells(json, w)
  {
    hide ParseDetails;
    hide WellFormedDetails;
    hide SpellsDetails;
    hide IsHexPrefixed;
    DetailsAreAnObject(if json.JObject? then Field(json.fields, "details") else None);
    if json.JObject? && "details" in json.fields && json.fields["details"].JObject? {
      ParsesDetailsIff(json.fields["details"].fields, w.details);
    }
  }

  lemma DetailsAreAnObject(raw: Option<Json>)
    ensures ParseDetails(raw).Ok? ==> raw.Some? && raw.value.JObject?
  {
  }
}
