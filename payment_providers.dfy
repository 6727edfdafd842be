/** The payment-provider library: the widget address each integration builds,
    the factory that picks an integration by name, and the webhook handler that
    checks a notification's signature and maps each provider's payload to a
    common update. The HMAC digest and query-string encoding are parameters;
    the HTTP calls are not modelled. */
module PaymentProviders {
  import opened Wrappers
  import Text

  datatype Environment = Sandbox | Production

  datatype Config = Config(apiKey: string, environment: Environment, webhookSecret: Option<string>)

  datatype Kind = MoonPay | Transak | Ramp | Simplex | Banxa | Mercuryo | Coinify

  // ---------------------------------------------------------------- widget addresses

  /** The widget host of each integration, by environment alone. */
  function BaseUrl(kind: Kind, env: Environment): string {
    match kind
    case MoonPay => if env == Production then "https://buy.moonpay.com" else "https://buy-sandbox.moonpay.com"
    case Transak => if env == Production then "https://global.transak.com" else "https://staging-global.transak.com"
    case Ramp => if env == Production then "https://buy.ramp.network" else "https://ri-widget-staging.firebaseapp.com"
    case Simplex => if env == Production then "https://checkout.simplex.com" else "https://sandbox.test-simplexcc.com"
    case Banxa => if env == Production then "https://checkout.banxa.com" else "https://checkout-sandbox.banxa.com"
    case Mercuryo => if env == Production then "https://exchange.mercuryo.io" else "https://sandbox-exchange.mrcr.io"
    case Coinify => if env == Production then "https://trade-ui.coinify.com" else "https://trade-ui-sandbox.coinify.com"
  }

  /** Every integration has distinct production and sandbox hosts. */
  lemma HostsDifferByEnvironment(kind: Kind)
    ensures BaseUrl(kind, Production) != BaseUrl(kind, Sandbox)
  {
  }

  /** What a caller asks a widget for: the receiving address, the asset, and
      the optional amount, fiat currency and one provider-specific extra
      (Transak's network, Banxa's order mode, Mercuryo's type). */
  datatype WidgetRequest = WidgetRequest(address: string, asset: string, amount: Option<real>,
                                         currency: Option<string>, extra: Option<string>)

  /** The query keys an integration uses, in the order it writes them. */
  datatype Keys = Keys(apiKey: string, address: string, asset: string, amount: string, currency: string, extra: Option<string>)

  function KeysOf(kind: Kind): Keys {
    match kind
    case MoonPay => Keys("apiKey", "walletAddress", "currencyCode", "baseCurrencyAmount", "baseCurrencyCode", None)
    case Transak => Keys("apiKey", "walletAddress", "cryptocurrency", "fiatAmount", "fiatCurrency", Some("network"))
    case Ramp => Keys("hostApiKey", "userAddress", "swapAsset", "fiatValue", "fiatCurrency", None)
    case Simplex => Keys("partner", "wallet_address", "crypto", "fiat_amount", "fiat_currency", None)
    case Banxa => Keys("apiKey", "walletAddress", "coinCode", "fiatAmount", "fiatCode", Some("orderMode"))
    case Mercuryo => Keys("widget_id", "address", "currency", "amount", "fiat_currency", Some("type"))
    case Coinify => Keys("partnerId", "targetAddress", "currency", "amount", "amountCurrency", None)
  }

  /** `...(x && { key: x })` for a text: present only when non-empty. */
  function TextParam(key: string, v: Option<string>): seq<(string, string)> {
    if v.Some? && v.value != "" then [(key, v.value)] else []
  }

  /** `...(n && { key: n.toString() })`: present only when the amount is there
      and not 0; `show` is `toString`. */
  function AmountParam(key: string, v: Option<real>, show: real -> string): seq<(string, string)> {
    if v.Some? && v.value != 0.0 then [(key, show(v.value))] else []
  }

  /** The query parameters of `generateWidgetUrl`, as an ordered key/value list. */
  function WidgetParams(kind: Kind, cfg: Config, req: WidgetRequest, show: real -> string): (r: seq<(string, string)>)
    ensures |r| >= 3 && r[..3] == [(KeysOf(kind).apiKey, cfg.apiKey), (KeysOf(kind).address, req.address), (KeysOf(kind).asset, req.asset)]
  {
    QueryParams(KeysOf(kind), kind == Transak, cfg, req, show)
  }

  /** The parameter list written with keys `k`; Transak alone appends its menu settings. */
  function QueryParams(k: Keys, transak: bool, cfg: Config, req: WidgetRequest, show: real -> string): seq<(string, string)> {
    [(k.apiKey, cfg.apiKey), (k.address, req.address), (k.asset, req.asset)]
    + AmountParam(k.amount, req.amount, show)
    + TextParam(k.currency, req.currency)
    + ExtraParam(k, req)
    + MenuParams(transak)
  }

  /** The provider-specific extra, for the integrations that have one. */
  function ExtraParam(k: Keys, req: WidgetRequest): seq<(string, string)> {
    if k.extra.Some? then TextParam(k.extra.value, req.extra) else []
  }

  /** Transak's fixed menu and colour settings. */
  function MenuParams(transak: bool): seq<(string, string)> {
    if transak then [("hideMenu", "true"), ("themeColor", "000000")] else []
  }

  /** `true` when some parameter has that key. */
  predicate HasKey(params: seq<(string, string)>, key: string) {
    exists i :: 0 <= i < |params| && params[i].0 == key
  }

  /** A key occurs in a concatenation when it occurs in either part. */
  lemma HasKeyConcat(a: seq<(string, string)>, b: seq<(string, string)>, key: string)
    ensures HasKey(a + b, key) <==> HasKey(a, key) || HasKey(b, key)
  {
    if HasKey(a + b, key) {
      var i :| 0 <= i < |a + b| && (a + b)[i].0 == key;
      if i >= |a| {
        assert b[i - |a|].0 == key;
      }
    }
    if HasKey(a, key) {
      var i :| 0 <= i < |a| && a[i].0 == key;
      assert (a + b)[i].0 == key;
    }
    if HasKey(b, key) {
      var i :| 0 <= i < |b| && b[i].0 == key;
      assert (a + b)[|a| + i].0 == key;
    }
  }

  /** The amount and currency keys differ from each other and from every
      other key the integration writes. */
  predicate KeysApart(k: Keys, transak: bool) {
    && k.amount != k.currency
    && k.apiKey != k.amount && k.address != k.amount && k.asset != k.amount
    && k.apiKey != k.currency && k.address != k.currency && k.asset != k.currency
    && (k.extra.Some? ==> k.extra.value != k.amount && k.extra.value != k.currency)
    && (transak ==> "hideMenu" != k.amount && "themeColor" != k.amount
                    && "hideMenu" != k.currency && "themeColor" != k.currency)
  }

  lemma KeysApartOf(kind: Kind)
    ensures KeysApart(KeysOf(kind), kind == Transak)
  {
  }

  /** An amount is sent exactly when it is given and not 0, and then as
      `show` renders it; the same holds for the fiat currency with the empty
      text in place of 0. An extra is sent only by the integrations that have one. */
  lemma OptionalParamsAreTruthy(kind: Kind, cfg: Config, req: WidgetRequest, show: real -> string)
    ensures var r := WidgetParams(kind, cfg, req, show);
      var k := KeysOf(kind);
      && (HasKey(r, k.amount) <==> req.amount.Some? && req.amount.value != 0.0)
      && (req.amount.Some? && req.amount.value != 0.0 ==> r[3] == (k.amount, show(req.amount.value)))
      && (HasKey(r, k.currency) <==> req.currency.Some? && req.currency.value != "")
      && (k.extra.None? ==> |r| == 3 + |AmountParam(k.amount, req.amount, show)| + |TextParam(k.currency, req.currency)| + (if kind == Transak then 2 else 0))
  {
    KeysApartOf(kind);
    QueryParamsAreTruthy(KeysOf(kind), kind == Transak, cfg, req, show);
  }

  /** The same, for any keys that are apart. */
  lemma QueryParamsAreTruthy(k: Keys, transak: bool, cfg: Config, req: WidgetRequest, show: real -> string)
    requires KeysApart(k, transak)
    ensures var r := QueryParams(k, transak, cfg, req, show);
      && (HasKey(r, k.amount) <==> req.amount.Some? && req.amount.value != 0.0)
      && (req.amount.Some? && req.amount.value != 0.0 ==> r[3] == (k.amount, show(req.amount.value)))
      && (HasKey(r, k.currency) <==> req.currency.Some? && req.currency.value != "")
      && (k.extra.None? ==> |r| == 3 + |AmountParam(k.amount, req.amount, show)| + |TextParam(k.currency, req.currency)| + (if transak then 2 else 0))
  {
    var r := QueryParams(k, transak, cfg, req, show);
    var a := AmountParam(k.amount, req.amount, show);
    var c := TextParam(k.currency, req.currency);
    var e := ExtraParam(k, req);
    var t := MenuParams(transak);
    var head := [(k.apiKey, cfg.apiKey), (k.address, req.address), (k.asset, req.asset)];
    forall key | key == k.amount || key == k.currency
      ensures HasKey(r, key) <==> HasKey(head, key) || HasKey(a, key) || HasKey(c, key) || HasKey(e, key) || HasKey(t, key)
    {
      HasKeyConcat(head + a + c + e, t, key);
      HasKeyConcat(head + a + c, e, key);
      HasKeyConcat(head + a, c, key);
      HasKeyConcat(head, a, key);
    }
    assert !HasKey(head, k.amount) && !HasKey(head, k.currency);
    if |a| == 1 {
      assert a[0].0 == k.amount;
    }
    if |c| == 1 {
      assert c[0].0 == k.currency;
    }
    assert !HasKey(a, k.currency) && !HasKey(c, k.amount);
    assert !HasKey(e, k.amount) && !HasKey(e, k.currency);
    assert !HasKey(t, k.amount) && !HasKey(t, k.currency);
    if |a| == 1 {
      assert r[3] == a[0];
    }
  }

  /** Transak's widget always ends with the fixed menu and colour settings. */
  lemma TransakAlwaysHidesMenu(cfg: Config, req: WidgetRequest, show: real -> string)
    ensures var r := WidgetParams(Transak, cfg, req, show);
      |r| >= 5 && r[|r| - 2..] == [("hideMenu", "true"), ("themeColor", "000000")]
  {
  }

  /** `generateWidgetUrl`: the host for the configured environment, then the
      encoded query; `encode` stands for `URLSearchParams.toString`. */
  function WidgetUrl(kind: Kind, cfg: Config, req: WidgetRequest, show: real -> string,
                     encode: seq<(string, string)> -> string): (r: string)
    ensures BaseUrl(kind, cfg.environment) + "?" <= r
  {
    BaseUrl(kind, cfg.environment) + "?" + encode(WidgetParams(kind, cfg, req, show))
  }

  /** Two configurations with the same environment give the same host,
      whatever their keys; production and sandbox never share one. */
  lemma HostDependsOnlyOnEnvironment(kind: Kind, a: Config, b: Config, req: WidgetRequest, show: real -> string,
                                     encode: seq<(string, string)> -> string)
    ensures var hostA := WidgetUrl(kind, a, req, show, encode)[..|BaseUrl(kind, a.environment)|];
      && hostA == BaseUrl(kind, a.environment)
      && (a.environment == b.environment ==> hostA == WidgetUrl(kind, b, req, show, encode)[..|BaseUrl(kind, b.environment)|])
  {
    var ua := WidgetUrl(kind, a, req, show, encode);
    var ub := WidgetUrl(kind, b, req, show, encode);
    assert ua[..|BaseUrl(kind, a.environment)|] == BaseUrl(kind, a.environment);
    assert ub[..|BaseUrl(kind, b.environment)|] == BaseUrl(kind, b.environment);
  }

  // ---------------------------------------------------------------- the factory

  /** The lower-case name that selects each integration. */
  function NameOf(kind: Kind): string {
    match kind
    case MoonPay => "moonpay"
    case Transak => "transak"
    case Ramp => "ramp"
    case Simplex => "simplex"
    case Banxa => "banxa"
    case Mercuryo => "mercuryo"
    case Coinify => "coinify"
  }

  /** The integration with exactly that name. */
  function KindNamed(name: string): (r: Option<Kind>)
    ensures r.Some? ==> NameOf(r.value) == name
    ensures r.None? ==> forall k: Kind :: NameOf(k) != name
  {
    if name == "moonpay" then Some(MoonPay)
    else if name == "transak" then Some(Transak)
    else if name == "ramp" then Some(Ramp)
    else if name == "simplex" then Some(Simplex)
    else if name == "banxa" then Some(Banxa)
    else if name == "mercuryo" then Some(Mercuryo)
    else if name == "coinify" then Some(Coinify)
    else None
  }

  datatype Integration = Integration(kind: Kind, config: Config)

  /** `PaymentProviderFactory.create`: the integration whose name is the
      lower-cased `provider`, holding `config`. */
  function Create(provider: string, config: Config): (r: Result<Integration, string>)
    ensures r.Success? <==> exists k: Kind :: NameOf(k) == Text.Lower(provider)
    ensures r.Success? ==> NameOf(r.value.kind) == Text.Lower(provider) && r.value.config == config
    ensures r.Failure? ==> r.error == "Unsupported provider: " + provider
  {
    match KindNamed(Text.Lower(provider))
    case None => Failure("Unsupported provider: " + provider)
    case Some(k) => Success(Integration(k, config))
  }

  /** The factory ignores case: names equal up to case pick the same integration. */
  lemma CreateIgnoresCase(a: string, b: string, config: Config)
    requires Text.EqualsIgnoreCase(a, b)
    ensures Create(a, config).Success? <==> Create(b, config).Success?
    ensures Create(a, config).Success? ==> Create(a, config) == Create(b, config)
  {
  }

  /** Every integration is reachable under its own lower-case name. */
  lemma EveryKindIsCreatable(kind: Kind, config: Config)
    ensures Create(NameOf(kind), config) == Success(Integration(kind, config))
  {
    Text.LowerOfLowercase(NameOf(kind));
    match kind
    case MoonPay => assert KindNamed("moonpay") == Some(MoonPay);
    case Transak => assert KindNamed("transak") == Some(Transak);
    case Ramp => assert KindNamed("ramp") == Some(Ramp);
    case Simplex => assert KindNamed("simplex") == Some(Simplex);
    case Banxa => assert KindNamed("banxa") == Some(Banxa);
    case Mercuryo => assert KindNamed("mercuryo") == Some(Mercuryo);
    case Coinify => assert KindNamed("coinify") == Some(Coinify);
  }

  // ---------------------------------------------------------------- webhooks

  /** A parsed JSON value; `Option<Json>` is a property that may be `undefined`. */
  datatype Json = Null | Str(s: string) | Num(n: real) | Bool(b: bool) | Obj(fields: map<string, Json>)

  const TypeError := "TypeError"

  /** Property access `x.key`: `undefined` and `null` throw, an object gives
      its member (or `undefined`), other values give `undefined`. */
  function Field(x: Option<Json>, key: string): (r: Result<Option<Json>, string>)
    ensures r.Failure? <==> x.None? || x.value.Null?
    ensures r.Success? && r.value.Some? ==> x.value.Obj? && key in x.value.fields && r.value.value == x.value.fields[key]
  {
    match x
    case None => Failure(TypeError)
    case Some(Null) => Failure(TypeError)
    case Some(Obj(m)) => Success(if key in m then Some(m[key]) else None)
    case Some(_) => Success(None)
  }

  /** `x.key.toLowerCase()`: throws unless the property is a string. */
  function LowerField(x: Option<Json>, key: string): (r: Result<Option<Json>, string>)
    ensures r.Success? ==> exists s :: Field(x, key) == Success(Some(Str(s))) && r.value == Some(Str(Text.Lower(s)))
  {
    match Field(x, key)
    case Success(Some(Str(s))) => Success(Some(Str(Text.Lower(s))))
    case _ => Failure(TypeError)
  }

  /** The common update every mapper returns. */
  datatype Update = Update(transactionId: Option<Json>, status: Option<Json>, cryptoAmount: Option<Json>, fiatAmount: Option<Json>)

  const Completed := Some(Str("completed"))

  /** Reads `obj.id`, `obj.<crypto>` and `obj.<fiat>` into an update with `status`. */
  function Read(obj: Option<Json>, id: string, crypto: string, fiat: string, status: Option<Json>): (r: Result<Update, string>)
    ensures r.Failure? <==> obj.None? || obj.value.Null?
    ensures r.Success? ==> r.value.status == status && Field(obj, id) == Success(r.value.transactionId)
                           && Field(obj, crypto) == Success(r.value.cryptoAmount) && Field(obj, fiat) == Success(r.value.fiatAmount)
  {
    if obj.None? || obj.value.Null? then Failure(TypeError)
    else Success(Update(Field(obj, id).value, status, Field(obj, crypto).value, Field(obj, fiat).value))
  }

  function Just(r: Result<Update, string>): Result<Option<Update>, string> {
    match r
    case Success(u) => Success(Some(u))
    case Failure(e) => Failure(e)
  }

  /** `processMoonPayWebhook`: only `transaction_updated` is mapped, from `data`. */
  function MoonPayUpdate(payload: Json): (r: Result<Option<Update>, string>) {
    if payload.Null? then Failure(TypeError)
    else
      var p := Some(payload);
      if Field(p, "type").value != Some(Str("transaction_updated")) then Success(None)
      else
        var data := Field(p, "data").value;
        match Field(data, "status")
        case Failure(e) => Failure(e)
        case Success(status) => Just(Read(data, "id", "cryptoAmount", "baseCurrencyAmount", status))
  }

  /** `processTransakWebhook`: every event is mapped, with the status lower-cased. */
  function TransakUpdate(payload: Json): (r: Result<Option<Update>, string>) {
    if payload.Null? then Failure(TypeError)
    else
      var p := Some(payload);
      var eventId := Field(p, "eventID").value;
      match LowerField(p, "status")
      case Failure(e) => Failure(e)
      case Success(status) =>
        var orderData := Field(p, "orderData").value;
        match Field(orderData, "cryptoAmount")
        case Failure(e) => Failure(e)
        case Success(crypto) => Success(Some(Update(eventId, status, crypto, Field(orderData, "fiatAmount").value)))
  }

  /** `processRampWebhook`: only `RELEASED` is mapped, as completed. */
  function RampUpdate(payload: Json): (r: Result<Option<Update>, string>) {
    if payload.Null? then Failure(TypeError)
    else
      var p := Some(payload);
      if Field(p, "type").value != Some(Str("RELEASED")) then Success(None)
      else Just(Read(Field(p, "purchase").value, "id", "cryptoAmount", "fiatValue", Completed))
  }

  /** `processSimplexWebhook`: every event is mapped; approved payments are
      completed and everything else is processing. */
  function SimplexUpdate(payload: Json): (r: Result<Option<Update>, string>) {
    if payload.Null? then Failure(TypeError)
    else
      var p := Some(payload);
      var status := if Field(p, "name").value == Some(Str("payment_simplexcc_approved")) then Completed else Some(Str("processing"));
      var payment := Field(p, "payment").value;
      if payment.None? || payment.value.Null? then Failure(TypeError)
      else Success(Some(Update(Field(p, "event_id").value, status, Field(payment, "requested_digital_amount").value,
                               Field(payment, "fiat_total_amount").value)))
  }

  /** `processBanxaWebhook`: every event is mapped from `order`, with the
      status lower-cased. */
  function BanxaUpdate(payload: Json): (r: Result<Option<Update>, string>) {
    if payload.Null? then Failure(TypeError)
    else
      var order := Field(Some(payload), "order").value;
      match Field(order, "id")
      case Failure(e) => Failure(e)
      case Success(id) =>
        match LowerField(order, "status")
        case Failure(e) => Failure(e)
        case Success(status) => Just(Read(order, "id", "coin_amount", "fiat_amount", status))
  }

  /** `processMercuryoWebhook`: only `status_update` is mapped, from `data`,
      with the status lower-cased. */
  function MercuryoUpdate(payload: Json): (r: Result<Option<Update>, string>) {
    if payload.Null? then Failure(TypeError)
    else
      var p := Some(payload);
      if Field(p, "type").value != Some(Str("status_update")) then Success(None)
      else
        var data := Field(p, "data").value;
        match Field(data, "id")
        case Failure(e) => Failure(e)
        case Success(_) =>
          match LowerField(data, "status")
          case Failure(e) => Failure(e)
          case Success(status) => Just(Read(data, "id", "amount", "fiat_amount", status))
  }

  /** `processCoinifyWebhook`: only `trade.completed` is mapped, as completed. */
  function CoinifyUpdate(payload: Json): (r: Result<Option<Update>, string>) {
    if payload.Null? then Failure(TypeError)
    else
      var p := Some(payload);
      if Field(p, "event").value != Some(Str("trade.completed")) then Success(None)
      else Just(Read(Field(p, "data").value, "id", "outAmount", "inAmount", Completed))
  }

  function UpdateFor(kind: Kind, payload: Json): Result<Option<Update>, string> {
    match kind
    case MoonPay => MoonPayUpdate(payload)
    case Transak => TransakUpdate(payload)
    case Ramp => RampUpdate(payload)
    case Simplex => SimplexUpdate(payload)
    case Banxa => BanxaUpdate(payload)
    case Mercuryo => MercuryoUpdate(payload)
    case Coinify => CoinifyUpdate(payload)
  }

  /** `handlePaymentWebhook`; `hmac(secret, payload)` stands for the
      hex-encoded HMAC-SHA256 of the serialised payload. A signature that does
      not match is refused before the provider is looked at; the provider name
      must then be exactly one of the seven lower-case names. */
  function HandleWebhook(provider: string, payload: Json, signature: string, secret: string,
                         hmac: (string, Json) -> string): (r: Result<Option<Update>, string>)
    ensures signature != hmac(secret, payload) ==> r == Failure("Invalid webhook signature")
    ensures signature == hmac(secret, payload) && KindNamed(provider).None? ==> r == Failure("Unknown provider: " + provider)
    ensures signature == hmac(secret, payload) && KindNamed(provider).Some? ==> r == UpdateFor(KindNamed(provider).value, payload)
  {
    if signature != hmac(secret, payload) then Failure("Invalid webhook signature")
    else match KindNamed(provider)
      case None => Failure("Unknown provider: " + provider)
      case Some(k) => UpdateFor(k, payload)
  }

  /** Unlike the factory, webhook dispatch is case-sensitive: "MoonPay" is
      an integration to the factory and an unknown provider to the handler. */
  lemma WebhookNamesAreExact(payload: Json, secret: string, hmac: (string, Json) -> string, config: Config)
    ensures Create("MoonPay", config).Success?
    ensures HandleWebhook("MoonPay", payload, hmac(secret, payload), secret, hmac) == Failure("Unknown provider: MoonPay")
  {
    assert Text.Lower("MoonPay") == "moonpay";
    assert "MoonPay"[0] == 'M';
    assert KindNamed("MoonPay") == None;
    assert "Unknown provider: " + "MoonPay" == "Unknown provider: MoonPay";
  }

  /** Whether an event carries the expected `type` (or `event`) text. */
  predicate Tagged(payload: Json, key: string, tag: string) {
    payload.Obj? && key in payload.fields && payload.fields[key] == Str(tag)
  }

  /** Ramp answers null to every event but `RELEASED`, and a release whose
      purchase is an object becomes a completed update. Coinify does the same
      with `trade.completed` and its `data`. */
  lemma OnlyReleasesComplete(payload: Json)
    requires !payload.Null?
    ensures !Tagged(payload, "type", "RELEASED") ==> RampUpdate(payload) == Success(None)
    ensures Tagged(payload, "type", "RELEASED") && payload.fields.Keys >= {"purchase"} && payload.fields["purchase"].Obj? ==>
              RampUpdate(payload).Success? && RampUpdate(payload).value.Some? && RampUpdate(payload).value.value.status == Completed
    ensures !Tagged(payload, "event", "trade.completed") ==> CoinifyUpdate(payload) == Success(None)
    ensures Tagged(payload, "event", "trade.completed") && payload.fields.Keys >= {"data"} && payload.fields["data"].Obj? ==>
              CoinifyUpdate(payload).Success? && CoinifyUpdate(payload).value.Some? && CoinifyUpdate(payload).value.value.status == Completed
  {
  }

  /** Simplex maps every event whose payment is an object: approved payments
      are completed, every other name is processing. */
  lemma SimplexStatus(payload: Json)
    requires payload.Obj? && "payment" in payload.fields && payload.fields["payment"].Obj?
    ensures SimplexUpdate(payload).Success? && SimplexUpdate(payload).value.Some?
    ensures SimplexUpdate(payload).value.value.status ==
              if Tagged(payload, "name", "payment_simplexcc_approved") then Completed else Some(Str("processing"))
  {
  }

  /** MoonPay and Mercuryo answer null to every event but the status updates
      they know. */
  lemma UntaggedEventsAreIgnored(payload: Json)
    requires !payload.Null?
    ensures !Tagged(payload, "type", "transaction_updated") ==> MoonPayUpdate(payload) == Success(None)
    ensures !Tagged(payload, "type", "status_update") ==> MercuryoUpdate(payload) == Success(None)
  {
  }

  /** Transak and Banxa map every event whose status is a string, lower-casing
      the status; one whose status is missing or not a string throws. */
  lemma StatusIsLowerCased(payload: Json, status: string)
    ensures payload.Obj? && payload.fields.Keys >= {"status", "orderData"} && payload.fields["status"] == Str(status)
              && payload.fields["orderData"].Obj? ==>
              TransakUpdate(payload).Success? && TransakUpdate(payload).value.Some?
              && TransakUpdate(payload).value.value.status == Some(Str(Text.Lower(status)))
    ensures payload.Obj? && "status" !in payload.fields ==> TransakUpdate(payload).Failure?
    ensures payload.Obj? && "order" in payload.fields && payload.fields["order"].Obj?
              && "status" in payload.fields["order"].fields && payload.fields["order"].fields["status"] == Str(status) ==>
              BanxaUpdate(payload).Success? && BanxaUpdate(payload).value.Some?
              && BanxaUpdate(payload).value.value.status == Some(Str(Text.Lower(status)))
  {
  }
}
