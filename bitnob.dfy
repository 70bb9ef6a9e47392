/** `bitnobService`: initiating a crypto payment and asking for its status,
    through two backend calls whose responses are computed locally. The
    clock is the parameter `now` (milliseconds since the epoch), read once
    per call. Amounts are exact rationals. */
module Bitnob {
  import opened Wrappers
  import opened Numerals
  import opened Js

  const BaseUrl := "https://api.bitnob.co/api/v1"
  const HostedPaymentsUrl := BaseUrl + "/payments/hosted/"
  const LandlordWalletId := "wallet-uuid-for-landlord-ugx-payouts"
  const ApiErrorCode := "BITNOB_API_ERROR"
  const UnknownInitiateError := "An unknown error occurred with the Bitnob API."
  const InitiateEndpoint := "/initiate"
  const StatusPrefix := "/status/"
  /** How long an initiated payment stays open: 30 minutes, in ms. */
  const PaymentWindowMs := 30 * 60 * 1000

  datatype FiatCurrency = UGX | NGN | KES
  datatype CryptoCurrency = BTC | USDT | USDC | ETH | BNB
  datatype PaymentStatus = Pending | Processing | Completed | Failed | Expired | Cancelled

  datatype PaymentRequest = PaymentRequest(
    amount: real,
    currency: FiatCurrency,
    cryptoCurrency: CryptoCurrency,
    customerEmail: string,
    customerPhone: string,
    reference: string,
    description: string,
    webhookUrl: Option<string>,
    redirectUrl: Option<string>)

  /** The payment URI `bitcoin:<wallet>?amount=<amount>`, with the amount
      before rounding. */
  datatype PaymentUri = BitcoinUri(wallet: string, amount: real)

  /** The `data` of a response: a full payment record from an initiation,
      or just the id and status from a status lookup. Times are in ms. */
  datatype PaymentData =
    | Intent(
        paymentId: string,
        reference: string,
        amount: real,
        cryptoAmount: real,
        currency: FiatCurrency,
        cryptoCurrency: CryptoCurrency,
        exchangeRate: int,
        status: PaymentStatus,
        walletAddress: string,
        qrCode: PaymentUri,
        paymentUrl: string,
        expiresAt: int,
        createdAt: int)
    | StatusReport(paymentId: string, status: PaymentStatus)

  datatype ApiError = ApiError(code: string, message: string)

  datatype PaymentResponse = PaymentResponse(success: bool, data: Option<PaymentData>, error: Option<ApiError>)

  // ---------------------------------------------------------------------
  // Conversion

  /** Fiat units per unit of the crypto currency. */
  function ExchangeRate(c: CryptoCurrency): (rate: int)
    ensures rate > 0
  {
    if c == BTC then 120_000_000 else 3_800
  }

  const Scale: real := 100_000_000.0

  /** A number with at most 8 decimal places. */
  predicate OnGrid(x: real) {
    (x * Scale).Floor as real == x * Scale
  }

  /** A whole number of hundred-millionths is on the grid. */
  lemma OnGridOf(k: int)
    ensures OnGrid(k as real / Scale)
  {
    assert (k as real / Scale) * Scale == k as real;
  }

  lemma OnGridNegated(x: real)
    requires OnGrid(x)
    ensures OnGrid(-x)
  {
    var k := (x * Scale).Floor;
    assert x == k as real / Scale;
    assert -x == (-k) as real / Scale;
    OnGridOf(-k);
  }

  /** `parseFloat(x.toFixed(8))`: the nearest multiple of 10^-8, ties
      rounded away from zero (toFixed rounds the magnitude, halves upward,
      and puts the sign back). */
  function RoundTo8(x: real): (r: real)
    ensures OnGrid(r)
    ensures -0.000000005 <= r - x <= 0.000000005
  {
    if x < 0.0 then
      var m := RoundHalfUp(-x);
      OnGridNegated(m);
      -m
    else RoundHalfUp(x)
  }

  function RoundHalfUp(y: real): (r: real)
    ensures OnGrid(r)
    ensures -0.000000005 < r - y <= 0.000000005
  {
    var n := (y * Scale + 0.5).Floor;
    OnGridOf(n);
    n as real / Scale
  }

  /** A number that already has at most 8 decimals is left as it is. */
  lemma RoundTo8OnGrid(x: real)
    requires OnGrid(x)
    ensures RoundTo8(x) == x
  {
    if x < 0.0 {
      OnGridNegated(x);
      RoundHalfUpOnGrid(-x);
    } else {
      RoundHalfUpOnGrid(x);
    }
  }

  lemma RoundHalfUpOnGrid(y: real)
    requires OnGrid(y)
    ensures RoundHalfUp(y) == y
  {
    var k := (y * Scale).Floor;
    assert y * Scale + 0.5 == k as real + 0.5;
    assert (y * Scale + 0.5).Floor == k;
    assert k as real / Scale == y;
  }

  /** Halves are rounded away from zero. */
  lemma RoundTo8Tie(k: nat)
    ensures RoundTo8((k as real + 0.5) / Scale) == (k + 1) as real / Scale
    ensures RoundTo8(-(k as real + 0.5) / Scale) == -((k + 1) as real / Scale)
  {
    var x := (k as real + 0.5) / Scale;
    assert x * Scale + 0.5 == (k + 1) as real;
    assert -(-(k as real + 0.5) / Scale) == x;
  }

  // ---------------------------------------------------------------------
  // What an initiation answers

  /** The response to an initiation of `request` at time `now`: a pending
      payment to the landlord's wallet that echoes the request, converts its
      amount at the currency's fixed rate, and expires 30 minutes later. */
  predicate PendingIntentFor(r: PaymentResponse, request: PaymentRequest, now: int) {
    && r.success && r.error.None? && r.data.Some? && r.data.value.Intent?
    && var d := r.data.value;
    && d.reference == request.reference
    && d.amount == request.amount
    && d.currency == request.currency
    && d.cryptoCurrency == request.cryptoCurrency
    && d.exchangeRate == (if request.cryptoCurrency == BTC then 120_000_000 else 3_800)
    && d.cryptoAmount == RoundTo8(request.amount / d.exchangeRate as real)
    && OnGrid(d.cryptoAmount)
    && -0.000000005 <= d.cryptoAmount - request.amount / d.exchangeRate as real <= 0.000000005
    && d.qrCode == BitcoinUri(LandlordWalletId, request.amount / d.exchangeRate as real)
    && d.status == Pending
    && d.walletAddress == LandlordWalletId
    && d.paymentId == "pay_" + IntToString(now)
    && d.paymentUrl == HostedPaymentsUrl + IntToString(now)
    && d.createdAt == now
    && d.expiresAt == now + 1_800_000
  }

  function InitiateResponse(request: PaymentRequest, now: int): (r: PaymentResponse)
    ensures PendingIntentFor(r, request, now)
  {
    var rate := ExchangeRate(request.cryptoCurrency);
    var quotient := request.amount / rate as real;
    var paymentUrl := HostedPaymentsUrl + IntToString(now);
    PaymentResponse(
      true,
      Some(Intent(
        "pay_" + IntToString(now),
        request.reference,
        request.amount,
        RoundTo8(quotient),
        request.currency,
        request.cryptoCurrency,
        rate,
        Pending,
        LandlordWalletId,
        BitcoinUri(LandlordWalletId, quotient),
        paymentUrl,
        now + PaymentWindowMs,
        now)),
      None)
  }

  /** An exact tie is rounded up: 234375 units at the BTC rate are
      0.001953125 (1/512, which a double holds exactly), answered as
      0.00195313. */
  lemma InitiateRoundsTieUp(request: PaymentRequest, now: int)
    requires request.amount == 234375.0 && request.cryptoCurrency == BTC
    ensures InitiatePayment(request, now).data.value.cryptoAmount == 0.00195313
  {
    assert request.amount / 120_000_000 as real == (195312 as real + 0.5) / Scale;
    RoundTo8Tie(195312);
  }

  /** The payment id carries the clock reading it was made from. */
  lemma PaymentIdHoldsClock(request: PaymentRequest, now: int)
    ensures var id := InitiatePayment(request, now).data.value.paymentId;
            |id| > 4 && id[..4] == "pay_" && ParseInt(id[4..]) == Some(now)
  {
    var id := InitiatePayment(request, now).data.value.paymentId;
    assert id[4..] == IntToString(now);
    ParseIntOfIntToString(now);
  }

  // ---------------------------------------------------------------------
  // The backend calls

  /** POST to the backend: only the initiation endpoint answers; every other
      endpoint throws. */
  function PostToBackend(endpoint: string, request: PaymentRequest, now: int): (r: Result<PaymentResponse, Thrown>)
    ensures r.Success? <==> endpoint == InitiateEndpoint
    ensures r.Success? ==> PendingIntentFor(r.value, request, now)
    ensures r.Failure? ==> r.error == Thrown("Unknown endpoint")
  {
    if endpoint == InitiateEndpoint then Success(InitiateResponse(request, now))
    else Failure(Thrown("Unknown endpoint"))
  }

  /** GET from the backend: a path starting with `/status/` reports a
      completed payment whose id is the path with that first `/status/`
      removed; every other path throws. */
  function GetFromBackend(endpoint: string): (r: Result<PaymentResponse, Thrown>)
    ensures r.Success? <==> StartsWith(endpoint, StatusPrefix)
    ensures r.Success? ==>
      r.value == PaymentResponse(true, Some(StatusReport(endpoint[|StatusPrefix|..], Completed)), None)
    ensures r.Failure? ==> r.error == Thrown("Unknown endpoint")
  {
    if StartsWith(endpoint, StatusPrefix) then
      var id := Replace(endpoint, StatusPrefix, "");
      assert endpoint == StatusPrefix + endpoint[|StatusPrefix|..];
      ReplaceLeadingPrefix(StatusPrefix, endpoint[|StatusPrefix|..]);
      Success(PaymentResponse(true, Some(StatusReport(id, Completed)), None))
    else
      Failure(Thrown("Unknown endpoint"))
  }

  // ---------------------------------------------------------------------
  // The service: errors never escape, they become failed responses

  /** The `catch` of `initiatePayment`. */
  function InitiateFailure(e: Thrown): (r: PaymentResponse)
    ensures !r.success && r.data.None? && r.error.Some?
    ensures r.error.value.code == "BITNOB_API_ERROR"
    ensures e.message != "" ==> r.error.value.message == e.message
    ensures e.message == "" ==> r.error.value.message == "An unknown error occurred with the Bitnob API."
  {
    PaymentResponse(false, None, Some(ApiError(ApiErrorCode, MessageOr(e, UnknownInitiateError))))
  }

  /** The `catch` of `getPaymentStatus`. */
  function StatusFailure(paymentId: string): (r: PaymentResponse)
    ensures !r.success && r.data.None? && r.error.Some?
    ensures r.error.value.code == "BITNOB_API_ERROR"
    ensures r.error.value.message == "Failed to get status for payment " + paymentId + "."
  {
    PaymentResponse(false, None, Some(ApiError(ApiErrorCode, "Failed to get status for payment " + paymentId + ".")))
  }

  /** `bitnobService.initiatePayment`: always a pending payment for the
      request, since the initiation endpoint never throws. */
  function InitiatePayment(request: PaymentRequest, now: int): (r: PaymentResponse)
    ensures PendingIntentFor(r, request, now)
  {
    match PostToBackend(InitiateEndpoint, request, now)
    case Success(response) => response
    case Failure(e) => InitiateFailure(e)
  }

  /** `bitnobService.getPaymentStatus`: the id asked about comes back, with
      status completed, whatever characters it holds. */
  function GetPaymentStatus(paymentId: string): (r: PaymentResponse)
    ensures r.success && r.error.None?
    ensures r.data == Some(StatusReport(paymentId, Completed))
  {
    var endpoint := StatusPrefix + paymentId;
    assert endpoint[..|StatusPrefix|] == StatusPrefix && endpoint[|StatusPrefix|..] == paymentId;
    match GetFromBackend(endpoint)
    case Success(response) => response
    case Failure(_) => StatusFailure(paymentId)
  }
}
