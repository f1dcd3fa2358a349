/**
 * What ConnectWifi does after registering the roster: scan, poll the join
 * mechanism a bounded number of times, and on failure fall back to a soft
 * access point at a fixed address. Every platform call becomes an oracle
 * answer, and the calls made are recorded as a trace of effects.
 */
module Connection {
  import opened Wrappers

  /** device_wifi_status_t. */
  datatype DeviceStatus = StaReady | SoftApReady | NoWifi | Failure

  /** The numeric value of each status. */
  function StatusCode(s: DeviceStatus): (c: int)
    ensures 0 <= c <= 3
  {
    match s
    case StaReady => 0
    case SoftApReady => 1
    case NoWifi => 2
    case Failure => 3
  }

  /** The status with a given numeric value, if any. */
  function StatusOfCode(c: int): (s: Option<DeviceStatus>)
    ensures s.Some? <==> 0 <= c <= 3
    ensures s.Some? ==> StatusCode(s.value) == c
  {
    if c == 0 then Some(StaReady)
    else if c == 1 then Some(SoftApReady)
    else if c == 2 then Some(NoWifi)
    else if c == 3 then Some(Failure)
    else None
  }

  /** The four statuses have four distinct values: the numbering is invertible. */
  lemma StatusCodeRoundTrip(s: DeviceStatus, t: DeviceStatus)
    ensures StatusOfCode(StatusCode(s)) == Some(s)
    ensures StatusCode(s) == StatusCode(t) ==> s == t
  {
  }

  /** The wl_status_t value of WL_CONNECTED. */
  const WlConnectedCode := 3

  /** Any other wl_status_t value. */
  type OtherCode = c: int | c != WlConnectedCode

  /** A result of the join mechanism's run(): connected, or any other wl_status_t code. */
  datatype WlStatus = WlConnected | WlOther(code: OtherCode)

  datatype Ipv4 = Ipv4(a: int, b: int, c: int, d: int)

  /** The fixed soft-AP address, gateway and netmask. */
  const SoftApIp := Ipv4(192, 168, 2, 1)
  const SoftApGateway := Ipv4(192, 168, 2, 1)
  const SoftApSubnet := Ipv4(255, 255, 255, 0)

  /** The build-time SOFTAP_SSID, SOFTAP_PSK, SOFTAP_CHANNEL, SOFTAP_HIDDEN and SOFTAP_MAX_CONNECTIONS. */
  datatype SoftApSettings = SoftApSettings(ssid: string, psk: string, channel: int, hidden: bool, maxConnections: int)

  /** A platform call made by ConnectWifi. */
  datatype Effect =
    | Scan(found: int)
    | Poll(result: WlStatus)
    | ConfigureSoftAp(localIp: Ipv4, gateway: Ipv4, subnet: Ipv4)
    | StartSoftAp(settings: SoftApSettings)

  /** How ConnectWifi ended: its return value, the status it assigned (None: left alone) and its calls. */
  datatype Outcome = Outcome(connected: bool, status: Option<DeviceStatus>, trace: seq<Effect>)

  /** The largest number of run() polls: the loop gives up once its counter exceeds 10. */
  const MaxPolls: nat := 12

  /** The index of the first poll that reports a connection, or |polls| if none does. */
  function FirstConnected(polls: seq<WlStatus>): (r: nat)
    ensures r <= |polls|
    ensures forall j :: 0 <= j < r ==> polls[j] != WlConnected
    ensures r < |polls| ==> polls[r] == WlConnected
  {
    if polls == [] then 0
    else if polls[0] == WlConnected then 0
    else 1 + FirstConnected(polls[1..])
  }

  /** The join succeeds within the poll bound. */
  predicate Joined(polls: seq<WlStatus>) {
    FirstConnected(polls) < MaxPolls
  }

  /** Joined holds exactly when one of the first MaxPolls polls reports a connection. */
  lemma JoinedIff(polls: seq<WlStatus>)
    requires |polls| >= MaxPolls
    ensures Joined(polls) <==> exists j :: 0 <= j < MaxPolls && polls[j] == WlConnected
  {
  }

  /** The effects of the first k polls. */
  function PollTrace(polls: seq<WlStatus>, k: nat): (t: seq<Effect>)
    requires k <= |polls|
    ensures |t| == k
    ensures forall j :: 0 <= j < k ==> t[j] == Poll(polls[j])
  {
    if k == 0 then [] else PollTrace(polls, k - 1) + [Poll(polls[k - 1])]
  }

  /** The soft-AP fallback: configure at the fixed address, then start, stopping at the first failure. */
  function Fallback(configOk: bool, startOk: bool, build: SoftApSettings): Outcome {
    var configure := [ConfigureSoftAp(SoftApIp, SoftApGateway, SoftApSubnet)];
    if !configOk then Outcome(false, Some(NoWifi), configure)
    else if !startOk then Outcome(false, Some(NoWifi), configure + [StartSoftAp(build)])
    else Outcome(true, Some(SoftApReady), configure + [StartSoftAp(build)])
  }

  /**
   * ConnectWifi after addAPs, given the scan count, the successive results
   * of run(), and the results of softAPConfig and softAP.
   */
  function Connect(scanCount: int, polls: seq<WlStatus>, configOk: bool, startOk: bool, build: SoftApSettings): Outcome
    requires |polls| >= MaxPolls
  {
    if scanCount != 0 && Joined(polls) then
      Outcome(true, None, [Scan(scanCount)] + PollTrace(polls, FirstConnected(polls) + 1))
    else
      var polled := if scanCount == 0 then [] else PollTrace(polls, MaxPolls);
      var fallback := Fallback(configOk, startOk, build);
      Outcome(fallback.connected, fallback.status, [Scan(scanCount)] + polled + fallback.trace)
  }

  /** The number of run() polls in a trace. */
  function PollCount(t: seq<Effect>): nat {
    if t == [] then 0 else (if t[0].Poll? then 1 else 0) + PollCount(t[1..])
  }

  lemma {:induction false} PollCountAppend(a: seq<Effect>, b: seq<Effect>)
    ensures PollCount(a + b) == PollCount(a) + PollCount(b)
  {
    if a != [] {
      assert (a + b)[0] == a[0] && (a + b)[1..] == a[1..] + b;
      PollCountAppend(a[1..], b);
    } else {
      assert a + b == b;
    }
  }

  lemma {:induction false} PollCountOfPolls(polls: seq<WlStatus>, k: nat)
    requires k <= |polls|
    ensures PollCount(PollTrace(polls, k)) == k
  {
    if k > 0 {
      PollCountOfPolls(polls, k - 1);
      PollCountAppend(PollTrace(polls, k - 1), [Poll(polls[k - 1])]);
    }
  }

  /**
   * run() is never polled when the scan found no network, is polled until
   * the first connection otherwise, and never more than MaxPolls times.
   */
  lemma PollsBounded(scanCount: int, polls: seq<WlStatus>, configOk: bool, startOk: bool, build: SoftApSettings)
    requires |polls| >= MaxPolls
    ensures var n := PollCount(Connect(scanCount, polls, configOk, startOk, build).trace);
      n <= MaxPolls &&
      (scanCount == 0 ==> n == 0) &&
      (scanCount != 0 && Joined(polls) ==> n == FirstConnected(polls) + 1) &&
      (scanCount != 0 && !Joined(polls) ==> n == MaxPolls)
  {
    var o := Connect(scanCount, polls, configOk, startOk, build);
    var fb := Fallback(configOk, startOk, build);
    assert PollCount([Scan(scanCount)]) == 0;
    assert PollCount(fb.trace) == 0 by {
      assert PollCount([StartSoftAp(build)]) == 0;
      PollCountAppend([ConfigureSoftAp(SoftApIp, SoftApGateway, SoftApSubnet)], [StartSoftAp(build)]);
    }
    if scanCount != 0 && Joined(polls) {
      PollCountOfPolls(polls, FirstConnected(polls) + 1);
      PollCountAppend([Scan(scanCount)], PollTrace(polls, FirstConnected(polls) + 1));
    } else {
      var polled := if scanCount == 0 then [] else PollTrace(polls, MaxPolls);
      PollCountOfPolls(polls, MaxPolls);
      assert PollCount(polled) == if scanCount == 0 then 0 else MaxPolls;
      PollCountAppend([Scan(scanCount)], polled);
      PollCountAppend([Scan(scanCount)] + polled, fb.trace);
    }
  }

  /**
   * ConnectWifi leaves the status alone exactly when a poll reported a
   * connection; it then returns true, and that poll is its last call.
   */
  lemma StationPath(scanCount: int, polls: seq<WlStatus>, configOk: bool, startOk: bool, build: SoftApSettings)
    requires |polls| >= MaxPolls
    ensures var o := Connect(scanCount, polls, configOk, startOk, build);
      (o.status.None? <==> scanCount != 0 && Joined(polls)) &&
      (o.status.None? ==> o.connected && o.trace[|o.trace| - 1] == Poll(WlConnected))
  {
  }

  /**
   * On the fallback path the result is true with SoftApReady exactly when
   * both soft-AP calls succeed, and false with NoWifi otherwise; the
   * address is configured at the fixed triplet right after the polls, and
   * softAP, the last call, is attempted only when configuration succeeded.
   */
  lemma FallbackPath(scanCount: int, polls: seq<WlStatus>, configOk: bool, startOk: bool, build: SoftApSettings)
    requires |polls| >= MaxPolls
    requires scanCount == 0 || !Joined(polls)
    ensures var o := Connect(scanCount, polls, configOk, startOk, build);
      (o.connected <==> configOk && startOk) &&
      o.status == Some(if configOk && startOk then SoftApReady else NoWifi) &&
      |o.trace| >= 2 + (if configOk then 1 else 0) &&
      o.trace[|o.trace| - (if configOk then 2 else 1)] ==
        ConfigureSoftAp(Ipv4(192, 168, 2, 1), Ipv4(192, 168, 2, 1), Ipv4(255, 255, 255, 0)) &&
      (configOk ==> o.trace[|o.trace| - 1] == StartSoftAp(build)) &&
      (StartSoftAp(build) in o.trace <==> configOk)
  {
  }

  /**
   * ConnectWifi assigns only SoftApReady or NoWifi, never StaReady or
   * Failure, and returns true exactly when it either joined or started the
   * soft AP.
   */
  lemma AssignedStatuses(scanCount: int, polls: seq<WlStatus>, configOk: bool, startOk: bool, build: SoftApSettings)
    requires |polls| >= MaxPolls
    ensures var o := Connect(scanCount, polls, configOk, startOk, build);
      (o.status.Some? ==> o.status.value == SoftApReady || o.status.value == NoWifi) &&
      (o.connected <==> o.status.None? || o.status == Some(SoftApReady))
  {
  }
}
