/**
 * What set_environment computes: the fields it writes (`config`,
 * `wifi_password`, `local_ip`, `gateway`, `subnet`) as a function of the
 * loaded document, the selected SSID, the device's MAC address and the
 * fields' previous values.
 */
module Resolver {
  import opened Wrappers
  import opened Profiles

  /** The manager fields set_environment may write. */
  datatype Env = Env(
    config: Option<Profile>,
    wifiPassword: string,
    localIp: Address,
    gateway: Address,
    subnet: Address)

  /** `mac_ip[deviceMac]["ip"]` of a profile, when every step of the lookup is non-null. */
  function MacIp(p: Profile, deviceMac: string): Option<string> {
    if p.macIp.Some? && deviceMac in p.macIp.value then p.macIp.value[deviceMac].ip else None
  }

  /** The fields after the matching profile `p` was applied: base members first, then the MAC override. */
  function Settle(p: Profile, deviceMac: string): Env {
    var base := Env(Some(p), p.wifiPassword, AddressOf(p.localIp), AddressOf(p.gateway), AddressOf(p.subnet));
    match MacIp(p, deviceMac)
    case Some(ip) => base.(localIp := Parsed(ip))
    case None => base
  }

  /** The fields after set_environment(ssid, ...) on the loaded document `doc`. */
  function Resolve(doc: Document, ssid: string, deviceMac: string, prev: Env): Env {
    match FirstMatch(doc, ssid)
    case None => prev
    case Some(i) => Settle(doc[i].profile, deviceMac)
  }

  /** The `mqtt` member of the current `config` object; null when `config` is null. */
  function MqttOf(config: Option<Profile>): Option<MqttSettings> {
    match config
    case Some(p) => p.mqtt
    case None => None
  }

  /** An SSID that no top-level key equals leaves every field as it was. */
  lemma UnknownSsidChangesNothing(doc: Document, ssid: string, deviceMac: string, prev: Env)
    requires forall j :: 0 <= j < |doc| ==> doc[j].key != ssid
    ensures Resolve(doc, ssid, deviceMac, prev) == prev
  {
  }

  /**
   * Resolution keeps the previous fields exactly when no key matches, and
   * otherwise replaces `config` by a profile of the document.
   */
  lemma ResolveSource(doc: Document, ssid: string, deviceMac: string, prev: Env)
    ensures var r := Resolve(doc, ssid, deviceMac, prev);
      (FirstMatch(doc, ssid).None? ==> r == prev) &&
      (FirstMatch(doc, ssid).Some? ==>
        r.config.Some? && exists i :: 0 <= i < |doc| && doc[i].key == ssid && doc[i].profile == r.config.value)
  {
  }

  /** Only the first member whose key is `ssid` is used; later ones with the same key are ignored. */
  lemma FirstEntryWins(doc: Document, ssid: string, deviceMac: string, prev: Env, i: nat)
    requires i < |doc| && doc[i].key == ssid
    requires forall j :: 0 <= j < i ==> doc[j].key != ssid
    ensures Resolve(doc, ssid, deviceMac, prev) == Settle(doc[i].profile, deviceMac)
  {
  }

  /** Appending members to a document that already has the SSID changes nothing. */
  lemma LaterEntriesIgnored(doc: Document, rest: Document, ssid: string, deviceMac: string, prev: Env)
    requires exists j :: 0 <= j < |doc| && doc[j].key == ssid
    ensures Resolve(doc + rest, ssid, deviceMac, prev) == Resolve(doc, ssid, deviceMac, prev)
  {
    FirstMatchIgnoresSuffix(doc, rest, ssid);
  }

  /**
   * On a match: `config` is the profile, `wifi_password` its password, and
   * `gateway`/`subnet` are parsed from the members when present and cleared
   * when absent, whatever the device's MAC address.
   */
  lemma MatchedBaseFields(p: Profile, deviceMac: string, otherMac: string)
    ensures var e := Settle(p, deviceMac);
      e.config == Some(p) && e.wifiPassword == p.wifiPassword &&
      (e.gateway.Cleared? <==> p.gateway.None?) &&
      (p.gateway.Some? ==> e.gateway == Parsed(p.gateway.value)) &&
      (e.subnet.Cleared? <==> p.subnet.None?) &&
      (p.subnet.Some? ==> e.subnet == Parsed(p.subnet.value)) &&
      e.gateway == Settle(p, otherMac).gateway && e.subnet == Settle(p, otherMac).subnet
  {
  }

  /** A `mac_ip` entry for the device with an `ip` member overrides the base `local_ip`. */
  lemma MacOverrideDominates(p: Profile, deviceMac: string, ip: string)
    requires p.macIp.Some? && deviceMac in p.macIp.value && p.macIp.value[deviceMac].ip == Some(ip)
    ensures Settle(p, deviceMac).localIp == Parsed(ip)
  {
  }

  /**
   * Without such an override (no `mac_ip`, no entry for the device, or an
   * entry without `ip`), `local_ip` is the base member, or cleared if absent.
   */
  lemma NoOverrideKeepsBase(p: Profile, deviceMac: string)
    requires p.macIp.None? || deviceMac !in p.macIp.value || p.macIp.value[deviceMac].ip.None?
    ensures Settle(p, deviceMac).localIp == AddressOf(p.localIp)
    ensures Settle(p, deviceMac).localIp.Cleared? <==> p.localIp.None?
  {
  }

  /** Selecting the same network twice gives what selecting it once gives. */
  lemma ResolveIdempotent(doc: Document, ssid: string, deviceMac: string, prev: Env)
    ensures var once := Resolve(doc, ssid, deviceMac, prev);
      Resolve(doc, ssid, deviceMac, once) == once
  {
  }
}
