/**
 * The manager object: the loaded profile document, the fields that
 * set_environment fills in, the registered roster and the connectivity
 * status, with the three operations that change them; and the MQTT
 * extension that re-reads `config["mqtt"]` after every environment change.
 */
module Manager {
  import opened Wrappers
  import opened Profiles
  import opened Resolver
  import opened RosterBuilder
  import opened Connection

  class WiFiEnvironmentMgr {
    var isLoaded: bool
    /** The deserialised /environments.json; empty until loaded. */
    var doc: Document
    /** The profile object of the last matched network; None is a null JsonObject. */
    var config: Option<Profile>
    var wifiPassword: string
    var localIp: Address
    var gateway: Address
    var subnet: Address
    /** Public fields that no operation of the manager assigns. */
    var ssid: string
    var host: string
    var status: DeviceStatus
    /** The `addAP` calls the manager itself made on the join mechanism, in order (a client may add others to the public `wifiMulti`). */
    var registered: seq<Candidate>

    /**
     * No profile is selected before the document is loaded, and
     * `config` always refers to a profile of the loaded document.
     */
    ghost predicate Valid()
      reads this
    {
      (!isLoaded ==> doc == [] && config.None?) &&
      (config.Some? ==> exists i :: 0 <= i < |doc| && doc[i].profile == config.value)
    }

    /** The fields set_environment writes. */
    function Current(): Env
      reads this
    {
      Env(config, wifiPassword, localIp, gateway, subnet)
    }

    /** A fresh manager has not loaded its document; strings are empty and addresses unset. */
    constructor ()
      ensures Valid() && !isLoaded && doc == [] && registered == []
      ensures Current() == Env(None, "", Cleared, Cleared, Cleared)
      ensures ssid == "" && host == "" && status == StaReady
    {
      isLoaded := false;
      doc := [];
      config := None;
      wifiPassword := "";
      localIp, gateway, subnet := Cleared, Cleared, Cleared;
      ssid, host := "", "";
      status := StaReady;
      registered := [];
    }

    /**
     * The lazy-load guard: load `stored` (what /environments.json
     * deserialises to) on first use only.
     */
    method EnsureLoaded(stored: Document)
      requires Valid()
      modifies this
      ensures Valid() && isLoaded
      ensures doc == if old(isLoaded) then old(doc) else stored
      ensures Current() == old(Current()) && registered == old(registered)
      ensures ssid == old(ssid) && host == old(host) && status == old(status)
    {
      if !isLoaded {
        doc := stored;
        isLoaded := true;
      }
    }

    /**
     * set_environment: select the first profile whose key is `ssid` and
     * copy its password and addresses, then let a `mac_ip` entry for the
     * device's MAC address override `local_ip`. The `mac` argument is not
     * used; the MAC address is the platform's `deviceMac`.
     */
    method SetEnvironment(ssid: string, mac: string, deviceMac: string, stored: Document)
      requires Valid()
      modifies this
      ensures Valid() && isLoaded
      ensures doc == if old(isLoaded) then old(doc) else stored
      ensures Current() == Resolve(doc, ssid, deviceMac, old(Current()))
      ensures registered == old(registered)
      ensures this.ssid == old(this.ssid) && host == old(host) && status == old(status)
    {
      EnsureLoaded(stored);
      label loaded:
      var root := doc;
      var k := 0;
      while k < |root|
        invariant 0 <= k <= |root|
        invariant forall j :: 0 <= j < k ==> root[j].key != ssid
        invariant unchanged@loaded(this) && doc == root
      {
        if root[k].key != ssid {
          k := k + 1;
          continue;
        }
        var p := root[k].profile;
        ApplyProfile(p, deviceMac);
        FirstMatchIsLeast(root, ssid, k);
        assert doc == root && doc[k].profile == config.value;
        return;
      }
    }

    /**
     * The body of set_environment for the matching member `p`: copy its
     * password and addresses (clearing an absent address), then apply the
     * `mac_ip` entry for the device, which may only replace `local_ip`.
     */
    method ApplyProfile(p: Profile, deviceMac: string)
      modifies this
      ensures Current() == Settle(p, deviceMac)
      ensures isLoaded == old(isLoaded) && doc == old(doc) && registered == old(registered)
      ensures ssid == old(ssid) && host == old(host) && status == old(status)
    {
      config := Some(p);
      wifiPassword := p.wifiPassword;
      if p.localIp.Some? {
        localIp := Parsed(p.localIp.value);
      } else {
        localIp := Cleared;
      }
      if p.gateway.Some? {
        gateway := Parsed(p.gateway.value);
      } else {
        gateway := Cleared;
      }
      if p.subnet.Some? {
        subnet := Parsed(p.subnet.value);
      } else {
        subnet := Cleared;
      }
      assert Current() == Env(Some(p), p.wifiPassword, AddressOf(p.localIp), AddressOf(p.gateway), AddressOf(p.subnet));
      if p.macIp.Some? {
        var macKey := deviceMac;
        if macKey in p.macIp.value {
          var entry := p.macIp.value[macKey];
          if entry.ip.Some? {
            localIp := Parsed(entry.ip.value);
          }
        }
      }
      assert Current() == Settle(p, deviceMac);
    }

    /** addAPs: register one candidate per top-level member, in document order. */
    method AddAps(stored: Document)
      requires Valid()
      modifies this
      ensures Valid() && isLoaded
      ensures doc == if old(isLoaded) then old(doc) else stored
      ensures registered == old(registered) + Roster(doc)
      ensures Current() == old(Current())
      ensures ssid == old(ssid) && host == old(host) && status == old(status)
    {
      EnsureLoaded(stored);
      var root := doc;
      ghost var before := registered;
      var k := 0;
      while k < |root|
        invariant 0 <= k <= |root|
        invariant registered == before + Roster(root[..k])
        invariant isLoaded && doc == root && Valid()
        invariant Current() == old(Current())
        invariant ssid == old(ssid) && host == old(host) && status == old(status)
      {
        var entry := root[k];
        registered := registered + [Candidate(entry.key, entry.profile.wifiPassword)];
        assert root[..k + 1] == root[..k] + [entry];
        RosterAppend(root[..k], [entry]);
        k := k + 1;
      }
      assert root[..k] == root;
    }

    /**
     * ConnectWifi: register the roster, scan, poll run() until it reports a
     * connection or the counter passes 10, and otherwise configure and start
     * the soft AP. Returns whether a connection (station or soft AP) exists,
     * and the platform calls made after addAPs.
     */
    method ConnectWifi(stored: Document, scanCount: int, polls: seq<WlStatus>,
                       configOk: bool, startOk: bool, build: SoftApSettings)
      returns (ok: bool, effects: seq<Effect>)
      requires Valid()
      requires |polls| >= MaxPolls
      modifies this
      ensures Valid() && isLoaded
      ensures doc == if old(isLoaded) then old(doc) else stored
      ensures registered == old(registered) + Roster(doc)
      ensures var o := Connect(scanCount, polls, configOk, startOk, build);
        ok == o.connected && effects == o.trace &&
        status == o.status.GetOr(old(status))
      ensures Current() == old(Current()) && ssid == old(ssid) && host == old(host)
    {
      var state := true;
      var i := 0;
      AddAps(stored);
      effects := [Scan(scanCount)];
      if scanCount == 0 {
        state := false;
      } else {
        var result := polls[0];
        effects := effects + [Poll(result)];
        while result != WlConnected
          invariant 0 <= i < MaxPolls
          invariant result == polls[i]
          invariant forall j :: 0 <= j < i ==> polls[j] != WlConnected
          invariant effects == [Scan(scanCount)] + PollTrace(polls, i + 1)
          invariant state
          decreases MaxPolls - i
        {
          if i > 10 {
            state := false;
            break;
          }
          i := i + 1;
          result := polls[i];
          effects := effects + [Poll(result)];
        }
        assert state ==> FirstConnected(polls) == i;
        assert !state ==> i == MaxPolls - 1 && FirstConnected(polls) >= MaxPolls;
      }
      if state {
        ok := true;
        return;
      }
      effects := effects + [ConfigureSoftAp(Ipv4(192, 168, 2, 1), Ipv4(192, 168, 2, 1), Ipv4(255, 255, 255, 0))];
      if !configOk {
        status := NoWifi;
        ok := false;
        return;
      }
      effects := effects + [StartSoftAp(build)];
      if !startOk {
        status := NoWifi;
        ok := false;
        return;
      }
      status := SoftApReady;
      ok := true;
    }
  }

  /**
   * The MQTT extension: the manager plus `json_mqtt`, re-read from
   * `config["mqtt"]` after each environment change.
   */
  class MqttEnvironmentMgr {
    const base: WiFiEnvironmentMgr
    var jsonMqtt: Option<MqttSettings>

    ghost predicate Valid()
      reads this, base
    {
      base.Valid()
    }

    constructor ()
      ensures Valid() && fresh(base) && !base.isLoaded && jsonMqtt.None?
      ensures base.doc == [] && base.registered == []
      ensures base.Current() == Env(None, "", Cleared, Cleared, Cleared)
      ensures base.ssid == "" && base.host == "" && base.status == StaReady
    {
      base := new WiFiEnvironmentMgr();
      jsonMqtt := None;
    }

    /**
     * The base set_environment, then `json_mqtt := config["mqtt"]`. When
     * no key matches, `config` is the previous one and `json_mqtt` is
     * re-read from it.
     */
    method SetEnvironment(ssid: string, mac: string, deviceMac: string, stored: Document)
      requires Valid()
      modifies this, base
      ensures Valid() && base.isLoaded
      ensures base.doc == if old(base.isLoaded) then old(base.doc) else stored
      ensures base.Current() == Resolve(base.doc, ssid, deviceMac, old(base.Current()))
      ensures jsonMqtt == MqttOf(base.config)
      ensures FirstMatch(base.doc, ssid).None? ==> jsonMqtt == MqttOf(old(base.config))
      ensures FirstMatch(base.doc, ssid).Some? ==> jsonMqtt == base.doc[FirstMatch(base.doc, ssid).value].profile.mqtt
      ensures base.registered == old(base.registered) && base.status == old(base.status)
      ensures base.ssid == old(base.ssid) && base.host == old(base.host)
    {
      base.SetEnvironment(ssid, mac, deviceMac, stored);
      jsonMqtt := MqttOf(base.config);
    }

    /** hasMQTT_Config: whether `json_mqtt` is a non-null object. */
    function HasMqttConfig(): (r: bool)
      reads this
      ensures r <==> jsonMqtt != None
    {
      jsonMqtt.Some?
    }

    /** mqtt_broker: the `broker` member, null when it or `json_mqtt` is absent. */
    function MqttBroker(): (r: Option<string>)
      reads this
      ensures jsonMqtt.Some? ==> r == jsonMqtt.value.broker
      ensures jsonMqtt.None? ==> r.None?
    {
      if jsonMqtt.Some? then jsonMqtt.value.broker else None
    }

    /** mqtt_port: the `port` member, 0 when it or `json_mqtt` is absent. */
    function MqttPort(): (r: int)
      reads this
      ensures jsonMqtt.Some? && jsonMqtt.value.port.Some? ==> r == jsonMqtt.value.port.value
      ensures jsonMqtt.None? || jsonMqtt.value.port.None? ==> r == 0
    {
      if jsonMqtt.Some? then jsonMqtt.value.port.GetOr(0) else 0
    }

    /** mqtt_user: the `user` member, null when it or `json_mqtt` is absent. */
    function MqttUser(): (r: Option<string>)
      reads this
      ensures jsonMqtt.Some? ==> r == jsonMqtt.value.user
      ensures jsonMqtt.None? ==> r.None?
    {
      if jsonMqtt.Some? then jsonMqtt.value.user else None
    }

    /** mqtt_password: the `password` member, null when it or `json_mqtt` is absent. */
    function MqttPassword(): (r: Option<string>)
      reads this
      ensures jsonMqtt.Some? ==> r == jsonMqtt.value.password
      ensures jsonMqtt.None? ==> r.None?
    {
      if jsonMqtt.Some? then jsonMqtt.value.password else None
    }
  }

  /**
   * A device whose MAC address has a `mac_ip` entry under "Home" gets that
   * entry's address, with the profile's gateway and subnet; selecting an
   * unknown network afterwards keeps all of it.
   */
  method SelectHomeOnKnownDevice()
  {
    var home := Profile("x", Some("192.168.1.50"), Some("192.168.1.1"), Some("255.255.255.0"),
                        Some(map["AA:BB:CC:DD:EE:FF" := MacEntry(Some("192.168.1.77"))]), None);
    var m := new WiFiEnvironmentMgr();
    m.SetEnvironment("Home", "", "AA:BB:CC:DD:EE:FF", [Entry("Home", home)]);
    assert m.localIp == Parsed("192.168.1.77");
    assert m.gateway == Parsed("192.168.1.1") && m.subnet == Parsed("255.255.255.0");
    m.SetEnvironment("Office", "", "AA:BB:CC:DD:EE:FF", []);
    assert m.localIp == Parsed("192.168.1.77") && m.config == Some(home);
  }

  /**
   * A failed connection sets NoWifi; a later successful one returns true
   * but leaves NoWifi in place, since success never assigns StaReady.
   */
  method ReconnectKeepsStaleStatus()
  {
    var m := new WiFiEnvironmentMgr();
    var build := SoftApSettings("setup", "password", 1, false, 4);
    var failing := seq(MaxPolls, _ => WlOther(6));
    var ok, trace := m.ConnectWifi([], 0, failing, false, true, build);
    assert !ok && m.status == NoWifi;
    var joining := [WlOther(6), WlConnected] + seq(MaxPolls, _ => WlOther(6));
    assert FirstConnected(joining) == 1;
    ok, trace := m.ConnectWifi([], 3, joining, false, true, build);
    assert ok && m.status == NoWifi && |trace| == 3;
  }
}
