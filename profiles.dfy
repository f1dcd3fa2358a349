/**
 * The shape of the deserialised profile document (/environments.json): a JSON
 * object whose top-level members are keyed by network name, each holding one
 * network profile. Member order is the document order in which the resolver
 * and the roster builder iterate.
 */
module Profiles {
  import opened Wrappers

  /**
   * The value an IPAddress field holds: cleared (the unset address), or the
   * address parsed from a text by fromString. The parser belongs to the
   * platform library, so the parse stays symbolic: Parsed(t) is "whatever
   * fromString(t) yields".
   */
  datatype Address = Cleared | Parsed(text: string)

  /** One member of a profile's `mac_ip` object. */
  datatype MacEntry = MacEntry(ip: Option<string>)

  /** The `mqtt` member of a profile, read by the MQTT extension. */
  datatype MqttSettings = MqttSettings(
    broker: Option<string>,
    port: Option<int>,
    user: Option<string>,
    password: Option<string>)

  /** One network profile: the value of a top-level member. */
  datatype Profile = Profile(
    wifiPassword: string,
    localIp: Option<string>,
    gateway: Option<string>,
    subnet: Option<string>,
    macIp: Option<map<string, MacEntry>>,
    mqtt: Option<MqttSettings>)

  /** A top-level member: the network name and its profile. */
  datatype Entry = Entry(key: string, profile: Profile)

  type Document = seq<Entry>

  /** `if (config[k]) x.fromString(...) else x.clear()` for one address member. */
  function AddressOf(member: Option<string>): Address {
    match member
    case Some(t) => Parsed(t)
    case None => Cleared
  }

  /**
   * The index of the first top-level member whose key equals `ssid`
   * (exact, case-sensitive comparison), if any.
   */
  function FirstMatch(doc: Document, ssid: string): (r: Option<nat>)
    ensures r.Some? ==> r.value < |doc| && doc[r.value].key == ssid
    ensures r.Some? ==> forall j :: 0 <= j < r.value ==> doc[j].key != ssid
    ensures r.None? <==> forall j :: 0 <= j < |doc| ==> doc[j].key != ssid
  {
    if doc == [] then None
    else if doc[0].key == ssid then Some(0)
    else match FirstMatch(doc[1..], ssid)
      case None => None
      case Some(i) => Some(i + 1)
  }

  /** FirstMatch is the least index with the key: any such index pins it down. */
  lemma FirstMatchIsLeast(doc: Document, ssid: string, i: nat)
    requires i < |doc| && doc[i].key == ssid
    requires forall j :: 0 <= j < i ==> doc[j].key != ssid
    ensures FirstMatch(doc, ssid) == Some(i)
  {
  }

  /** Members after a matching one never change which member matches first. */
  lemma {:induction false} FirstMatchIgnoresSuffix(doc: Document, rest: Document, ssid: string)
    requires FirstMatch(doc, ssid).Some?
    ensures FirstMatch(doc + rest, ssid) == FirstMatch(doc, ssid)
  {
    var i := FirstMatch(doc, ssid).value;
    assert (doc + rest)[i] == doc[i];
    forall j | 0 <= j < i ensures (doc + rest)[j].key != ssid {
      assert (doc + rest)[j] == doc[j];
    }
    FirstMatchIsLeast(doc + rest, ssid, i);
  }
}
