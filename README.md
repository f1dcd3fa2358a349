# WiFiEnvironmentMgr in Dafny

A model of `WiFiEnvironmentMgr`, the ESP8266/ESP32 library class that picks
a wireless network's settings from a JSON profile document
(`/environments.json`) and connects with a fall-back to a soft access point,
together with its subclass `MqttEnvironmentMgr`, which also exposes the
selected profile's `mqtt` settings.

The document maps network names (SSIDs) to profiles: `wifi_password`,
optional `local_ip`, `gateway` and `subnet` texts, an optional `mac_ip`
object keyed by device MAC address whose entries may carry an `ip`, and an
optional `mqtt` object. The manager

- loads the document lazily, once per object (`EnsureLoaded`);
- `SetEnvironment`: finds the first top-level key equal to the selected SSID,
  copies the profile's password and addresses into its fields (clearing an
  absent address), then lets a `mac_ip` entry for the device's MAC address
  replace `local_ip`;
- `AddAps`: registers one `(ssid, wifi_password)` candidate per top-level
  member, in document order;
- `ConnectWifi`: registers the roster, scans, polls the join mechanism at
  most 12 times, and otherwise configures a soft AP at 192.168.2.1/24 and
  starts it, setting the status to `SoftApReady` or `NoWifi`.

Files: `wrappers.dfy` (Option), `profiles.dfy` (the document's shape and
the first-match search), `resolver.dfy` (what `set_environment` computes,
and its properties), `roster.dfy` (what `addAPs` registers),
`connection.dfy` (what `ConnectWifi` does, as a function of the platform's
answers, and its properties), `manager.dfy` (the two classes, whose methods
are proved against those functions, and two client scenarios).

Platform calls are parameters: `stored` is what `/environments.json`
deserialises to, `deviceMac` is `WiFi.macAddress()`, `scanCount` is
`WiFi.scanNetworks()`, `polls` are the successive results of
`wifiMulti.run()`, `configOk`/`startOk` are the results of
`WiFi.softAPConfig`/`WiFi.softAP`, and `build` holds the build-time
`SOFTAP_*` values. `ConnectWifi` returns the platform calls it made after
`addAPs` as a trace of effects.

Behaviour of the code that the model keeps, although the comments of
`examples/example-simple.cpp` (lines 10-19) describe more:

- `ConnectWifi` never reads an `AP.json`; the soft AP always uses the fixed
  address triplet and the build-time `SOFTAP_*` values.
- No operation assigns `host` (or `ssid`); `mac_ip` entries only affect `local_ip`.
- The `mac` argument of `set_environment` is unused; the MAC address comes
  from the platform.
- The poll loop gives up after the 12th unsuccessful `run()`.
- An empty document does not skip the scan, and a negative scan result
  (scan failure) does not skip polling: only a count of exactly 0 does.
- A successful join returns true without assigning `device_wifi_status`;
  a status left by an earlier failure stays (`ReconnectKeepsStaleStatus`).
- The header declares `int addAPs()`, `load_configs`, `load_APconfig` and
  `set_AP`; the source defines `void addAPs()` and none of the other three.
  The model follows the definitions.

## Model

| member | source | states |
|---|---|---|
| Profiles.FirstMatch | src/WiFiEnvironmentMgr.cpp:41-45 | the selected member is one whose key equals the SSID, no earlier key equals it, and there is none exactly when no key equals it |
| Profiles.FirstMatchIsLeast | src/WiFiEnvironmentMgr.cpp:41-45 | the first index whose key equals the SSID is the one the search selects |
| Profiles.FirstMatchIgnoresSuffix | src/WiFiEnvironmentMgr.cpp:41-81 | members appended after a matching one never change which member is selected |
| Resolver.UnknownSsidChangesNothing | src/WiFiEnvironmentMgr.cpp:41-44 | when no top-level key equals the SSID, config, wifi_password, local_ip, gateway and subnet all keep their previous values |
| Resolver.ResolveSource | src/WiFiEnvironmentMgr.cpp:41-81 | the fields change only on a match, and then config is the profile of a member whose key is the SSID |
| Resolver.FirstEntryWins | src/WiFiEnvironmentMgr.cpp:41-81 | on a match only the first member with that key is applied and the method returns after it |
| Resolver.LaterEntriesIgnored | src/WiFiEnvironmentMgr.cpp:41-81 | appending members to a document that already holds the SSID does not change the result |
| Resolver.MatchedBaseFields | src/WiFiEnvironmentMgr.cpp:45-62 | on a match config is the profile, wifi_password its password, gateway and subnet parsed from their members when present and cleared when absent, whatever the MAC address |
| Resolver.MacOverrideDominates | src/WiFiEnvironmentMgr.cpp:64-79 | a mac_ip entry for the device's MAC with an ip member sets local_ip to that ip, overriding the base value |
| Resolver.NoOverrideKeepsBase | src/WiFiEnvironmentMgr.cpp:49-79 | without such an entry local_ip is the base local_ip, cleared exactly when that member is absent |
| Resolver.ResolveIdempotent | src/WiFiEnvironmentMgr.cpp:33-84 | selecting the same network twice gives the fields of selecting it once |
| RosterBuilder.Roster | src/WiFiEnvironmentMgr.cpp:94-99 | one candidate per top-level member |
| RosterBuilder.RosterAt | src/WiFiEnvironmentMgr.cpp:94-99 | the i-th candidate carries the i-th member's key and wifi_password (document order) |
| RosterBuilder.RosterAppend | src/WiFiEnvironmentMgr.cpp:94-99 | the candidates of a concatenation are the concatenated candidates (registration proceeds member by member) |
| RosterBuilder.RosterFromDocument | src/WiFiEnvironmentMgr.cpp:94-99 | every candidate is a member's key with that member's password |
| Connection.StatusCode | src/WiFiEnvironmentMgr.h:32-37 | every status has a value in 0..3 |
| Connection.StatusOfCode | src/WiFiEnvironmentMgr.h:32-37 | exactly the values 0..3 name a status, and that status has the value |
| Connection.StatusCodeRoundTrip | src/WiFiEnvironmentMgr.h:32-37 | the four statuses have four distinct values |
| Connection.FirstConnected | src/WiFiEnvironmentMgr.cpp:120-129 | the index of the first poll reporting WL_CONNECTED: all earlier polls report something else |
| Connection.JoinedIff | src/WiFiEnvironmentMgr.cpp:120-129 | the join succeeds exactly when one of the first 12 polls reports WL_CONNECTED |
| Connection.PollsBounded | src/WiFiEnvironmentMgr.cpp:111-129 | run() is never polled when the scan found 0 networks, is polled up to and including the first WL_CONNECTED otherwise, and at most 12 times |
| Connection.StationPath | src/WiFiEnvironmentMgr.cpp:120-149 | the status is left untouched exactly when a poll reported WL_CONNECTED after a non-zero scan; the result is then true and that poll is the last call |
| Connection.FallbackPath | src/WiFiEnvironmentMgr.cpp:156-172 | on the fallback path the soft AP is configured at 192.168.2.1/192.168.2.1/255.255.255.0 after the polls, followed only by softAP when that is attempted; the result is true with SOFT_AP_READY iff both soft-AP calls succeed, else false with NO_WIFI; softAP is attempted iff the configuration succeeded |
| Connection.AssignedStatuses | src/WiFiEnvironmentMgr.cpp:160-172 | only SOFT_AP_READY or NO_WIFI are ever assigned, and the result is true exactly on a join or a started soft AP |
| Manager.WiFiEnvironmentMgr.constructor | src/WiFiEnvironmentMgr.h:42-64 | a fresh manager has not loaded its document, has registered nothing and has unset addresses |
| Manager.WiFiEnvironmentMgr.EnsureLoaded | src/WiFiEnvironmentMgr.cpp:35-38 | the document is loaded on first use only; once loaded it never changes |
| Manager.WiFiEnvironmentMgr.SetEnvironment | src/WiFiEnvironmentMgr.cpp:33-84 | after the lazy load the fields are those of Resolver.Resolve on the loaded document; roster, status, ssid and host are untouched; config stays a profile of the document |
| Manager.WiFiEnvironmentMgr.ApplyProfile | src/WiFiEnvironmentMgr.cpp:45-79 | the sequence of field updates for a matching member yields the settled fields of that profile |
| Manager.WiFiEnvironmentMgr.AddAps | src/WiFiEnvironmentMgr.cpp:86-100 | after the lazy load the roster's candidates are appended to the registered ones, and nothing else changes |
| Manager.WiFiEnvironmentMgr.ConnectWifi | src/WiFiEnvironmentMgr.cpp:103-173 | registers the roster, then its result, its platform calls and its status are those of Connection.Connect, the status being kept when Connect assigns none |
| Manager.MqttEnvironmentMgr.constructor | src/WiFiEnvironmentMgr.h:75-91 | a fresh MQTT manager has a base in the base constructor's initial state (unloaded, nothing registered, empty strings, cleared addresses, StaReady) and a null json_mqtt |
| Manager.MqttEnvironmentMgr.SetEnvironment | src/WiFiEnvironmentMgr.h:79-82 | runs the base set_environment (ssid, host, roster and status untouched), then json_mqtt is config's mqtt member: the matched profile's, or re-read from the previous config when no key matched |
| Manager.MqttEnvironmentMgr.HasMqttConfig | src/WiFiEnvironmentMgr.h:78 | true exactly when json_mqtt is non-null; reads only |
| Manager.MqttEnvironmentMgr.MqttBroker | src/WiFiEnvironmentMgr.h:84 | the broker member of json_mqtt whenever json_mqtt is non-null, null when json_mqtt is null |
| Manager.MqttEnvironmentMgr.MqttPort | src/WiFiEnvironmentMgr.h:85 | the port member of json_mqtt, 0 when it or json_mqtt is absent |
| Manager.MqttEnvironmentMgr.MqttUser | src/WiFiEnvironmentMgr.h:86 | the user member of json_mqtt whenever json_mqtt is non-null, null when json_mqtt is null |
| Manager.MqttEnvironmentMgr.MqttPassword | src/WiFiEnvironmentMgr.h:87 | the password member of json_mqtt whenever json_mqtt is non-null, null when json_mqtt is null |

## Left out

- `load` (src/WiFiEnvironmentMgr.cpp:7-31): file I/O, `deserializeJson` and the endless retry loops on failure. The deserialised document is the input `stored`; a failed load is not modelled. A document may repeat a key; whether the JSON parser keeps both members is library behaviour not modelled here, so `Resolver.FirstEntryWins` and `Resolver.LaterEntriesIgnored` describe the search loop, not a claim about which of two same-named JSON members survives parsing.
- `IPAddress::fromString` and `clear` belong to the platform library: an address is `Cleared` or `Parsed(text)`, and a text that fails to parse is not modelled.
- JSON values of unexpected types (a profile that is not an object, an address that is not a string, a missing `wifi_password`) and ArduinoJson's conversion rules for them; a member's truth test is modelled as its presence.
- Key comparison is string equality; `strcmp`'s stop at an embedded NUL and a null `ssid` argument are not modelled.
- `ESP8266WiFiMulti`: `registered` logs the `addAP` calls; the library's own duplicate handling and how `run()` uses the roster are not modelled (the results of `run()` are the input `polls`).
- Manager.MqttEnvironmentMgr.MqttPort: ArduinoJson's conversion of a non-integer or out-of-range `port` member is not modelled; the member is an integer.
- `delay`, all `Serial` output, `WiFi.SSID()`/`WiFi.localIP()` reads for printing, the `comment` member of a `mac_ip` entry (only printed) and the `ENABLE_MDNS` block (src/WiFiEnvironmentMgr.cpp:142-147).
- The constructor does not initialise `device_wifi_status`; the model starts it at `StaReady`, the value of a zero-initialised global such as the example's.
- Manager.WiFiEnvironmentMgr.ConnectWifi: callbacks from `run()` into the manager (such as an `onSSIDSelected` handler that calls `set_environment`) are not modelled; its frame, which keeps config and the address fields, holds only for a `run()` without such a callback.
- Inheritance: `MqttEnvironmentMgr` holds its base manager in the field `base` instead of deriving from it.
- `examples/example-simple.cpp` (event handlers, reconnect timer, filesystem mounting), `schemas/validate.py` and `test.py` (build-time tooling).
