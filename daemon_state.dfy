/**
 * The daemon's state document (`DaemonState`, crates/pia-rs/src/event/state.rs)
 * as the client's serde derive reads and writes it: `serde_json::to_value`
 * turns the record into a JSON object with one camelCase key per field, and
 * `serde_json::from_value` turns such an object back into the record or fails.
 *
 * The record is kept abstract. The three fields the terminal client inspects
 * (the connection state and the two external addresses) are typed; the values
 * of the other fields are passive schema and are carried as opaque JSON. As in
 * serde's derive, a field of `Option` type may be missing from the input (it
 * then reads as `null`), every other field is required, and keys that are not
 * fields are ignored.
 */
module DaemonStateCodec {
  import opened Wrappers
  import opened Json
  import Ipv4
  import OptionalIpv4

  /** The connection state reported by the daemon, written as its variant name. */
  datatype ConnectionState =
    | Disconnected
    | Connecting
    | Reconnecting
    | DisconnectingToReconnect
    | Interrupted
    | Connected
    | Disconnecting

  function StateName(c: ConnectionState): (name: string)
    ensures name != []
  {
    match c
    case Disconnected => "Disconnected"
    case Connecting => "Connecting"
    case Reconnecting => "Reconnecting"
    case DisconnectingToReconnect => "DisconnectingToReconnect"
    case Interrupted => "Interrupted"
    case Connected => "Connected"
    case Disconnecting => "Disconnecting"
  }

  /** A `ConnectionState` read from JSON: a string naming one of the variants. */
  function ReadConnectionState(v: Value): (r: Option<ConnectionState>)
    ensures r.Some? ==> v == Str(StateName(r.value))
  {
    if !v.Str? then None
    else if v.s == "Disconnected" then Some(Disconnected)
    else if v.s == "Connecting" then Some(Connecting)
    else if v.s == "Reconnecting" then Some(Reconnecting)
    else if v.s == "DisconnectingToReconnect" then Some(DisconnectingToReconnect)
    else if v.s == "Interrupted" then Some(Interrupted)
    else if v.s == "Connected" then Some(Connected)
    else if v.s == "Disconnecting" then Some(Disconnecting)
    else None
  }

  lemma ReadStateName(c: ConnectionState)
    ensures ReadConnectionState(Str(StateName(c))) == Some(c)
  {
  }

  const ConnectionStateKey: string := "connectionState"
  const ExternalIpKey: string := "externalIp"
  const ExternalVpnIpKey: string := "externalVpnIp"

  /** How many fields `DaemonState` has. */
  const FieldCount: nat := 73

  /** The key of the `i`-th field of `DaemonState`, in declaration order: its name in camelCase. */
  function StateKeyAt(i: nat): string
    requires i < FieldCount
  {
    match i
    case 0 => "hasAccountToken"
    case 1 => "vpnEnabled"
    case 2 => "connectionState"
    case 3 => "usingSlowInterval"
    case 4 => "needsReconnect"
    case 5 => "bytesReceived"
    case 6 => "bytesSent"
    case 7 => "forwardedPort"
    case 8 => "externalIp"
    case 9 => "externalVpnIp"
    case 10 => "chosenTransport"
    case 11 => "actualTransport"
    case 12 => "vpnLocations"
    case 13 => "shadowsocksLocations"
    case 14 => "connectingConfig"
    case 15 => "connectedConfig"
    case 16 => "nextConfig"
    case 17 => "connectedServer"
    case 18 => "availableLocations"
    case 19 => "regionsMetadata"
    case 20 => "groupedLocations"
    case 21 => "dedicatedIpLocations"
    case 22 => "openvpnUdpPortChoices"
    case 23 => "openvpnTcpPortChoices"
    case 24 => "intervalMeasurements"
    case 25 => "connectionTimestamp"
    case 26 => "systemSleeping"
    case 27 => "overridesFailed"
    case 28 => "overridesActive"
    case 29 => "openVpnAuthFailed"
    case 30 => "connectionLost"
    case 31 => "proxyUnreachable"
    case 32 => "killswitchEnabled"
    case 33 => "availableVersion"
    case 34 => "osUnsupported"
    case 35 => "updateDownloadProgress"
    case 36 => "updateInstallerPath"
    case 37 => "updateDownloadFailure"
    case 38 => "updateVersion"
    case 39 => "tapAdapterMissing"
    case 40 => "wintunMissing"
    case 41 => "netExtensionState"
    case 42 => "connectionProblem"
    case 43 => "dedicatedIpExpiring"
    case 44 => "dedicatedIpDaysRemaining"
    case 45 => "dedicatedIpChanged"
    case 46 => "dnsConfigFailed"
    case 47 => "invalidClientExit"
    case 48 => "killedClient"
    case 49 => "hnsdFailing"
    case 50 => "hnsdSyncFailure"
    case 51 => "originalGatewayIp"
    case 52 => "originalInterfaceIp"
    case 53 => "originalInterfaceNetPrefix"
    case 54 => "originalMtu"
    case 55 => "originalInterface"
    case 56 => "originalInterfaceIp6"
    case 57 => "originalGatewayIp6"
    case 58 => "originalMtu6"
    case 59 => "macosPrimaryServiceKey"
    case 60 => "snoozeEndTime"
    case 61 => "splitTunnelSupportErrors"
    case 62 => "vpnSupportErrors"
    case 63 => "tunnelDeviceName"
    case 64 => "tunnelDeviceLocalAddress"
    case 65 => "tunnelDeviceRemoteAddress"
    case 66 => "wireguardAvailable"
    case 67 => "wireguardKernelSupport"
    case 68 => "existingDNSServers"
    case 69 => "automationSupportErrors"
    case 70 => "automationLastTrigger"
    case 71 => "automationCurrentMatch"
    case _ => "automationCurrentNetworks"
  }

  /** Every key of the serialized state: one per field of `DaemonState`. */
  const StateKeys: set<string> := set i | 0 <= i < FieldCount :: StateKeyAt(i)

  /** The fields of `Option` type, which may be missing from a document. */
  const OptionalKeys: set<string> := {
    "chosenTransport", "actualTransport", "connectedServer", "automationLastTrigger",
    "automationCurrentMatch"
  }

  const TypedKeys: set<string> := {ConnectionStateKey, ExternalIpKey, ExternalVpnIpKey}

  /** The keys whose values the model carries without interpreting them. */
  const OpaqueKeys: set<string> := StateKeys - TypedKeys

  /** The keys a document must hold to decode. */
  const RequiredKeys: set<string> := StateKeys - OptionalKeys

  /** The decoded state: three typed fields and the opaque rest. */
  datatype DaemonState = DaemonState(
    connectionState: ConnectionState,
    externalIp: Option<Ipv4.Addr>,
    externalVpnIp: Option<Ipv4.Addr>,
    others: Members)

  lemma KeySets()
    ensures TypedKeys <= RequiredKeys
    ensures OptionalKeys <= OpaqueKeys
  {
    TypedKeysAreStateKeys();
    OptionalKeysAreStateKeys();
  }

  lemma TypedKeysAreStateKeys()
    ensures TypedKeys <= StateKeys
  {
    assert StateKeyAt(2) == ConnectionStateKey;
    assert StateKeyAt(8) == ExternalIpKey;
    assert StateKeyAt(9) == ExternalVpnIpKey;
  }

  lemma OptionalKeysAreStateKeys()
    ensures OptionalKeys <= StateKeys
  {
    assert StateKeyAt(10) == "chosenTransport";
    assert StateKeyAt(11) == "actualTransport";
    assert StateKeyAt(17) == "connectedServer";
    assert StateKeyAt(70) == "automationLastTrigger";
    assert StateKeyAt(71) == "automationCurrentMatch";
  }

  /** A state that some document decodes to carries exactly the opaque keys. */
  predicate Valid(st: DaemonState) {
    st.others.Keys == OpaqueKeys
  }

  /** Why `from_value` refused a document. */
  datatype DecodeError =
    | InvalidValue   // a field holds a value of the wrong shape
    | MissingField   // a required field is absent

  /** `serde_json::to_value` of a state: the JSON object of its fields. */
  function Encode(st: DaemonState): (obj: Members)
    ensures Valid(st) ==> obj.Keys == StateKeys
    ensures TypedKeys <= obj.Keys
    ensures obj[ConnectionStateKey] == Str(StateName(st.connectionState))
    ensures obj[ExternalIpKey] == OptionalIpv4.Serialize(st.externalIp)
    ensures obj[ExternalVpnIpKey] == OptionalIpv4.Serialize(st.externalVpnIp)
    ensures forall k :: k in st.others && k !in TypedKeys ==> k in obj && obj[k] == st.others[k]
  {
    KeySets();
    st.others[ConnectionStateKey := Str(StateName(st.connectionState))]
             [ExternalIpKey := OptionalIpv4.Serialize(st.externalIp)]
             [ExternalVpnIpKey := OptionalIpv4.Serialize(st.externalVpnIp)]
  }

  /** The value a document gives a field: a missing optional field reads as `null`. */
  function FieldOf(obj: Members, k: string): Value {
    if k in obj then obj[k] else Null
  }

  /** Every typed field the document holds has a value of the right shape. */
  predicate WellTyped(obj: Members) {
    (ConnectionStateKey in obj ==> ReadConnectionState(obj[ConnectionStateKey]).Some?) &&
    (ExternalIpKey in obj ==> OptionalIpv4.Deserialize(obj[ExternalIpKey]).Ok?) &&
    (ExternalVpnIpKey in obj ==> OptionalIpv4.Deserialize(obj[ExternalVpnIpKey]).Ok?)
  }

  /**
   * `serde_json::from_value` into a state. A field with a value of the wrong
   * shape fails the decode before a missing field is reported, as in serde's
   * derived visitor, which reads the entries first and checks presence last.
   */
  function Decode(obj: Members): (r: Result<DaemonState, DecodeError>)
    ensures r.Ok? <==> WellTyped(obj) && RequiredKeys <= obj.Keys
    ensures r.Ok? ==> Valid(r.value)
    ensures r.Err? ==> (r.error == InvalidValue <==> !WellTyped(obj))
  {
    if ConnectionStateKey in obj && ReadConnectionState(obj[ConnectionStateKey]).None? then Err(InvalidValue)
    else if ExternalIpKey in obj && OptionalIpv4.Deserialize(obj[ExternalIpKey]).Err? then Err(InvalidValue)
    else if ExternalVpnIpKey in obj && OptionalIpv4.Deserialize(obj[ExternalVpnIpKey]).Err? then Err(InvalidValue)
    else if !(RequiredKeys <= obj.Keys) then Err(MissingField)
    else
      KeySets();
      Ok(DaemonState(
        ReadConnectionState(obj[ConnectionStateKey]).value,
        OptionalIpv4.Deserialize(obj[ExternalIpKey]).value,
        OptionalIpv4.Deserialize(obj[ExternalVpnIpKey]).value,
        map k | k in OpaqueKeys :: FieldOf(obj, k)))
  }

  /**
   * `serde_json::from_value` into a state as the source is written: the two
   * address fields go through `OptionalIpv4.DeserializeFromOwned`, which
   * refuses every value. Both are required fields, so no document decodes.
   */
  function DecodeAsWritten(obj: Members): (r: Result<DaemonState, DecodeError>)
    ensures r.Err?
    ensures r.error == MissingField <==>
              WellTyped(obj) && ExternalIpKey !in obj && ExternalVpnIpKey !in obj
  {
    if ConnectionStateKey in obj && ReadConnectionState(obj[ConnectionStateKey]).None? then Err(InvalidValue)
    else if ExternalIpKey in obj && OptionalIpv4.DeserializeFromOwned(obj[ExternalIpKey]).Err? then Err(InvalidValue)
    else if ExternalVpnIpKey in obj && OptionalIpv4.DeserializeFromOwned(obj[ExternalVpnIpKey]).Err? then Err(InvalidValue)
    else if !(RequiredKeys <= obj.Keys) then Err(MissingField)
    else
      KeySets();
      assert false;
      Err(MissingField)
  }

  /**
   * As written, the serialized form of every state is refused: the round trip
   * that `DecodeEncode` proves for the intended decoder fails.
   */
  lemma AsWrittenRefusesEncoded(st: DaemonState)
    requires Valid(st)
    ensures Decode(Encode(st)) == Ok(st)
    ensures DecodeAsWritten(Encode(st)) == Err(InvalidValue)
  {
    DecodeEncode(st);
  }

  /** Decoding the serialized form of a state gives the state back. */
  lemma DecodeEncode(st: DaemonState)
    requires Valid(st)
    ensures Decode(Encode(st)) == Ok(st)
  {
    KeySets();
    ReadStateName(st.connectionState);
    OptionalIpv4.DeserializeSerialize(st.externalIp);
    OptionalIpv4.DeserializeSerialize(st.externalVpnIp);
    var obj := Encode(st);
    assert (map k | k in OpaqueKeys :: FieldOf(obj, k)) == st.others;
  }

  /**
   * Serializing a decoded state reproduces every field of the document it
   * came from (a missing optional field as `null`): decoding loses nothing
   * but the keys that are not fields.
   */
  lemma EncodeDecode(obj: Members)
    requires Decode(obj).Ok?
    ensures forall k :: k in StateKeys ==> Encode(Decode(obj).value)[k] == FieldOf(obj, k)
  {
    KeySets();
    var st := Decode(obj).value;
    var enc := Encode(st);
    forall k | k in StateKeys
      ensures enc[k] == FieldOf(obj, k)
    {
      if k == ConnectionStateKey {
      } else if k == ExternalIpKey {
        OptionalIpv4.SerializeDeserialize(obj[ExternalIpKey]);
      } else if k == ExternalVpnIpKey {
        OptionalIpv4.SerializeDeserialize(obj[ExternalVpnIpKey]);
      } else {
        assert k in OpaqueKeys;
      }
    }
  }

  /** Keys outside the state's fields never change the outcome of a decode. */
  lemma DecodeIgnoresUnknownKeys(obj: Members)
    ensures Decode(obj) == Decode(map k | k in obj && k in StateKeys :: obj[k])
  {
    KeySets();
    var cut := map k | k in obj && k in StateKeys :: obj[k];
    if Decode(obj).Ok? {
      assert (map k | k in OpaqueKeys :: FieldOf(obj, k)) == (map k | k in OpaqueKeys :: FieldOf(cut, k));
    }
  }
}
