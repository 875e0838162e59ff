/**
 * `OptionalIpv4Addr` (crates/pia-rs/src/event/util.rs): an optional IPv4
 * address that the daemon writes as a JSON string, the empty string standing
 * for "no address" where JSON's `null` would be usual.
 */
module OptionalIpv4 {
  import opened Wrappers
  import opened Json
  import Ipv4

  /** Why a JSON value is not an `OptionalIpv4Addr`. */
  datatype DeError =
    | NotAString(found: Value)   // the value is not a JSON string
    | InvalidAddress(text: string)   // a non-empty string that is not an IPv4 address
    | NotBorrowed(found: Value)      // the deserializer cannot lend a `&str` out of its input

  /** `serialize`: no address as "", an address as its dotted-decimal text. */
  function Serialize(x: Option<Ipv4.Addr>): (v: Value)
    ensures v.Str?
    ensures v.s == "" <==> x.None?
  {
    match x
    case None => Str("")
    case Some(addr) => Str(Ipv4.Format(addr))
  }

  /**
   * `deserialize`: a value that is not a string is refused before anything
   * else; "" is no address; any other string must parse as an address.
   */
  function Deserialize(v: Value): (r: Result<Option<Ipv4.Addr>, DeError>)
    ensures !v.Str? ==> r == Err(NotAString(v))
    ensures v == Str("") ==> r == Ok(None)
    ensures v.Str? && v.s != "" ==> r != Ok(None)
    ensures v.Str? && v.s != "" ==>
              (r.Ok? <==> Ipv4.Parse(v.s).Some?) && (r.Err? ==> r.error == InvalidAddress(v.s))
  {
    if !v.Str? then Err(NotAString(v))
    else if v.s == [] then Ok(None)
    else match Ipv4.Parse(v.s)
      case Some(addr) => Ok(Some(addr))
      case None => Err(InvalidAddress(v.s))
  }

  /**
   * `deserialize` as written, run by `serde_json::from_value`. Its first step
   * reads a borrowed `&str`, and a deserializer over an owned JSON value can
   * only hand out owned strings, so that step refuses every value, strings
   * included, and nothing after it runs.
   */
  function DeserializeFromOwned(v: Value): (r: Result<Option<Ipv4.Addr>, DeError>)
    ensures r.Err?
  {
    Err(NotBorrowed(v))
  }

  /** As written, `deserialize` refuses even what `serialize` writes. */
  lemma OwnedRefusesSerialized(x: Option<Ipv4.Addr>)
    ensures Deserialize(Serialize(x)) == Ok(x)
    ensures DeserializeFromOwned(Serialize(x)).Err?
  {
    DeserializeSerialize(x);
  }

  /** Decoding what was encoded gives the value back, with or without an address. */
  lemma DeserializeSerialize(x: Option<Ipv4.Addr>)
    ensures Deserialize(Serialize(x)) == Ok(x)
  {
    if x.Some? {
      Ipv4.ParseFormat(x.value);
    }
  }

  /** What decodes encodes back to the same JSON value: the encoding is canonical. */
  lemma SerializeDeserialize(v: Value)
    requires Deserialize(v).Ok?
    ensures Serialize(Deserialize(v).value) == v
  {
    if v.s != [] {
      Ipv4.FormatParse(v.s);
    }
  }
}
