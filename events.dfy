/**
 * Preprocessing of client-to-server events (`events/js_preprocessor.go`):
 * the client IP taken from the request, and the geo and user-agent data
 * written into the event's `eventn_ctx` object in place.
 *
 * The geo and user-agent resolvers are not part of this model; a
 * preprocessor carries them as functions, together with the two key names
 * their packages define.
 */
module Events {
  import opened Wrappers

  const EventnKey := "eventn_ctx"
  const IpKey := "source_ip"
  const UaKey := "user_agent"

  /** A value in a fact. Nested JSON objects are references, as Go maps are. */
  datatype Value =
    | Null
    | Bool(b: bool)
    | Number(text: string)
    | Str(s: string)
    | Array(items: seq<Value>)
    | Object(obj: JsonObject)
    | Opaque(tag: string)  // a resolver's result, such as geo or user-agent data

  /** A JSON object (`map[string]interface{}`), updated in place. */
  class JsonObject {
    var fields: map<string, Value>

    constructor (fields: map<string, Value>)
      ensures this.fields == fields
    {
      this.fields := fields;
    }
  }

  /**
   * An HTTP request: its header map, keyed by canonical header names
   * ("X-Real-Ip", "X-Forwarded-For"), and its remote address.
   */
  datatype Request = Request(header: map<string, seq<string>>, remoteAddr: string)

  const RealIpHeader := "X-Real-Ip"
  const ForwardedForHeader := "X-Forwarded-For"

  /** `Header.Get`: the first value stored under `key`, or "" when there is none. */
  function HeaderGet(header: map<string, seq<string>>, key: string): (v: string)
    ensures key !in header || header[key] == [] ==> v == ""
    ensures key in header && header[key] != [] ==> v == header[key][0]
  {
    if key in header && |header[key]| > 0 then header[key][0] else ""
  }

  /** `strings.Split(s, ":")[0]`: the longest prefix of `s` without a colon. */
  function FirstField(s: string): (r: string)
    ensures r <= s && ':' !in r
    ensures |r| == |s| || s[|r|] == ':'
  {
    if s == [] || s[0] == ':' then [] else [s[0]] + FirstField(s[1..])
  }

  /** The client IP: X-Real-IP, else X-Forwarded-For, else the host part of the remote address. */
  function ClientIp(r: Request): (ip: string)
    ensures ip == HeaderGet(r.header, RealIpHeader) || ip == HeaderGet(r.header, ForwardedForHeader)
      || (ip <= r.remoteAddr && ':' !in ip)
  {
    var realIp := HeaderGet(r.header, RealIpHeader);
    if realIp != "" then realIp
    else
      var forwarded := HeaderGet(r.header, ForwardedForHeader);
      if forwarded != "" then forwarded
      else if r.remoteAddr != "" then FirstField(r.remoteAddr)
      else ""
  }

  /** `extractIp`. */
  method ExtractIp(r: Request) returns (ip: string)
    ensures ip == ClientIp(r)
  {
    ip := HeaderGet(r.header, RealIpHeader);
    if ip == "" {
      ip := HeaderGet(r.header, ForwardedForHeader);
    }
    if ip == "" {
      var remoteAddr := r.remoteAddr;
      if remoteAddr != "" {
        ip := FirstField(remoteAddr);
      }
    }
  }

  /** The IP comes from the first source that has one, and is the empty string only when none has. */
  lemma ClientIpPrecedence(r: Request)
    ensures var realIp, forwarded := HeaderGet(r.header, RealIpHeader), HeaderGet(r.header, ForwardedForHeader);
      && (realIp != "" ==> ClientIp(r) == realIp)
      && (realIp == "" && forwarded != "" ==> ClientIp(r) == forwarded)
      && (realIp == "" && forwarded == "" ==> ClientIp(r) <= r.remoteAddr && ':' !in ClientIp(r))
      && (ClientIp(r) == "" <==> realIp == "" && forwarded == "" && (r.remoteAddr == "" || r.remoteAddr[0] == ':'))
  {
  }

  /** A host-and-port address yields its host. */
  lemma {:induction false} HostOfAddress(host: string, port: string)
    requires ':' !in host
    ensures FirstField(host + ":" + port) == host
  {
    if host != [] {
      assert (host + ":" + port)[1..] == host[1..] + ":" + port;
      HostOfAddress(host[1..], port);
    }
  }

  /**
   * An IPv6 remote address keeps only what precedes its first colon: with no
   * IP header, `[::1]:80` yields `[`.
   */
  lemma {:induction false} Ipv6RemoteAddress()
    ensures ClientIp(Request(map[], "[::1]:80")) == "["
  {
    var addr := "[::1]:80";
    assert addr[1..][0] == ':';
    assert FirstField(addr[1..]) == [];
  }

  /** What `geo.Resolver.Resolve` gives: the data, and whether it reported an error. */
  datatype GeoResult = GeoResult(data: Value, failed: bool)

  /** `JsPreprocessor`, with its resolvers and the key names their packages define. */
  datatype JsPreprocessor = JsPreprocessor(
    geoResolver: string -> GeoResult,
    uaResolver: string -> Value,
    geoDataKey: string,
    parsedUaKey: string)

  datatype PreprocessError =
    | NilFact                     // "Input fact can't be nil"
    | MissingContext              // "Unable to get eventn_ctx from ..."
    | ContextNotObject(v: Value)  // "Unable to cast eventn_ctx to object: ..."

  /** The fact's fields after the IP step. */
  function WithIp(fields: map<string, Value>, ip: string): (m: map<string, Value>)
    ensures ip != "" ==> m.Keys == fields.Keys + {IpKey} && m[IpKey] == Str(ip)
    ensures ip == "" ==> m == fields
    ensures forall k :: k in fields && k != IpKey ==> m[k] == fields[k]
  {
    if ip != "" then fields[IpKey := Str(ip)] else fields
  }

  /** The `eventn_ctx` fields after the geo and user-agent steps. */
  function Enriched(jp: JsPreprocessor, fields: map<string, Value>, ip: string): (m: map<string, Value>)
    ensures fields.Keys + {jp.geoDataKey} <= m.Keys <= fields.Keys + {jp.geoDataKey, jp.parsedUaKey}
    ensures forall k :: k in fields && k != jp.geoDataKey && k != jp.parsedUaKey ==> m[k] == fields[k]
  {
    var withGeo := fields[jp.geoDataKey := jp.geoResolver(ip).data];
    if UaKey in withGeo && withGeo[UaKey].Str? then withGeo[jp.parsedUaKey := jp.uaResolver(withGeo[UaKey].s)]
    else withGeo
  }

  /**
   * The geo key always holds the resolver's data, even when it reported an
   * error; the parsed user agent is added exactly when `user_agent` holds a
   * string; no other key changes.
   */
  lemma EnrichedFields(jp: JsPreprocessor, fields: map<string, Value>, ip: string)
    requires jp.geoDataKey != jp.parsedUaKey
    ensures var m, withGeo := Enriched(jp, fields, ip), fields[jp.geoDataKey := jp.geoResolver(ip).data];
      var parsed := UaKey in withGeo && withGeo[UaKey].Str?;
      && m[jp.geoDataKey] == jp.geoResolver(ip).data
      && (parsed ==> m.Keys == fields.Keys + {jp.geoDataKey, jp.parsedUaKey}
                     && m[jp.parsedUaKey] == jp.uaResolver(withGeo[UaKey].s))
      && (!parsed ==> m.Keys == fields.Keys + {jp.geoDataKey})
      && (forall k :: k in fields && k != jp.geoDataKey && k != jp.parsedUaKey ==> m[k] == fields[k])
  {
  }

  /** A string `user_agent` that the geo key does not overwrite is parsed. */
  lemma UserAgentParsed(jp: JsPreprocessor, fields: map<string, Value>, ip: string, ua: string)
    requires UaKey in fields && fields[UaKey] == Str(ua) && jp.geoDataKey != UaKey
    ensures jp.parsedUaKey in Enriched(jp, fields, ip)
    ensures Enriched(jp, fields, ip)[jp.parsedUaKey] == jp.uaResolver(ua)
  {
  }

  /** The objects `Preprocess` may write: the fact and its `eventn_ctx` object. */
  function Targets(fact: JsonObject?): set<JsonObject>
    reads fact
  {
    if fact == null then {}
    else if EventnKey in fact.fields && fact.fields[EventnKey].Object? then {fact, fact.fields[EventnKey].obj}
    else {fact}
  }

  /**
   * `Preprocess`. A nil fact fails at once. Otherwise `source_ip` is written
   * first (and stays written when a later step fails); then `eventn_ctx`
   * must be present and an object; it receives the geo and user-agent data,
   * and the same fact is returned.
   */
  method Preprocess(jp: JsPreprocessor, fact: JsonObject?, r: Request) returns (res: Result<JsonObject, PreprocessError>)
    modifies Targets(fact)
    ensures fact == null ==> res == Failure(NilFact)
    ensures fact != null ==>
      var fields := WithIp(old(fact.fields), ClientIp(r));
      if EventnKey !in fields then res == Failure(MissingContext) && fact.fields == fields
      else if !fields[EventnKey].Object? then res == Failure(ContextNotObject(fields[EventnKey])) && fact.fields == fields
      else
        var ctx := fields[EventnKey].obj;
        && res == Success(fact)
        && (ctx == fact ==> fact.fields == Enriched(jp, fields, ClientIp(r)))
        && (ctx != fact ==> fact.fields == fields && ctx.fields == Enriched(jp, old(ctx.fields), ClientIp(r)))
  {
    if fact == null {
      return Failure(NilFact);
    }
    var ip := ExtractIp(r);
    if ip != "" {
      fact.fields := fact.fields[IpKey := Str(ip)];
    }
    if EventnKey !in fact.fields {
      return Failure(MissingContext);
    }
    var eventnObject := fact.fields[EventnKey];
    if !eventnObject.Object? {
      return Failure(ContextNotObject(eventnObject));
    }
    var eventFact := eventnObject.obj;
    var geo := jp.geoResolver(ip);
    // A resolver error is only logged; its data is stored regardless.
    eventFact.fields := eventFact.fields[jp.geoDataKey := geo.data];
    if UaKey in eventFact.fields {
      var ua := eventFact.fields[UaKey];
      if ua.Str? {
        eventFact.fields := eventFact.fields[jp.parsedUaKey := jp.uaResolver(ua.s)];
      }
    }
    return Success(fact);
  }
}
