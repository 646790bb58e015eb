/** The LEAP requests `LutronLeap` sends and the connection parameters it
    derives from its secrets: pure builders, each paired with an independent
    reader that recovers what was put in. */
module Requests {
  import opened Js
  import opened Strings

  /** The LEAP communique types the bridge uses. */
  datatype RequestType = ReadRequest | CreateRequest

  /** One `leap.request(type, url, body)` call; `body` is absent for reads. */
  datatype Request = Request(requestType: RequestType, url: string, body: Option<Value>)

  /** What a `CreateRequest` asks the processor to do. */
  datatype Command =
    | GoToLevel(zone: string, level: Value)
    | PressAndRelease(button: string)

  /** `onOff ? 100 : 0` in `sendZoneOnOffCommand`. */
  function OnOffLevel(onOff: Value): (level: int)
    ensures level == 100 || level == 0
    ensures level == 100 <==> Truthy(onOff)
  {
    if Truthy(onOff) then 100 else 0
  }

  /** `'/' + kind + '/' + id + '/commandprocessor'`. */
  function ProcessorUrl(kind: string, id: string): string {
    "/" + kind + "/" + id + "/commandprocessor"
  }

  /** The request `sendZoneLevelCommand(zone, level)` sends: `GoToLevel` with a
      single `Level` parameter carrying `level` as given. */
  function ZoneLevelRequest(zone: string, level: Value): Request {
    Request(CreateRequest, ProcessorUrl("zone", zone),
      Some(Obj([Field("Command", Obj([
        Field("CommandType", Str("GoToLevel")),
        Field("Parameter", Arr([Obj([Field("Type", Str("Level")), Field("Value", level)])]))]))])))
  }

  /** The request `sendButtonPress(button)` sends: `PressAndRelease`, no parameters. */
  function ButtonPressRequest(button: string): Request {
    Request(CreateRequest, ProcessorUrl("button", button),
      Some(Obj([Field("Command", Obj([Field("CommandType", Str("PressAndRelease"))]))])))
  }

  /** The read `ping` sends. */
  const PingRequest: Request := Request(ReadRequest, "/server/1/status/ping", None)

  /** `v[k]` on an object, absent otherwise. */
  function Member(v: Value, k: string): Option<Value> {
    if v.Obj? then Find(v.fields, k) else None
  }

  /** The command a processor request carries, read back from its url and body
      the way the processor would interpret them. */
  function CommandOf(req: Request): Option<Command> {
    var parts := Split(req.url, '/');
    if req.requestType != CreateRequest || req.body.None? then None
    else if |parts| != 4 || parts[0] != "" || parts[3] != "commandprocessor" then None
    else
      match Member(req.body.value, "Command")
      case None => None
      case Some(command) =>
        var commandType := Member(command, "CommandType");
        if parts[1] == "button" && commandType == Some(Str("PressAndRelease"))
          && Member(command, "Parameter").None? then
          Some(PressAndRelease(parts[2]))
        else if parts[1] == "zone" && commandType == Some(Str("GoToLevel")) then
          match Member(command, "Parameter")
          case Some(Arr(ps)) =>
            if |ps| == 1 && Member(ps[0], "Type") == Some(Str("Level")) && Member(ps[0], "Value").Some? then
              Some(GoToLevel(parts[2], Member(ps[0], "Value").value))
            else None
          case _ => None
        else None
  }

  /** The url of a processor request splits into its kind and id. */
  lemma ProcessorUrlSplits(kind: string, id: string)
    requires '/' !in kind && '/' !in id
    ensures Split(ProcessorUrl(kind, id), '/') == ["", kind, id, "commandprocessor"]
  {
    assert ProcessorUrl(kind, id) == "/" + kind + "/" + id + "/" + "commandprocessor";
    PathSplits(kind, id, "commandprocessor");
  }

  /** A zone command carries the zone and the level unchanged, with no range check. */
  lemma ZoneLevelRoundTrip(zone: string, level: Value)
    requires '/' !in zone
    ensures CommandOf(ZoneLevelRequest(zone, level)) == Some(GoToLevel(zone, level))
  {
    ProcessorUrlSplits("zone", zone);
    var parameter := [Field("Type", Str("Level")), Field("Value", level)];
    var command := [
      Field("CommandType", Str("GoToLevel")),
      Field("Parameter", Arr([Obj(parameter)]))];
    assert DistinctKeys(command) && DistinctKeys(parameter);
    FindAt(command, 1);
    FindAt(parameter, 1);
  }

  /** A button press carries the button id and no parameters. */
  lemma ButtonPressRoundTrip(button: string)
    requires '/' !in button
    ensures CommandOf(ButtonPressRequest(button)) == Some(PressAndRelease(button))
  {
    ProcessorUrlSplits("button", button);
  }

  /** `sendZoneOnOffCommand(zone, onOff)` asks for level 100 when `onOff` is truthy and 0 otherwise. */
  lemma ZoneOnOffRoundTrip(zone: string, onOff: Value)
    requires '/' !in zone
    ensures CommandOf(ZoneLevelRequest(zone, Num(OnOffLevel(onOff)))) ==
      Some(GoToLevel(zone, Num(if Truthy(onOff) then 100 else 0)))
  {
    ZoneLevelRoundTrip(zone, Num(OnOffLevel(onOff)));
  }

  /** The connection parameters handed to the LEAP client. */
  datatype Params = Params(ip: Value, ca: Value, key: Value, cert: Value)

  /** `secrets()` as written: the certificate is read from a field named `crt`. */
  function SecretsAsWritten(inSecrets: Value): (r: Result<Params>)
    ensures r.Err? <==> IsNil(inSecrets)
  {
    if IsNil(inSecrets) then Err(NilAccess)
    else Ok(Params(Prop(inSecrets, "ip").value, Prop(inSecrets, "ca").value,
                   Prop(inSecrets, "key").value, Prop(inSecrets, "crt").value))
  }

  /** `secrets()` reading the certificate from `cert`, the name its caller uses. */
  function Secrets(inSecrets: Value): (r: Result<Params>)
    ensures r.Err? <==> IsNil(inSecrets)
  {
    if IsNil(inSecrets) then Err(NilAccess)
    else Ok(Params(Prop(inSecrets, "ip").value, Prop(inSecrets, "ca").value,
                   Prop(inSecrets, "key").value, Prop(inSecrets, "cert").value))
  }

  /** The object the bridge passes to `new LutronLeap(...)`. */
  function CallerSecrets(p: Params): Value {
    Obj([Field("ip", p.ip), Field("ca", p.ca), Field("cert", p.cert), Field("key", p.key)])
  }

  /** Reading `cert` hands every parameter the caller supplied to the client. */
  lemma SecretsRoundTrip(p: Params)
    ensures Secrets(CallerSecrets(p)) == Ok(p)
  {
    CallerSecretsFields(p);
  }

  /** As written, the certificate the caller supplies never reaches the client:
      `crt` is absent from the caller's object, so the client gets `undefined`. */
  lemma SecretsAsWrittenDropsCert(p: Params)
    ensures SecretsAsWritten(CallerSecrets(p)) == Ok(p.(cert := Undefined))
    ensures p.cert != Undefined ==> SecretsAsWritten(CallerSecrets(p)) != Ok(p)
  {
    CallerSecretsFields(p);
  }

  /** The four keys of the caller's object, looked up one by one. */
  lemma CallerSecretsFields(p: Params)
    ensures Prop(CallerSecrets(p), "ip") == Ok(p.ip)
    ensures Prop(CallerSecrets(p), "ca") == Ok(p.ca)
    ensures Prop(CallerSecrets(p), "cert") == Ok(p.cert)
    ensures Prop(CallerSecrets(p), "key") == Ok(p.key)
    ensures Prop(CallerSecrets(p), "crt") == Ok(Undefined)
  {
    var fields := CallerSecrets(p).fields;
    assert DistinctKeys(fields);
    FindAt(fields, 0);
    FindAt(fields, 1);
    FindAt(fields, 2);
    FindAt(fields, 3);
    FindAbsent(fields, "crt");
  }
}
