/**
 * The request `call_ha_service` sends to the Home Assistant REST API: a POST to
 * `<base>/api/services/<domain>/<service>` with bearer-token authorisation and a
 * JSON body holding `entity_id` overwritten by the optional extra fields.
 */
module HomeAssistant {
  import opened Wrappers

  /** The hub's base URL and access token, read once at start-up. */
  datatype Config = Config(haUrl: string, token: string)

  /** A JSON value of the request body: a string, or `null` for Python's None. */
  datatype JsonValue = JStr(s: string) | JNull

  datatype Request = Request(url: string, headers: map<string, string>, body: map<string, JsonValue>)

  /** How an f-string renders a value that is a string or None. */
  function Display(v: Option<string>): (text: string) {
    match v
    case Some(s) => s
    case None => "None"
  }

  /** How `json=` serialises a value that is a string or None. */
  function ToJson(v: Option<string>): (json: JsonValue) {
    match v
    case Some(s) => JStr(s)
    case None => JNull
  }

  function ServiceUrl(base: string, domain: Option<string>, service: Option<string>): (url: string) {
    base + "/api/services/" + Display(domain) + "/" + Display(service)
  }

  function Headers(token: string): (headers: map<string, string>) {
    map["Authorization" := "Bearer " + token, "content-type" := "application/json"]
  }

  /** The extra fields as passed; absent extra data is an empty map. */
  function ExtraFields(extra: Option<map<string, string>>): (fields: map<string, string>) {
    extra.GetOr(map[])
  }

  /**
   * The body, key by key: its keys are `entity_id` and the extra keys, an extra
   * key takes the extra value, and `entity_id` keeps the entity unless the extra
   * fields override it.
   */
  function ServiceBody(entity: Option<string>, extra: Option<map<string, string>>): (body: map<string, JsonValue>) {
    var x := ExtraFields(extra);
    map k | k in {"entity_id"} + x.Keys :: if k in x then JStr(x[k]) else ToJson(entity)
  }

  /** Without extra fields (None or an empty map) the body is exactly `{"entity_id": entity}`. */
  lemma BodyWithoutExtra(entity: Option<string>, extra: Option<map<string, string>>)
    requires extra.None? || extra.value == map[]
    ensures ServiceBody(entity, extra) == map["entity_id" := ToJson(entity)]
  {
    assert ExtraFields(extra) == map[];
  }

  /**
   * `call_ha_service`: builds the URL, the headers and the body, where the body
   * starts as `{"entity_id": entity}` and is then updated in place with the extra
   * fields when there are any. Sending it is left to the caller.
   */
  method CallHaService(config: Config, domain: Option<string>, service: Option<string>,
                       entity: Option<string>, extra: Option<map<string, string>>)
    returns (request: Request)
    ensures request == Request(ServiceUrl(config.haUrl, domain, service), Headers(config.token), ServiceBody(entity, extra))
    ensures request.url == config.haUrl + "/api/services/" + Display(domain) + "/" + Display(service)
    ensures request.headers == Headers(config.token)
    ensures request.body == ServiceBody(entity, extra)
    ensures request.body.Keys == {"entity_id"} + ExtraFields(extra).Keys
    ensures forall k :: k in ExtraFields(extra) ==> request.body[k] == JStr(ExtraFields(extra)[k])
    ensures "entity_id" !in ExtraFields(extra) ==> request.body["entity_id"] == ToJson(entity)
  {
    var url := ServiceUrl(config.haUrl, domain, service);
    var headers := Headers(config.token);
    var data := map["entity_id" := ToJson(entity)];
    if extra.Some? && extra.value != map[] {
      var x := extra.value;
      data := data + map k | k in x :: JStr(x[k]);
    }
    request := Request(url, headers, data);
  }
}
