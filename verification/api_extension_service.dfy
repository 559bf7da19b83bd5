/** `ApiExtensionService`: the listing of API extension services, which the
    server returns as XML, and the three requests that enable, disable and
    delete one service. Headers other than the media types, the auth token
    and the HTTP client itself are not modelled. */
module ApiExtensionService {
  import opened Wrappers
  import opened JsonValue
  import XmlHelper

  /** One API extension service as listed by the server. `priority` is a
      JavaScript number. */
  datatype AdminServiceRecord = AdminServiceRecord(
    enabled: bool,
    exchange: string,
    isAuthorizationEnabled: bool,
    name: string,
    namespace: string,
    priority: real,
    routingKey: string,
    href: string)

  const ListingPath := "/api/admin/extension/service/query"
  const AcceptXml := "application/*+xml;version=29.0"
  const ServiceMediaType := "application/vnd.vmware.admin.service+xml"

  /** The fields of the `vmext:Service` document sent to enable or disable
      a service. */
  datatype ServiceDocument = ServiceDocument(
    name: string,
    namespace: string,
    enabled: bool,
    routingKey: string,
    exchange: string,
    urlPatterns: seq<string>)

  datatype HttpMethod = Get | Put | Delete

  datatype ApiRequest = ApiRequest(
    verb: HttpMethod,
    url: string,
    accept: string,
    contentType: Option<string>,
    body: Option<ServiceDocument>)

  /** The document both PUT requests send. Its identifying fields are fixed:
      they never depend on the service being targeted. */
  function ServiceBody(enabled: bool): (d: ServiceDocument)
    ensures d.enabled == enabled
    ensures d.name == "gcp-ticketing" && d.routingKey == "gcp-ticketing"
  {
    ServiceDocument("gcp-ticketing", "local.gcp.ticketing", enabled, "gcp-ticketing", "vcdext",
                    ["(/api/org/.*/ticketing/*[0-9]*)"])
  }

  /** `enable(url)`: a PUT of the service document with `Enabled` true. */
  function Enable(url: string): (r: ApiRequest)
    ensures r.verb == Put && r.url == url
    ensures r.body.Some? && r.body.value.enabled
    ensures r.contentType == Some(ServiceMediaType)
  {
    ApiRequest(Put, url, AcceptXml, Some(ServiceMediaType), Some(ServiceBody(true)))
  }

  /** `disable(url)`: a PUT of the service document with `Enabled` false. */
  function Disable(url: string): (r: ApiRequest)
    ensures r.verb == Put && r.url == url
    ensures r.body.Some? && !r.body.value.enabled
    ensures r.contentType == Some(ServiceMediaType)
  {
    ApiRequest(Put, url, AcceptXml, Some(ServiceMediaType), Some(ServiceBody(false)))
  }

  /** `delete(url)`: a DELETE with no body. */
  function Remove(url: string): (r: ApiRequest)
    ensures r.verb == Delete && r.url == url
    ensures r.body.None? && r.contentType.None?
  {
    ApiRequest(Delete, url, AcceptXml, None, None)
  }

  /** The enable and disable requests for a URL differ in exactly one place:
      the `Enabled` element of the body. */
  lemma EnableDisableDifferOnlyInEnabled(url: string)
    ensures Enable(url).(body := None) == Disable(url).(body := None)
    ensures Enable(url).body.value == Disable(url).body.value.(enabled := true)
    ensures Enable(url).body != Disable(url).body
  {
  }

  /** The body never depends on the target: whatever URL is passed, the
      document names the `gcp-ticketing` service. */
  lemma BodyIgnoresTarget(u: string, v: string)
    ensures Enable(u).body == Enable(v).body && Disable(u).body == Disable(v).body
    ensures Enable(u).body.value.name == "gcp-ticketing"
  {
  }

  /** `res || null`, then `[]` for a falsy result, the array itself for an
      array, and a one-element list otherwise. */
  function NormaliseRecords(res: Option<Value>): (list: seq<Value>)
    ensures res.None? || !Truthy(res.value) ==> list == []
    ensures res.Some? && res.value.Arr? ==> list == res.value.items
    ensures res.Some? && Truthy(res.value) && !res.value.Arr? ==> list == [res.value]
  {
    var r := if res.Some? && Truthy(res.value) then res.value else Null;
    if !Truthy(r) then []
    else if r.Arr? then r.items
    else [r]
  }

  /** Normalising an already normalised list changes nothing. */
  lemma NormaliseIsIdempotent(res: Option<Value>)
    ensures NormaliseRecords(Some(Arr(NormaliseRecords(res)))) == NormaliseRecords(res)
  {
  }

  /** The GET request for the listing. */
  function ListingRequest(baseUrl: string): (r: ApiRequest)
    ensures r.verb == Get && r.url == baseUrl + ListingPath && r.accept == AcceptXml
    ensures r.body.None?
  {
    ApiRequest(Get, baseUrl + ListingPath, AcceptXml, None, None)
  }

  /** The keys of the converted document, when it converts to an object. */
  function RootFields(parse: XmlHelper.Parser, doc: XmlHelper.Node): Option<Fields> {
    match XmlHelper.Convert(parse, doc)
    case Success(Obj(fs)) => Some(fs)
    case _ => None
  }

  /** `getApiExtensions` once the response text is parsed into a DOM tree:
      convert it, then read `QueryResultRecords.AdminServiceRecord`. A
      document without a `QueryResultRecords` root element throws; a
      `QueryResultRecords` that is a string, number, boolean or array (an
      array arises when two top-level nodes share that name) has no
      `AdminServiceRecord`, so the listing is empty. */
  function ListApiExtensions(parse: XmlHelper.Parser, doc: XmlHelper.Node): (r: Result<seq<Value>, TypeError>)
    ensures XmlHelper.Convert(parse, doc).Failure? ==> r.Failure?
    ensures XmlHelper.Convert(parse, doc) == Success(Null) ==> r == Failure(ReadOfNull("QueryResultRecords"))
    ensures XmlHelper.Convert(parse, doc).Success? && XmlHelper.Convert(parse, doc).value != Null
      && !XmlHelper.Convert(parse, doc).value.Obj?
      ==> r == Failure(ReadOfUndefined("AdminServiceRecord"))
    ensures RootFields(parse, doc).Some? && Lookup(RootFields(parse, doc).value, "QueryResultRecords").None?
      ==> r == Failure(ReadOfUndefined("AdminServiceRecord"))
    ensures RootFields(parse, doc).Some? && Lookup(RootFields(parse, doc).value, "QueryResultRecords").Some?
      && Lookup(RootFields(parse, doc).value, "QueryResultRecords").value.Obj?
      ==> r == Success(NormaliseRecords(
            Lookup(Lookup(RootFields(parse, doc).value, "QueryResultRecords").value.fields, "AdminServiceRecord")))
    ensures RootFields(parse, doc).Some? && Lookup(RootFields(parse, doc).value, "QueryResultRecords") == Some(Null)
      ==> r == Failure(ReadOfNull("AdminServiceRecord"))
    ensures RootFields(parse, doc).Some? && Lookup(RootFields(parse, doc).value, "QueryResultRecords").Some?
      && Lookup(RootFields(parse, doc).value, "QueryResultRecords").value != Null
      && !Lookup(RootFields(parse, doc).value, "QueryResultRecords").value.Obj?
      ==> r == Success([])
  {
    var root :- XmlHelper.Convert(parse, doc);
    var records :- GetProperty(Some(root), "QueryResultRecords");
    var res :- GetProperty(records, "AdminServiceRecord");
    Success(NormaliseRecords(res))
  }
}
