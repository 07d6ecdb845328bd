/** The request-construction layer of the ACS 5.6 REST client `ACSClient`.
    Every public operation is modelled as a function that returns the HTTP
    request the client would hand to its HTTP library, or `None` when Python
    raises before any request is made (concatenating the base URL with the
    `None` that `_frag` returns for a rejected pair). */
module AcsClient {
  import opened Wrappers
  import opened Strings
  import opened PyFormat

  /** The object types the client accepts for `read` and `delete`. */
  const ObjectTypes: seq<string> := [
    "ACSVersion", "ServiceLocation", "ErrorMessage",
    "User", "IdentityGroup", "NetworkDevice/Device",
    "NetworkDevice/DeviceGroup", "Host"
  ]

  /** The lookup functions: the whole collection, or one object by name or by id. */
  const FunctionTypes: seq<string> := ["all", "name", "id"]

  /** What `_frag` prints when the object type is not whitelisted. */
  const InvalidMessage: string := "Invalid object_type or function"

  const Scheme: string := "https://"
  const RestRoot: string := "/Rest/"

  /** Python's `str()` on the values `var` may take here: a string is itself and
      `None` becomes the text "None". */
  function PyStr(v: Option<string>): (s: string)
    ensures v.Some? ==> s == v.value
    ensures s == "None" <==> v == None || v == Some("None")
  {
    match v
    case Some(s) => s
    case None => "None"
  }

  /** A call of `_frag`: the value it returns (`None` when it falls through or
      catches its own exception) and the lines it prints. */
  datatype FragCall = FragCall(value: Option<string>, printed: seq<string>)

  /** `_frag`: checks the pair against the whitelists and builds the URL fragment. */
  function Frag(objectType: string, func: string, v: Option<string>): (r: FragCall)
    ensures r.value.Some? <==> objectType in ObjectTypes && func in FunctionTypes
    ensures objectType !in ObjectTypes ==> r.printed == [InvalidMessage]
    ensures objectType in ObjectTypes ==> r.printed == []
    ensures r.value.Some? ==> IsPrefix(objectType, r.value.value)
    ensures r.value.Some? && func == "all" ==> r.value.value == objectType
    ensures r.value.Some? && func != "all" ==>
              r.value.value == objectType + "/" + func + "/" + PyStr(v)
  {
    if objectType in ObjectTypes then
      if func in FunctionTypes then
        if func == "all" then FragCall(Some(objectType), [])
        else FragCall(Some(objectType + "/" + func + "/" + PyStr(v)), [])
      else FragCall(None, [])
    else FragCall(None, [InvalidMessage])
  }

  datatype Credentials = Credentials(username: string, password: string)

  /** The state `__init__` sets up: the REST base URL and the basic-auth pair.
      Neither changes afterwards. */
  datatype Client = Client(url: string, credentials: Credentials)

  /** One HTTP request as handed to the HTTP library. */
  datatype Request = Request(verb: string, url: string, body: Option<string>, auth: Credentials)

  /** `__init__`: the base URL is `https://<hostname>/Rest/`. */
  function NewClient(hostname: string, username: string, password: string): (c: Client)
    ensures IsPrefix(Scheme, c.url) && IsSuffix(RestRoot, c.url)
    ensures |c.url| == |Scheme| + |hostname| + |RestRoot|
    ensures c.url[|Scheme|..|c.url| - |RestRoot|] == hostname
    ensures c.credentials == Credentials(username, password)
  {
    var url := Scheme + hostname + RestRoot;
    assert url[..|Scheme|] == Scheme;
    assert url[|url| - |RestRoot|..] == RestRoot;
    assert url[|Scheme|..|url| - |RestRoot|] == hostname;
    Client(url, Credentials(username, password))
  }

  /** `_req`: the fragment is appended to the base URL; a missing fragment makes
      the concatenation raise, so no request is made. */
  function Req(c: Client, verb: string, frag: Option<string>, data: Option<string>): (r: Option<Request>)
    ensures r.Some? <==> frag.Some?
    ensures r.Some? ==> IsPrefix(c.url, r.value.url) && r.value.url[|c.url|..] == frag.value
    ensures r.Some? ==> r.value.verb == verb && r.value.body == data && r.value.auth == c.credentials
  {
    match frag
    case None => None
    case Some(f) =>
      var url := c.url + f;
      assert url[..|c.url|] == c.url && url[|c.url|..] == f;
      Some(Request(verb, url, data, c.credentials))
  }

  /** `create`: POST the body to the object type, which is not checked. */
  function Create(c: Client, objectType: string, data: string): (r: Option<Request>)
    ensures r.Some?
    ensures r.value.verb == "POST" && r.value.body == Some(data) && r.value.auth == c.credentials
    ensures IsPrefix(c.url, r.value.url) && r.value.url[|c.url|..] == objectType
  {
    Req(c, "POST", Some(objectType), Some(data))
  }

  /** `read`: GET the validated fragment, without a body. */
  function Read(c: Client, objectType: string, func: string, v: Option<string>): (r: Option<Request>)
    ensures r.Some? <==> objectType in ObjectTypes && func in FunctionTypes
    ensures r.Some? ==> r.value.verb == "GET" && r.value.body.None? && r.value.auth == c.credentials
    ensures r.Some? ==> IsPrefix(c.url + objectType, r.value.url)
  {
    var r := Req(c, "GET", Frag(objectType, func, v).value, None);
    assert r.Some? ==> IsPrefix(c.url + objectType, r.value.url) by {
      if r.Some? { FullUrlPrefix(c.url, objectType, r.value.url); }
    }
    r
  }

  /** `update`: PUT the body to the object type, which is not checked. */
  function Update(c: Client, objectType: string, data: string): (r: Option<Request>)
    ensures r.Some?
    ensures r.value.verb == "PUT" && r.value.body == Some(data) && r.value.auth == c.credentials
    ensures IsPrefix(c.url, r.value.url) && r.value.url[|c.url|..] == objectType
  {
    Req(c, "PUT", Some(objectType), Some(data))
  }

  /** `delete`: DELETE the validated fragment, without a body. */
  function Delete(c: Client, objectType: string, func: string, v: Option<string>): (r: Option<Request>)
    ensures r.Some? <==> objectType in ObjectTypes && func in FunctionTypes
    ensures r.Some? ==> r.value.verb == "DELETE" && r.value.body.None? && r.value.auth == c.credentials
    ensures r.Some? ==> IsPrefix(c.url + objectType, r.value.url)
  {
    var r := Req(c, "DELETE", Frag(objectType, func, v).value, None);
    assert r.Some? ==> IsPrefix(c.url + objectType, r.value.url) by {
      if r.Some? { FullUrlPrefix(c.url, objectType, r.value.url); }
    }
    r
  }

  /** A URL that is the base followed by a fragment starting with the object
      type starts with the base followed by the object type. */
  lemma FullUrlPrefix(base: string, objectType: string, url: string)
    requires IsPrefix(base, url) && IsPrefix(objectType, url[|base|..])
    ensures IsPrefix(base + objectType, url)
  {
  }

  /** The device-group template of `create_device_group`, split at its two
      fields `{name}` and `{group_type}`. */
  const DeviceGroupTemplate: seq<string> := [
    "\n<ns1:deviceGroup xmlns:ns1=\"networkdevice.rest.mgmt.acs.nm.cisco.com\">\n        <description />\n        "
      + "<name>",
    "</name>"
      + "\n        "
      + "<groupType>",
    "</groupType>"
      + "\n</ns1:deviceGroup>\n        "
  ]

  /** Every device is registered as a single host. */
  const NetMask: string := "<netMask>32</netMask>"

  /** The device template of `create_device`, split at its five fields `{name}`,
      `{location}`, `{devicetype}`, `{ip}` and `{secret}`. */
  const DeviceTemplate: seq<string> := [
    "\n<ns1:device xmlns:ns1=\"networkdevice.rest.mgmt.acs.nm.cisco.com\">\n        <description />\n        "
      + "<name>",
    "</name>"
      + "\n        <groupInfo>\n            "
      + "<groupName>All Locations:",
    "</groupName>"
      + "\n            <groupType>Location</groupType>\n        </groupInfo>\n        <groupInfo>\n            "
      + "<groupName>All Device Types:",
    "</groupName>"
      + "\n            <groupType>Device Type</groupType>\n        </groupInfo>\n        <subnets>\n            "
      + "<ipAddress>",
    "</ipAddress>\n            "
      + NetMask
      + "\n        </subnets>\n        <tacacsConnection>\n            <legacyTACACS>true</legacyTACACS>\n            <sharedSecret>",
    "</sharedSecret>"
      + "\n            <singleConnect>false</singleConnect>\n        </tacacsConnection>\n</ns1:device>\n        "
  ]

  /** The XML body of `create_device_group`: both fields are copied in verbatim
      between their tags. */
  function DeviceGroupXml(name: string, groupType: string): (x: string)
    ensures IsInfix("<name>" + name + "</name>", x)
    ensures IsInfix("<groupType>" + groupType + "</groupType>", x)
  {
    var x := Format(DeviceGroupTemplate, [name, groupType]);
    TaggedField(DeviceGroupTemplate, [name, groupType], 0, "<name>", "</name>");
    TaggedField(DeviceGroupTemplate, [name, groupType], 1, "<groupType>", "</groupType>");
    x
  }

  /** The XML body of `create_device`: every field is copied in verbatim between
      its tags, the two group names carry their fixed hierarchy prefixes, and the
      subnet mask is always 32. */
  function DeviceXml(name: string, location: string, deviceType: string, ip: string, secret: string): (x: string)
    ensures IsInfix("<name>" + name + "</name>", x)
    ensures IsInfix("<groupName>All Locations:" + location + "</groupName>", x)
    ensures IsInfix("<groupName>All Device Types:" + deviceType + "</groupName>", x)
    ensures IsInfix("<ipAddress>" + ip + "</ipAddress>", x)
    ensures IsInfix(NetMask, x)
    ensures IsInfix("<sharedSecret>" + secret + "</sharedSecret>", x)
  {
    var fields := [name, location, deviceType, ip, secret];
    var x := Format(DeviceTemplate, fields);
    TaggedField(DeviceTemplate, fields, 0, "<name>", "</name>");
    TaggedField(DeviceTemplate, fields, 1, "<groupName>All Locations:", "</groupName>");
    TaggedField(DeviceTemplate, fields, 2, "<groupName>All Device Types:", "</groupName>");
    TaggedField(DeviceTemplate, fields, 3, "<ipAddress>", "</ipAddress>");
    TaggedField(DeviceTemplate, fields, 4, "<sharedSecret>", "</sharedSecret>");
    NetMaskFixed(fields);
    x
  }

  /** The subnet mask of a device body does not depend on its fields. */
  lemma NetMaskFixed(fields: seq<string>)
    requires |fields| == 5
    ensures IsInfix(NetMask, Format(DeviceTemplate, fields))
  {
    InfixOfConcat("</ipAddress>\n            ", NetMask,
                  "\n        </subnets>\n        <tacacsConnection>\n            <legacyTACACS>true</legacyTACACS>\n            <sharedSecret>");
    FormatPieceInfix(DeviceTemplate, fields, 4);
    InfixTransitive(NetMask, DeviceTemplate[4], Format(DeviceTemplate, fields));
  }

  /** A field sits between `open` and `close` in the filled template when the
      piece before it ends with `open` and the piece after it starts with `close`. */
  lemma TaggedField(pieces: seq<string>, fields: seq<string>, i: nat, open: string, close: string)
    requires |pieces| == |fields| + 1 && i < |fields|
    requires IsSuffix(open, pieces[i]) && IsPrefix(close, pieces[i + 1])
    ensures IsInfix(open + fields[i] + close, Format(pieces, fields))
  {
    FormatFieldInfix(pieces, fields, i);
    InfixNarrow(pieces[i], open, fields[i], close, pieces[i + 1], Format(pieces, fields));
  }

  /** `create_device_group`: POST the filled template to `NetworkDevice/DeviceGroup`. */
  function CreateDeviceGroup(c: Client, name: string, groupType: string): (r: Option<Request>)
    ensures r.Some? && r.value.verb == "POST" && r.value.auth == c.credentials
    ensures r.value.url == c.url + "NetworkDevice/DeviceGroup"
    ensures r.value.body == Some(DeviceGroupXml(name, groupType))
  {
    var r := Create(c, "NetworkDevice/DeviceGroup", DeviceGroupXml(name, groupType));
    assert r.value.url == r.value.url[..|c.url|] + r.value.url[|c.url|..];
    r
  }

  /** `create_device`: POST the filled template to `NetworkDevice/Device`. */
  function CreateDevice(c: Client, name: string, location: string, deviceType: string,
                        ip: string, secret: string): (r: Option<Request>)
    ensures r.Some? && r.value.verb == "POST" && r.value.auth == c.credentials
    ensures r.value.url == c.url + "NetworkDevice/Device"
    ensures r.value.body == Some(DeviceXml(name, location, deviceType, ip, secret))
  {
    var r := Create(c, "NetworkDevice/Device", DeviceXml(name, location, deviceType, ip, secret));
    assert r.value.url == r.value.url[..|c.url|] + r.value.url[|c.url|..];
    r
  }

}
