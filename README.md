# acsclient request construction, in Dafny

This project models the request-construction layer of `ACSClient`, a Python
client for the REST API of a Cisco ACS 5.6 server. The client does three things
before it hands a request to its HTTP library:

- it checks an `(object_type, func)` pair against two fixed whitelists;
- it builds a URL fragment, either the bare object type or
  `object_type/func/var`, and appends it to `https://<hostname>/Rest/`;
- for the two convenience operations, it fills fixed XML templates with the
  caller's fields.

Each public operation (`create`, `read`, `update`, `delete`,
`create_device_group` and `create_device`) is a function here. It returns the
request the client would issue (verb, URL, body and credentials) as
`Some(request)`. It returns `None` when Python raises before any request is
made. That happens when `_frag` returns `None` and `self.url + None` raises a
`TypeError`.

Files and modules:

- `wrappers.dfy` (`Wrappers`): the `Option` type.
- `strings.dfy` (`Strings`): prefix, suffix and infix predicates, and
  `TakeUntil`, which scans up to a delimiter.
- `format.dfy` (`PyFormat`): `str.format` on a template whose placeholders are
  plain `{field}`s, modelled as literal pieces with fields between them. It
  also holds `Unfill`, the reader that gets the fields back out, and the
  round-trip lemmas between the two.
- `acsclient.dfy` (`AcsClient`): the whitelists, `_frag`, `__init__`, `_req`,
  the four CRUD operations and the two XML templates.
- `fragments.dfy` (`Fragments`): a decoder for URL fragments. It is the partner
  of `_frag`: it proves that fragments are exactly the renderings of
  whitelisted selections, that `_frag` is injective on them, and that the
  whitelist is unambiguous.
- `properties.dfy` (`RequestProperties`): lemmas about whole requests and about
  the two XML bodies.

`_frag` both returns a value and prints a line. It is modelled as a function
that returns a `FragCall`, which holds the returned value and the lines
printed.

The client is Python 2 code. A Dafny `string` stands for a Python 2 byte
`str`, and every argument is taken to be one (or `None` for `var`). With byte
strings, `str(var)`, the concatenations in `_frag` and `str.format` never
raise.

The message `_frag` prints, `Invalid object_type or function`, names both
arguments, but it is printed for only one of them. With byte-string arguments,
only an object type outside the whitelist raises the exception that prints it.
A whitelisted object type with an unknown function falls off the end of the
inner `if`. `_frag` then returns `None` and prints nothing. The model follows
the code: `Frag` prints in the first case only.

The source's constants are declared once in `AcsClient` and used by the
members below:

- `ObjectTypes` and `FunctionTypes` are the whitelists at
  acsclient/acsclient.py:6-10.
- `DeviceGroupTemplate` is the template at acsclient/acsclient.py:88-93, split
  at `{name}` and `{group_type}`.
- `DeviceTemplate` is the template at acsclient/acsclient.py:101-122, split at
  its five fields, with `NetMask` the fixed line at :115.
- `InvalidMessage` is the text printed at :55.
- `Scheme` and `RestRoot` are the literal parts of the base URL at :21.

## Model

| member | source | states |
|---|---|---|
| `AcsClient.Frag` | acsclient/acsclient.py:38-55 | A fragment is produced exactly when the object type is in `_object_types` and the function is in `_function_types`. The error line is printed exactly when the object type is not whitelisted; a whitelisted type with an unknown function yields nothing silently. A fragment always begins with the object type. For `all` it is the object type alone, whatever `var` is; otherwise it is `object_type/func/str(var)`. |
| `AcsClient.PyStr` | acsclient/acsclient.py:50 | `str(var)`: a string renders as itself, and the text `None` comes from exactly `None` and the string `"None"`. `RequestProperties.MissingVariableReadsNone` carries this collision through to requests. |
| `AcsClient.NewClient` | acsclient/acsclient.py:12-22 | The base URL starts with `https://`, ends with `/Rest/`, and the hostname is exactly what lies between. The credentials are the username and password pair. |
| `AcsClient.Req` | acsclient/acsclient.py:26-36 | A request is made exactly when there is a fragment. Its URL is the base URL followed by the fragment, and it carries the given verb, the body and the client's credentials. |
| `AcsClient.Create` | acsclient/acsclient.py:57-62 | Always makes a POST carrying the data. The object type is not validated and is used as the fragment itself. |
| `AcsClient.Read` | acsclient/acsclient.py:64-70 | Makes a request exactly when the pair is whitelisted. It is a GET with no body, and its URL starts with the base URL followed by the object type. |
| `AcsClient.Update` | acsclient/acsclient.py:72-77 | Always makes a PUT carrying the data. The object type is not validated and is used as the fragment itself. |
| `AcsClient.Delete` | acsclient/acsclient.py:79-85 | Makes a request exactly when the pair is whitelisted. It is a DELETE with no body, and its URL starts with the base URL followed by the object type. |
| `AcsClient.DeviceGroupXml` | acsclient/acsclient.py:88-97 | The body contains `<name>` + name + `</name>` and `<groupType>` + group type + `</groupType>`, with both fields copied verbatim. |
| `AcsClient.DeviceXml` | acsclient/acsclient.py:101-129 | The body contains the name, `All Locations:` + location and `All Device Types:` + device type as group names, the IP address, the fixed `<netMask>32</netMask>` and the shared secret, each copied verbatim between its tags. |
| `AcsClient.CreateDeviceGroup` | acsclient/acsclient.py:87-98 | Always POSTs the device-group body to the base URL followed by `NetworkDevice/DeviceGroup`. |
| `AcsClient.CreateDevice` | acsclient/acsclient.py:100-130 | Always POSTs the device body to the base URL followed by `NetworkDevice/Device`. |
| `PyFormat.Format` | acsclient/acsclient.py:88-129 | `str.format` on the two templates, as literal pieces with the fields between them. The filled text starts with the first piece. Its other properties are stated by `PyFormat.UnfillFormat`, `PyFormat.FormatUnfill`, `PyFormat.FormatInjective`, `PyFormat.FormatFieldInfix`, `PyFormat.FormatPieceInfix` and `PyFormat.FieldSpill`. |
| `PyFormat.UnfillFormat` | acsclient/acsclient.py:94-97 | Round trip of `str.format`: when no field contains `<`, the fields of a filled template are read back exactly. |
| `PyFormat.FormatUnfill` | acsclient/acsclient.py:94-97 | Soundness of the reader: any text it accepts is the template filled with the fields it returns. |
| `PyFormat.FormatInjective` | acsclient/acsclient.py:94-97 | Filling a template is injective on fields without `<`: two fillings are equal exactly when their fields are. |
| `PyFormat.FormatFieldInfix` | acsclient/acsclient.py:94-97 | Every field appears verbatim in the result, between the literal text before it and the literal text after it. |
| `PyFormat.FormatPieceInfix` | acsclient/acsclient.py:94-97 | Every literal part of the template appears in the result. |
| `PyFormat.FieldSpill` | acsclient/acsclient.py:94-97 | Nothing is escaped: a first field that contains the literal text between the two fields gives the same result as a different pair of fields. |
| `Fragments.ObjectTypesSlashPrefixFree` | acsclient/acsclient.py:6-8 | No whitelisted object type followed by `/` begins another whitelisted type. `NetworkDevice/Device` is a prefix of `NetworkDevice/DeviceGroup`, but `NetworkDevice/Device/` is not. |
| `Fragments.NamesUnique` | acsclient/acsclient.py:6-8 | With such a whitelist, a fragment begins with at most one whitelisted object type followed by `/` (or is that type). |
| `Fragments.ParseRender` | acsclient/acsclient.py:47-50 | Round trip: a rendered whitelisted selection (the collection, or a `name`/`id` lookup with any key) decodes to itself. |
| `Fragments.RenderParse` | acsclient/acsclient.py:47-50 | Soundness of the decoder: whatever it accepts is the rendering of a whitelisted object type with `all`, `name` or `id`. |
| `Fragments.FragDecodes` | acsclient/acsclient.py:38-51 | Every fragment `_frag` returns decodes to the object type it was given and to the selection it was asked for (`var` is dropped for `all`). |
| `Fragments.DecodedFragIsProduced` | acsclient/acsclient.py:38-51 | Every fragment the decoder accepts is one that `_frag` returns for the decoded arguments. |
| `Fragments.FragInjective` | acsclient/acsclient.py:46-50 | Two successful `_frag` calls give the same fragment exactly when they name the same object type and the same selection. |
| `RequestProperties.ReadWithDefaults` | acsclient/acsclient.py:64-70 | `read(object_type)` with its defaults GETs the base URL followed by the bare object type, with no body, when the type is whitelisted, and makes no request otherwise. |
| `RequestProperties.ValidatedUrl` | acsclient/acsclient.py:21-32 | The full URL of a `read` or `delete` request is `https://` + hostname + `/Rest/` + the fragment. |
| `RequestProperties.ValidatedRequestDecodes` | acsclient/acsclient.py:64-85 | The URL of every `read` and `delete` request is the base URL followed by a fragment that decodes to exactly the object type and selection asked for. |
| `RequestProperties.MissingVariableReadsNone` | acsclient/acsclient.py:50 | For `name` or `id` without a variable, `str(None)` makes the lookup ask for the key `None`. The request is the same as one for the literal string `"None"`. |
| `RequestProperties.DeviceGroupCollectionReadable` | acsclient/acsclient.py:87-98 | `create_device_group` POSTs to the same URL that `read("NetworkDevice/DeviceGroup")` GETs. |
| `RequestProperties.DeviceCollectionReadable` | acsclient/acsclient.py:100-130 | `create_device` POSTs to the same URL that `read("NetworkDevice/Device")` GETs. |
| `RequestProperties.DeviceGroupXmlRoundTrip` | acsclient/acsclient.py:88-97 | When neither field contains `<`, both fields are read back exactly from the device-group body. |
| `RequestProperties.DeviceXmlRoundTrip` | acsclient/acsclient.py:101-129 | When no field contains `<`, all five fields are read back exactly from the device body. |
| `RequestProperties.DeviceGroupXmlInjective` | acsclient/acsclient.py:88-97 | With `<`-free fields, two device-group bodies are equal exactly when their names and group types are. |
| `RequestProperties.DeviceGroupNameCanInjectGroupType` | acsclient/acsclient.py:88-97 | Because nothing is escaped, the name `a</name>…<groupType>b` with group type `c` gives the same body as the name `a` with a different group type. |

## Left out

- The HTTP call itself (`requests.request`), how the basic-auth credentials are
  sent, `verify=False` and the `Content-Type` header. They belong to a
  third-party network library. The model stops at the request that would be
  handed to it, and does not model the response the operations return.
- `hide_urllib_warnings` and `requests.packages.urllib3.disable_warnings()`.
  This is a side effect inside a foreign library.
- The `print` in `_frag` as console output. It is modelled only as data: the
  `printed` field of `FragCall`.
- Python's `str()` and `str.format` on values other than strings. `var` is
  `Option<string>` (a byte string or `None`), and every other argument is a
  byte string.
- AcsClient.Frag: does not model Python 2 `unicode` arguments. A `unicode`
  `var` with non-ASCII characters makes `str(var)` at :50 raise
  `UnicodeEncodeError`. The same happens when a `unicode` object type is joined
  with a non-ASCII byte `var`. The handler at :54-55 catches the error, prints
  the message and returns `None`, so no request is made. `Frag` instead
  returns a fragment and prints nothing.
- AcsClient.DeviceGroupXml: does not model `unicode` fields. Non-ASCII
  `unicode` fields make `.format` at :94 raise, and no request is made.
  `DeviceGroupXml` always returns a body.
- AcsClient.DeviceXml: does not model `unicode` fields. Non-ASCII `unicode`
  fields make `.format` at :123 raise, and no request is made. `DeviceXml`
  always returns a body.
- XML well-formedness and escaping. The code does neither, so the model claims
  neither. The round-trip lemmas assume fields without `<`, and
  `DeviceGroupNameCanInjectGroupType` shows what happens without that
  assumption.
- setup.py: packaging metadata that reads a file from disk and has no logic.
