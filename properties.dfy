/** Properties of whole requests and of the two XML templates. */
module RequestProperties {
  import opened Wrappers
  import opened Strings
  import opened PyFormat
  import opened AcsClient
  import opened Fragments

  /** `read(object_type)` with its defaults (`func="all"`, `var=None`) GETs the
      bare object type, without a body, when the type is whitelisted, and makes
      no request otherwise. */
  lemma ReadWithDefaults(c: Client, objectType: string)
    ensures Read(c, objectType, "all", None) ==
              if objectType in ObjectTypes then Some(Request("GET", c.url + objectType, None, c.credentials))
              else None
  {
  }

  /** The full URL of a validated request is `https://<hostname>/Rest/` followed
      by the fragment `_frag` builds. */
  lemma ValidatedUrl(hostname: string, username: string, password: string,
                     objectType: string, func: string, v: Option<string>)
    requires Frag(objectType, func, v).value.Some?
    ensures var c := NewClient(hostname, username, password);
            var url := "https://" + hostname + "/Rest/" + Frag(objectType, func, v).value.value;
            Read(c, objectType, func, v).value.url == url && Delete(c, objectType, func, v).value.url == url
  {
  }

  /** The URL of every request `read` or `delete` makes is the base URL followed
      by a fragment that decodes to exactly the object type and selection asked
      for. */
  lemma ValidatedRequestDecodes(c: Client, objectType: string, func: string, v: Option<string>)
    requires objectType in ObjectTypes && func in FunctionTypes
    ensures IsPrefix(c.url, Read(c, objectType, func, v).value.url)
    ensures ParseFrag(Read(c, objectType, func, v).value.url[|c.url|..], ObjectTypes) == Some((objectType, Selection(func, v)))
    ensures IsPrefix(c.url, Delete(c, objectType, func, v).value.url)
    ensures ParseFrag(Delete(c, objectType, func, v).value.url[|c.url|..], ObjectTypes) == Some((objectType, Selection(func, v)))
  {
    FragDecodes(objectType, func, v);
  }

  /** Because `str(None)` is "None", a lookup with no variable asks for the
      object literally named (or numbered) "None". */
  lemma MissingVariableReadsNone(c: Client, objectType: string, func: string)
    requires func != "all"
    ensures Read(c, objectType, func, None) == Read(c, objectType, func, Some("None"))
    ensures Delete(c, objectType, func, None) == Delete(c, objectType, func, Some("None"))
    ensures Frag(objectType, func, None).value.Some? ==>
              Frag(objectType, func, None).value.value == objectType + "/" + func + "/None"
  {
  }

  /** `create_device_group` posts to the collection that `read` with the
      defaults fetches. */
  lemma DeviceGroupCollectionReadable(c: Client, name: string, groupType: string)
    ensures Read(c, "NetworkDevice/DeviceGroup", "all", None).Some?
    ensures CreateDeviceGroup(c, name, groupType).value.url == Read(c, "NetworkDevice/DeviceGroup", "all", None).value.url
  {
  }

  /** `create_device` posts to the collection that `read` with the defaults
      fetches. */
  lemma DeviceCollectionReadable(c: Client, name: string, location: string, deviceType: string,
                                 ip: string, secret: string)
    ensures Read(c, "NetworkDevice/Device", "all", None).Some?
    ensures CreateDevice(c, name, location, deviceType, ip, secret).value.url ==
              Read(c, "NetworkDevice/Device", "all", None).value.url
  {
  }

  /** The device-group body can be read back field by field when neither field
      contains `<`. */
  lemma DeviceGroupXmlRoundTrip(name: string, groupType: string)
    requires TagOpen !in name && TagOpen !in groupType
    ensures Unfill(DeviceGroupTemplate, DeviceGroupXml(name, groupType)) == Some([name, groupType])
  {
    UnfillFormat(DeviceGroupTemplate, [name, groupType]);
  }

  /** The device body can be read back field by field when no field contains `<`. */
  lemma DeviceXmlRoundTrip(name: string, location: string, deviceType: string, ip: string, secret: string)
    requires TagOpen !in name && TagOpen !in location && TagOpen !in deviceType
    requires TagOpen !in ip && TagOpen !in secret
    ensures Unfill(DeviceTemplate, DeviceXml(name, location, deviceType, ip, secret))
              == Some([name, location, deviceType, ip, secret])
  {
    var fields := [name, location, deviceType, ip, secret];
    assert FieldsPlain(fields) by {
      forall i | 0 <= i < |fields| ensures TagOpen !in fields[i] {
      }
    }
    UnfillFormat(DeviceTemplate, fields);
  }

  /** Two device-group bodies with `<`-free fields are equal only when their
      fields are. */
  lemma DeviceGroupXmlInjective(name1: string, groupType1: string, name2: string, groupType2: string)
    requires TagOpen !in name1 && TagOpen !in groupType1
    requires TagOpen !in name2 && TagOpen !in groupType2
    ensures DeviceGroupXml(name1, groupType1) == DeviceGroupXml(name2, groupType2) <==>
              name1 == name2 && groupType1 == groupType2
  {
    FormatInjective(DeviceGroupTemplate, [name1, groupType1], [name2, groupType2]);
  }

  /** Nothing is escaped: a name that carries the markup between the two fields
      yields the same body as a different name and group type, so the body no
      longer determines the fields. */
  lemma DeviceGroupNameCanInjectGroupType()
    ensures var between := DeviceGroupTemplate[1];
            DeviceGroupXml("a" + between + "b", "c") == DeviceGroupXml("a", "b" + between + "c")
            && "a" + between + "b" != "a"
  {
    FieldSpill(DeviceGroupTemplate, "a", "b", "c");
  }

}
