/** Reading a URL fragment built by `_frag` back into what it selects. The
    decoder is the partner of `AcsClient.Frag`: the two lemmas at the end show
    that fragments are exactly the renderings of whitelisted selections, and
    that nothing is lost in between. */
module Fragments {
  import opened Wrappers
  import opened Strings
  import opened AcsClient

  /** What a fragment asks for within an object type: the whole collection, or
      the object whose name or id is `key`. */
  datatype Selector = All | Keyed(func: string, key: string)

  /** The selection `_frag` encodes for a function and variable. */
  function Selection(func: string, v: Option<string>): Selector {
    if func == "all" then All else Keyed(func, PyStr(v))
  }

  function Render(objectType: string, sel: Selector): string {
    match sel
    case All => objectType
    case Keyed(func, key) => objectType + "/" + func + "/" + key
  }

  /** `s` is the object type alone or starts with the object type and a slash. */
  predicate Names(s: string, objectType: string) {
    s == objectType || IsPrefix(objectType + "/", s)
  }

  /** The first of `types` that `s` names. */
  function MatchObjectType(s: string, types: seq<string>): (r: Option<string>)
    ensures r.Some? ==> r.value in types && Names(s, r.value)
    ensures r.None? ==> forall t | t in types :: !Names(s, t)
  {
    if types == [] then None
    else if Names(s, types[0]) then Some(types[0])
    else MatchObjectType(s, types[1..])
  }

  /** Decodes a fragment into one of the object types `types` and a selection. */
  function ParseFrag(s: string, types: seq<string>): Option<(string, Selector)> {
    match MatchObjectType(s, types)
    case None => None
    case Some(t) =>
      if s == t then Some((t, All))
      else
        var rest := s[|t| + 1..];
        var func := TakeUntil(rest, '/');
        if func in FunctionTypes && func != "all" && |func| < |rest|
        then Some((t, Keyed(func, rest[|func| + 1..])))
        else None
  }

  /** No object type of `types` followed by a slash begins another one. */
  ghost predicate SlashPrefixFree(types: seq<string>) {
    forall i, j | 0 <= i < |types| && 0 <= j < |types| :: !IsPrefix(types[i] + "/", types[j])
  }

  /** The whitelist is slash-prefix free: `NetworkDevice/Device` is a prefix of
      `NetworkDevice/DeviceGroup`, but `NetworkDevice/Device/` is not. */
  lemma ObjectTypesSlashPrefixFree()
    ensures SlashPrefixFree(ObjectTypes)
  {
    forall i, j | 0 <= i < |ObjectTypes| && 0 <= j < |ObjectTypes|
      ensures !IsPrefix(ObjectTypes[i] + "/", ObjectTypes[j])
    {
      var t1, t2 := ObjectTypes[i], ObjectTypes[j];
      assert |t2| < |t1| + 1 || t2[|t1|] != '/' || t2[0] != t1[0];
    }
  }

  /** In a slash-prefix-free list, a string names at most one object type. */
  lemma NamesUnique(types: seq<string>, s: string, t1: string, t2: string)
    requires SlashPrefixFree(types)
    requires t1 in types && t2 in types
    requires Names(s, t1) && Names(s, t2)
    ensures t1 == t2
  {
    var i :| 0 <= i < |types| && types[i] == t1;
    var j :| 0 <= j < |types| && types[j] == t2;
    if s != t1 && s != t2 {
      if |t1| <= |t2| {
        SlashedPrefixes(s, t1, t2);
      } else {
        SlashedPrefixes(s, t2, t1);
      }
    }
  }

  /** Two slash-terminated prefixes of one string: the shorter one is the longer
      one's object type, or a slash-terminated prefix of it. */
  lemma SlashedPrefixes(s: string, a: string, b: string)
    requires IsPrefix(a + "/", s) && IsPrefix(b + "/", s) && |a| <= |b|
    ensures a == b || IsPrefix(a + "/", b)
  {
    assert s[..|a| + 1] == s[..|b| + 1][..|a| + 1];
    if |a| < |b| {
      assert b[..|a| + 1] == (b + "/")[..|a| + 1];
    } else {
      assert a == s[..|a|] == b;
    }
  }

  /** Round trip: a rendered selection of a slash-prefix-free list decodes to itself. */
  lemma ParseRender(types: seq<string>, objectType: string, sel: Selector)
    requires SlashPrefixFree(types) && objectType in types
    requires sel.Keyed? ==> sel.func in FunctionTypes && sel.func != "all"
    ensures ParseFrag(Render(objectType, sel), types) == Some((objectType, sel))
  {
    var s := Render(objectType, sel);
    if sel.Keyed? {
      assert s[..|objectType| + 1] == objectType + "/";
    }
    var m := MatchObjectType(s, types);
    assert Names(s, objectType);
    NamesUnique(types, s, m.value, objectType);
    if sel.Keyed? {
      var rest := s[|objectType| + 1..];
      assert rest == sel.func + ("/" + sel.key);
      assert '/' !in sel.func by {
        assert sel.func == "name" || sel.func == "id";
      }
      TakeUntilStopsAt(sel.func, "/" + sel.key, '/');
      assert rest[|sel.func| + 1..] == sel.key;
    }
  }

  /** Soundness of the decoder: whatever it accepts is a rendered selection of
      one of the listed object types. */
  lemma RenderParse(types: seq<string>, s: string)
    requires ParseFrag(s, types).Some?
    ensures ParseFrag(s, types).value.0 in types
    ensures ParseFrag(s, types).value.1.Keyed? ==>
              ParseFrag(s, types).value.1.func in FunctionTypes && ParseFrag(s, types).value.1.func != "all"
    ensures Render(ParseFrag(s, types).value.0, ParseFrag(s, types).value.1) == s
  {
  }

  /** Every fragment `_frag` produces decodes to the object type and selection
      it was built from. */
  lemma FragDecodes(objectType: string, func: string, v: Option<string>)
    requires Frag(objectType, func, v).value.Some?
    ensures ParseFrag(Frag(objectType, func, v).value.value, ObjectTypes) == Some((objectType, Selection(func, v)))
  {
    ObjectTypesSlashPrefixFree();
    ParseRender(ObjectTypes, objectType, Selection(func, v));
  }

  /** Every fragment the decoder accepts is one `_frag` produces. */
  lemma DecodedFragIsProduced(s: string)
    requires ParseFrag(s, ObjectTypes).Some?
    ensures var (t, sel) := ParseFrag(s, ObjectTypes).value;
            Frag(t, if sel.All? then "all" else sel.func, if sel.All? then None else Some(sel.key)).value == Some(s)
  {
    RenderParse(ObjectTypes, s);
  }

  /** Two whitelisted calls of `_frag` give the same fragment exactly when they
      select the same thing: the object type and, unless the whole collection
      is asked for, the function and the rendered variable. */
  lemma FragInjective(o1: string, f1: string, v1: Option<string>, o2: string, f2: string, v2: Option<string>)
    requires Frag(o1, f1, v1).value.Some? && Frag(o2, f2, v2).value.Some?
    ensures Frag(o1, f1, v1).value == Frag(o2, f2, v2).value <==>
              o1 == o2 && Selection(f1, v1) == Selection(f2, v2)
  {
    FragDecodes(o1, f1, v1);
    FragDecodes(o2, f2, v2);
  }

}
