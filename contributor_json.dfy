/**
 * The JSON shape of contributor-like metadata fields (imprint, author, ...):
 * a one-item list is written as its bare element, and reading accepts a bare
 * string, a bare object, or an array of either.
 */
module ContributorJson {
  import opened Seqs

  datatype Json =
    | JNull
    | JBool(b: bool)
    | JNumber(n: int)
    | JString(s: string)
    | JArray(items: seq<Json>)
    | JObject(fields: map<string, Json>)

  /** A contributor name: a plain string or a map from language tag to string. */
  datatype Name = PlainName(s: string) | LangMap(m: map<string, string>)

  /** The fields of a Contributor the JSON mapping carries; absent ones are `None`. */
  datatype Contributor = Contributor(
    name: Option<Name>,
    identifier: Option<string>,
    position: Option<int>,
    role: Option<seq<string>>)

  /** The contributor a bare name stands for. */
  function NamedContributor(name: Name): Contributor
  {
    Contributor(Some(name), None, None, None)
  }

  // ---------------------------------------------------------------- serialise

  function EncodeName(name: Name): (j: Json)
    ensures name.PlainName? ==> j == JString(name.s)
    ensures name.LangMap? ==>
              j.JObject? && j.fields.Keys == name.m.Keys &&
              forall lang :: lang in name.m ==> j.fields[lang] == JString(name.m[lang])
  {
    match name
    case PlainName(s) => JString(s)
    case LangMap(m) => JObject(map lang | lang in m :: JString(m[lang]))
  }

  /** A list of roles; a single role collapses to the bare string. */
  function EncodeRole(roles: seq<string>): (j: Json)
    ensures |roles| == 1 ==> j == JString(roles[0])
    ensures |roles| != 1 ==>
              j.JArray? && |j.items| == |roles| &&
              forall i :: 0 <= i < |roles| ==> j.items[i] == JString(roles[i])
  {
    if |roles| == 1 then JString(roles[0])
    else JArray(seq(|roles|, i requires 0 <= i < |roles| => JString(roles[i])))
  }

  /** One contributor as an object holding the keys of its present fields. */
  function EncodeContributor(c: Contributor): (j: Json)
    ensures j.JObject?
    ensures j.fields.Keys <= {"name", "identifier", "position", "role"}
    ensures ("name" in j.fields <==> c.name.Some?) && (c.name.Some? ==> j.fields["name"] == EncodeName(c.name.value))
    ensures ("identifier" in j.fields <==> c.identifier.Some?) &&
            (c.identifier.Some? ==> j.fields["identifier"] == JString(c.identifier.value))
    ensures ("position" in j.fields <==> c.position.Some?) &&
            (c.position.Some? ==> j.fields["position"] == JNumber(c.position.value))
    ensures ("role" in j.fields <==> c.role.Some?) && (c.role.Some? ==> j.fields["role"] == EncodeRole(c.role.value))
  {
    JObject(
      (if c.name.Some? then map["name" := EncodeName(c.name.value)] else map[]) +
      (if c.identifier.Some? then map["identifier" := JString(c.identifier.value)] else map[]) +
      (if c.position.Some? then map["position" := JNumber(c.position.value)] else map[]) +
      (if c.role.Some? then map["role" := EncodeRole(c.role.value)] else map[]))
  }

  /** A contributor list; a single contributor collapses to the bare object. */
  function EncodeContributors(xs: seq<Contributor>): (j: Json)
    ensures |xs| == 1 ==> j == EncodeContributor(xs[0])
    ensures |xs| != 1 ==>
              j.JArray? && |j.items| == |xs| &&
              forall i :: 0 <= i < |xs| ==> j.items[i] == EncodeContributor(xs[i])
  {
    if |xs| == 1 then EncodeContributor(xs[0])
    else JArray(seq(|xs|, i requires 0 <= i < |xs| => EncodeContributor(xs[i])))
  }

  // ---------------------------------------------------------------- deserialise

  function DecodeString(j: Json): (r: Option<string>)
    ensures r.Some? <==> j.JString?
    ensures r.Some? ==> j == JString(r.value)
  {
    if j.JString? then Some(j.s) else None
  }

  function DecodeNumber(j: Json): (r: Option<int>)
    ensures r.Some? <==> j.JNumber?
    ensures r.Some? ==> j == JNumber(r.value)
  {
    if j.JNumber? then Some(j.n) else None
  }

  /** A string is a plain name; an object of strings is a language map. */
  function DecodeName(j: Json): (r: Option<Name>)
    ensures j.JString? ==> r == Some(PlainName(j.s))
    ensures j.JObject? ==> (r.Some? <==> forall lang :: lang in j.fields ==> j.fields[lang].JString?)
    ensures j.JObject? && r.Some? ==> r.value.LangMap?
    ensures r.Some? && r.value.LangMap? ==>
              j.JObject? && j.fields.Keys == r.value.m.Keys &&
              forall lang :: lang in j.fields ==> j.fields[lang] == JString(r.value.m[lang])
    ensures r.Some? ==> j.JString? || j.JObject?
  {
    match j
    case JString(s) => Some(PlainName(s))
    case JObject(fields) =>
      if forall lang :: lang in fields ==> fields[lang].JString? then
        Some(LangMap(map lang | lang in fields :: fields[lang].s))
      else None
    case _ => None
  }

  /** A bare string is a one-role list; an array of strings keeps its order. */
  function DecodeRole(j: Json): (r: Option<seq<string>>)
    ensures j.JString? ==> r == Some([j.s])
    ensures j.JArray? ==> (r.Some? <==> forall i :: 0 <= i < |j.items| ==> j.items[i].JString?)
    ensures j.JArray? && r.Some? ==>
              |r.value| == |j.items| &&
              forall i :: 0 <= i < |j.items| ==> j.items[i] == JString(r.value[i])
    ensures r.Some? ==> j.JString? || j.JArray?
  {
    match j
    case JString(s) => Some([s])
    case JArray(items) =>
      if forall i :: 0 <= i < |items| ==> items[i].JString? then
        Some(seq(|items|, i requires 0 <= i < |items| => items[i].s))
      else None
    case _ => None
  }

  /**
   * An optional field: `Some(None)` when the key is absent, `Some(Some(v))`
   * when its value decodes to `v`, and `None` when it does not decode.
   */
  function DecodeField<T>(fields: map<string, Json>, key: string, decode: Json -> Option<T>): (r: Option<Option<T>>)
    ensures key !in fields ==> r == Some(None)
    ensures key in fields ==> (r.Some? <==> decode(fields[key]).Some?)
    ensures key in fields && r.Some? ==> r.value == decode(fields[key])
  {
    if key !in fields then Some(None)
    else match decode(fields[key])
      case None => None
      case Some(v) => Some(Some(v))
  }

  /** A contributor object; keys other than the four fields are ignored. */
  function DecodeContributorObject(fields: map<string, Json>): (r: Option<Contributor>)
    ensures r.Some? <==>
              && ("name" in fields ==> DecodeName(fields["name"]).Some?)
              && ("identifier" in fields ==> fields["identifier"].JString?)
              && ("position" in fields ==> fields["position"].JNumber?)
              && ("role" in fields ==> DecodeRole(fields["role"]).Some?)
    ensures r.Some? ==>
              && (r.value.name.Some? <==> "name" in fields)
              && (r.value.name.Some? ==> DecodeName(fields["name"]) == r.value.name)
              && (r.value.identifier.Some? <==> "identifier" in fields)
              && (r.value.identifier.Some? ==> fields["identifier"] == JString(r.value.identifier.value))
              && (r.value.position.Some? <==> "position" in fields)
              && (r.value.position.Some? ==> fields["position"] == JNumber(r.value.position.value))
              && (r.value.role.Some? <==> "role" in fields)
              && (r.value.role.Some? ==> DecodeRole(fields["role"]) == r.value.role)
  {
    var name := DecodeField(fields, "name", DecodeName);
    var identifier := DecodeField(fields, "identifier", DecodeString);
    var position := DecodeField(fields, "position", DecodeNumber);
    var role := DecodeField(fields, "role", DecodeRole);
    if name.Some? && identifier.Some? && position.Some? && role.Some? then
      Some(Contributor(name.value, identifier.value, position.value, role.value))
    else None
  }

  /** One list element: a bare string names a contributor, an object describes one. */
  function DecodeItem(j: Json): (r: Option<Contributor>)
    ensures j.JString? ==> r == Some(NamedContributor(PlainName(j.s)))
    ensures j.JObject? ==> r == DecodeContributorObject(j.fields)
    ensures r.Some? ==> j.JString? || j.JObject?
  {
    match j
    case JString(s) => Some(NamedContributor(PlainName(s)))
    case JObject(fields) => DecodeContributorObject(fields)
    case _ => None
  }

  /** The elements of an array, element by element, in order. */
  function DecodeItems(items: seq<Json>): (r: Option<seq<Contributor>>)
    ensures r.Some? <==> forall i :: 0 <= i < |items| ==> DecodeItem(items[i]).Some?
    ensures r.Some? ==> |r.value| == |items| && forall i :: 0 <= i < |items| ==> DecodeItem(items[i]) == Some(r.value[i])
    decreases |items|
  {
    if |items| == 0 then Some([])
    else
      var head := DecodeItem(items[0]);
      var tail := DecodeItems(items[1..]);
      if head.Some? && tail.Some? then Some([head.value] + tail.value) else None
  }

  /** A contributor field: an array of items, or one bare item read as a one-item list. */
  function DecodeContributors(j: Json): (r: Option<seq<Contributor>>)
    ensures j.JArray? ==> r == DecodeItems(j.items)
    ensures j.JString? || j.JObject? ==> (r.Some? <==> DecodeItem(j).Some?)
    ensures (j.JString? || j.JObject?) && r.Some? ==> r.value == [DecodeItem(j).value]
    ensures !(j.JArray? || j.JString? || j.JObject?) ==> r.None?
  {
    match j
    case JArray(items) => DecodeItems(items)
    case JString(_) => Some([DecodeItem(j).value])
    case JObject(_) =>
      (match DecodeItem(j)
       case None => None
       case Some(c) => Some([c]))
    case _ => None
  }

  // ---------------------------------------------------------------- round trip

  lemma NameRoundTrip(name: Name)
    ensures DecodeName(EncodeName(name)) == Some(name)
  {
    match name
    case PlainName(_) =>
    case LangMap(m) =>
      var fields := EncodeName(name).fields;
      assert forall lang :: lang in fields ==> fields[lang].JString?;
      var back := map lang | lang in fields :: fields[lang].s;
      assert back == m;
  }

  lemma RoleRoundTrip(roles: seq<string>)
    ensures DecodeRole(EncodeRole(roles)) == Some(roles)
  {
    if |roles| == 1 {
      assert [roles[0]] == roles;
    } else {
      var back := DecodeRole(EncodeRole(roles));
      assert back.Some?;
      assert back.value == roles;
    }
  }

  lemma ContributorRoundTrip(c: Contributor)
    ensures DecodeItem(EncodeContributor(c)) == Some(c)
  {
    var fields := EncodeContributor(c).fields;
    if c.name.Some? { NameRoundTrip(c.name.value); }
    if c.role.Some? { RoleRoundTrip(c.role.value); }
    assert DecodeField(fields, "name", DecodeName) == Some(c.name);
    assert DecodeField(fields, "identifier", DecodeString) == Some(c.identifier);
    assert DecodeField(fields, "position", DecodeNumber) == Some(c.position);
    assert DecodeField(fields, "role", DecodeRole) == Some(c.role);
  }

  /** Reading back what was written gives the same contributors, in the same order. */
  lemma RoundTrip(xs: seq<Contributor>)
    ensures DecodeContributors(EncodeContributors(xs)) == Some(xs)
  {
    if |xs| == 1 {
      ContributorRoundTrip(xs[0]);
      assert [xs[0]] == xs;
    } else {
      var j := EncodeContributors(xs);
      forall i | 0 <= i < |xs| ensures DecodeItem(j.items[i]) == Some(xs[i]) {
        ContributorRoundTrip(xs[i]);
      }
      var back := DecodeItems(j.items);
      assert back.Some?;
      assert back.value == xs;
    }
  }

  // ---------------------------------------------------------------- accepted shapes

  /** A bare contributor object reads as a one-item list, as does a one-item array. */
  lemma BareObjectIsOneItem(fields: map<string, Json>)
    requires DecodeContributorObject(fields).Some?
    ensures DecodeContributors(JObject(fields)) == Some([DecodeContributorObject(fields).value])
    ensures DecodeContributors(JArray([JObject(fields)])) == DecodeContributors(JObject(fields))
  {
    var one := DecodeItems([JObject(fields)]);
    assert DecodeItem([JObject(fields)][0]).Some?;
    assert one.Some? && |one.value| == 1 && DecodeItem(JObject(fields)) == Some(one.value[0]);
    assert one.value == [one.value[0]];
  }

  /** A bare string reads as one contributor of that name, as does a one-string array. */
  lemma BareStringIsOneName(s: string)
    ensures DecodeContributors(JString(s)) == Some([NamedContributor(PlainName(s))])
    ensures DecodeContributors(JArray([JString(s)])) == Some([NamedContributor(PlainName(s))])
  {
    var one := DecodeItems([JString(s)]);
    assert DecodeItem([JString(s)][0]).Some?;
    assert one.Some? && |one.value| == 1 && DecodeItem(JString(s)) == Some(one.value[0]);
    assert one.value == [one.value[0]];
  }

  /** An object holding only a language-map name keeps that map as the name. */
  lemma LangMapNameKept(m: map<string, string>)
    ensures DecodeContributors(JObject(map["name" := EncodeName(LangMap(m))])) ==
              Some([NamedContributor(LangMap(m))])
  {
    ContributorRoundTrip(NamedContributor(LangMap(m)));
    assert EncodeContributor(NamedContributor(LangMap(m))).fields == map["name" := EncodeName(LangMap(m))];
  }
}
