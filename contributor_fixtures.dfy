/** The fixtures of the contributor JSON tests, and what the tests assert about them. */
module ContributorFixtures {
  import opened Seqs
  import opened ContributorJson

  /** A plain name, an identifier, a position and two roles. */
  const Contributor1: Contributor :=
    Contributor(Some(PlainName("theName1")), Some("theID1"), Some(1), Some(["theRole1-A", "theRole1-B"]))

  const Contributor2NameMap: map<string, string> := map["en" := "theName2"]

  /** A language-map name, an identifier, no position and one role. */
  const Contributor2: Contributor :=
    Contributor(Some(LangMap(Contributor2NameMap)), Some("theID2"), None, Some(["theRole2"]))

  const Contributor2NameJson: Json := JObject(map["en" := JString("theName2")])

  const Contributor1Json: Json :=
    JObject(map["name" := JString("theName1"), "identifier" := JString("theID1"), "position" := JNumber(1),
                "role" := JArray([JString("theRole1-A"), JString("theRole1-B")])])

  /** The second contributor's single role is written as a bare string. */
  const Contributor2Json: Json :=
    JObject(map["name" := Contributor2NameJson, "identifier" := JString("theID2"), "role" := JString("theRole2")])

  /** The second contributor's language map is written as an object of strings. */
  lemma EncodesNameMap()
    ensures EncodeName(LangMap(Contributor2NameMap)) == Contributor2NameJson
  {
    assert EncodeName(LangMap(Contributor2NameMap)).fields.Keys == {"en"};
  }

  /** The first contributor is written with all four keys, its two roles as an array. */
  lemma EncodesContributor1()
    ensures EncodeContributor(Contributor1) == Contributor1Json
  {
    var j1 := EncodeContributor(Contributor1);
    assert EncodeRole(["theRole1-A", "theRole1-B"]).items == [JString("theRole1-A"), JString("theRole1-B")];
    assert j1.fields.Keys == Contributor1Json.fields.Keys;
  }

  /** The second contributor is written without a position, its one role as a bare string. */
  lemma EncodesContributor2()
    ensures EncodeContributor(Contributor2) == Contributor2Json
  {
    EncodesNameMap();
    var j2 := EncodeContributor(Contributor2);
    assert j2.fields.Keys == Contributor2Json.fields.Keys;
  }

  /** Serialising the two-contributor list gives a two-element array, in order. */
  lemma SerialiseTwoContributors()
    ensures EncodeContributors([Contributor1, Contributor2]) == JArray([Contributor1Json, Contributor2Json])
  {
    EncodesContributor1();
    EncodesContributor2();
    var j := EncodeContributors([Contributor1, Contributor2]);
    assert j.items == [Contributor1Json, Contributor2Json];
  }

  /** Serialising a one-contributor list gives the bare object. */
  lemma SerialiseOneContributorCollapses()
    ensures EncodeContributors([Contributor1]) == Contributor1Json
  {
    EncodesContributor1();
  }

  /** The array of both objects, shaped as the serialiser writes it, reads back as both contributors. */
  lemma DeserialiseTwoContributors()
    ensures DecodeContributors(JArray([Contributor1Json, Contributor2Json])) == Some([Contributor1, Contributor2])
  {
    SerialiseTwoContributors();
    RoundTrip([Contributor1, Contributor2]);
  }

  /** A one-object array and a bare object both read as the one-item list. */
  lemma DeserialiseOneContributor()
    ensures DecodeContributors(JArray([Contributor1Json])) == Some([Contributor1])
    ensures DecodeContributors(Contributor1Json) == Some([Contributor1])
  {
    EncodesContributor1();
    ContributorRoundTrip(Contributor1);
    BareObjectIsOneItem(Contributor1Json.fields);
  }

  /** An array of a bare name and a `{name: langMap}` object reads as two named contributors. */
  lemma DeserialiseNameArray()
    ensures DecodeContributors(JArray([JString("theName1"), JObject(map["name" := Contributor2NameJson])])) ==
              Some([NamedContributor(PlainName("theName1")), NamedContributor(LangMap(Contributor2NameMap))])
  {
    var named2 := JObject(map["name" := Contributor2NameJson]);
    EncodesNameMap();
    LangMapNameKept(Contributor2NameMap);
    var both := DecodeItems([JString("theName1"), named2]);
    assert DecodeItem([JString("theName1"), named2][0]).Some?;
    assert DecodeItem([JString("theName1"), named2][1]).Some?;
    assert both.Some? && both.value == [both.value[0], both.value[1]];
  }

  /** One name alone, as a string or as a `{name: langMap}` object, bare or in an array. */
  lemma DeserialiseOneName()
    ensures DecodeContributors(JArray([JString("theName1")])) == Some([NamedContributor(PlainName("theName1"))])
    ensures DecodeContributors(JArray([JObject(map["name" := Contributor2NameJson])])) ==
              Some([NamedContributor(LangMap(Contributor2NameMap))])
    ensures DecodeContributors(JString("theName1")) == Some([NamedContributor(PlainName("theName1"))])
    ensures DecodeContributors(JObject(map["name" := Contributor2NameJson])) ==
              Some([NamedContributor(LangMap(Contributor2NameMap))])
  {
    var named2 := JObject(map["name" := Contributor2NameJson]);
    EncodesNameMap();
    LangMapNameKept(Contributor2NameMap);
    BareStringIsOneName("theName1");
    BareObjectIsOneItem(named2.fields);
  }
}
