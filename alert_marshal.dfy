/** Alert.MarshalJSONFast: the `alert` dictionary written field by field, in a fixed
    key order, leaving out empty strings and empty lists. It cannot fail. */
module AlertMarshal {
  import opened Base
  import opened Payload
  import opened Quote
  import opened JsonObject

  /** The keys, in the order the encoder writes them. */
  const KeyTitle: Bytes := "title"
  const KeySubtitle: Bytes := "subtitle"
  const KeyBody: Bytes := "body"
  const KeyLaunchImage: Bytes := "launch-image"
  const KeyLocKey: Bytes := "loc-key"
  const KeyLocArgs: Bytes := "loc-args"
  const KeyTitleLocKey: Bytes := "title-loc-key"
  const KeyTitleLocArgs: Bytes := "title-loc-args"
  const KeySubtitleLocKey: Bytes := "subtitle-loc-key"
  const KeySubtitleLocArgs: Bytes := "subtitle-loc-args"
  const KeyActionLocKey: Bytes := "action-loc-key"

  const AlertKeys: seq<Bytes> := [
    KeyTitle, KeySubtitle, KeyBody, KeyLaunchImage, KeyLocKey, KeyLocArgs,
    KeyTitleLocKey, KeyTitleLocArgs, KeySubtitleLocKey, KeySubtitleLocArgs, KeyActionLocKey]

  /** The i-th `if` block of the encoder: its key, and what it writes. */
  function AlertField(a: Alert, i: nat): Field {
    match i
    case 0 => StringField(KeyTitle, a.title)
    case 1 => StringField(KeySubtitle, a.subtitle)
    case 2 => StringField(KeyBody, a.body)
    case 3 => StringField(KeyLaunchImage, a.launchImage)
    case 4 => StringField(KeyLocKey, a.locKey)
    case 5 => ListField(KeyLocArgs, a.locArgs)
    case 6 => StringField(KeyTitleLocKey, a.titleLocKey)
    case 7 => ListField(KeyTitleLocArgs, a.titleLocArgs)
    case 8 => StringField(KeySubtitleLocKey, a.subtitleLocKey)
    case 9 => ListField(KeySubtitleLocArgs, a.subtitleLocArgs)
    case _ => StringField(KeyActionLocKey, a.actionLocKey)
  }

  function AlertFields(a: Alert): (fs: seq<Field>)
    ensures |fs| == |AlertKeys|
  {
    seq(11, (i: int) requires 0 <= i => AlertField(a, i))
  }

  /** The JSON text of an alert dictionary. */
  function AlertJson(a: Alert): Bytes {
    ObjectText(Members(AlertFields(a)))
  }

  predicate IsEmptyAlert(a: Alert) {
    a.title == [] && a.subtitle == [] && a.body == [] && a.launchImage == [] && a.locKey == []
    && a.locArgs == [] && a.titleLocKey == [] && a.titleLocArgs == [] && a.subtitleLocKey == []
    && a.subtitleLocArgs == [] && a.actionLocKey == []
  }

  /** Alert.MarshalJSONFast. Its error result is always nil, so only the bytes are returned. */
  method MarshalAlert(a: Alert) returns (r: Bytes)
    ensures r == AlertJson(a)
  {
    var b: Bytes := ['{'];
    var first := true;
    ghost var fs := AlertFields(a);
    b, first := WriteString(fs, 0, b, first, KeyTitle, a.title);
    b, first := WriteString(fs, 1, b, first, KeySubtitle, a.subtitle);
    b, first := WriteString(fs, 2, b, first, KeyBody, a.body);
    b, first := WriteString(fs, 3, b, first, KeyLaunchImage, a.launchImage);
    b, first := WriteString(fs, 4, b, first, KeyLocKey, a.locKey);
    b, first := WriteList(fs, 5, b, first, KeyLocArgs, a.locArgs);
    b, first := WriteString(fs, 6, b, first, KeyTitleLocKey, a.titleLocKey);
    b, first := WriteList(fs, 7, b, first, KeyTitleLocArgs, a.titleLocArgs);
    b, first := WriteString(fs, 8, b, first, KeySubtitleLocKey, a.subtitleLocKey);
    b, first := WriteList(fs, 9, b, first, KeySubtitleLocArgs, a.subtitleLocArgs);
    b, first := WriteString(fs, 10, b, first, KeyActionLocKey, a.actionLocKey);
    Finish(fs, b, first);
    r := b + ['}'];
  }

  lemma AlertKeysDistinct()
    ensures Distinct(AlertKeys)
  {
    var tags := seq(|AlertKeys|, i requires 0 <= i < |AlertKeys| => KeyTag(AlertKeys[i]));
    assert tags == [357477, 553829, 287353, 814181, 486521, 552051, 881785, 947315, 1078137, 1143667, 942457];
    TagsDistinct(AlertKeys);
  }

  lemma AlertFieldKeys(a: Alert)
    ensures FieldKeys(AlertFields(a)) == AlertKeys
  {
    var fs := AlertFields(a);
    forall i | 0 <= i < |fs|
      ensures fs[i].key == AlertKeys[i]
    {
      assert fs[i] == AlertField(a, i);
    }
  }

  /** The keys appear in the fixed order, each at most once. */
  lemma AlertKeysInOrder(a: Alert)
    ensures IsSubsequence(MemberKeys(Members(AlertFields(a))), AlertKeys)
    ensures Distinct(MemberKeys(Members(AlertFields(a))))
  {
    AlertFieldKeys(a);
    AlertKeysDistinct();
    KeysInFieldOrder(AlertFields(a));
    NoRepeatedKey(AlertFields(a));
  }

  /** Each key is written exactly when its field is not empty, and with that field's
      JSON text: a quoted string, or an array of quoted strings. */
  lemma AlertMembers(a: Alert, t: Bytes)
    ensures Member(KeyTitle, t) in Members(AlertFields(a)) <==> a.title != [] && t == JsonQuote(a.title)
    ensures Member(KeySubtitle, t) in Members(AlertFields(a)) <==> a.subtitle != [] && t == JsonQuote(a.subtitle)
    ensures Member(KeyBody, t) in Members(AlertFields(a)) <==> a.body != [] && t == JsonQuote(a.body)
    ensures Member(KeyLaunchImage, t) in Members(AlertFields(a))
            <==> a.launchImage != [] && t == JsonQuote(a.launchImage)
    ensures Member(KeyLocKey, t) in Members(AlertFields(a)) <==> a.locKey != [] && t == JsonQuote(a.locKey)
    ensures Member(KeyLocArgs, t) in Members(AlertFields(a))
            <==> a.locArgs != [] && t == ArrayText(JsonQuotes(a.locArgs))
    ensures Member(KeyTitleLocKey, t) in Members(AlertFields(a))
            <==> a.titleLocKey != [] && t == JsonQuote(a.titleLocKey)
    ensures Member(KeyTitleLocArgs, t) in Members(AlertFields(a))
            <==> a.titleLocArgs != [] && t == ArrayText(JsonQuotes(a.titleLocArgs))
    ensures Member(KeySubtitleLocKey, t) in Members(AlertFields(a))
            <==> a.subtitleLocKey != [] && t == JsonQuote(a.subtitleLocKey)
    ensures Member(KeySubtitleLocArgs, t) in Members(AlertFields(a))
            <==> a.subtitleLocArgs != [] && t == ArrayText(JsonQuotes(a.subtitleLocArgs))
    ensures Member(KeyActionLocKey, t) in Members(AlertFields(a))
            <==> a.actionLocKey != [] && t == JsonQuote(a.actionLocKey)
  {
    var fs := AlertFields(a);
    AlertFieldKeys(a);
    AlertKeysDistinct();
    MemberOfField(fs, 0, t);
    MemberOfField(fs, 1, t);
    MemberOfField(fs, 2, t);
    MemberOfField(fs, 3, t);
    MemberOfField(fs, 4, t);
    MemberOfField(fs, 5, t);
    MemberOfField(fs, 6, t);
    MemberOfField(fs, 7, t);
    MemberOfField(fs, 8, t);
    MemberOfField(fs, 9, t);
    MemberOfField(fs, 10, t);
  }

  /** An alert encodes to `{}` exactly when all its fields are empty. */
  lemma EmptyAlertJson(a: Alert)
    ensures AlertJson(a) == "{}" <==> IsEmptyAlert(a)
  {
    var fs := AlertFields(a);
    EmptyObject(Members(fs));
    MembersEmptyIff(fs);
    assert (forall k :: 0 <= k < |fs| ==> !fs[k].Written?)
        <==> !fs[0].Written? && !fs[1].Written? && !fs[2].Written? && !fs[3].Written?
             && !fs[4].Written? && !fs[5].Written? && !fs[6].Written? && !fs[7].Written?
             && !fs[8].Written? && !fs[9].Written? && !fs[10].Written?;
  }
}
