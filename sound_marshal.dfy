/** Sound.MarshalJSONFast: the `sound` dictionary, written critical, name, volume
    (not the order the struct declares them in), each left out at its zero value.
    It does not validate: any flag and any volume are written as they are. */
module SoundMarshal {
  import opened Base
  import opened Decimal
  import opened Quote
  import opened Payload
  import opened JsonObject

  const KeyCritical: Bytes := "critical"
  const KeyName: Bytes := "name"
  const KeyVolume: Bytes := "volume"

  /** The keys, in the order the encoder writes them. */
  const SoundKeys: seq<Bytes> := [KeyCritical, KeyName, KeyVolume]

  /** The i-th block of the encoder. The flag goes through strconv.AppendInt, the
      volume through strconv.AppendFloat (the parameter ff). */
  function SoundField(s: Sound, ff: FloatFormat, i: nat): Field {
    match i
    case 0 => if s.critical == 0 then Omitted(KeyCritical) else Written(KeyCritical, FormatInt(s.critical))
    case 1 => StringField(KeyName, s.name)
    case _ => if s.volume == 0.0 then Omitted(KeyVolume) else Written(KeyVolume, ff(s.volume))
  }

  function SoundFields(s: Sound, ff: FloatFormat): (fs: seq<Field>)
    ensures |fs| == |SoundKeys|
  {
    seq(3, (i: int) requires 0 <= i => SoundField(s, ff, i))
  }

  /** The JSON text of a sound dictionary. */
  function SoundJson(s: Sound, ff: FloatFormat): Bytes {
    ObjectText(Members(SoundFields(s, ff)))
  }

  /** Sound.MarshalJSONFast. Its error result is always nil, so only the bytes are returned. */
  method MarshalSound(s: Sound, ff: FloatFormat) returns (r: Bytes)
    ensures r == SoundJson(s, ff)
  {
    var b: Bytes := ['{'];
    var first := true;
    ghost var fs := SoundFields(s, ff);
    if s.critical != 0 {
      b, first := WriteText(fs, 0, b, first, KeyCritical, FormatInt(s.critical));
    } else {
      Skip(fs, 0, b, first);
    }
    b, first := WriteString(fs, 1, b, first, KeyName, s.name);
    if s.volume != 0.0 {
      b, first := WriteText(fs, 2, b, first, KeyVolume, ff(s.volume));
    } else {
      Skip(fs, 2, b, first);
    }
    Finish(fs, b, first);
    r := b + ['}'];
  }

  lemma SoundFieldKeys(s: Sound, ff: FloatFormat)
    ensures FieldKeys(SoundFields(s, ff)) == SoundKeys
  {
    var fs := SoundFields(s, ff);
    forall i | 0 <= i < |fs|
      ensures fs[i].key == SoundKeys[i]
    {
      assert fs[i] == SoundField(s, ff, i);
    }
  }

  lemma SoundKeysDistinct()
    ensures Distinct(SoundKeys)
  {
    var tags := seq(|SoundKeys|, i requires 0 <= i < |SoundKeys| => KeyTag(SoundKeys[i]));
    assert tags == [549740, 290405, 423525];
    TagsDistinct(SoundKeys);
  }

  /** The keys appear in the order critical, name, volume, each at most once. */
  lemma SoundKeysInOrder(s: Sound, ff: FloatFormat)
    ensures IsSubsequence(MemberKeys(Members(SoundFields(s, ff))), SoundKeys)
    ensures Distinct(MemberKeys(Members(SoundFields(s, ff))))
  {
    SoundFieldKeys(s, ff);
    SoundKeysDistinct();
    KeysInFieldOrder(SoundFields(s, ff));
    NoRepeatedKey(SoundFields(s, ff));
  }

  /** Each key is written exactly when its field is not zero, with that field's text. */
  lemma SoundMembers(s: Sound, ff: FloatFormat, t: Bytes)
    ensures Member(KeyCritical, t) in Members(SoundFields(s, ff)) <==> s.critical != 0 && t == FormatInt(s.critical)
    ensures Member(KeyName, t) in Members(SoundFields(s, ff)) <==> s.name != [] && t == JsonQuote(s.name)
    ensures Member(KeyVolume, t) in Members(SoundFields(s, ff)) <==> s.volume != 0.0 && t == ff(s.volume)
  {
    var fs := SoundFields(s, ff);
    SoundFieldKeys(s, ff);
    SoundKeysDistinct();
    MemberOfField(fs, 0, t);
    MemberOfField(fs, 1, t);
    MemberOfField(fs, 2, t);
  }

  /** The flag is written as it is, unvalidated, and reads back as the same integer:
      a flag of 2 appears as `"critical":2`. */
  lemma CriticalReadsBack(s: Sound, ff: FloatFormat, t: Bytes)
    requires Member(KeyCritical, t) in Members(SoundFields(s, ff))
    ensures ParseInt(t) == Some(s.critical as int)
  {
    SoundMembers(s, ff, t);
    FormatIntRoundTrip(s.critical);
  }

  /** A sound encodes to `{}` exactly when all its fields are zero. */
  lemma EmptySoundJson(s: Sound, ff: FloatFormat)
    ensures SoundJson(s, ff) == "{}" <==> s.critical == 0 && s.name == [] && s.volume == 0.0
  {
    var fs := SoundFields(s, ff);
    EmptyObject(Members(fs));
    MembersEmptyIff(fs);
    assert (forall k :: 0 <= k < |fs| ==> !fs[k].Written?)
        <==> !fs[0].Written? && !fs[1].Written? && !fs[2].Written?;
  }
}
