/** APS.MarshalJSONFast: the `aps` dictionary written block by block in a fixed key
    order. Each block is skipped at its field's zero value (nil, "", 0, an empty map);
    a field holding a runtime type the encoder does not handle aborts the whole
    encoding with ErrInvalidType, and so does a Live Activity map value EncodeValue
    rejects (or the error of a failing json.Marshaler inside it). The encoder does not
    validate: it writes whatever the fields hold. */
module ApsMarshal {
  import opened Base
  import opened Decimal
  import opened Quote
  import opened Payload
  import opened JsonObject
  import opened AlertMarshal
  import opened SoundMarshal
  import opened ValueEncoder
  import opened Validation
  import opened ApsKeyNames

  // ---------------------------------------------------------------------------
  // The Live Activity maps

  /** A content-state or attributes map: `{`, then for each entry in iteration order a
      comma (except before the first), the key through the `appendQuote` closure, `:`
      and the value as EncodeValue writes it; or the first error. */
  function LiveActivityText(m: seq<(Bytes, Value)>, ff: FloatFormat): Result<Bytes, EncodeError> {
    match EntriesText(Object(m), m, JsonQuote, ff)
    case Ok(t) => Ok("{" + t + "}")
    case Err(e) => Err(e)
  }

  /** A map block: skipped when the map is empty. */
  function MapField(key: Bytes, m: seq<(Bytes, Value)>, ff: FloatFormat): Field {
    if m == [] then Omitted(key)
    else
      match LiveActivityText(m, ff)
      case Ok(t) => Written(key, t)
      case Err(e) => Invalid(key, e)
  }

  /** The loop over a Live Activity map, appending to b. */
  method AppendLiveActivity(b: Bytes, m: seq<(Bytes, Value)>, ff: FloatFormat)
    returns (r: Result<Bytes, EncodeError>)
    ensures r == Appended(b, LiveActivityText(m, ff))
  {
    var buf := b + ['{'];
    var firstMap := true;
    ghost var body: Bytes := [];
    MapStart(m, JsonQuote, ff);
    for i := 0 to |m|
      invariant firstMap == (i == 0)
      invariant MapWrote(m, i, JsonQuote, ff, body)
      invariant buf == b + ['{'] + body
    {
      var (key, val) := m[i];
      if !firstMap {
        buf := buf + [','];
      } else {
        firstMap := false;
      }
      buf := AppendQuote(buf, key);
      buf := buf + [':'];
      var res := EncodeValue(buf, val, ff);
      if res.Err? {
        MapEntryErr(m, i, body, JsonQuote, ff);
        r := Err(res.error);
        return;
      }
      body := MapEntryOk(m, i, b + ['{'], body, buf, res, JsonQuote, ff);
      buf := res.value;
    }
    LiveActivityClosed(m, b, body, ff);
    r := Ok(buf + ['}']);
  }

  /** The Live Activity loop ran to the end: closing the brace gives the map's text. */
  lemma LiveActivityClosed(m: seq<(Bytes, Value)>, b: Bytes, body: Bytes, ff: FloatFormat)
    requires MapWrote(m, |m|, JsonQuote, ff, body)
    ensures Appended(b, LiveActivityText(m, ff)) == Ok(b + ['{'] + body + ['}'])
  {
    MapWhole(m, JsonQuote, ff, body);
    Regroup(b, ['{'], body);
    Regroup(b, ['{'] + body, ['}']);
  }

  /** A content-state or attributes map that encodes is `{`, its entries as `key:value`
      with JsonQuote keys, and `}`; its keys are written once each and read back. */
  lemma LiveActivityKeysDistinct(m: seq<(Bytes, Value)>, ff: FloatFormat)
    requires LiveActivityText(m, ff).Ok? && DistinctKeys(m)
    ensures forall i :: 0 <= i < |m| ==> ValueText(m[i].1, ff).Ok?
    ensures LiveActivityText(m, ff) == Ok("{" + CommaJoin(EntryTexts(m, JsonQuote, ff)) + "}")
    ensures Distinct(QuotedKeys(m, JsonQuote))
    ensures forall i :: 0 <= i < |m| ==> Unquote(QuotedKeys(m, JsonQuote)[i], JsonUnescaped) == Some(m[i].0)
  {
    var v := Object(m);
    EntriesOkIff(v, m, JsonQuote, ff);
    forall i | 0 <= i < |m|
      ensures ValueText(m[i].1, ff).Ok?
    {
      ValueOkIff(m[i].1, ff);
    }
    JsonQuoteInjective();
    EntriesKeysDistinct(v, m, JsonQuote, ff);
    forall i | 0 <= i < |m|
      ensures Unquote(QuotedKeys(m, JsonQuote)[i], JsonUnescaped) == Some(m[i].0)
    {
      JsonQuoteRoundTrip(m[i].0);
    }
  }

  /** A non-empty map block: `addComma`, the key, the map, or the map's error. */
  method WriteLiveActivity(ghost fs: seq<Field>, ghost k: nat, b: Bytes, first: bool, key: Bytes,
                           m: seq<(Bytes, Value)>, ff: FloatFormat)
    returns (b': Bytes, first': bool, err: Option<EncodeError>)
    requires Wrote(fs, k, b, first) && k < |fs| && fs[k] == MapField(key, m, ff) && m != []
    ensures err == None ==> Wrote(fs, k + 1, b', first')
    ensures err != None ==> Encode(fs) == Err(err.value)
  {
    b', first' := AddComma(b, first);
    b' := AppendKey(b', key);
    var res := AppendLiveActivity(b', m, ff);
    if res.Err? {
      Fail(fs, k, b, first);
      err := Some(res.error);
      return;
    }
    b' := res.value;
    err := None;
    Advance(fs, k, b, first, b', first', None);
  }

  // ---------------------------------------------------------------------------
  // The blocks

  function AlertBlock(v: AlertValue): Field {
    match v
    case NoAlert => Omitted(KeyAlert)
    case AlertText(t) => Written(KeyAlert, JsonQuote(t))
    case AlertDict(a) => Written(KeyAlert, AlertJson(a))
    case AlertOfOtherType => Invalid(KeyAlert, InvalidType)
  }

  function BadgeBlock(v: BadgeValue): Field {
    match v
    case NoBadge => Omitted(KeyBadge)
    case BadgeCount(n) => Written(KeyBadge, FormatInt(n))
    case BadgeOfOtherType => Invalid(KeyBadge, InvalidType)
  }

  function SoundBlock(v: SoundValue, ff: FloatFormat): Field {
    match v
    case NoSound => Omitted(KeySound)
    case SoundName(t) => Written(KeySound, JsonQuote(t))
    case SoundDict(s) => Written(KeySound, SoundJson(s, ff))
    case SoundOfOtherType => Invalid(KeySound, InvalidType)
  }

  /** content-available and mutable-content: the constant 1 whatever the field holds. */
  function FlagBlock(key: Bytes, v: FlagValue): Field {
    if v.NoFlag? then Omitted(key) else Written(key, "1")
  }

  /** relevance-score: only a float64 is written. */
  function ScoreBlock(v: ScoreValue, ff: FloatFormat): Field {
    match v
    case NoScore => Omitted(KeyRelevanceScore)
    case ScoreFloat(x) => Written(KeyRelevanceScore, ff(x))
    case _ => Invalid(KeyRelevanceScore, InvalidType)
  }

  /** stale-date and timestamp: a non-nil pointer is written through strconv.AppendInt. */
  function DateBlock(key: Bytes, d: Option<Int64>): Field {
    match d
    case None => Omitted(key)
    case Some(t) => Written(key, FormatInt(t))
  }

  /** dismissal-date: written through strconv.AppendInt unless zero. */
  function DismissalBlock(d: Int64): Field {
    if d == 0 then Omitted(KeyDismissalDate) else Written(KeyDismissalDate, FormatInt(d))
  }

  /** The i-th block of the encoder. */
  function ApsField(aps: Aps, ff: FloatFormat, i: nat): Field {
    match i
    case 0 => AlertBlock(aps.alert)
    case 1 => BadgeBlock(aps.badge)
    case 2 => SoundBlock(aps.sound, ff)
    case 3 => FlagBlock(KeyContentAvailable, aps.contentAvailable)
    case 4 => FlagBlock(KeyMutableContent, aps.mutableContent)
    case 5 => StringField(KeyCategory, aps.category)
    case 6 => StringField(KeyThreadId, aps.threadId)
    case 7 => StringField(KeyInterruptionLevel, aps.interruptionLevel)
    case 8 => ScoreBlock(aps.relevanceScore, ff)
    case 9 => DateBlock(KeyStaleDate, aps.staleDate)
    case 10 => StringField(KeyFilterCriteria, aps.filterCriteria)
    case 11 => DateBlock(KeyTimestamp, aps.timestamp)
    case 12 => StringField(KeyTargetContentId, aps.targetContentId)
    case 13 => MapField(KeyContentState, aps.contentState, ff)
    case 14 => StringField(KeyEvent, aps.event)
    case 15 => DismissalBlock(aps.dismissalDate)
    case 16 => StringField(KeyAttributesType, aps.attributesType)
    case _ => MapField(KeyAttributes, aps.attributes, ff)
  }

  function ApsFields(aps: Aps, ff: FloatFormat): (fs: seq<Field>)
    ensures |fs| == |ApsKeys|
  {
    seq(18, (i: int) requires 0 <= i => ApsField(aps, ff, i))
  }

  /** The field list, block by block: the first nine. */
  lemma FirstFieldsAt(aps: Aps, ff: FloatFormat, fs: seq<Field>)
    requires fs == ApsFields(aps, ff)
    ensures fs[0] == AlertBlock(aps.alert) && fs[1] == BadgeBlock(aps.badge)
    ensures fs[2] == SoundBlock(aps.sound, ff)
    ensures fs[3] == FlagBlock(KeyContentAvailable, aps.contentAvailable)
    ensures fs[4] == FlagBlock(KeyMutableContent, aps.mutableContent)
    ensures fs[5] == StringField(KeyCategory, aps.category)
    ensures fs[6] == StringField(KeyThreadId, aps.threadId)
    ensures fs[7] == StringField(KeyInterruptionLevel, aps.interruptionLevel)
    ensures fs[8] == ScoreBlock(aps.relevanceScore, ff)
  {
  }

  /** The last nine: the integer blocks, */
  lemma DateFieldsAt(aps: Aps, ff: FloatFormat, fs: seq<Field>)
    requires fs == ApsFields(aps, ff)
    ensures fs[9] == DateBlock(KeyStaleDate, aps.staleDate)
    ensures fs[11] == DateBlock(KeyTimestamp, aps.timestamp)
    ensures fs[15] == DismissalBlock(aps.dismissalDate)
  {
    assert fs[9] == ApsField(aps, ff, 9);
    assert fs[11] == ApsField(aps, ff, 11);
    assert fs[15] == ApsField(aps, ff, 15);
  }

  /** the string blocks, */
  lemma StringFieldsAt(aps: Aps, ff: FloatFormat, fs: seq<Field>)
    requires fs == ApsFields(aps, ff)
    ensures fs[10] == StringField(KeyFilterCriteria, aps.filterCriteria)
    ensures fs[12] == StringField(KeyTargetContentId, aps.targetContentId)
    ensures fs[14] == StringField(KeyEvent, aps.event)
    ensures fs[16] == StringField(KeyAttributesType, aps.attributesType)
  {
  }

  /** and the two maps. */
  lemma MapFieldsAt(aps: Aps, ff: FloatFormat, fs: seq<Field>)
    requires fs == ApsFields(aps, ff)
    ensures fs[13] == MapField(KeyContentState, aps.contentState, ff)
    ensures fs[17] == MapField(KeyAttributes, aps.attributes, ff)
  {
  }

  /** What APS.MarshalJSONFast returns: the object text, or the first block's error. */
  function ApsJson(aps: Aps, ff: FloatFormat): Result<Bytes, EncodeError> {
    Encode(ApsFields(aps, ff))
  }

  /** The alert block: `addComma`, the key, then by the runtime type the alert
      dictionary's own encoding, the quoted string, or ErrInvalidType. */
  method WriteAlert(ghost fs: seq<Field>, ghost k: nat, b: Bytes, first: bool, v: AlertValue)
    returns (b': Bytes, first': bool, err: Option<EncodeError>)
    requires Wrote(fs, k, b, first) && k < |fs| && fs[k] == AlertBlock(v)
    ensures err == None ==> Wrote(fs, k + 1, b', first')
    ensures err != None ==> Encode(fs) == Err(err.value)
  {
    b', first', err := b, first, None;
    match v {
      case NoAlert => Skip(fs, k, b, first);
      case AlertText(t) => b', first' := WriteQuoted(fs, k, b, first, KeyAlert, t);
      case AlertDict(a) =>
        var t := MarshalAlert(a);
        b', first' := WriteText(fs, k, b, first, KeyAlert, t);
      case AlertOfOtherType =>
        Fail(fs, k, b, first);
        err := Some(InvalidType);
    }
  }

  /** The badge block: an int through strconv.AppendInt, any other type ErrInvalidType. */
  method WriteBadge(ghost fs: seq<Field>, ghost k: nat, b: Bytes, first: bool, v: BadgeValue)
    returns (b': Bytes, first': bool, err: Option<EncodeError>)
    requires Wrote(fs, k, b, first) && k < |fs| && fs[k] == BadgeBlock(v)
    ensures err == None ==> Wrote(fs, k + 1, b', first')
    ensures err != None ==> Encode(fs) == Err(err.value)
  {
    b', first', err := b, first, None;
    match v {
      case NoBadge => Skip(fs, k, b, first);
      case BadgeCount(n) => b', first' := WriteText(fs, k, b, first, KeyBadge, FormatInt(n));
      case BadgeOfOtherType =>
        Fail(fs, k, b, first);
        err := Some(InvalidType);
    }
  }

  /** The sound block: the sound dictionary's own encoding, the quoted string, or
      ErrInvalidType. */
  method WriteSound(ghost fs: seq<Field>, ghost k: nat, b: Bytes, first: bool, v: SoundValue, ff: FloatFormat)
    returns (b': Bytes, first': bool, err: Option<EncodeError>)
    requires Wrote(fs, k, b, first) && k < |fs| && fs[k] == SoundBlock(v, ff)
    ensures err == None ==> Wrote(fs, k + 1, b', first')
    ensures err != None ==> Encode(fs) == Err(err.value)
  {
    b', first', err := b, first, None;
    match v {
      case NoSound => Skip(fs, k, b, first);
      case SoundName(t) => b', first' := WriteQuoted(fs, k, b, first, KeySound, t);
      case SoundDict(s) =>
        var t := MarshalSound(s, ff);
        b', first' := WriteText(fs, k, b, first, KeySound, t);
      case SoundOfOtherType =>
        Fail(fs, k, b, first);
        err := Some(InvalidType);
    }
  }

  /** The content-available and mutable-content blocks. */
  method WriteFlag(ghost fs: seq<Field>, ghost k: nat, b: Bytes, first: bool, key: Bytes, v: FlagValue)
    returns (b': Bytes, first': bool)
    requires Wrote(fs, k, b, first) && k < |fs| && fs[k] == FlagBlock(key, v)
    ensures Wrote(fs, k + 1, b', first')
  {
    if !v.NoFlag? {
      b', first' := WriteText(fs, k, b, first, key, "1");
    } else {
      b', first' := b, first;
      Skip(fs, k, b, first);
    }
  }

  /** The relevance-score block: a float64 through strconv.AppendFloat, any other type
      (an int included) ErrInvalidType. */
  method WriteScore(ghost fs: seq<Field>, ghost k: nat, b: Bytes, first: bool, v: ScoreValue, ff: FloatFormat)
    returns (b': Bytes, first': bool, err: Option<EncodeError>)
    requires Wrote(fs, k, b, first) && k < |fs| && fs[k] == ScoreBlock(v, ff)
    ensures err == None ==> Wrote(fs, k + 1, b', first')
    ensures err != None ==> Encode(fs) == Err(err.value)
  {
    b', first', err := b, first, None;
    match v {
      case NoScore => Skip(fs, k, b, first);
      case ScoreFloat(x) => b', first' := WriteText(fs, k, b, first, KeyRelevanceScore, ff(x));
      case _ =>
        Fail(fs, k, b, first);
        err := Some(InvalidType);
    }
  }

  /** The stale-date and timestamp blocks. */
  method WriteDate(ghost fs: seq<Field>, ghost k: nat, b: Bytes, first: bool, key: Bytes, d: Option<Int64>)
    returns (b': Bytes, first': bool)
    requires Wrote(fs, k, b, first) && k < |fs| && fs[k] == DateBlock(key, d)
    ensures Wrote(fs, k + 1, b', first')
  {
    if d.Some? {
      b', first' := WriteText(fs, k, b, first, key, FormatInt(d.value));
    } else {
      b', first' := b, first;
      Skip(fs, k, b, first);
    }
  }

  /** The blocks alert to relevance-score (the first nine), from the opening brace. */
  method WriteFirstBlocks(ghost fs: seq<Field>, aps: Aps, ff: FloatFormat)
    returns (b: Bytes, first: bool, err: Option<EncodeError>)
    requires fs == ApsFields(aps, ff)
    ensures err == None ==> Wrote(fs, 9, b, first)
    ensures err != None ==> Encode(fs) == Err(err.value)
  {
    b, first := ['{'], true;
    FirstFieldsAt(aps, ff, fs);
    b, first, err := WriteAlert(fs, 0, b, first, aps.alert);
    if err.Some? {
      return;
    }
    b, first, err := WriteBadge(fs, 1, b, first, aps.badge);
    if err.Some? {
      return;
    }
    b, first, err := WriteSound(fs, 2, b, first, aps.sound, ff);
    if err.Some? {
      return;
    }
    b, first := WriteFlag(fs, 3, b, first, KeyContentAvailable, aps.contentAvailable);
    b, first := WriteFlag(fs, 4, b, first, KeyMutableContent, aps.mutableContent);
    b, first := WriteString(fs, 5, b, first, KeyCategory, aps.category);
    b, first := WriteString(fs, 6, b, first, KeyThreadId, aps.threadId);
    b, first := WriteString(fs, 7, b, first, KeyInterruptionLevel, aps.interruptionLevel);
    b, first, err := WriteScore(fs, 8, b, first, aps.relevanceScore, ff);
  }

  /** The blocks stale-date to attributes (the last nine). */
  method WriteLastBlocks(ghost fs: seq<Field>, aps: Aps, ff: FloatFormat, b: Bytes, first: bool)
    returns (b': Bytes, first': bool, err: Option<EncodeError>)
    requires fs == ApsFields(aps, ff) && Wrote(fs, 9, b, first)
    ensures err == None ==> Wrote(fs, 18, b', first')
    ensures err != None ==> Encode(fs) == Err(err.value)
  {
    b', first', err := b, first, None;
    DateFieldsAt(aps, ff, fs);
    StringFieldsAt(aps, ff, fs);
    MapFieldsAt(aps, ff, fs);
    b', first' := WriteDate(fs, 9, b', first', KeyStaleDate, aps.staleDate);
    b', first' := WriteString(fs, 10, b', first', KeyFilterCriteria, aps.filterCriteria);
    b', first' := WriteDate(fs, 11, b', first', KeyTimestamp, aps.timestamp);
    b', first' := WriteString(fs, 12, b', first', KeyTargetContentId, aps.targetContentId);
    if |aps.contentState| > 0 {
      b', first', err := WriteLiveActivity(fs, 13, b', first', KeyContentState, aps.contentState, ff);
      if err.Some? {
        return;
      }
    } else {
      Skip(fs, 13, b', first');
    }
    b', first' := WriteString(fs, 14, b', first', KeyEvent, aps.event);
    if aps.dismissalDate != 0 {
      b', first' := WriteText(fs, 15, b', first', KeyDismissalDate, FormatInt(aps.dismissalDate));
    } else {
      Skip(fs, 15, b', first');
    }
    b', first' := WriteString(fs, 16, b', first', KeyAttributesType, aps.attributesType);
    if |aps.attributes| > 0 {
      b', first', err := WriteLiveActivity(fs, 17, b', first', KeyAttributes, aps.attributes, ff);
    } else {
      Skip(fs, 17, b', first');
    }
  }

  /** APS.MarshalJSONFast: `{`, the eighteen blocks in order, `}`; the first block that
      fails ends it with that block's error. */
  method MarshalAps(aps: Aps, ff: FloatFormat) returns (r: Result<Bytes, EncodeError>)
    ensures r == ApsJson(aps, ff)
  {
    ghost var fs := ApsFields(aps, ff);
    var b, first, err := WriteFirstBlocks(fs, aps, ff);
    if err.Some? {
      return Err(err.value);
    }
    b, first, err := WriteLastBlocks(fs, aps, ff, b, first);
    if err.Some? {
      return Err(err.value);
    }
    Finish(fs, b, first);
    r := Ok(b + ['}']);
  }

  // ---------------------------------------------------------------------------
  // Properties

  lemma ApsFieldKeys(aps: Aps, ff: FloatFormat)
    ensures FieldKeys(ApsFields(aps, ff)) == ApsKeys
  {
    var fs := ApsFields(aps, ff);
    forall i | 0 <= i < |fs|
      ensures fs[i].key == ApsKeys[i]
    {
      assert fs[i] == ApsField(aps, ff, i);
    }
  }

  /** The keys appear in the fixed order, each at most once. */
  lemma ApsKeysInOrder(aps: Aps, ff: FloatFormat)
    ensures IsSubsequence(MemberKeys(Members(ApsFields(aps, ff))), ApsKeys)
    ensures Distinct(MemberKeys(Members(ApsFields(aps, ff))))
  {
    ApsFieldKeys(aps, ff);
    ApsKeysDistinct();
    KeysInFieldOrder(ApsFields(aps, ff));
    NoRepeatedKey(ApsFields(aps, ff));
  }

  /** The runtime types the encoder handles: a Live Activity map value must be encodable
      by EncodeValue, and an int relevance score is not accepted. */
  ghost predicate EncodableAps(aps: Aps) {
    && !aps.alert.AlertOfOtherType?
    && !aps.badge.BadgeOfOtherType?
    && !aps.sound.SoundOfOtherType?
    && (aps.relevanceScore.NoScore? || aps.relevanceScore.ScoreFloat?)
    && (forall i :: 0 <= i < |aps.contentState| ==> Encodable(aps.contentState[i].1))
    && (forall i :: 0 <= i < |aps.attributes| ==> Encodable(aps.attributes[i].1))
  }

  /** A map block is invalid exactly when some value in the map does not encode. */
  lemma MapFieldInvalidIff(key: Bytes, m: seq<(Bytes, Value)>, ff: FloatFormat)
    ensures MapField(key, m, ff).Invalid? <==> exists i :: 0 <= i < |m| && !Encodable(m[i].1)
  {
    EntriesOkIff(Object(m), m, JsonQuote, ff);
  }

  /** The first nine blocks fail only on a runtime type the encoder does not handle. */
  lemma FirstFieldsOkIff(aps: Aps, ff: FloatFormat)
    ensures (forall k :: 0 <= k < 9 ==> !ApsFields(aps, ff)[k].Invalid?)
            <==> && !aps.alert.AlertOfOtherType? && !aps.badge.BadgeOfOtherType?
                 && !aps.sound.SoundOfOtherType?
                 && (aps.relevanceScore.NoScore? || aps.relevanceScore.ScoreFloat?)
  {
    var fs := ApsFields(aps, ff);
    FirstFieldsAt(aps, ff, fs);
    assert (forall k :: 0 <= k < 9 ==> !fs[k].Invalid?)
        <==> !fs[0].Invalid? && !fs[1].Invalid? && !fs[2].Invalid? && !fs[8].Invalid?;
  }

  /** The integer and string blocks among the last nine are never invalid. */
  lemma PlainFieldsValid(aps: Aps, ff: FloatFormat)
    ensures forall k :: 9 <= k < 18 && k != 13 && k != 17 ==> !ApsFields(aps, ff)[k].Invalid?
  {
    var fs := ApsFields(aps, ff);
    DateFieldsAt(aps, ff, fs);
    StringFieldsAt(aps, ff, fs);
  }

  /** The last nine fail only on a Live Activity map value that does not encode. */
  lemma LastFieldsOkIff(aps: Aps, ff: FloatFormat)
    ensures (forall k :: 9 <= k < 18 ==> !ApsFields(aps, ff)[k].Invalid?)
            <==> && (forall i :: 0 <= i < |aps.contentState| ==> Encodable(aps.contentState[i].1))
                 && (forall i :: 0 <= i < |aps.attributes| ==> Encodable(aps.attributes[i].1))
  {
    var fs := ApsFields(aps, ff);
    PlainFieldsValid(aps, ff);
    MapFieldsAt(aps, ff, fs);
    MapFieldInvalidIff(KeyContentState, aps.contentState, ff);
    MapFieldInvalidIff(KeyAttributes, aps.attributes, ff);
    assert (forall k :: 9 <= k < 18 ==> !fs[k].Invalid?) <==> !fs[13].Invalid? && !fs[17].Invalid?;
  }

  /** The encoder succeeds exactly on the runtime types it handles. */
  lemma ApsJsonOkIff(aps: Aps, ff: FloatFormat)
    ensures ApsJson(aps, ff).Ok? <==> EncodableAps(aps)
  {
    var fs := ApsFields(aps, ff);
    FirstErrorNoneIff(fs);
    FirstFieldsOkIff(aps, ff);
    LastFieldsOkIff(aps, ff);
    assert (forall k :: 0 <= k < |fs| ==> !fs[k].Invalid?)
        <==> (forall k :: 0 <= k < 9 ==> !fs[k].Invalid?) && (forall k :: 9 <= k < 18 ==> !fs[k].Invalid?);
  }

  /** The only errors are ErrInvalidType and the error of a failing json.Marshaler
      somewhere inside a Live Activity map. */
  lemma ApsJsonErrors(aps: Aps, ff: FloatFormat)
    requires ApsJson(aps, ff).Err?
    ensures ApsJson(aps, ff).error == InvalidType
            || (exists i :: 0 <= i < |aps.contentState| && ErrorIn(aps.contentState[i].1, ApsJson(aps, ff).error))
            || (exists i :: 0 <= i < |aps.attributes| && ErrorIn(aps.attributes[i].1, ApsJson(aps, ff).error))
  {
    var fs := ApsFields(aps, ff);
    var e := ApsJson(aps, ff).error;
    FirstErrorFrom(fs);
    var k :| 0 <= k < |fs| && fs[k] == Invalid(fs[k].key, e);
    if k == 13 || k == 17 {
      MapFieldsAt(aps, ff, fs);
      if k == 13 {
        EntriesErrorInside(Object(aps.contentState), aps.contentState, JsonQuote, ff);
      } else {
        EntriesErrorInside(Object(aps.attributes), aps.attributes, JsonQuote, ff);
      }
    } else {
      assert fs[k] == ApsField(aps, ff, k);
      TypeErrorOnly(aps, ff, k);
    }
  }

  /** Every block but the two Live Activity maps fails only with ErrInvalidType. */
  lemma TypeErrorOnly(aps: Aps, ff: FloatFormat, k: nat)
    requires k < 18 && k != 13 && k != 17 && ApsField(aps, ff, k).Invalid?
    ensures ApsField(aps, ff, k).error == InvalidType
  {
  }

  /** APS.Validate accepts an int relevance score, but the encoder rejects it: a valid
      dictionary with an int score cannot be encoded. */
  lemma ValidIntScoreRejected(aps: Aps, ff: FloatFormat)
    requires ValidateAps(aps) == None && aps.relevanceScore.ScoreInt?
    ensures ApsJson(aps, ff) == Err(InvalidType)
  {
    ValidateApsIff(aps);
    var fs := ApsFields(aps, ff);
    FirstFieldsAt(aps, ff, fs);
    assert !fs[0].Invalid? && !fs[1].Invalid? && !fs[2].Invalid?;
    assert !fs[3].Invalid? && !fs[4].Invalid?;
    assert !fs[5].Invalid? && !fs[6].Invalid? && !fs[7].Invalid?;
    FirstErrorIs(fs, 8);
  }

  /** Such a dictionary exists: a Live Activity update with an int score. */
  lemma IntScoreExample(ff: FloatFormat)
    ensures var aps := Aps(NoAlert, NoBadge, NoSound, NoFlag, NoFlag, [], [], [], ScoreInt(1), None, [],
                           None, [], [("count", Int(1))], "update", 0, [], []);
            ValidateAps(aps) == None && ApsJson(aps, ff) == Err(InvalidType)
  {
    var aps := Aps(NoAlert, NoBadge, NoSound, NoFlag, NoFlag, [], [], [], ScoreInt(1), None, [],
                   None, [], [("count", Int(1))], "update", 0, [], []);
    assert IsLiveActivity(aps);
    assert Checks(aps) == [None, None, None, None, None, None, None, None];
    ValidIntScoreRejected(aps, ff);
  }

  /** The dictionary with every field at its zero value. */
  const ZeroAps := Aps(NoAlert, NoBadge, NoSound, NoFlag, NoFlag, [], [], [], NoScore, None, [],
                       None, [], [], [], 0, [], [])

  lemma FirstFieldsOmittedIff(aps: Aps, ff: FloatFormat)
    ensures (forall k :: 0 <= k < 9 ==> ApsFields(aps, ff)[k].Omitted?)
            <==> && aps.alert == NoAlert && aps.badge == NoBadge && aps.sound == NoSound
                 && aps.contentAvailable == NoFlag && aps.mutableContent == NoFlag
                 && aps.category == [] && aps.threadId == [] && aps.interruptionLevel == []
                 && aps.relevanceScore == NoScore
  {
    var fs := ApsFields(aps, ff);
    FirstFieldsAt(aps, ff, fs);
    assert (forall k :: 0 <= k < 9 ==> fs[k].Omitted?)
        <==> fs[0].Omitted? && fs[1].Omitted? && fs[2].Omitted? && fs[3].Omitted? && fs[4].Omitted?
             && fs[5].Omitted? && fs[6].Omitted? && fs[7].Omitted? && fs[8].Omitted?;
  }

  lemma LastFieldsOmittedIff(aps: Aps, ff: FloatFormat)
    ensures (forall k :: 9 <= k < 18 ==> ApsFields(aps, ff)[k].Omitted?)
            <==> && aps.staleDate == None && aps.filterCriteria == [] && aps.timestamp == None
                 && aps.targetContentId == [] && aps.contentState == [] && aps.event == []
                 && aps.dismissalDate == 0 && aps.attributesType == [] && aps.attributes == []
  {
    var fs := ApsFields(aps, ff);
    DateFieldsAt(aps, ff, fs);
    StringFieldsAt(aps, ff, fs);
    MapFieldsAt(aps, ff, fs);
    assert (forall k :: 9 <= k < 18 ==> fs[k].Omitted?)
        <==> fs[9].Omitted? && fs[10].Omitted? && fs[11].Omitted? && fs[12].Omitted? && fs[13].Omitted?
             && fs[14].Omitted? && fs[15].Omitted? && fs[16].Omitted? && fs[17].Omitted?;
  }

  /** The encoder writes `{}` exactly for the dictionary whose fields are all zero: a
      set field is never silently dropped. */
  lemma ZeroApsJson(aps: Aps, ff: FloatFormat)
    ensures ApsJson(aps, ff) == Ok("{}") <==> aps == ZeroAps
  {
    var fs := ApsFields(aps, ff);
    EncodeEmptyIff(fs);
    FirstFieldsOmittedIff(aps, ff);
    LastFieldsOmittedIff(aps, ff);
    assert (forall k :: 0 <= k < |fs| ==> fs[k].Omitted?)
        <==> (forall k :: 0 <= k < 9 ==> fs[k].Omitted?) && (forall k :: 9 <= k < 18 ==> fs[k].Omitted?);
  }

  /** alert and sound: a string is written quoted even when empty (the field is set),
      a dictionary as its own JSON object. */
  lemma NestedMembers(aps: Aps, ff: FloatFormat, t: Bytes)
    ensures Member(KeyAlert, t) in Members(ApsFields(aps, ff))
            <==> match aps.alert
                 case AlertText(s) => t == JsonQuote(s)
                 case AlertDict(a) => t == AlertJson(a)
                 case _ => false
    ensures Member(KeySound, t) in Members(ApsFields(aps, ff))
            <==> match aps.sound
                 case SoundName(s) => t == JsonQuote(s)
                 case SoundDict(d) => t == SoundJson(d, ff)
                 case _ => false
  {
    var fs := ApsFields(aps, ff);
    ApsFieldKeys(aps, ff);
    ApsKeysDistinct();
    FirstFieldsAt(aps, ff, fs);
    MemberOfField(fs, 0, t);
    MemberOfField(fs, 2, t);
  }

  /** badge, content-available and mutable-content: the badge count is written as an
      integer; either flag, when set, is written as the constant 1, whatever it holds. */
  lemma NumberMembers(aps: Aps, ff: FloatFormat, t: Bytes)
    ensures Member(KeyBadge, t) in Members(ApsFields(aps, ff))
            <==> aps.badge.BadgeCount? && t == FormatInt(aps.badge.count)
    ensures Member(KeyContentAvailable, t) in Members(ApsFields(aps, ff))
            <==> !aps.contentAvailable.NoFlag? && t == "1"
    ensures Member(KeyMutableContent, t) in Members(ApsFields(aps, ff))
            <==> !aps.mutableContent.NoFlag? && t == "1"
    ensures Member(KeyRelevanceScore, t) in Members(ApsFields(aps, ff))
            <==> aps.relevanceScore.ScoreFloat? && t == ff(aps.relevanceScore.x)
  {
    var fs := ApsFields(aps, ff);
    ApsFieldKeys(aps, ff);
    ApsKeysDistinct();
    FirstFieldsAt(aps, ff, fs);
    MemberOfField(fs, 1, t);
    MemberOfField(fs, 3, t);
    MemberOfField(fs, 4, t);
    MemberOfField(fs, 8, t);
  }

  /** stale-date, timestamp and dismissal-date: written as decimal integers, stale-date and
      timestamp whenever set (zero included), dismissal-date only when not zero. */
  lemma DateMembers(aps: Aps, ff: FloatFormat, t: Bytes)
    ensures Member(KeyStaleDate, t) in Members(ApsFields(aps, ff))
            <==> aps.staleDate.Some? && t == FormatInt(aps.staleDate.value)
    ensures Member(KeyTimestamp, t) in Members(ApsFields(aps, ff))
            <==> aps.timestamp.Some? && t == FormatInt(aps.timestamp.value)
    ensures Member(KeyDismissalDate, t) in Members(ApsFields(aps, ff))
            <==> aps.dismissalDate != 0 && t == FormatInt(aps.dismissalDate)
  {
    var fs := ApsFields(aps, ff);
    ApsFieldKeys(aps, ff);
    ApsKeysDistinct();
    DateFieldsAt(aps, ff, fs);
    MemberOfField(fs, 9, t);
    MemberOfField(fs, 11, t);
    MemberOfField(fs, 15, t);
  }

  /** The string blocks: written JSON-quoted when not empty. */
  lemma StringMembers(aps: Aps, ff: FloatFormat, t: Bytes)
    ensures Member(KeyCategory, t) in Members(ApsFields(aps, ff))
            <==> aps.category != [] && t == JsonQuote(aps.category)
    ensures Member(KeyThreadId, t) in Members(ApsFields(aps, ff))
            <==> aps.threadId != [] && t == JsonQuote(aps.threadId)
    ensures Member(KeyInterruptionLevel, t) in Members(ApsFields(aps, ff))
            <==> aps.interruptionLevel != [] && t == JsonQuote(aps.interruptionLevel)
    ensures Member(KeyEvent, t) in Members(ApsFields(aps, ff))
            <==> aps.event != [] && t == JsonQuote(aps.event)
  {
    var fs := ApsFields(aps, ff);
    ApsFieldKeys(aps, ff);
    ApsKeysDistinct();
    FirstFieldsAt(aps, ff, fs);
    StringFieldsAt(aps, ff, fs);
    MemberOfField(fs, 5, t);
    MemberOfField(fs, 6, t);
    MemberOfField(fs, 7, t);
    MemberOfField(fs, 14, t);
  }

  /** The Live Activity maps: written when not empty, as `{`, the members, `}`. */
  lemma MapMembers(aps: Aps, ff: FloatFormat, t: Bytes)
    ensures Member(KeyContentState, t) in Members(ApsFields(aps, ff))
            <==> aps.contentState != [] && LiveActivityText(aps.contentState, ff) == Ok(t)
    ensures Member(KeyAttributes, t) in Members(ApsFields(aps, ff))
            <==> aps.attributes != [] && LiveActivityText(aps.attributes, ff) == Ok(t)
  {
    var fs := ApsFields(aps, ff);
    ApsFieldKeys(aps, ff);
    ApsKeysDistinct();
    MapFieldsAt(aps, ff, fs);
    MemberOfField(fs, 13, t);
    MemberOfField(fs, 17, t);
  }

  /** The dates read back as the integers they encode. */
  lemma DatesReadBack(aps: Aps, ff: FloatFormat, t: Bytes)
    ensures Member(KeyStaleDate, t) in Members(ApsFields(aps, ff)) ==> aps.staleDate.Some? && ParseInt(t) == Some(aps.staleDate.value as int)
    ensures Member(KeyTimestamp, t) in Members(ApsFields(aps, ff)) ==> aps.timestamp.Some? && ParseInt(t) == Some(aps.timestamp.value as int)
    ensures Member(KeyDismissalDate, t) in Members(ApsFields(aps, ff)) ==> ParseInt(t) == Some(aps.dismissalDate as int)
  {
    DateMembers(aps, ff, t);
    if aps.staleDate.Some? {
      FormatIntRoundTrip(aps.staleDate.value);
    }
    if aps.timestamp.Some? {
      FormatIntRoundTrip(aps.timestamp.value);
    }
    FormatIntRoundTrip(aps.dismissalDate);
  }
}
