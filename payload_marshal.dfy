/** Payload.MarshalJSONFast and marshalCustomData: the root object of a notification,
    `{"aps":` and the aps dictionary's text, then, when there is custom data, a comma
    and one `"key":value` member per custom entry, then `}`. Custom keys are quoted by
    KeyQuote (only `"` and `\` escaped) and custom values by EncodeValue. */
module PayloadMarshal {
  import opened Base
  import opened Quote
  import opened Payload
  import opened JsonObject
  import opened ValueEncoder
  import opened ApsMarshal

  /** The notification payload: the aps dictionary and the custom data, the latter in
      the order the map iteration visits it (any order). A Go map has no key twice;
      the lemmas that rely on it say so with DistinctKeys. */
  datatype NotificationPayload = NotificationPayload(aps: Aps, customData: seq<(Bytes, Value)>)

  const ApsPrefix: Bytes := "{\"aps\":"

  /** marshalCustomData's output: the custom members, comma separated, without braces. */
  function CustomDataText(data: seq<(Bytes, Value)>, ff: FloatFormat): Result<Bytes, EncodeError> {
    EntriesText(Object(data), data, KeyQuote, ff)
  }

  /** What Payload.MarshalJSONFast returns: the aps error first, then a custom value's. */
  function PayloadJson(p: NotificationPayload, ff: FloatFormat): Result<Bytes, EncodeError> {
    match ApsJson(p.aps, ff)
    case Err(e) => Err(e)
    case Ok(a) =>
      if p.customData == [] then Ok(ApsPrefix + a + "}")
      else
        match CustomDataText(p.customData, ff)
        case Err(e) => Err(e)
        case Ok(c) => Ok(ApsPrefix + a + "," + c + "}")
  }

  /** marshalCustomData: the loop over the map with its `first` flag, appending to b. */
  method MarshalCustomData(b: Bytes, data: seq<(Bytes, Value)>, ff: FloatFormat)
    returns (r: Result<Bytes, EncodeError>)
    ensures r == Appended(b, CustomDataText(data, ff))
  {
    var buf := b;
    var first := true;
    ghost var body: Bytes := [];
    MapStart(data, KeyQuote, ff);
    for i := 0 to |data|
      invariant first == (i == 0)
      invariant MapWrote(data, i, KeyQuote, ff, body)
      invariant buf == b + body
    {
      var (key, val) := data[i];
      if !first {
        buf := buf + [','];
      }
      first := false;
      buf := AppendKeyQuote(buf, key);
      buf := buf + [':'];
      var res := EncodeValue(buf, val, ff);
      if res.Err? {
        MapEntryErr(data, i, body, KeyQuote, ff);
        r := Err(res.error);
        return;
      }
      body := MapEntryOk(data, i, b, body, buf, res, KeyQuote, ff);
      buf := res.value;
    }
    MapWhole(data, KeyQuote, ff, body);
    r := Ok(buf);
  }

  /** Payload.MarshalJSONFast. The custom data goes into a fresh buffer of its own. */
  method MarshalPayload(p: NotificationPayload, ff: FloatFormat) returns (r: Result<Bytes, EncodeError>)
    ensures r == PayloadJson(p, ff)
  {
    var aps := MarshalAps(p.aps, ff);
    if aps.Err? {
      return Err(aps.error);
    }
    var custom: Bytes := [];
    if |p.customData| > 0 {
      var res := MarshalCustomData([], p.customData, ff);
      if res.Err? {
        return Err(res.error);
      }
      assert [] + CustomDataText(p.customData, ff).value == CustomDataText(p.customData, ff).value;
      custom := res.value;
    }
    var b: Bytes := ['{'];
    b := b + "\"aps\":";
    assert b == ApsPrefix;
    b := b + aps.value;
    if |p.customData| > 0 {
      b := b + [','];
      b := b + custom;
    }
    b := b + ['}'];
    r := Ok(b);
  }

  // ---------------------------------------------------------------------------
  // Properties

  /** The payload always opens with `{"aps":` and the aps text and closes with `}`;
      the custom members, if any, sit between them after one comma. */
  lemma PayloadFrame(p: NotificationPayload, ff: FloatFormat)
    requires PayloadJson(p, ff).Ok?
    ensures ApsJson(p.aps, ff).Ok?
    ensures var t, a := PayloadJson(p, ff).value, ApsJson(p.aps, ff).value;
            && |t| >= |ApsPrefix| + |a| + 1
            && t[..|ApsPrefix| + |a|] == ApsPrefix + a
            && t[|t| - 1] == '}'
            && (p.customData == [] <==> |t| == |ApsPrefix| + |a| + 1)
            && (p.customData != [] ==> t[|ApsPrefix| + |a|] == ','
                                       && CustomDataText(p.customData, ff) == Ok(t[|ApsPrefix| + |a| + 1..|t| - 1]))
  {
    var a := ApsJson(p.aps, ff).value;
    if p.customData != [] {
      var c := CustomDataText(p.customData, ff).value;
      var t := PayloadJson(p, ff).value;
      assert t == (ApsPrefix + a) + ([',' ] + c + ['}']);
      assert t[|ApsPrefix| + |a| + 1..|t| - 1] == c;
      assert |c| > 0 by {
        EntriesSnocNonEmpty(p.customData, ff);
      }
    }
  }

  /** A non-empty map has a non-empty member list: at least `"key":`. */
  lemma EntriesSnocNonEmpty(data: seq<(Bytes, Value)>, ff: FloatFormat)
    requires data != [] && CustomDataText(data, ff).Ok?
    ensures |CustomDataText(data, ff).value| > 0
  {
    var n := |data|;
    assert |KeyQuote(data[n - 1].0)| >= 2;
  }

  /** Without custom data the payload is exactly `{"aps":` + the aps text + `}`; for the
      zero dictionary that is `{"aps":{}}`. */
  lemma NoCustomData(aps: Aps, ff: FloatFormat)
    ensures ApsJson(aps, ff).Ok?
            ==> PayloadJson(NotificationPayload(aps, []), ff) == Ok(ApsPrefix + ApsJson(aps, ff).value + "}")
    ensures PayloadJson(NotificationPayload(ZeroAps, []), ff) == Ok("{\"aps\":{}}")
  {
    ZeroApsJson(ZeroAps, ff);
    assert ApsPrefix + "{}" + "}" == "{\"aps\":{}}";
  }

  /** The payload encodes exactly when the aps dictionary does and every custom value does. */
  lemma PayloadJsonOkIff(p: NotificationPayload, ff: FloatFormat)
    ensures PayloadJson(p, ff).Ok?
            <==> EncodableAps(p.aps) && forall i :: 0 <= i < |p.customData| ==> Encodable(p.customData[i].1)
  {
    ApsJsonOkIff(p.aps, ff);
    EntriesOkIff(Object(p.customData), p.customData, KeyQuote, ff);
  }

  /** An aps error wins; otherwise the error comes from inside a custom value. */
  lemma PayloadJsonErrors(p: NotificationPayload, ff: FloatFormat)
    requires PayloadJson(p, ff).Err?
    ensures ApsJson(p.aps, ff).Err? ==> PayloadJson(p, ff) == ApsJson(p.aps, ff)
    ensures ApsJson(p.aps, ff).Ok?
            ==> exists i :: 0 <= i < |p.customData| && ErrorIn(p.customData[i].1, PayloadJson(p, ff).error)
  {
    if ApsJson(p.aps, ff).Ok? {
      EntriesErrorInside(Object(p.customData), p.customData, KeyQuote, ff);
    }
  }

  /** When everything encodes, the custom members are the entries, each `"key":value`
      with its key quoted by KeyQuote, in iteration order, separated by single commas. */
  lemma CustomMembers(data: seq<(Bytes, Value)>, ff: FloatFormat)
    requires forall i :: 0 <= i < |data| ==> ValueText(data[i].1, ff).Ok?
    ensures CustomDataText(data, ff) == Ok(CommaJoin(EntryTexts(data, KeyQuote, ff)))
  {
    EntriesJoin(Object(data), data, KeyQuote, ff);
  }

  /** A custom entry under the key "aps", wherever the map iteration puts it, is written
      after the real aps member: the payload opens with `"aps":` and holds `,"aps":` again
      at q, past the aps text, so the key "aps" appears twice. */
  lemma CustomApsKeyRepeats(p: NotificationPayload, ff: FloatFormat, i: nat) returns (q: nat)
    requires PayloadJson(p, ff).Ok? && i < |p.customData| && p.customData[i].0 == "aps"
    ensures ApsJson(p.aps, ff).Ok?
    ensures var t := PayloadJson(p, ff).value;
            && |t| > 7 && t[1..7] == "\"aps\":"
            && q >= |ApsPrefix| + |ApsJson(p.aps, ff).value|
            && |t| > q + 7 && t[q..q + 7] == ",\"aps\":"
  {
    var data := p.customData;
    var t, a, c := PayloadJson(p, ff).value, ApsJson(p.aps, ff).value, CustomDataText(data, ff).value;
    assert t == ApsPrefix + a + "," + c + "}";
    AllValuesEncode(p, ff);
    CustomMembers(data, ff);
    var ts := EntryTexts(data, KeyQuote, ff);
    var j := CommaJoinAt(ts, i);
    ApsKeyQuoted();
    assert ts[i][..6] == "\"aps\":";
    q := |ApsPrefix| + |a| + j;
    SecondApsKey(t, a, c, j, ts[i], q);
  }

  /** Every custom value of a payload that encodes encodes on its own. */
  lemma AllValuesEncode(p: NotificationPayload, ff: FloatFormat)
    requires PayloadJson(p, ff).Ok?
    ensures forall k :: 0 <= k < |p.customData| ==> ValueText(p.customData[k].1, ff).Ok?
  {
    PayloadJsonOkIff(p, ff);
    forall k | 0 <= k < |p.customData|
      ensures ValueText(p.customData[k].1, ff).Ok?
    {
      ValueOkIff(p.customData[k].1, ff);
    }
  }

  /** The payload text with members c, one of which starts with `"aps":` at j (0, or right
      after a comma): `"aps":` at 1, and a comma and `"aps":` again past the aps text. */
  lemma SecondApsKey(t: Bytes, a: Bytes, c: Bytes, j: nat, m: Bytes, q: nat)
    requires t == ApsPrefix + a + "," + c + "}" && q == |ApsPrefix| + |a| + j
    requires j + |m| <= |c| && c[j..j + |m|] == m && |m| >= 6 && m[..6] == "\"aps\":"
    requires j == 0 || c[j - 1] == ','
    ensures |t| > 7 && t[1..7] == "\"aps\":"
    ensures |t| > q + 7 && t[q..q + 7] == ",\"aps\":"
  {
    var n := |ApsPrefix| + |a|;
    var k: Bytes := ",\"aps\":";
    assert t[1..7] == ApsPrefix[1..7];
    assert t[n + 1..|t| - 1] == c;
    if j == 0 {
      assert t[q] == ',';
    } else {
      assert t[q] == c[j - 1];
    }
    forall r | 1 <= r < 7
      ensures t[q + r] == k[r]
    {
      assert t[q + r] == c[j + r - 1] == m[r - 1];
    }
    assert t[q..q + 7] == k;
  }

  /** The root object's keys: when the custom keys are distinct and none is "aps", the
      payload is `{`, the aps member and one `"key":value` member per custom entry, comma
      separated, and `}`, and no key is written twice. */
  lemma PayloadKeysDistinct(p: NotificationPayload, ff: FloatFormat)
    requires PayloadJson(p, ff).Ok? && DistinctKeys(p.customData)
    requires forall i :: 0 <= i < |p.customData| ==> p.customData[i].0 != "aps"
    ensures ApsJson(p.aps, ff).Ok?
    ensures forall i :: 0 <= i < |p.customData| ==> ValueText(p.customData[i].1, ff).Ok?
    ensures PayloadJson(p, ff)
            == Ok("{" + CommaJoin(["\"aps\":" + ApsJson(p.aps, ff).value] + EntryTexts(p.customData, KeyQuote, ff)) + "}")
    ensures Distinct(["\"aps\""] + QuotedKeys(p.customData, KeyQuote))
  {
    var data := p.customData;
    var a := ApsJson(p.aps, ff).value;
    AllValuesEncode(p, ff);
    CustomMembers(data, ff);
    var ts := EntryTexts(data, KeyQuote, ff);
    var head := "\"aps\":" + a;
    assert CommaJoin([head]) == head by {
      assert [head][..0] == [];
    }
    RootText(a, CommaJoin(ts));
    if data != [] {
      CommaJoinAppend([head], ts);
    } else {
      assert [head] + ts == [head];
    }
    CustomKeysApart(data);
  }

  /** Distinct custom keys, none of them "aps", are quoted apart from each other and
      from the aps key. */
  lemma CustomKeysApart(data: seq<(Bytes, Value)>)
    requires DistinctKeys(data) && forall i :: 0 <= i < |data| ==> data[i].0 != "aps"
    ensures Distinct(["\"aps\""] + QuotedKeys(data, KeyQuote))
  {
    KeyQuoteInjective();
    ApsKeyQuoted();
    var ks := QuotedKeys(data, KeyQuote);
    forall k | 0 <= k < |ks|
      ensures ks[k] != "\"aps\""
    {
      assert ks[k] == KeyQuote(data[k].0);
    }
    DistinctCons("\"aps\"", ks);
  }

  /** The payload text regrouped as `{`, the members, `}`. */
  lemma RootText(a: Bytes, c: Bytes)
    ensures ApsPrefix + a + "}" == "{" + ("\"aps\":" + a) + "}"
    ensures ApsPrefix + a + "," + c + "}" == "{" + ("\"aps\":" + a + "," + c) + "}"
  {
    assert ApsPrefix == "{" + "\"aps\":";
  }

  lemma ApsKeyQuoted()
    ensures KeyQuote("aps") == "\"aps\""
    ensures KeyQuote("aps") + ":" == "\"aps\":"
    ensures |"\"aps\":"| == 6 && [','] + "\"aps\":" == ",\"aps\":"
  {
    assert KeyEscaped("aps") == "aps" by {
      assert "aps"[1..] == "ps" && "ps"[1..] == "s" && "s"[1..] == [];
    }
  }
}
