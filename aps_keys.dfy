/** The eighteen keys of the `aps` dictionary, as APS.MarshalJSONFast writes them. */
module ApsKeyNames {
  import opened Base
  import opened JsonObject

  const KeyAlert: Bytes := "alert"
  const KeyBadge: Bytes := "badge"
  const KeySound: Bytes := "sound"
  const KeyContentAvailable: Bytes := "content-available"
  const KeyMutableContent: Bytes := "mutable-content"
  const KeyCategory: Bytes := "category"
  const KeyThreadId: Bytes := "thread-id"
  const KeyInterruptionLevel: Bytes := "interruption-level"
  const KeyRelevanceScore: Bytes := "relevance-score"
  const KeyStaleDate: Bytes := "stale-date"
  const KeyFilterCriteria: Bytes := "filter-criteria"
  const KeyTimestamp: Bytes := "timestamp"
  const KeyTargetContentId: Bytes := "target-content-id"
  const KeyContentState: Bytes := "content-state"
  const KeyEvent: Bytes := "event"
  const KeyDismissalDate: Bytes := "dismissal-date"
  const KeyAttributesType: Bytes := "attributes-type"
  const KeyAttributes: Bytes := "attributes"

  /** The keys, in the order the encoder writes them. */
  const ApsKeys: seq<Bytes> := [
    KeyAlert, KeyBadge, KeySound, KeyContentAvailable, KeyMutableContent, KeyCategory,
    KeyThreadId, KeyInterruptionLevel, KeyRelevanceScore, KeyStaleDate, KeyFilterCriteria,
    KeyTimestamp, KeyTargetContentId, KeyContentState, KeyEvent, KeyDismissalDate,
    KeyAttributesType, KeyAttributes]

  /** The keys in three groups of six, so that each step of the proof below is small. */
  function KeyGroup(g: nat): (ks: seq<Bytes>)
    requires g < 3
    ensures |ks| == 6
  {
    ApsKeys[6 * g..6 * g + 6]
  }

  lemma Group0Tags()
    ensures forall i :: 0 <= i < 6 ==> KeyTag(KeyGroup(0)[i]) == [352628, 352869, 357220, 1139557, 1011060, 549753][i]
  {
    var ks := KeyGroup(0);
    assert seq(6, i requires 0 <= i < 6 => KeyTag(ks[i])) == [352628, 352869, 357220, 1139557, 1011060, 549753];
  }

  lemma Group0Distinct()
    ensures Distinct(KeyGroup(0))
  {
    Group0Tags();
    TagsDistinct(KeyGroup(0));
  }

  lemma Group1Tags()
    ensures forall i :: 0 <= i < 6 ==> KeyTag(KeyGroup(1)[i]) == [619620, 1206636, 1012325, 684901, 1009249, 619632][i]
  {
    var ks := KeyGroup(1);
    assert seq(6, i requires 0 <= i < 6 => KeyTag(ks[i])) == [619620, 1206636, 1012325, 684901, 1009249, 619632];
  }

  lemma Group1Distinct()
    ensures Distinct(KeyGroup(1))
  {
    Group1Tags();
    TagsDistinct(KeyGroup(1));
  }

  lemma Group2Tags()
    ensures forall i :: 0 <= i < 6 ==> KeyTag(KeyGroup(2)[i]) == [1143908, 877413, 353652, 943205, 1007973, 680307][i]
  {
    var ks := KeyGroup(2);
    assert seq(6, i requires 0 <= i < 6 => KeyTag(ks[i])) == [1143908, 877413, 353652, 943205, 1007973, 680307];
  }

  lemma Group2Distinct()
    ensures Distinct(KeyGroup(2))
  {
    Group2Tags();
    TagsDistinct(KeyGroup(2));
  }

  lemma Groups01Apart()
    ensures Apart(KeyGroup(0), KeyGroup(1))
  {
    Group0Tags();
    Group1Tags();
  }

  lemma Groups02Apart()
    ensures Apart(KeyGroup(0), KeyGroup(2))
  {
    Group0Tags();
    Group2Tags();
  }

  lemma Groups12Apart()
    ensures Apart(KeyGroup(1), KeyGroup(2))
  {
    Group1Tags();
    Group2Tags();
  }

  lemma ApsKeysDistinct()
    ensures Distinct(ApsKeys)
  {
    Group0Distinct();
    Group1Distinct();
    Group2Distinct();
    Groups01Apart();
    Groups02Apart();
    Groups12Apart();
    DistinctConcat(KeyGroup(0), KeyGroup(1));
    ApartConcat(KeyGroup(0), KeyGroup(1), KeyGroup(2));
    DistinctConcat(KeyGroup(0) + KeyGroup(1), KeyGroup(2));
    assert ApsKeys == KeyGroup(0) + KeyGroup(1) + KeyGroup(2);
  }
}
