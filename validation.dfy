/** The Validate methods of Ratio, Sound and APS. Go's `error` result is an
    Option: None for nil. Each validator is paired with a declarative statement of
    what a valid value is, and the lemmas show that the validator accepts exactly
    those values and which error it reports first. */
module Validation {
  import opened Base
  import opened Payload

  // ---------------------------------------------------------------------------
  // Ratio

  predicate InUnitRange(r: real) {
    0.0 <= r <= 1.0
  }

  /** Ratio.Validate: a ratio must lie in [0.0, 1.0]. */
  function ValidateRatio(r: real): (e: Option<ValidationError>)
    ensures e == None <==> InUnitRange(r)
    ensures e != None ==> e == Some(RatioOutOfRange(r))
  {
    if r < 0.0 || r > 1.0 then Some(RatioOutOfRange(r)) else None
  }

  // ---------------------------------------------------------------------------
  // Sound

  /** Sound.Validate: the critical flag is checked first, then the volume, whose
      error is wrapped as a volume field error. */
  function ValidateSound(s: Sound): Option<ValidationError> {
    if s.critical != 0 && s.critical != 1 then Some(InvalidCriticalFlag(s.critical))
    else
      match ValidateRatio(s.volume)
      case Some(e) => Some(VolumeFieldError(e))
      case None => None
  }

  ghost predicate SoundIsValid(s: Sound) {
    (s.critical == 0 || s.critical == 1) && InUnitRange(s.volume)
  }

  /** A sound passes exactly when its flag is 0 or 1 and its volume is a ratio. */
  lemma SoundValidIff(s: Sound)
    ensures ValidateSound(s) == None <==> SoundIsValid(s)
  {
  }

  /** The errors a sound can fail with: a bad flag (reported even when the volume is
      also out of range), else the volume's range error wrapped once. */
  lemma SoundErrors(s: Sound)
    ensures s.critical != 0 && s.critical != 1 ==> ValidateSound(s) == Some(InvalidCriticalFlag(s.critical))
    ensures (s.critical == 0 || s.critical == 1) && !InUnitRange(s.volume)
            ==> ValidateSound(s) == Some(VolumeFieldError(RatioOutOfRange(s.volume)))
  {
  }

  /** The sound's name plays no part in validation. */
  lemma SoundNameIrrelevant(s: Sound, name: Bytes)
    ensures ValidateSound(s.(name := name)) == ValidateSound(s)
  {
  }

  // ---------------------------------------------------------------------------
  // APS

  /** A regular notification sets at least one of alert, badge, sound, content-available
      and mutable-content. */
  predicate IsNotification(aps: Aps) {
    !aps.alert.NoAlert? || !aps.badge.NoBadge? || !aps.sound.NoSound?
    || !aps.contentAvailable.NoFlag? || !aps.mutableContent.NoFlag?
  }

  /** A Live Activity update carries a non-empty content-state or attributes map. */
  predicate IsLiveActivity(aps: Aps) {
    |aps.contentState| > 0 || |aps.attributes| > 0
  }

  /** The relevance score as a number, when it has a numeric type. */
  function ScoreNumber(v: ScoreValue): Option<real> {
    match v
    case ScoreFloat(x) => Some(x)
    case ScoreInt(n) => Some(n as real)
    case _ => None
  }

  function CheckAlert(v: AlertValue): Option<ValidationError> {
    if v.AlertOfOtherType? then Some(InvalidAlertType) else None
  }

  function CheckBadge(v: BadgeValue): Option<ValidationError> {
    if v.BadgeOfOtherType? then Some(InvalidBadgeType) else None
  }

  /** A sound dictionary's own error is returned unchanged. */
  function CheckSound(v: SoundValue): Option<ValidationError> {
    match v
    case SoundDict(s) => ValidateSound(s)
    case SoundOfOtherType => Some(InvalidSoundType)
    case _ => None
  }

  function CheckFlag(v: FlagValue, err: ValidationError): Option<ValidationError> {
    if v.NoFlag? || v == FlagInt(1) then None else Some(err)
  }

  function CheckLevel(level: Bytes): Option<ValidationError> {
    if level == [] || level in InterruptionLevels then None else Some(InvalidInterruptionLevel(level))
  }

  function CheckEvent(event: Bytes): Option<ValidationError> {
    if event == [] || event in Events then None else Some(InvalidEvent(event))
  }

  /** The score must be numeric; outside a Live Activity it must also lie in [0.0, 1.0]. */
  function CheckScore(v: ScoreValue, liveActivity: bool): Option<ValidationError> {
    if v.NoScore? then None
    else
      match ScoreNumber(v)
      case None => Some(InvalidRelevanceScoreType)
      case Some(x) =>
        if !liveActivity && (x < 0.0 || x > 1.0) then Some(RelevanceScoreOutOfRange(x)) else None
  }

  /** The checks after the emptiness test, in the order APS.Validate runs them. */
  function Checks(aps: Aps): seq<Option<ValidationError>> {
    [ CheckAlert(aps.alert),
      CheckBadge(aps.badge),
      CheckSound(aps.sound),
      CheckFlag(aps.contentAvailable, InvalidContentAvailable),
      CheckFlag(aps.mutableContent, InvalidMutableContent),
      CheckLevel(aps.interruptionLevel),
      CheckEvent(aps.event),
      CheckScore(aps.relevanceScore, IsLiveActivity(aps)) ]
  }

  function FirstFailure(cs: seq<Option<ValidationError>>): Option<ValidationError> {
    if cs == [] then None else if cs[0].Some? then cs[0] else FirstFailure(cs[1..])
  }

  /** APS.Validate: an empty dictionary fails first, then the first failing check. */
  function ValidateAps(aps: Aps): Option<ValidationError> {
    if !IsNotification(aps) && !IsLiveActivity(aps) then Some(EmptyAps)
    else FirstFailure(Checks(aps))
  }

  /** What a valid `aps` dictionary is, field by field. */
  ghost predicate ApsIsValid(aps: Aps) {
    && (IsNotification(aps) || IsLiveActivity(aps))
    && !aps.alert.AlertOfOtherType?
    && !aps.badge.BadgeOfOtherType?
    && (match aps.sound
        case SoundDict(s) => SoundIsValid(s)
        case SoundOfOtherType => false
        case _ => true)
    && (aps.contentAvailable.NoFlag? || aps.contentAvailable == FlagInt(1))
    && (aps.mutableContent.NoFlag? || aps.mutableContent == FlagInt(1))
    && (aps.interruptionLevel == [] || aps.interruptionLevel in InterruptionLevels)
    && (aps.event == [] || aps.event in Events)
    && (aps.relevanceScore.NoScore?
        || (ScoreNumber(aps.relevanceScore).Some?
            && (IsLiveActivity(aps) || InUnitRange(ScoreNumber(aps.relevanceScore).value))))
  }

  lemma {:induction false} FirstFailureNone(cs: seq<Option<ValidationError>>)
    ensures FirstFailure(cs) == None <==> forall i :: 0 <= i < |cs| ==> cs[i] == None
  {
    if cs != [] {
      FirstFailureNone(cs[1..]);
      assert forall i :: 1 <= i < |cs| ==> cs[i] == cs[1..][i - 1];
    }
  }

  lemma {:induction false} FirstFailureAt(cs: seq<Option<ValidationError>>, k: nat)
    requires k < |cs| && cs[k].Some?
    requires forall i :: 0 <= i < k ==> cs[i] == None
    ensures FirstFailure(cs) == cs[k]
  {
    if k > 0 {
      FirstFailureAt(cs[1..], k - 1);
    }
  }

  /** APS.Validate accepts exactly the valid dictionaries. */
  lemma ValidateApsIff(aps: Aps)
    ensures ValidateAps(aps) == None <==> ApsIsValid(aps)
  {
    var cs := Checks(aps);
    FirstFailureNone(cs);
    if aps.sound.SoundDict? {
      SoundValidIff(aps.sound.sound);
    }
    assert cs[2] == None <==> !aps.sound.SoundOfOtherType? && (aps.sound.SoundDict? ==> SoundIsValid(aps.sound.sound));
    assert (forall i :: 0 <= i < |cs| ==> cs[i] == None)
        <==> cs[0] == cs[1] == cs[2] == cs[3] == cs[4] == cs[5] == cs[6] == cs[7] == None;
  }

  /** The emptiness test comes before every other check. */
  lemma EmptyApsFirst(aps: Aps)
    requires !IsNotification(aps) && !IsLiveActivity(aps)
    ensures ValidateAps(aps) == Some(EmptyAps)
  {
  }

  /** An invalid sound dictionary makes the APS fail with the sound's own error,
      unwrapped, once alert and badge have passed. */
  lemma SoundErrorPassesThrough(aps: Aps, s: Sound)
    requires aps.sound == SoundDict(s) && ValidateSound(s).Some?
    requires !aps.alert.AlertOfOtherType? && !aps.badge.BadgeOfOtherType?
    ensures ValidateAps(aps) == ValidateSound(s)
  {
    FirstFailureAt(Checks(aps), 2);
  }

  /** Live Activities lift the score's range limit, and an int score is accepted as a number. */
  lemma LiveActivityScore(aps: Aps)
    requires ApsIsValid(aps.(relevanceScore := NoScore)) && IsLiveActivity(aps)
    requires aps.relevanceScore.ScoreFloat? || aps.relevanceScore.ScoreInt?
    ensures ValidateAps(aps) == None
  {
    ValidateApsIff(aps);
  }

  /** A regular notification with a score outside [0.0, 1.0] is rejected, whatever else it holds. */
  lemma ScoreOutOfRange(aps: Aps)
    requires !IsLiveActivity(aps) && ScoreNumber(aps.relevanceScore).Some?
    requires !InUnitRange(ScoreNumber(aps.relevanceScore).value)
    ensures ValidateAps(aps).Some?
  {
    ValidateApsIff(aps);
  }
}
