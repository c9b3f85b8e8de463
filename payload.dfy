/** The values of the `payload` package: the `alert` and `sound` dictionaries,
    the `aps` dictionary, and the dynamic values stored in its Live Activity maps
    and in a payload's custom data.

    Go's `any` fields hold values of several runtime types; each becomes a closed
    datatype with one variant per type the code distinguishes and one for every
    other type. Go maps become lists of (key, value) pairs in iteration order;
    Go does not fix that order, so every property below holds for whichever
    order the list gives. */
module Payload {
  import opened Base

  /** The `alert` dictionary (Alert in payload/alert.go). */
  datatype Alert = Alert(
    title: Bytes,
    subtitle: Bytes,
    body: Bytes,
    launchImage: Bytes,
    actionLocKey: Bytes,
    locKey: Bytes,
    locArgs: seq<Bytes>,
    titleLocKey: Bytes,
    titleLocArgs: seq<Bytes>,
    subtitleLocKey: Bytes,
    subtitleLocArgs: seq<Bytes>)

  /** The `sound` dictionary; `critical` is sound.AlertFlag (a Go int),
      `volume` a Ratio (a float64). */
  datatype Sound = Sound(name: Bytes, critical: Int64, volume: real)

  /** A dynamic value in a `map[string]any`, by runtime type. */
  datatype Value =
    | Null                                    // nil
    | Str(s: Bytes)                           // string, []byte
    | Int(i: Int64)                           // int, int64, EpochTime, non-nil *EpochTime
    | Float(x: real)                          // float64
    | Bool(b: bool)
    | StrList(ss: seq<Bytes>)                 // []string
    | IntList(ns: seq<Int64>)                 // []int, []int64
    | FloatList(xs: seq<real>)                // []float64
    | Marshaler(output: Result<Bytes, Bytes>) // a json.Marshaler and what its MarshalJSON returns
    | Object(entries: seq<(Bytes, Value)>)    // map[string]any
    | List(items: seq<Value>)                 // []any
    | Unsupported                             // any other type

  /** APS.Alert: a string, an Alert or *Alert, or some other type. */
  datatype AlertValue = NoAlert | AlertText(text: Bytes) | AlertDict(alert: Alert) | AlertOfOtherType

  /** APS.Badge: an int, or some other type. */
  datatype BadgeValue = NoBadge | BadgeCount(count: Int64) | BadgeOfOtherType

  /** APS.Sound: a string, a Sound or *Sound, or some other type. */
  datatype SoundValue = NoSound | SoundName(name: Bytes) | SoundDict(sound: Sound) | SoundOfOtherType

  /** APS.ContentAvailable and APS.MutableContent: an int, or some other type. */
  datatype FlagValue = NoFlag | FlagInt(n: Int64) | FlagOfOtherType

  /** APS.RelevanceScore: a float64, an int, or some other type. */
  datatype ScoreValue = NoScore | ScoreFloat(x: real) | ScoreInt(n: Int64) | ScoreOfOtherType

  /** The `aps` dictionary (APS in payload/aps.go). A nil pointer is None, an empty
      string or map is empty. */
  datatype Aps = Aps(
    alert: AlertValue,
    badge: BadgeValue,
    sound: SoundValue,
    contentAvailable: FlagValue,
    mutableContent: FlagValue,
    category: Bytes,
    threadId: Bytes,
    interruptionLevel: Bytes,
    relevanceScore: ScoreValue,
    staleDate: Option<Int64>,
    filterCriteria: Bytes,
    timestamp: Option<Int64>,
    targetContentId: Bytes,
    contentState: seq<(Bytes, Value)>,
    event: Bytes,
    dismissalDate: Int64,
    attributesType: Bytes,
    attributes: seq<(Bytes, Value)>)

  /** The errors the Validate methods return. */
  datatype ValidationError =
    | RatioOutOfRange(ratio: real)
    | InvalidCriticalFlag(flag: Int64)
    | VolumeFieldError(cause: ValidationError)   // wraps the volume's RatioOutOfRange
    | EmptyAps
    | InvalidAlertType
    | InvalidBadgeType
    | InvalidSoundType
    | InvalidContentAvailable
    | InvalidMutableContent
    | InvalidInterruptionLevel(level: Bytes)
    | InvalidEvent(event: Bytes)
    | InvalidRelevanceScoreType
    | RelevanceScoreOutOfRange(score: real)

  /** The errors the fast encoders return: ErrInvalidType, or a Marshaler's own error. */
  datatype EncodeError = InvalidType | MarshalerFailed(message: Bytes)

  /** The four interruption levels of payload/interruptionlevel. */
  const InterruptionLevels: seq<Bytes> := ["passive", "active", "time-sensitive", "critical"]

  /** The three Live Activity events. */
  const Events: seq<Bytes> := ["start", "update", "end"]
}
