# A verified model of the takimoto3/apns client core

takimoto3/apns is a Go client for the Apple Push Notification service (APNs). This
project models its core in Dafny and proves properties of the model. The core has five parts:

- **Payload validation.** `APS.Validate`, `Sound.Validate` and `Ratio.Validate` check the
  aps dictionary and report the first problem in a fixed order.
- **The fast JSON encoders.**
  - `Alert.MarshalJSONFast`, `Sound.MarshalJSONFast`, `APS.MarshalJSONFast` and
    `Payload.MarshalJSONFast` write a JSON object one optional member at a time, with a
    `first` flag that decides the commas.
  - `EncodeValue` writes arbitrary custom data recursively.
  - `marshalCustomData` writes the custom members of the root object.
- **Header values.** The apns-priority text (`Priority.String`) and the apns-expiration
  text (`EpochTime.String`, `NewEpochTime`).
- **Client decisions.**
  - `newBody`: the 4096/5120-byte ceiling.
  - `newRequest`: the URL and headers.
  - `handleResponse`: which reply becomes which error.
  - `Error.Error` and `Error.TimeStamp`.
  - `Push`: the order of the checks and the single request.
  - `PushMulti`: the pre-checks, the first token sent on its own, and the fold of the
    later tokens' results into the successes and a `MultiError`.

## How the model is organised

- Bytes are `seq<Byte>`, one `char` below 256 per byte. Go's `int64` is the subset type `Int64`.
- A JSON object is a sequence of `Field`s, each `Omitted`, `Written(key, text)` or
  `Invalid(key, error)`. `JsonObject.Encode` is the reference definition of an object's text.
- Each Go encoder is a `method` that appends to a buffer the way the Go function does.
  It is proved equal to a function (`AlertJson`, `SoundJson`, `ApsJson`, `ValueText`,
  `PayloadJson`). The properties are lemmas about those functions:
  - which members appear and with which text;
  - key order and the absence of repeated keys;
  - when encoding fails, and with which error;
  - the quoting round trips.
- The client's collaborators are parameters gathered in `Client.Env`:
  - the payload encoder;
  - `Notification.Validate` and `Notification.Topic`;
  - `url.PathEscape`;
  - the HTTP round trip.

  Go maps are sequences of key/value pairs in iteration order, and every property is
  stated for every order. The order in which PushMulti's results channel delivers the
  goroutines' results is the parameter `order`.

Modules:

| module | models |
|---|---|
| Base, Payload | shared types: bytes, `Result`/`Option`, permutations (the results channel's delivery order), the aps, alert, sound and custom value types |
| Decimal | `strconv.FormatInt` base 10 and its inverse |
| Quote | the encoders' three string quoters |
| JsonObject | the optional-member object writer the encoders share |
| Validation | `payload/ratio.go`, `payload/sound.go`, `payload/aps.go` |
| ValueEncoder | `EncodeValue` |
| AlertMarshal, SoundMarshal, ApsKeyNames, ApsMarshal | the three dictionary encoders |
| PayloadMarshal | `payload_marshal.go` |
| PriorityHeader, Expiration | `notification/priority/priority.go`, `notification/expiration_time.go` |
| Client | `client.go` |

The three quoters in Quote are:

- `JsonQuote`: the encoders' own `appendQuote`, which escapes `"`, `\` and the control bytes.
- `KeyQuote`: `marshalCustomData`'s key quoter, which escapes only `"` and `\`.
- `GoQuote`: `strconv.AppendQuote`, restricted to single bytes.

## Model

| member | source | states |
|---|---|---|
| Validation.ValidateRatio | payload/ratio.go:12-17 | no error exactly when the ratio lies in [0, 1]; otherwise the out-of-range error carrying the value |
| Validation.ValidateSound | payload/sound.go:33-41 | no contract of its own; see SoundValidIff, SoundErrors and SoundNameIrrelevant |
| Validation.ValidateAps | payload/aps.go:91-200 | no contract of its own; see ValidateApsIff, EmptyApsFirst, SoundErrorPassesThrough, LiveActivityScore and ScoreOutOfRange |
| Validation.SoundValidIff | payload/sound.go:33-41 | Sound.Validate returns nil exactly when critical is 0 or 1 and the volume lies in [0, 1] |
| Validation.SoundErrors | payload/sound.go:34-39 | a bad critical flag is reported before a bad volume; each error carries the offending value |
| Validation.SoundNameIrrelevant | payload/sound.go:33-41 | the sound's name never affects validation |
| Validation.FirstFailureNone | payload/aps.go:103-200 | the sequence of checks passes exactly when every check passes |
| Validation.FirstFailureAt | payload/aps.go:103-200 | the error returned is the first failing check's |
| Validation.ValidateApsIff | payload/aps.go:91-200 | APS.Validate returns nil exactly when the dictionary is non-empty, and each present value has an allowed type or value: alert, badge, sound, content-available and mutable-content both the integer 1, interruption level, event, and a relevance score in range unless it is a live activity |
| Validation.EmptyApsFirst | payload/aps.go:92-106 | a dictionary with neither notification nor live-activity content gets the empty-dictionary error, whatever else is wrong |
| Validation.SoundErrorPassesThrough | payload/aps.go:126-137 | a Sound's own validation error is returned unchanged when the checks before it pass |
| Validation.LiveActivityScore | payload/aps.go:182-198 | for a live activity any numeric relevance score passes, whatever its range |
| Validation.ScoreOutOfRange | payload/aps.go:193-195 | for a standard notification a score outside [0, 1] always makes validation fail |
| Decimal.NatText | notification/expiration_time.go:29-31 | the decimal text of a natural number is non-empty digits without a leading zero |
| Decimal.FormatInt | notification/expiration_time.go:29-31 | the text starts with '-' exactly for negative numbers; otherwise it is digits without a leading zero |
| Decimal.NatTextValue | notification/expiration_time.go:29-31 | the digits read back as the number |
| Decimal.FormatIntRoundTrip | notification/expiration_time.go:29-31 | parsing FormatInt's text gives back the integer |
| Decimal.FormatIntInjective | notification/expiration_time.go:29-31 | distinct integers have distinct texts |
| PriorityHeader.PriorityText | notification/priority/priority.go:21-28 | the text is non-empty exactly for the defined priorities 1, 5 and 10 |
| PriorityHeader.PriorityReadsBack | notification/priority/priority.go:21-28 | a non-empty priority text parses back as the priority |
| PriorityHeader.PriorityTexts | notification/priority/priority.go:8-28 | PowerOnly, Conserve and Immediate are "1", "5" and "10"; any other value, None included, is "" |
| Expiration.EpochText | notification/expiration_time.go:29-31 | the text parses back as the epoch second |
| Expiration.NewEpochTime | notification/expiration_time.go:19-26 | always a value; the zero time gives 0; any other time gives its Unix second |
| Expiration.ExpirationOnceIsZero | notification/expiration_time.go:12 | ExpirationOnce is epoch 0, written "0", although the zero time's own Unix second is not 0 |
| Expiration.EpochTextInjective | notification/expiration_time.go:29-31 | distinct epoch times have distinct texts |
| Quote.HexDigit | payload/alert_marshal.go:11-45 | the hex digit written for a nibble is lower-case and reads back as the nibble |
| Quote.JsonQuote | payload/alert_marshal.go:34-50 | no contract of its own; see AppendQuote, JsonQuoteRoundTrip, JsonQuoteInjective and JsonEscapedIsJson |
| Quote.KeyQuote | payload_marshal.go:70-81 | no contract of its own; see AppendKeyQuote, KeyQuoteRoundTrip, KeyQuoteInjective and KeyQuoteIsJsonIff |
| Quote.GoQuote | payload/aps_marshal.go:265 | no contract of its own; see GoQuoteRoundTrip, GoQuoteInjective and GoQuoteAgreesWithJsonQuote |
| Quote.AppendQuote | payload/alert_marshal.go:34-50 | the byte loop appends exactly JsonQuote of the value to the buffer |
| Quote.AppendKeyQuote | payload_marshal.go:70-81 | the byte loop appends exactly KeyQuote of the key |
| Quote.JsonEscapedSnoc | payload/alert_marshal.go:36-47 | escaping works byte by byte: appending a byte appends its escape |
| Quote.JsonEscapeDecodes | payload/alert_marshal.go:38-46 | each byte's escape decodes back to that byte |
| Quote.JsonUnescapedRoundTrip | payload/alert_marshal.go:34-50 | unescaping the escaped text gives back the original bytes |
| Quote.JsonQuoteRoundTrip | payload/sound_marshal.go:16-32 | unquoting the quoted text gives back the original bytes |
| Quote.KeyUnescapedRoundTrip | payload_marshal.go:70-81 | unescaping a key-escaped text gives back the key |
| Quote.KeyQuoteRoundTrip | payload_marshal.go:70-81 | unquoting a quoted custom key gives back the key |
| Quote.JsonEscapedInjective | payload/aps_marshal.go:42-58 | distinct strings are quoted differently |
| Quote.KeyEscapedInjective | payload_marshal.go:70-81 | distinct keys are quoted differently |
| Quote.JsonQuoteInjective | payload/aps_marshal.go:42-58 | the encoders' quoter never writes two strings the same way |
| Quote.KeyQuoteInjective | payload_marshal.go:70-81 | the custom-key quoter never writes two keys the same way |
| Quote.GoEscapeDecodes | payload/aps_marshal.go:265 | each byte's strconv.AppendQuote escape decodes back to that byte |
| Quote.GoUnescapedRoundTrip | payload/aps_marshal.go:265 | decoding the escaped body gives back the original bytes |
| Quote.GoQuoteRoundTrip | payload/aps_marshal.go:265 | unquoting what strconv.AppendQuote wrote gives back the original bytes |
| Quote.GoQuoteInjective | payload/aps_marshal.go:265 | strconv.AppendQuote never writes two strings the same way |
| Quote.JsonEscapedIsJson | payload/aps_marshal.go:42-58 | the escaped text is always a valid JSON string body |
| Quote.JsonBodyHasNoControl | payload/aps_marshal.go:42-58 | a valid JSON string body holds no raw control byte |
| Quote.KeyEscapedIsJson | payload_marshal.go:70-81 | a key without control bytes is quoted as a valid JSON string |
| Quote.KeyEscapedKeepsControl | payload_marshal.go:74-78 | a control byte in a custom key reaches the output raw |
| Quote.KeyQuoteIsJsonIff | payload_marshal.go:70-81 | a quoted custom key is valid JSON exactly when the key has no control byte |
| Quote.KeyQuoteAgreesWithJsonQuote | payload_marshal.go:70-81 | the key quoter and the encoders' quoter agree exactly on strings without control bytes |
| Quote.GoQuoteAgreesWithJsonQuote | payload/aps_marshal.go:265 | on ASCII without control bytes or DEL, strconv.AppendQuote writes the same text as the encoders' quoter |
| Quote.GoEscapedAgrees | payload/aps_marshal.go:265 | the same agreement, stated on the escaped bodies |
| Quote.GoQuoteOfBellIsNotJson | payload/aps_marshal.go:265 | strconv.AppendQuote writes the bell byte as `\a`, which is not a JSON escape |
| JsonObject.TagsDistinct | payload/aps_marshal.go:67-254 | helper for the key-distinctness lemmas: keys whose length and first and last bytes all differ are distinct |
| JsonObject.ApartConcat | payload/aps_marshal.go:67-254 | helper for the key-distinctness lemmas: key groups that are apart from a third stay apart from it when joined |
| JsonObject.DistinctConcat | payload/aps_marshal.go:67-254 | helper for the key-distinctness lemmas: two distinct key groups that are apart join into a distinct sequence |
| JsonObject.AddComma | payload/alert_marshal.go:51-56 | a comma is written before every member but the first, and the flag is cleared |
| JsonObject.AppendKey | payload/alert_marshal.go:57-60 | the key is written quoted and followed by a colon |
| JsonObject.CommaJoinSnoc | payload/alert_marshal.go:63-74 | helper for the join lemmas: adding an item adds one comma, unless it is the first item |
| JsonObject.ProgressIsJoin | payload/aps_marshal.go:59-65 | after any prefix of the fields, the buffer is `{` plus the written members joined by commas, and `first` holds exactly while nothing has been written |
| JsonObject.FirstErrorNoneIff | payload/aps_marshal.go:67-254 | an object encodes exactly when none of its fields is invalid |
| JsonObject.FirstErrorIs | payload/aps_marshal.go:67-254 | the error returned is the first invalid field's |
| JsonObject.FirstErrorFrom | payload/aps_marshal.go:67-254 | a reported error always comes from one of the fields |
| JsonObject.Advance | payload/aps_marshal.go:59-254 | one block of the writer keeps the buffer equal to the reference text so far, or returns the object's error |
| JsonObject.Finish | payload/aps_marshal.go:256-257 | the closing brace completes the reference text |
| JsonObject.AppendQuotedList | payload/alert_marshal.go:63-74 | a string slice is written as `[` plus the quoted items joined by commas plus `]` |
| JsonObject.CommaJoinAppend | payload/alert_marshal.go:63-74 | joining two non-empty lists is joining each, with one comma between |
| JsonObject.CommaJoinAt | payload_marshal.go:84-91 | each item of a comma-joined list sits in the joined text, at the start for the first and right after a comma for every other |
| JsonObject.MembersAppend | payload/aps_marshal.go:67-254 | the members of concatenated field lists are concatenated |
| JsonObject.MemberIffWritten | payload/aps_marshal.go:67-254 | a member appears exactly when its field is written with that text |
| JsonObject.MembersEmptyIff | payload/aps_marshal.go:67-254 | no member is written exactly when no field is |
| JsonObject.MemberOfField | payload/aps_marshal.go:67-254 | with distinct keys, a field's key appears with a text exactly when that field is written with it |
| JsonObject.EmptyObject | payload/aps_marshal.go:256 | the object text is `{}` exactly when there are no members |
| JsonObject.EncodeEmptyIff | payload/aps_marshal.go:67-256 | an object encodes to `{}` exactly when every field is omitted |
| JsonObject.KeysInFieldOrder | payload/aps_marshal.go:67-254 | the written keys appear in the fixed field order |
| JsonObject.SubsequenceDistinct | payload/aps_marshal.go:67-254 | helper for NoRepeatedKey: keys taken in order from distinct keys are distinct |
| JsonObject.NoRepeatedKey | payload/aps_marshal.go:67-254 | with distinct field keys, no key is written twice |
| ValueEncoder.ValueOkIff | payload/aps_marshal.go:262-363 | EncodeValue succeeds exactly when the value is null, a scalar or a supported slice, a map or `[]any` of such values, or a json.Marshaler that succeeds |
| ValueEncoder.ValueText | payload/aps_marshal.go:262-363 | no contract of its own; see ValueOkIff, ScalarValues, ErrorComesFromInside, ObjectKeysDistinct and EncodeValue |
| ValueEncoder.EntriesOkIff | payload/aps_marshal.go:328-345 | a map encodes exactly when every value does |
| ValueEncoder.ItemsOkIff | payload/aps_marshal.go:346-358 | an `[]any` encodes exactly when every item does |
| ValueEncoder.ScalarValues | payload/aps_marshal.go:264-327 | nil is `null` and booleans are `true`/`false`; an int parses back; a string without control bytes or DEL unquotes back; a Marshaler's output is spliced in unchanged or its error returned; any other type gives ErrInvalidType |
| ValueEncoder.ErrorComesFromInside | payload/aps_marshal.go:262-363 | a failure comes from an unsupported type or a failing Marshaler somewhere inside the value |
| ValueEncoder.EntriesErrorInside | payload/aps_marshal.go:339-343 | a map's error comes from inside one of its values |
| ValueEncoder.ItemsErrorInside | payload/aps_marshal.go:352-356 | a slice's error comes from inside one of its items |
| ValueEncoder.EntriesJoin | payload/aps_marshal.go:328-345 | a map whose values all encode is its `"key":value` entries joined by commas |
| ValueEncoder.EntriesStartWith | payload/aps_marshal.go:331-338 | a non-empty map's text starts with its first key, quoted, and a colon |
| ValueEncoder.EntriesKeysDistinct | payload/aps_marshal.go:328-345 | a map whose values all encode is its `key:value` entries joined by commas, and with an injective quoting a map without repeated keys writes no key twice |
| ValueEncoder.ObjectKeysDistinct | payload/aps_marshal.go:328-345 | a nested `map[string]any` that encodes is `{`, its entries with strconv.AppendQuote keys, `}`; its keys are written once each and each reads back as the map key |
| ValueEncoder.MapWhole | payload/aps_marshal.go:328-345 | the map loop's buffer, once every entry is written, is the map's text |
| ValueEncoder.MapEntryErr | payload/aps_marshal.go:339-343 | an entry's error is the map's error |
| ValueEncoder.ListWhole | payload/aps_marshal.go:346-358 | the slice loop's buffer, once every item is written, is the slice's text |
| ValueEncoder.ListItemErr | payload/aps_marshal.go:352-356 | an item's error is the slice's error |
| ValueEncoder.AppendArray | payload/aps_marshal.go:289-321 | a typed slice is appended as `[` plus its item texts joined by commas plus `]` |
| ValueEncoder.EncodeValue | payload/aps_marshal.go:262-363 | the recursive encoder appends exactly the value's text, or returns its error |
| ValueEncoder.EncodeMap | payload/aps_marshal.go:328-345 | the map case appends exactly the map's text, or returns the first failing value's error |
| ValueEncoder.EncodeList | payload/aps_marshal.go:346-358 | the `[]any` case appends exactly the slice's text, or returns the first failing item's error |
| AlertMarshal.MarshalAlert | payload/alert_marshal.go:24-127 | the writer returns exactly the reference object text of the alert's fields |
| AlertMarshal.AlertJson | payload/alert_marshal.go:24-127 | no contract of its own; see MarshalAlert, AlertMembers, AlertKeysInOrder and EmptyAlertJson |
| AlertMarshal.AlertKeysDistinct | payload/alert_marshal.go:77-123 | the eleven alert keys are distinct |
| AlertMarshal.AlertFieldKeys | payload/alert_marshal.go:77-123 | the fields are the eleven keys, in the source's order |
| AlertMarshal.AlertKeysInOrder | payload/alert_marshal.go:77-123 | the written keys keep that order and none repeats |
| AlertMarshal.AlertMembers | payload/alert_marshal.go:77-123 | each key appears exactly when its string is non-empty or its slice has items, with the quoted string or the quoted array as its text |
| AlertMarshal.EmptyAlertJson | payload/alert_marshal.go:76-124 | the alert is `{}` exactly when every field is empty |
| SoundMarshal.MarshalSound | payload/sound_marshal.go:11-64 | the writer returns exactly the reference object text of the sound's fields |
| SoundMarshal.SoundJson | payload/sound_marshal.go:11-64 | no contract of its own; see MarshalSound, SoundMembers, SoundKeysInOrder and EmptySoundJson |
| SoundMarshal.SoundFieldKeys | payload/sound_marshal.go:40-59 | the fields are critical, name, volume, in that order |
| SoundMarshal.SoundKeysDistinct | payload/sound_marshal.go:40-59 | the three keys are distinct |
| SoundMarshal.SoundKeysInOrder | payload/sound_marshal.go:40-59 | the written keys keep that order and none repeats |
| SoundMarshal.SoundMembers | payload/sound_marshal.go:40-59 | critical appears when non-zero as its integer; name when non-empty, quoted; volume when non-zero, as formatted |
| SoundMarshal.CriticalReadsBack | payload/sound_marshal.go:41-45 | the critical member's text parses back as the flag |
| SoundMarshal.EmptySoundJson | payload/sound_marshal.go:13-61 | the sound is `{}` exactly when critical and volume are zero and the name is empty |
| ApsKeyNames.ApsKeysDistinct | payload/aps_marshal.go:67-254 | the eighteen aps keys are distinct |
| ApsMarshal.AppendLiveActivity | payload/aps_marshal.go:191-211 | the content-state loop appends `{`, the entries and `}`, or returns the first failing value's error |
| ApsMarshal.WriteLiveActivity | payload/aps_marshal.go:191-254 | a content-state or attributes block keeps the buffer equal to the reference text, or returns the dictionary's error |
| ApsMarshal.LiveActivityClosed | payload/aps_marshal.go:209-210 | the closing brace completes a live-activity map |
| ApsMarshal.LiveActivityKeysDistinct | payload/aps_marshal.go:191-211 | a content-state or attributes map that encodes is `{`, its entries with quoted keys, `}`; its keys are written once each and each reads back as the map key |
| ApsMarshal.WriteFirstBlocks | payload/aps_marshal.go:67-158 | the alert to relevance-score blocks write the reference text of the first nine fields, or return the dictionary's error |
| ApsMarshal.WriteLastBlocks | payload/aps_marshal.go:160-254 | the stale-date to attributes blocks write the reference text of the last nine fields, or return the dictionary's error |
| ApsMarshal.MarshalAps | payload/aps_marshal.go:31-258 | APS.MarshalJSONFast returns exactly the reference object text of the eighteen fields, or its first error |
| ApsMarshal.ApsJson | payload/aps_marshal.go:31-258 | no contract of its own; see MarshalAps, ApsJsonOkIff, ApsJsonErrors, ApsKeysInOrder and the *Members lemmas |
| ApsMarshal.ApsFieldKeys | payload/aps_marshal.go:67-254 | the fields are the eighteen aps keys in the source's order |
| ApsMarshal.ApsKeysInOrder | payload/aps_marshal.go:67-254 | the written keys keep that order and none repeats |
| ApsMarshal.MapFieldInvalidIff | payload/aps_marshal.go:191-254 | a live-activity map fails exactly when one of its values cannot be encoded |
| ApsMarshal.FirstFieldsOkIff | payload/aps_marshal.go:67-158 | the first nine blocks succeed exactly when alert, badge and sound have supported types and the relevance score is absent or a float64 |
| ApsMarshal.PlainFieldsValid | payload/aps_marshal.go:160-232 | the date and string blocks never fail |
| ApsMarshal.LastFieldsOkIff | payload/aps_marshal.go:160-254 | the last nine blocks succeed exactly when every content-state and attributes value encodes |
| ApsMarshal.ApsJsonOkIff | payload/aps_marshal.go:31-258 | the aps dictionary encodes exactly when every field has a supported type and every live-activity value encodes |
| ApsMarshal.ApsJsonErrors | payload/aps_marshal.go:67-254 | an aps encoding error is ErrInvalidType or comes from inside a content-state or attributes value |
| ApsMarshal.ValidIntScoreRejected | payload/aps_marshal.go:148-158 | a dictionary that passes Validate with an int relevance score still fails to encode |
| ApsMarshal.IntScoreExample | payload/aps.go:186-187 | a concrete live activity with relevance score int 1 validates but does not encode |
| ApsMarshal.FirstFieldsOmittedIff | payload/aps_marshal.go:67-158 | the first nine blocks write nothing exactly when their fields are all unset |
| ApsMarshal.LastFieldsOmittedIff | payload/aps_marshal.go:160-254 | the last nine blocks write nothing exactly when their fields are all unset |
| ApsMarshal.ZeroApsJson | payload/aps_marshal.go:31-258 | the dictionary encodes to `{}` exactly when it is the zero APS |
| ApsMarshal.NestedMembers | payload/aps_marshal.go:67-113 | alert and sound appear exactly when set to a string (quoted) or a dictionary (its own encoding) |
| ApsMarshal.NumberMembers | payload/aps_marshal.go:85-158 | badge appears as its integer; content-available and mutable-content as `1` whenever set; relevance-score only for a float64 |
| ApsMarshal.DateMembers | payload/aps_marshal.go:160-225 | stale-date and timestamp appear when set, dismissal-date when non-zero, each as its integer |
| ApsMarshal.StringMembers | payload/aps_marshal.go:127-218 | category, thread-id, interruption-level and event appear when non-empty, quoted |
| ApsMarshal.MapMembers | payload/aps_marshal.go:191-254 | content-state and attributes appear when non-empty, as their encoded maps |
| ApsMarshal.DatesReadBack | payload/aps_marshal.go:160-225 | every date member's text parses back as the field's value |
| PayloadMarshal.MarshalCustomData | payload_marshal.go:62-94 | the loop appends the custom members joined by commas, or returns the first failing value's error |
| PayloadMarshal.MarshalPayload | payload_marshal.go:21-60 | Payload.MarshalJSONFast returns the reference payload text, or the aps error first and then a custom value's |
| PayloadMarshal.PayloadJson | payload_marshal.go:21-60 | no contract of its own; see MarshalPayload, PayloadFrame, PayloadJsonOkIff, PayloadJsonErrors and PayloadKeysDistinct |
| PayloadMarshal.PayloadFrame | payload_marshal.go:46-57 | the payload is `{"aps":`, the aps text, then a comma and the custom members only when there is custom data, then `}` |
| PayloadMarshal.EntriesSnocNonEmpty | payload_marshal.go:84-91 | non-empty custom data writes a non-empty member list |
| PayloadMarshal.NoCustomData | payload_marshal.go:46-57 | without custom data the payload is `{"aps":` + aps + `}`; for the zero APS, `{"aps":{}}` |
| PayloadMarshal.PayloadJsonOkIff | payload_marshal.go:21-60 | the payload encodes exactly when the aps dictionary and every custom value do |
| PayloadMarshal.PayloadJsonErrors | payload_marshal.go:21-42 | an aps error wins; otherwise the error comes from inside a custom value |
| PayloadMarshal.CustomMembers | payload_marshal.go:84-91 | the custom members are the entries' `"key":value` texts, joined by commas |
| PayloadMarshal.CustomApsKeyRepeats | payload_marshal.go:29-57 | a custom entry with the key "aps", at any position of the map iteration, makes the payload hold `"aps":` at its start and `,"aps":` again past the aps text |
| PayloadMarshal.AllValuesEncode | payload_marshal.go:21-60 | in a payload that encodes, every custom value encodes on its own |
| PayloadMarshal.SecondApsKey | payload_marshal.go:46-57 | helper for CustomApsKeyRepeats: a member starting with `"aps":` inside the custom members is preceded by a comma in the payload text |
| PayloadMarshal.PayloadKeysDistinct | payload_marshal.go:21-94 | with distinct custom keys none of which is "aps", the payload is `{`, the aps member and the custom `"key":value` members joined by commas, `}`, and no key is written twice |
| PayloadMarshal.CustomKeysApart | payload_marshal.go:70-81 | distinct custom keys, none of them "aps", are quoted apart from each other and from the aps key |
| PayloadMarshal.RootText | payload_marshal.go:46-57 | helper for PayloadKeysDistinct: the payload text regrouped as `{`, the members, `}` |
| PayloadMarshal.ApsKeyQuoted | payload_marshal.go:70-81 | helper for the payload key lemmas: the key "aps" is quoted unchanged, as `"aps"` |
| Client.ErrorText | client.go:61-66 | an APNs error's text always starts with the status and reason |
| Client.TimeStamp | client.go:68-74 | nil exactly for a zero timestamp, and otherwise the timestamp |
| Client.ErrorTextTimestamp | client.go:61-74 | the text has a timestamp part exactly when TimeStamp is non-nil, and that part parses back as the timestamp |
| Client.ErrorTextInjective | client.go:61-66 | errors with the same status and reason have equal texts only when they are equal |
| Client.NewBodyLimit | client.go:228-252 | a body is accepted exactly when it encodes and is at most 5120 bytes (voip) or 4096 (others), limit included; the accepted body is unchanged; otherwise the marshal error or the too-large error with the size |
| Client.NewBody | client.go:228-252 | no contract of its own; see NewBodyLimit and FastBody |
| Client.FastBody | client.go:231-251 | with the fast encoder an accepted body is the payload's JSON text, within the limit, starting `{"aps":` and ending `}` |
| Client.RequestFor | client.go:254-262 | the path is host + `/3/device/` + the escaped token; the body is unchanged; the push-type and topic headers are always set |
| Client.NewRequest | client.go:254-277 | the header updates build exactly the request RequestFor describes |
| Client.RequestHeaders | client.go:261-276 | no header outside the six names is set; apns-id, apns-expiration, apns-priority and apns-collapse-id are present exactly when their fields are set, with their values |
| Client.RequestHeaderValues | client.go:267-272 | apns-expiration parses back as the epoch second; a defined priority parses back; an undefined non-zero priority is sent as an empty header |
| Client.HandleResponse | client.go:180-226 | no contract of its own; see HandleResponseClasses and ServerErrorIff |
| Client.HandleResponseClasses | client.go:180-226 | the Response always carries apns-id, plus apns-unique-id only in development; the error is nil exactly for a readable 200 reply; the error for an unreadable, empty, unparsable and reasonless reply respectively |
| Client.ServerErrorIff | client.go:213-222 | a structured Error is returned exactly for a readable, parsable non-200 reply with a reason, and it carries the status, reason and timestamp |
| Client.Push | client.go:147-171 | no contract of its own; see PushCheckOrder and PushSendsOnce |
| Client.PushCheckOrder | client.go:147-157 | Push fails before sending, checking in order: Validate, then location push type without a token connection, then the body |
| Client.PushSendsOnce | client.go:147-171 | at most one request is sent, exactly when every check passes, carrying the encoded payload within the limit; a response exactly when the round trip succeeds; a nil error only for a delivered reply |
| Client.SendOne | client.go:342-365 | a later token's result is tagged with that token |
| Client.Sent | client.go:340-367 | one result per later token, in token order: what the goroutines compute |
| Client.Results | client.go:337-369 | whatever the delivery order, the channel delivers every goroutine's result exactly once: the delivered results are a permutation of the sent ones, and each is the result for the token at its position in the order |
| Base.PermutedMultiset | client.go:367-370 | helper for Client.Results: reading a sequence in the order of a permutation keeps its multiset |
| Base.DropLast | client.go:367-370 | helper for PermutedMultiset: removing the last index from a permutation leaves a permutation of the rest |
| Client.PushMulti | client.go:288-384 | returns exactly PushMultiResult; the notification gets the first token written into it unless the token list is rejected first |
| Client.PushMultiResult | client.go:288-384 | no contract of its own; see PushMultiPreChecks, PushMultiFirstToken, PushMultiAfterFirst and PushMultiAggregation |
| Client.DrainResults | client.go:370-378 | the results loop appends the tagged successes and collects the failures by token, as Aggregate does |
| Client.Aggregate | client.go:370-378 | no contract of its own; see DrainResults, AggregateCounts, AggregateSuccesses, AggregateSuccessesComplete and AggregateFailures |
| Client.AggregateCounts | client.go:370-378 | every result is counted once, as a success or as a failure |
| Client.AggregateSuccesses | client.go:373-377 | each success is a result without an error, tagged with its token |
| Client.AggregateSuccessesComplete | client.go:373-377 | every result without an error appears among the successes, tagged with its token |
| Client.AggregateFailures | client.go:371-372 | the failed tokens are exactly the tokens with an error result, each mapped to an error of that token |
| Client.PushMultiPreChecks | client.go:289-294 | an empty token list, and more tokens than the limit, are rejected before anything is validated or sent |
| Client.PushMultiFirstToken | client.go:297-327 | if the first push fails before a reply, only the error is returned; if its reply is an error, only that response and error; on success its response comes first, tagged with the first token |
| Client.ResultsFailures | client.go:340-372 | whatever the delivery order, a token has a failed result exactly when sending to it failed |
| Client.PushMultiAfterFirst | client.go:326-383 | after a successful first token the later tokens are sent with the first token's body and their results folded into the answer |
| Client.PushMultiAggregation | client.go:326-383 | after a successful first token the error is nil exactly when every later token succeeds; otherwise a MultiError whose keys are exactly the failed later tokens; the responses after the first are exactly the tagged results of the later tokens that succeeded, one per success |
| Client.LaterSuccesses | client.go:337-378 | the successes aggregated from the later tokens' results are tagged results of later tokens that succeeded, and every later token that succeeded has its tagged result among them |
| Client.DeliveredFrom | client.go:337-368 | each drained result is the result of some later token (helper) |
| Client.DeliveredAt | client.go:337-368 | each later token's result is drained at some position (helper) |

## Left out

- Certificate loading (`certificate/`), `NewClient*`, TLS and token authentication (`do`): the HTTP round trip is the `send` parameter of `Client.Env`.
- `url.PathEscape` is the `escape` parameter. `Notification.Validate`, `Notification.Topic` and `Notification.Clone` (not in the modelled files) are parameters or plain field updates. `http.NewRequestWithContext`'s error is not modelled: with a parameterised URL it cannot be decided.
- Goroutines, the WaitGroup, the results channel and `ctx.Err()`: the channel's delivery order is the parameter `order`, and the goroutines' effect is their results. Cancellation is not modelled.
- `sync.Pool` buffer reuse in the encoders: each call starts from an empty buffer.
- `strconv.AppendFloat(..., 'f', -1, 64)` is the `FloatFormat` parameter `ff`, with floats as `real`. NaN and infinities are not modelled.
- Quote.GoQuote: `strconv.AppendQuote` is modelled byte by byte. Its escaping of non-ASCII and invalid UTF-8 as runes is not modelled.
- The `encoding/json` path (`FastJson == false`) and `json.Marshal` of the payload: the encoder is the `marshal` parameter of `Client.Env`, and `Client.FastMarshal` is the fast encoder.
- `json.Unmarshal` of an error reply's body is given with the reply, as `Reply.parsed`.
- Go map iteration order is random: maps are sequences in iteration order, and every property holds for every order.
- `MultiError.Error`'s text is not modelled.
- `time.Time` beyond the zero-time rule: `Expiration.Unix` is the given Unix second of a non-zero time. `Error.TimeStamp`'s `time.UnixMilli` conversion is the millisecond value itself.
- Nil `*Alert` / `*Sound` pointers inside the aps dictionary: values and pointers are one case.
- A nil `*notification.EpochTime` inside custom data or a live-activity map: `Value.Int` stands for `int`, `int64`, `EpochTime` and a non-nil `*EpochTime`. For a nil pointer EncodeValue dereferences it and panics (payload/aps_marshal.go:284-285); the panic is not modelled.
- Data races between the goroutines are not modelled: every goroutine sees the same notification, with its own token, and the same body.
