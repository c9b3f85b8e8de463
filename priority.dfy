/** The apns-priority header value: the three defined priorities are written in
    decimal, every other value (None, or an undefined number) as the empty string,
    which tells the client to leave the header out. */
module PriorityHeader {
  import opened Base
  import opened Decimal

  /** Priority is a Go `int`. */
  type Priority = Int64

  const PriorityNone: Priority := 0
  const PowerOnly: Priority := 1
  const Conserve: Priority := 5
  const Immediate: Priority := 10

  predicate IsDefined(p: Priority) {
    p == PowerOnly || p == Conserve || p == Immediate
  }

  /** Priority.String. */
  function PriorityText(p: Priority): (s: Bytes)
    ensures s != [] <==> IsDefined(p)
  {
    if IsDefined(p) then FormatInt(p) else []
  }

  /** A non-empty priority text reads back as the priority it came from. */
  lemma PriorityReadsBack(p: Priority)
    requires PriorityText(p) != []
    ensures ParseInt(PriorityText(p)) == Some(p as int)
  {
    FormatIntRoundTrip(p);
  }

  /** The three defined priorities have three different texts, "1", "5" and "10", and
      None and any undefined value give "". */
  lemma PriorityTexts(p: Priority)
    ensures PriorityText(PowerOnly) == "1" && PriorityText(Conserve) == "5"
    ensures PriorityText(Immediate) == "10"
    ensures !IsDefined(p) ==> PriorityText(p) == []
  {
    assert NatText(10) == NatText(1) + [Digit(0)];
  }
}
