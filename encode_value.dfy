/** EncodeValue: the recursive encoder for the dynamic values of the Live Activity
    maps (content-state, attributes). Strings go through strconv.AppendQuote, numbers
    through strconv.AppendInt and strconv.AppendFloat, nested maps and lists are
    encoded member by member, and the first value of an unsupported type, or the
    first json.Marshaler that fails, aborts the whole encoding. */
module ValueEncoder {
  import opened Base
  import opened Decimal
  import opened Quote
  import opened Payload
  import opened JsonObject

  function GoQuotes(ss: seq<Bytes>): seq<Bytes> {
    seq(|ss|, i requires 0 <= i < |ss| => GoQuote(ss[i]))
  }

  function IntTexts(ns: seq<Int64>): seq<Bytes> {
    seq(|ns|, i requires 0 <= i < |ns| => FormatInt(ns[i]))
  }

  function FloatTexts(xs: seq<real>, ff: FloatFormat): seq<Bytes> {
    seq(|xs|, i requires 0 <= i < |xs| => ff(xs[i]))
  }

  /** What EncodeValue appends for a value, or the error it returns. */
  function ValueText(v: Value, ff: FloatFormat): Result<Bytes, EncodeError>
    decreases v, 1
  {
    match v
    case Null => Ok("null")
    case Str(s) => Ok(GoQuote(s))
    case Int(i) => Ok(FormatInt(i))
    case Float(x) => Ok(ff(x))
    case Bool(b) => Ok(if b then "true" else "false")
    case StrList(ss) => Ok(ArrayText(GoQuotes(ss)))
    case IntList(ns) => Ok(ArrayText(IntTexts(ns)))
    case FloatList(xs) => Ok(ArrayText(FloatTexts(xs, ff)))
    case Marshaler(out) =>
      (match out
       case Ok(t) => Ok(t)
       case Err(m) => Err(MarshalerFailed(m)))
    case Object(es) =>
      (match EntriesText(v, es, GoQuote, ff)
       case Ok(t) => Ok("{" + t + "}")
       case Err(e) => Err(e))
    case List(items) =>
      (match ItemsText(v, items, ff)
       case Ok(t) => Ok("[" + t + "]")
       case Err(e) => Err(e))
    case Unsupported => Err(InvalidType)
  }

  /** The members of a map in iteration order, `key:value` separated by commas, the keys
      quoted by `quote`; the first value that fails gives the error. `parent` is a value
      that holds every entry, for termination only. */
  function EntriesText(ghost parent: Value, es: seq<(Bytes, Value)>, quote: Bytes -> Bytes, ff: FloatFormat)
    : Result<Bytes, EncodeError>
    requires forall i :: 0 <= i < |es| ==> es[i].1 < parent
    decreases parent, 0, |es|
  {
    if es == [] then Ok([])
    else
      var n := |es|;
      match EntriesText(parent, es[..n - 1], quote, ff)
      case Err(e) => Err(e)
      case Ok(t) =>
        match ValueText(es[n - 1].1, ff)
        case Err(e) => Err(e)
        case Ok(vt) => Ok(t + (if n > 1 then "," else []) + quote(es[n - 1].0) + ":" + vt)
  }

  /** The items of a list separated by commas; the first item that fails gives the error. */
  function ItemsText(ghost parent: Value, items: seq<Value>, ff: FloatFormat): Result<Bytes, EncodeError>
    requires forall i :: 0 <= i < |items| ==> items[i] < parent
    decreases parent, 0, |items|
  {
    if items == [] then Ok([])
    else
      var n := |items|;
      match ItemsText(parent, items[..n - 1], ff)
      case Err(e) => Err(e)
      case Ok(t) =>
        match ValueText(items[n - 1], ff)
        case Err(e) => Err(e)
        case Ok(vt) => Ok(t + (if n > 1 then "," else []) + vt)
  }

  // ---------------------------------------------------------------------------
  // Which values encode, and where an error comes from

  /** A value encodes when nothing in it has an unsupported type and no json.Marshaler
      in it fails. */
  ghost predicate Encodable(v: Value)
    decreases v
  {
    match v
    case Unsupported => false
    case Marshaler(out) => out.Ok?
    case Object(es) => forall i :: 0 <= i < |es| ==> Encodable(es[i].1)
    case List(items) => forall i :: 0 <= i < |items| ==> Encodable(items[i])
    case _ => true
  }

  /** `e` is the error of a value somewhere inside v: an unsupported type, or a failing
      json.Marshaler and its message. */
  ghost predicate ErrorIn(v: Value, e: EncodeError)
    decreases v
  {
    match v
    case Unsupported => e == InvalidType
    case Marshaler(out) => out.Err? && e == MarshalerFailed(out.error)
    case Object(es) => exists i :: 0 <= i < |es| && ErrorIn(es[i].1, e)
    case List(items) => exists i :: 0 <= i < |items| && ErrorIn(items[i], e)
    case _ => false
  }

  lemma {:induction false} ValueOkIff(v: Value, ff: FloatFormat)
    ensures ValueText(v, ff).Ok? <==> Encodable(v)
    decreases v, 1
  {
    match v
    case Object(es) => EntriesOkIff(v, es, GoQuote, ff);
    case List(items) => ItemsOkIff(v, items, ff);
    case _ =>
  }

  lemma {:induction false} EntriesOkIff(parent: Value, es: seq<(Bytes, Value)>, quote: Bytes -> Bytes, ff: FloatFormat)
    requires forall i :: 0 <= i < |es| ==> es[i].1 < parent
    ensures EntriesText(parent, es, quote, ff).Ok? <==> forall i :: 0 <= i < |es| ==> Encodable(es[i].1)
    decreases parent, 0, |es|
  {
    if es != [] {
      var n := |es|;
      EntriesOkIff(parent, es[..n - 1], quote, ff);
      ValueOkIff(es[n - 1].1, ff);
      assert forall i :: 0 <= i < n - 1 ==> es[..n - 1][i] == es[i];
    }
  }

  lemma {:induction false} ItemsOkIff(parent: Value, items: seq<Value>, ff: FloatFormat)
    requires forall i :: 0 <= i < |items| ==> items[i] < parent
    ensures ItemsText(parent, items, ff).Ok? <==> forall i :: 0 <= i < |items| ==> Encodable(items[i])
    decreases parent, 0, |items|
  {
    if items != [] {
      var n := |items|;
      ItemsOkIff(parent, items[..n - 1], ff);
      ValueOkIff(items[n - 1], ff);
      assert forall i :: 0 <= i < n - 1 ==> items[..n - 1][i] == items[i];
    }
  }

  /** The scalar cases: nil is `null`, a bool `true` or `false`, an integer its decimal
      text (which reads back as the integer), a string free of control bytes and DEL its
      JSON quotation (which reads back as the string), a json.Marshaler's output is
      spliced verbatim or its error returned, and any other type is ErrInvalidType. */
  lemma ScalarValues(v: Value, ff: FloatFormat)
    ensures v.Null? ==> ValueText(v, ff) == Ok("null")
    ensures v.Bool? ==> ValueText(v, ff) == Ok(if v.b then "true" else "false")
    ensures v.Int? ==> ValueText(v, ff).Ok? && ParseInt(ValueText(v, ff).value) == Some(v.i as int)
    ensures v.Str? && NoControl(v.s) && (forall k :: 0 <= k < |v.s| ==> v.s[k] as int != 0x7F)
            ==> ValueText(v, ff).Ok? && Unquote(ValueText(v, ff).value, JsonUnescaped) == Some(v.s)
    ensures v.Marshaler? && v.output.Ok? ==> ValueText(v, ff) == Ok(v.output.value)
    ensures v.Marshaler? && v.output.Err? ==> ValueText(v, ff) == Err(MarshalerFailed(v.output.error))
    ensures v.Unsupported? ==> ValueText(v, ff) == Err(InvalidType)
  {
    match v {
      case Int(i) =>
        FormatIntRoundTrip(i);
      case Str(t) =>
        if NoControl(t) && (forall k :: 0 <= k < |t| ==> t[k] as int != 0x7F) {
          GoQuoteAgreesWithJsonQuote(t);
          JsonQuoteRoundTrip(t);
        }
      case _ =>
    }
  }

  /** The error EncodeValue returns is one that a value inside the input has. */
  lemma {:induction false} ErrorComesFromInside(v: Value, ff: FloatFormat)
    requires ValueText(v, ff).Err?
    ensures ErrorIn(v, ValueText(v, ff).error)
    decreases v, 1
  {
    match v
    case Object(es) => EntriesErrorInside(v, es, GoQuote, ff);
    case List(items) => ItemsErrorInside(v, items, ff);
    case _ =>
  }

  lemma {:induction false} EntriesErrorInside(parent: Value, es: seq<(Bytes, Value)>, quote: Bytes -> Bytes, ff: FloatFormat)
    requires forall i :: 0 <= i < |es| ==> es[i].1 < parent
    requires EntriesText(parent, es, quote, ff).Err?
    ensures exists i :: 0 <= i < |es| && ErrorIn(es[i].1, EntriesText(parent, es, quote, ff).error)
    decreases parent, 0, |es|
  {
    var n := |es|;
    var e := EntriesText(parent, es, quote, ff).error;
    if EntriesText(parent, es[..n - 1], quote, ff).Err? {
      EntriesErrorInside(parent, es[..n - 1], quote, ff);
      var i :| 0 <= i < n - 1 && ErrorIn(es[..n - 1][i].1, e);
      assert es[..n - 1][i] == es[i];
    } else {
      ErrorComesFromInside(es[n - 1].1, ff);
    }
  }

  lemma {:induction false} ItemsErrorInside(parent: Value, items: seq<Value>, ff: FloatFormat)
    requires forall i :: 0 <= i < |items| ==> items[i] < parent
    requires ItemsText(parent, items, ff).Err?
    ensures exists i :: 0 <= i < |items| && ErrorIn(items[i], ItemsText(parent, items, ff).error)
    decreases parent, 0, |items|
  {
    var n := |items|;
    var e := ItemsText(parent, items, ff).error;
    if ItemsText(parent, items[..n - 1], ff).Err? {
      ItemsErrorInside(parent, items[..n - 1], ff);
      var i :| 0 <= i < n - 1 && ErrorIn(items[..n - 1][i], e);
      assert items[..n - 1][i] == items[i];
    } else {
      ErrorComesFromInside(items[n - 1], ff);
    }
  }

  /** The members of a map whose values all encode, each `key:value` on its own. */
  function EntryTexts(es: seq<(Bytes, Value)>, quote: Bytes -> Bytes, ff: FloatFormat): (ts: seq<Bytes>)
    requires forall i :: 0 <= i < |es| ==> ValueText(es[i].1, ff).Ok?
    ensures |ts| == |es|
  {
    seq(|es|, i requires 0 <= i < |es| => EntryText(quote(es[i].0), ValueText(es[i].1, ff).value))
  }

  function EntryText(quotedKey: Bytes, vt: Bytes): Bytes {
    quotedKey + ":" + vt
  }

  /** When every value encodes, a map's members are its entries' texts, in iteration
      order, separated by single commas. */
  lemma {:induction false} EntriesJoin(parent: Value, es: seq<(Bytes, Value)>, quote: Bytes -> Bytes, ff: FloatFormat)
    requires forall i :: 0 <= i < |es| ==> es[i].1 < parent
    requires forall i :: 0 <= i < |es| ==> ValueText(es[i].1, ff).Ok?
    ensures EntriesText(parent, es, quote, ff) == Ok(CommaJoin(EntryTexts(es, quote, ff)))
    decreases |es|
  {
    if es != [] {
      var n := |es|;
      var init := es[..n - 1];
      var ts := EntryTexts(es, quote, ff);
      var front := ts[..n - 1];
      assert forall i :: 0 <= i < n - 1 ==> init[i] == es[i];
      assert EntryTexts(init, quote, ff) == front;
      EntriesJoin(parent, init, quote, ff);
      var sep: Bytes := if n > 1 then "," else [];
      EntriesSnoc(parent, es, quote, ff, CommaJoin(front));
      assert EntriesText(parent, es, quote, ff) == Ok(CommaJoin(front) + sep + ts[n - 1]);
      CommaJoinSnoc(front, ts[n - 1]);
      FrontLast(ts);
    }
  }

  lemma EntriesSnoc(parent: Value, es: seq<(Bytes, Value)>, quote: Bytes -> Bytes, ff: FloatFormat, t: Bytes)
    requires forall i :: 0 <= i < |es| ==> es[i].1 < parent
    requires es != [] && EntriesText(parent, es[..|es| - 1], quote, ff) == Ok(t)
    requires ValueText(es[|es| - 1].1, ff).Ok?
    ensures EntriesText(parent, es, quote, ff)
            == Ok(t + (if |es| > 1 then "," else [])
                    + EntryText(quote(es[|es| - 1].0), ValueText(es[|es| - 1].1, ff).value))
  {
    var n := |es|;
    Regroup4(t + (if n > 1 then "," else []), quote(es[n - 1].0), ":", ValueText(es[n - 1].1, ff).value);
  }

  /** A map's members start with its first key, quoted, and a colon. */
  lemma {:induction false} EntriesStartWith(parent: Value, es: seq<(Bytes, Value)>, quote: Bytes -> Bytes, ff: FloatFormat)
    requires forall i :: 0 <= i < |es| ==> es[i].1 < parent
    requires es != [] && EntriesText(parent, es, quote, ff).Ok?
    ensures var t, k := EntriesText(parent, es, quote, ff).value, quote(es[0].0) + ":";
            |t| >= |k| && t[..|k|] == k
    decreases |es|
  {
    var n := |es|;
    var init := es[..n - 1];
    var k := quote(es[0].0) + ":";
    var t := EntriesText(parent, es, quote, ff).value;
    var t' := EntriesText(parent, init, quote, ff).value;
    var rest := ValueText(es[n - 1].1, ff).value;
    if n == 1 {
      assert t == [] + [] + quote(es[0].0) + ":" + rest;
      assert t == k + rest;
    } else {
      assert init[0] == es[0];
      EntriesStartWith(parent, init, quote, ff);
      assert t == t' + "," + quote(es[n - 1].0) + ":" + rest;
      assert t[..|k|] == t'[..|k|];
    }
  }

  /** A Go map's keys are unique: no two entries share a key. */
  predicate DistinctKeys(es: seq<(Bytes, Value)>) {
    forall i, j :: 0 <= i < j < |es| ==> es[i].0 != es[j].0
  }

  /** The keys a map's members open with, as the quoting writes them. */
  function QuotedKeys(es: seq<(Bytes, Value)>, quote: Bytes -> Bytes): (ks: seq<Bytes>)
    ensures |ks| == |es|
  {
    seq(|es|, i requires 0 <= i < |es| => quote(es[i].0))
  }

  /** When every value encodes, the members of a map are `key:value` for each entry,
      and under an injective quoting no key is written twice if the map has no key twice. */
  lemma EntriesKeysDistinct(parent: Value, es: seq<(Bytes, Value)>, quote: Bytes -> Bytes, ff: FloatFormat)
    requires forall i :: 0 <= i < |es| ==> es[i].1 < parent
    requires forall i :: 0 <= i < |es| ==> ValueText(es[i].1, ff).Ok?
    requires Injective(quote) && DistinctKeys(es)
    ensures EntriesText(parent, es, quote, ff) == Ok(CommaJoin(EntryTexts(es, quote, ff)))
    ensures forall i :: 0 <= i < |es| ==>
              EntryTexts(es, quote, ff)[i] == QuotedKeys(es, quote)[i] + ":" + ValueText(es[i].1, ff).value
    ensures Distinct(QuotedKeys(es, quote))
  {
    EntriesJoin(parent, es, quote, ff);
  }

  /** A nested map (EncodeValue's map[string]any case) that encodes is `{`, its entries
      as `key:value` with GoQuote keys, and `}`; its keys are written once each. */
  lemma ObjectKeysDistinct(es: seq<(Bytes, Value)>, ff: FloatFormat)
    requires ValueText(Object(es), ff).Ok? && DistinctKeys(es)
    ensures forall i :: 0 <= i < |es| ==> ValueText(es[i].1, ff).Ok?
    ensures ValueText(Object(es), ff) == Ok("{" + CommaJoin(EntryTexts(es, GoQuote, ff)) + "}")
    ensures Distinct(QuotedKeys(es, GoQuote))
    ensures forall i :: 0 <= i < |es| ==> Unquote(QuotedKeys(es, GoQuote)[i], GoUnescaped) == Some(es[i].0)
  {
    var v := Object(es);
    EntriesOkIff(v, es, GoQuote, ff);
    forall i | 0 <= i < |es|
      ensures ValueText(es[i].1, ff).Ok?
    {
      ValueOkIff(es[i].1, ff);
    }
    GoQuoteInjective();
    EntriesKeysDistinct(v, es, GoQuote, ff);
    forall i | 0 <= i < |es|
      ensures Unquote(QuotedKeys(es, GoQuote)[i], GoUnescaped) == Some(es[i].0)
    {
      GoQuoteRoundTrip(es[i].0);
    }
  }

  // ---------------------------------------------------------------------------
  // The encoder

  /** The result of appending a value's text to the buffer b. */
  function Appended(b: Bytes, r: Result<Bytes, EncodeError>): Result<Bytes, EncodeError> {
    match r
    case Ok(t) => Ok(b + t)
    case Err(e) => Err(e)
  }

  /** The first i entries of a map, as the loop over them has written them so far. */
  ghost function MapPrefix(es: seq<(Bytes, Value)>, i: nat, quote: Bytes -> Bytes, ff: FloatFormat)
    : Result<Bytes, EncodeError>
    requires i <= |es|
  {
    EntriesText(Object(es), es[..i], quote, ff)
  }

  lemma MapStep(es: seq<(Bytes, Value)>, i: nat, quote: Bytes -> Bytes, ff: FloatFormat)
    requires i < |es|
    ensures MapPrefix(es, i + 1, quote, ff)
            == match MapPrefix(es, i, quote, ff)
               case Err(e) => Err(e)
               case Ok(t) =>
                 match ValueText(es[i].1, ff)
                 case Err(e) => Err(e)
                 case Ok(vt) => Ok(t + (if i > 0 then "," else []) + quote(es[i].0) + ":" + vt)
  {
    assert es[..i + 1][..i] == es[..i];
  }

  /** Once a prefix of the entries fails, the whole map fails with the same error. */
  lemma {:induction false} MapPrefixErr(es: seq<(Bytes, Value)>, k: nat, quote: Bytes -> Bytes, ff: FloatFormat)
    requires k <= |es| && MapPrefix(es, k, quote, ff).Err?
    ensures EntriesText(Object(es), es, quote, ff) == MapPrefix(es, k, quote, ff)
    decreases |es| - k
  {
    if k == |es| {
      assert es[..k] == es;
    } else {
      MapStep(es, k, quote, ff);
      MapPrefixErr(es, k + 1, quote, ff);
    }
  }

  /** The loop over a map has written the first i entries, as body. The quantifier keeps
      the recursive definition out of sight of the loop until a lemma needs it. */
  ghost predicate MapWrote(es: seq<(Bytes, Value)>, i: nat, quote: Bytes -> Bytes, ff: FloatFormat, body: Bytes) {
    i <= |es| && forall j: nat | j == i :: MapPrefix(es, j, quote, ff) == Ok(body)
  }

  lemma MapStart(es: seq<(Bytes, Value)>, quote: Bytes -> Bytes, ff: FloatFormat)
    ensures MapWrote(es, 0, quote, ff, [])
  {
    assert es[..0] == [];
  }

  lemma MapWhole(es: seq<(Bytes, Value)>, quote: Bytes -> Bytes, ff: FloatFormat, body: Bytes)
    requires MapWrote(es, |es|, quote, ff, body)
    ensures EntriesText(Object(es), es, quote, ff) == Ok(body)
  {
    assert MapPrefix(es, |es|, quote, ff) == Ok(body);
    assert es[..|es|] == es;
  }

  /** One more entry whose value encodes: the loop's buffer, which held the members so
      far after pre, now holds one member more. */
  lemma MapEntryOk(es: seq<(Bytes, Value)>, i: nat, pre: Bytes, body: Bytes, buf: Bytes, r: Result<Bytes, EncodeError>,
                   quote: Bytes -> Bytes, ff: FloatFormat)
    returns (body': Bytes)
    requires i < |es| && MapWrote(es, i, quote, ff, body)
    requires buf == pre + body + (if i > 0 then "," else []) + quote(es[i].0) + ":"
    requires r == Appended(buf, ValueText(es[i].1, ff)) && r.Ok?
    ensures MapWrote(es, i + 1, quote, ff, body') && r.value == pre + body'
  {
    var sep: Bytes := if i > 0 then "," else [];
    var vt := ValueText(es[i].1, ff).value;
    assert MapPrefix(es, i, quote, ff) == Ok(body);
    MapStep(es, i, quote, ff);
    body' := body + sep + quote(es[i].0) + ":" + vt;
    Regroup6(pre, body, sep, quote(es[i].0), ":", vt);
  }

  /** One more entry whose value fails: the whole map fails with its error. */
  lemma MapEntryErr(es: seq<(Bytes, Value)>, i: nat, body: Bytes, quote: Bytes -> Bytes, ff: FloatFormat)
    requires i < |es| && MapWrote(es, i, quote, ff, body) && ValueText(es[i].1, ff).Err?
    ensures EntriesText(Object(es), es, quote, ff) == Err(ValueText(es[i].1, ff).error)
  {
    assert MapPrefix(es, i, quote, ff) == Ok(body);
    MapStep(es, i, quote, ff);
    MapPrefixErr(es, i + 1, quote, ff);
  }

  /** The first i items of a list, as the loop over them has written them so far. */
  ghost function ListPrefix(items: seq<Value>, i: nat, ff: FloatFormat): Result<Bytes, EncodeError>
    requires i <= |items|
  {
    ItemsText(List(items), items[..i], ff)
  }

  lemma ListStep(items: seq<Value>, i: nat, ff: FloatFormat)
    requires i < |items|
    ensures ListPrefix(items, i + 1, ff)
            == match ListPrefix(items, i, ff)
               case Err(e) => Err(e)
               case Ok(t) =>
                 match ValueText(items[i], ff)
                 case Err(e) => Err(e)
                 case Ok(vt) => Ok(t + (if i > 0 then "," else []) + vt)
  {
    assert items[..i + 1][..i] == items[..i];
  }

  lemma {:induction false} ListPrefixErr(items: seq<Value>, k: nat, ff: FloatFormat)
    requires k <= |items| && ListPrefix(items, k, ff).Err?
    ensures ItemsText(List(items), items, ff) == ListPrefix(items, k, ff)
    decreases |items| - k
  {
    if k == |items| {
      assert items[..k] == items;
    } else {
      ListStep(items, k, ff);
      ListPrefixErr(items, k + 1, ff);
    }
  }

  /** The loop over a list has written the first i items, as body. */
  ghost predicate ListWrote(items: seq<Value>, i: nat, ff: FloatFormat, body: Bytes) {
    i <= |items| && forall j: nat | j == i :: ListPrefix(items, j, ff) == Ok(body)
  }

  lemma ListStart(items: seq<Value>, ff: FloatFormat)
    ensures ListWrote(items, 0, ff, [])
  {
    assert items[..0] == [];
  }

  lemma ListWhole(items: seq<Value>, ff: FloatFormat, body: Bytes)
    requires ListWrote(items, |items|, ff, body)
    ensures ItemsText(List(items), items, ff) == Ok(body)
  {
    assert ListPrefix(items, |items|, ff) == Ok(body);
    assert items[..|items|] == items;
  }

  /** One more item that encodes: the loop's buffer, which held `[` and the items so
      far after b, now holds one item more. */
  lemma ListItemOk(items: seq<Value>, i: nat, b: Bytes, body: Bytes, buf: Bytes, r: Result<Bytes, EncodeError>,
                   ff: FloatFormat)
    returns (body': Bytes)
    requires i < |items| && ListWrote(items, i, ff, body)
    requires buf == b + ['['] + body + (if i > 0 then "," else [])
    requires r == Appended(buf, ValueText(items[i], ff)) && r.Ok?
    ensures ListWrote(items, i + 1, ff, body') && r.value == b + ['['] + body'
  {
    var sep: Bytes := if i > 0 then "," else [];
    var vt := ValueText(items[i], ff).value;
    assert ListPrefix(items, i, ff) == Ok(body);
    ListStep(items, i, ff);
    body' := body + sep + vt;
    Regroup4(b + ['['], body, sep, vt);
  }

  /** One more item that fails: the whole list fails with its error. */
  lemma ListItemErr(items: seq<Value>, i: nat, body: Bytes, ff: FloatFormat)
    requires i < |items| && ListWrote(items, i, ff, body) && ValueText(items[i], ff).Err?
    ensures ItemsText(List(items), items, ff) == Err(ValueText(items[i], ff).error)
  {
    assert ListPrefix(items, i, ff) == Ok(body);
    ListStep(items, i, ff);
    ListPrefixErr(items, i + 1, ff);
  }

  /** The loop the []string, []int, []int64 and []float64 cases share: `[`, the element
      texts separated by commas, `]`. */
  method AppendArray(b: Bytes, ts: seq<Bytes>) returns (b': Bytes)
    ensures b' == b + ArrayText(ts)
  {
    b' := b + ['['];
    ghost var open := b';
    for i := 0 to |ts|
      invariant b' == open + CommaJoin(ts[..i])
    {
      ghost var before := b';
      ghost var sep: Bytes := if i == 0 then [] else ",";
      if i > 0 {
        b' := b' + [','];
      }
      b' := b' + ts[i];
      assert b' == before + sep + ts[i];
      CommaJoinStep(ts, i);
      Regroup4(open, CommaJoin(ts[..i]), sep, ts[i]);
    }
    assert ts[..|ts|] == ts;
    b' := b' + [']'];
  }

  /** The list loop ran to the end: closing the bracket gives the list's text. */
  lemma ListClosed(v: Value, b: Bytes, body: Bytes, ff: FloatFormat)
    requires v.List? && ListWrote(v.items, |v.items|, ff, body)
    ensures Appended(b, ValueText(v, ff)) == Ok(b + ['['] + body + [']'])
  {
    ListWhole(v.items, ff, body);
    assert ValueText(v, ff) == Ok("[" + body + "]");
    Regroup(b, ['['], body);
    Regroup(b, ['['] + body, [']']);
  }

  /** An item of the list failed: the list fails with its error. */
  lemma ListFailed(v: Value, i: nat, body: Bytes, e: EncodeError, ff: FloatFormat)
    requires v.List? && i < |v.items| && ListWrote(v.items, i, ff, body)
    requires ValueText(v.items[i], ff) == Err(e)
    ensures ValueText(v, ff) == Err(e)
  {
    ListItemErr(v.items, i, body, ff);
  }

  /** The map loop ran to the end: closing the brace gives the map's text. */
  lemma MapClosed(v: Value, b: Bytes, body: Bytes, ff: FloatFormat)
    requires v.Object? && MapWrote(v.entries, |v.entries|, GoQuote, ff, body)
    ensures Appended(b, ValueText(v, ff)) == Ok(b + ['{'] + body + ['}'])
  {
    MapWhole(v.entries, GoQuote, ff, body);
    assert ValueText(v, ff) == Ok("{" + body + "}");
    Regroup(b, ['{'], body);
    Regroup(b, ['{'] + body, ['}']);
  }

  /** An entry of the map failed: the map fails with its error. */
  lemma MapFailed(v: Value, i: nat, body: Bytes, e: EncodeError, ff: FloatFormat)
    requires v.Object? && i < |v.entries| && MapWrote(v.entries, i, GoQuote, ff, body)
    requires ValueText(v.entries[i].1, ff) == Err(e)
    ensures ValueText(v, ff) == Err(e)
  {
    MapEntryErr(v.entries, i, body, GoQuote, ff);
  }

  /** EncodeValue: appends the value's text to b, or returns the first error. */
  method EncodeValue(b: Bytes, v: Value, ff: FloatFormat) returns (r: Result<Bytes, EncodeError>)
    ensures r == Appended(b, ValueText(v, ff))
    decreases v, 1
  {
    match v
    case Str(s) => r := Ok(b + GoQuote(s));
    case Int(i) => r := Ok(b + FormatInt(i));
    case Float(x) => r := Ok(b + ff(x));
    case Bool(flag) => r := Ok(if flag then b + "true" else b + "false");
    case Null => r := Ok(b + "null");
    case StrList(ss) =>
      var b' := AppendArray(b, GoQuotes(ss));
      r := Ok(b');
    case IntList(ns) =>
      var b' := AppendArray(b, IntTexts(ns));
      r := Ok(b');
    case FloatList(xs) =>
      var b' := AppendArray(b, FloatTexts(xs, ff));
      r := Ok(b');
    case Marshaler(out) =>
      if out.Err? {
        return Err(MarshalerFailed(out.error));
      }
      r := Ok(b + out.value);
    case Object(es) => r := EncodeMap(b, v, ff);
    case List(items) => r := EncodeList(b, v, ff);
    case Unsupported => r := Err(InvalidType);
  }

  /** The map[string]any case of EncodeValue: `{`, then for each entry in iteration order
      a comma (except before the first), the Go-quoted key, `:` and the value. */
  method EncodeMap(b: Bytes, v: Value, ff: FloatFormat) returns (r: Result<Bytes, EncodeError>)
    requires v.Object?
    ensures r == Appended(b, ValueText(v, ff))
    decreases v, 0
  {
    var es := v.entries;
    var buf := b + ['{'];
    var first := true;
    ghost var body: Bytes := [];
    MapStart(es, GoQuote, ff);
    for i := 0 to |es|
      invariant first == (i == 0)
      invariant MapWrote(es, i, GoQuote, ff, body)
      invariant buf == b + ['{'] + body
    {
      var (key, val) := es[i];
      if !first {
        buf := buf + [','];
      } else {
        first := false;
      }
      buf := buf + GoQuote(key);
      buf := buf + [':'];
      var res := EncodeValue(buf, val, ff);
      if res.Err? {
        MapFailed(v, i, body, res.error, ff);
        r := Err(res.error);
        return;
      }
      body := MapEntryOk(es, i, b + ['{'], body, buf, res, GoQuote, ff);
      buf := res.value;
    }
    MapClosed(v, b, body, ff);
    r := Ok(buf + ['}']);
  }

  /** The []any case of EncodeValue: `[`, the items separated by commas, `]`. */
  method EncodeList(b: Bytes, v: Value, ff: FloatFormat) returns (r: Result<Bytes, EncodeError>)
    requires v.List?
    ensures r == Appended(b, ValueText(v, ff))
    decreases v, 0
  {
    var items := v.items;
    var buf := b + ['['];
    ghost var body: Bytes := [];
    ListStart(items, ff);
    for i := 0 to |items|
      invariant ListWrote(items, i, ff, body)
      invariant buf == b + ['['] + body
    {
      if i > 0 {
        buf := buf + [','];
      }
      var res := EncodeValue(buf, items[i], ff);
      if res.Err? {
        ListFailed(v, i, body, res.error, ff);
        r := Err(res.error);
        return;
      }
      body := ListItemOk(items, i, b, body, buf, res, ff);
      buf := res.value;
    }
    ListClosed(v, b, body, ff);
    r := Ok(buf + [']']);
  }
}
