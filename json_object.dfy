/** The object writer shared by the fixed-layout encoders (Alert, Sound, APS):
    a buffer that starts with `{`, a `first` flag that decides whether a comma goes
    before the next member, and one `"key":value` member per field that is present.

    Each encoder is specified by the list of its fields in emission order; a field is
    left out (zero value), written with its value text, or invalid (an unsupported
    runtime type, which aborts the whole encoding). */
module JsonObject {
  import opened Base
  import opened Payload
  import opened Quote

  datatype Member = Member(key: Bytes, text: Bytes)

  /** `"key":` as the encoders write it: their keys are constants, copied without escaping. */
  function KeyText(key: Bytes): Bytes {
    "\"" + key + "\":"
  }

  function Render(m: Member): Bytes {
    KeyText(m.key) + m.text
  }

  /** Texts separated by single commas: the body of a JSON array or object. */
  function CommaJoin(ts: seq<Bytes>): Bytes {
    if ts == [] then []
    else CommaJoin(ts[..|ts| - 1]) + (if |ts| > 1 then "," else []) + ts[|ts| - 1]
  }

  function ArrayText(ts: seq<Bytes>): Bytes {
    "[" + CommaJoin(ts) + "]"
  }

  function Rendered(ms: seq<Member>): seq<Bytes> {
    seq(|ms|, i requires 0 <= i < |ms| => Render(ms[i]))
  }

  /** The rendered members, consecutive ones separated by a single comma. */
  function Join(ms: seq<Member>): Bytes {
    CommaJoin(Rendered(ms))
  }

  function ObjectText(ms: seq<Member>): Bytes {
    "{" + Join(ms) + "}"
  }

  function MemberKeys(ms: seq<Member>): seq<Bytes> {
    seq(|ms|, i requires 0 <= i < |ms| => ms[i].key)
  }

  datatype Field =
    | Omitted(key: Bytes)
    | Written(key: Bytes, text: Bytes)
    | Invalid(key: Bytes, error: EncodeError)

  function FieldKeys(fs: seq<Field>): seq<Bytes> {
    seq(|fs|, i requires 0 <= i < |fs| => fs[i].key)
  }

  /** The members that the written fields produce, in field order. */
  function Members(fs: seq<Field>): seq<Member> {
    if fs == [] then []
    else
      var last := fs[|fs| - 1];
      Members(fs[..|fs| - 1]) + (if last.Written? then [Member(last.key, last.text)] else [])
  }

  /** The error of the first invalid field, if any. */
  function FirstError(fs: seq<Field>): Option<EncodeError> {
    if fs == [] then None
    else if fs[0].Invalid? then Some(fs[0].error)
    else FirstError(fs[1..])
  }

  /** What an encoder returns for its field list: the first error, or the object text. */
  function Encode(fs: seq<Field>): Result<Bytes, EncodeError> {
    match FirstError(fs)
    case Some(e) => Err(e)
    case None => Ok(ObjectText(Members(fs)))
  }

  predicate Distinct(ks: seq<Bytes>) {
    forall i, j :: 0 <= i < j < |ks| ==> ks[i] != ks[j]
  }

  lemma DistinctCons(k: Bytes, ks: seq<Bytes>)
    requires Distinct(ks) && forall i :: 0 <= i < |ks| ==> ks[i] != k
    ensures Distinct([k] + ks)
  {
    var all := [k] + ks;
    forall i, j | 0 <= i < j < |all|
      ensures all[i] != all[j]
    {
      assert all[j] == ks[j - 1];
    }
  }

  /** A number that tells the encoders' constant keys apart: length, first and last byte. */
  function KeyTag(k: Bytes): int {
    if k == [] then 0 else |k| * 65536 + k[0] as int * 256 + k[|k| - 1] as int
  }

  lemma TagsDistinct(ks: seq<Bytes>)
    requires forall i, j :: 0 <= i < j < |ks| ==> KeyTag(ks[i]) != KeyTag(ks[j])
    ensures Distinct(ks)
  {
  }

  /** No key of xs has the tag of a key of ys. */
  predicate Apart(xs: seq<Bytes>, ys: seq<Bytes>) {
    forall i, j :: 0 <= i < |xs| && 0 <= j < |ys| ==> KeyTag(xs[i]) != KeyTag(ys[j])
  }

  lemma ApartConcat(xs: seq<Bytes>, ys: seq<Bytes>, zs: seq<Bytes>)
    requires Apart(xs, zs) && Apart(ys, zs)
    ensures Apart(xs + ys, zs)
  {
    var ws := xs + ys;
    forall i, j | 0 <= i < |ws| && 0 <= j < |zs|
      ensures KeyTag(ws[i]) != KeyTag(zs[j])
    {
      if i < |xs| {
        assert ws[i] == xs[i];
      } else {
        assert ws[i] == ys[i - |xs|];
      }
    }
  }

  lemma DistinctConcat(xs: seq<Bytes>, ys: seq<Bytes>)
    requires Distinct(xs) && Distinct(ys) && Apart(xs, ys)
    ensures Distinct(xs + ys)
  {
    var zs := xs + ys;
    forall i, j | 0 <= i < j < |zs|
      ensures zs[i] != zs[j]
    {
      if j < |xs| {
        assert zs[i] == xs[i] && zs[j] == xs[j];
      } else if i >= |xs| {
        assert zs[i] == ys[i - |xs|] && zs[j] == ys[j - |xs|];
      } else {
        assert zs[i] == xs[i] && zs[j] == ys[j - |xs|];
      }
    }
  }

  /** xs is obtained from ys by deleting elements (order kept). */
  predicate IsSubsequence(xs: seq<Bytes>, ys: seq<Bytes>)
    decreases |ys|
  {
    if xs == [] then true
    else if ys == [] then false
    else if xs[|xs| - 1] == ys[|ys| - 1] then IsSubsequence(xs[..|xs| - 1], ys[..|ys| - 1])
    else IsSubsequence(xs, ys[..|ys| - 1])
  }

  // ---------------------------------------------------------------------------
  // The writer, as the encoders run it

  /** The `addComma` closure: a comma before every member but the first. */
  method AddComma(b: Bytes, first: bool) returns (b': Bytes, first': bool)
    ensures b' == (if first then b else b + ",")
    ensures !first'
  {
    b' := b;
    if !first {
      b' := b' + ",";
    }
    first' := false;
  }

  method AppendKey(b: Bytes, key: Bytes) returns (b': Bytes)
    ensures b' == b + KeyText(key)
  {
    b' := b + ['"'];
    b' := b' + key;
    b' := b' + ['"', ':'];
  }

  /** The buffer and the `first` flag as the writer leaves them after the first k fields. */
  ghost function Progress(fs: seq<Field>, k: nat): (Bytes, bool)
    requires k <= |fs|
  {
    if k == 0 then (['{'], true)
    else
      var (b, first) := Progress(fs, k - 1);
      match fs[k - 1]
      case Written(key, text) => ((if first then b else b + ",") + KeyText(key) + text, false)
      case _ => (b, first)
  }

  /** None of the first k fields is invalid. */
  ghost predicate ValidBefore(fs: seq<Field>, k: nat)
    requires k <= |fs|
  {
    k == 0 || (!fs[k - 1].Invalid? && ValidBefore(fs, k - 1))
  }

  /** The writer state after the first k fields, none of which was invalid. */
  ghost predicate Wrote(fs: seq<Field>, k: nat, b: Bytes, first: bool) {
    k <= |fs| && forall j: nat | j == k :: Progress(fs, j) == (b, first) && ValidBefore(fs, j)
  }

  lemma MembersSnoc(fs: seq<Field>, k: nat)
    requires k < |fs|
    ensures Members(fs[..k + 1])
            == Members(fs[..k]) + (if fs[k].Written? then [Member(fs[k].key, fs[k].text)] else [])
  {
    assert fs[..k + 1][..k] == fs[..k];
  }

  lemma CommaJoinSnoc(ts: seq<Bytes>, t: Bytes)
    ensures CommaJoin(ts + [t]) == CommaJoin(ts) + (if ts == [] then [] else ",") + t
  {
    assert (ts + [t])[..|ts|] == ts;
  }

  lemma JoinSnoc(ms: seq<Member>, m: Member)
    ensures Join(ms + [m]) == Join(ms) + (if ms == [] then [] else ",") + Render(m)
  {
    assert Rendered(ms + [m]) == Rendered(ms) + [Render(m)];
    CommaJoinSnoc(Rendered(ms), Render(m));
  }

  /** Writing one more member after `{` and the members ms. */
  lemma WrittenStep(ms: seq<Member>, m: Member)
    ensures (if ms == [] then ['{'] + Join(ms) else ['{'] + Join(ms) + ",") + KeyText(m.key) + m.text
            == ['{'] + Join(ms + [m])
  {
    JoinSnoc(ms, m);
    Regroup4(['{'], Join(ms), if ms == [] then [] else ",", Render(m));
  }

  /** After k fields the buffer holds `{` and the members of the written ones, and `first`
      says that none was written. */
  lemma {:induction false} ProgressIsJoin(fs: seq<Field>, k: nat)
    requires k <= |fs|
    ensures Progress(fs, k) == (['{'] + Join(Members(fs[..k])), Members(fs[..k]) == [])
  {
    if k > 0 {
      var f := fs[k - 1];
      ProgressIsJoin(fs, k - 1);
      MembersSnoc(fs, k - 1);
      var ms := Members(fs[..k - 1]);
      if f.Written? {
        var m := Member(f.key, f.text);
        assert Members(fs[..k]) == ms + [m];
        WrittenStep(ms, m);
      } else {
        assert Members(fs[..k]) == ms;
      }
    } else {
      assert fs[..k] == [];
      assert Rendered([]) == [];
      assert ['{'] + Join([]) == ['{'];
    }
  }

  lemma {:induction false} FirstErrorAt(fs: seq<Field>, k: nat)
    requires k < |fs| && fs[k].Invalid?
    requires ValidBefore(fs, k)
    ensures FirstError(fs) == Some(fs[k].error)
  {
    if k > 0 {
      ValidBeforeShift(fs, k);
      FirstErrorAt(fs[1..], k - 1);
    }
  }

  lemma {:induction false} ValidBeforeShift(fs: seq<Field>, k: nat)
    requires 0 < k <= |fs| && ValidBefore(fs, k)
    ensures !fs[0].Invalid? && ValidBefore(fs[1..], k - 1)
  {
    if k > 1 {
      ValidBeforeShift(fs, k - 1);
    }
  }

  lemma {:induction false} NoFirstError(fs: seq<Field>)
    requires ValidBefore(fs, |fs|)
    ensures FirstError(fs) == None
  {
    if fs != [] {
      ValidBeforeShift(fs, |fs|);
      NoFirstError(fs[1..]);
    }
  }

  /** An encoding succeeds exactly when no field is invalid. */
  lemma {:induction false} FirstErrorNoneIff(fs: seq<Field>)
    ensures FirstError(fs) == None <==> forall k :: 0 <= k < |fs| ==> !fs[k].Invalid?
  {
    if fs != [] {
      FirstErrorNoneIff(fs[1..]);
      assert forall k :: 0 < k < |fs| ==> fs[k] == fs[1..][k - 1];
    }
  }

  /** The error is that of the first invalid field. */
  lemma {:induction false} FirstErrorIs(fs: seq<Field>, k: nat)
    requires k < |fs| && fs[k].Invalid?
    requires forall j :: 0 <= j < k ==> !fs[j].Invalid?
    ensures FirstError(fs) == Some(fs[k].error)
  {
    if k > 0 {
      FirstErrorIs(fs[1..], k - 1);
    }
  }

  /** An error comes from some invalid field. */
  lemma {:induction false} FirstErrorFrom(fs: seq<Field>)
    requires FirstError(fs).Some?
    ensures exists k :: 0 <= k < |fs| && fs[k] == Invalid(fs[k].key, FirstError(fs).value)
  {
    if !fs[0].Invalid? {
      FirstErrorFrom(fs[1..]);
      var k :| 0 <= k < |fs| - 1 && fs[1..][k] == Invalid(fs[1..][k].key, FirstError(fs[1..]).value);
      assert fs[k + 1] == fs[1..][k];
    }
  }

  /** What one field's step does to the writer: nothing for an omitted field, a comma
      (unless first), the key and the value text for a written one, and an abort with
      the field's error for an invalid one. */
  ghost predicate Stepped(f: Field, b: Bytes, first: bool, b': Bytes, first': bool, err: Option<EncodeError>) {
    match f
    case Omitted(_) => b' == b && first' == first && err == None
    case Written(k, t) => b' == (if first then b else b + ",") + KeyText(k) + t && !first' && err == None
    case Invalid(_, e) => err == Some(e)
  }

  lemma Advance(fs: seq<Field>, k: nat, b: Bytes, first: bool, b': Bytes, first': bool, err: Option<EncodeError>)
    requires Wrote(fs, k, b, first) && k < |fs| && Stepped(fs[k], b, first, b', first', err)
    ensures err == None ==> Wrote(fs, k + 1, b', first')
    ensures err != None ==> Encode(fs) == Err(err.value)
  {
    var j: nat := k;
    assert Progress(fs, j) == (b, first) && ValidBefore(fs, j);
    if fs[k].Invalid? {
      FirstErrorAt(fs, k);
    } else {
      assert Progress(fs, j + 1) == (b', first');
      assert ValidBefore(fs, j + 1);
    }
  }

  /** After the last field, closing the brace gives the encoding. */
  lemma Finish(fs: seq<Field>, b: Bytes, first: bool)
    requires Wrote(fs, |fs|, b, first)
    ensures Encode(fs) == Ok(b + "}")
  {
    ProgressIsJoin(fs, |fs|);
    assert fs[..|fs|] == fs;
    NoFirstError(fs);
  }

  // ---------------------------------------------------------------------------
  // Fields the encoders share

  /** A string field, left out when empty and otherwise written JSON-quoted. */
  function StringField(key: Bytes, val: Bytes): Field {
    if val == [] then Omitted(key) else Written(key, JsonQuote(val))
  }

  function JsonQuotes(vals: seq<Bytes>): seq<Bytes> {
    seq(|vals|, i requires 0 <= i < |vals| => JsonQuote(vals[i]))
  }

  /** A string list field, left out when empty and otherwise written as an array of
      JSON-quoted strings. */
  function ListField(key: Bytes, vals: seq<Bytes>): Field {
    if vals == [] then Omitted(key) else Written(key, ArrayText(JsonQuotes(vals)))
  }

  /** A field the encoder skips leaves the writer as it was. */
  lemma Skip(fs: seq<Field>, k: nat, b: Bytes, first: bool)
    requires Wrote(fs, k, b, first) && k < |fs| && fs[k].Omitted?
    ensures Wrote(fs, k + 1, b, first)
  {
    Advance(fs, k, b, first, b, first, None);
  }

  /** A field of a type the encoder does not support ends the encoding with its error. */
  lemma Fail(fs: seq<Field>, k: nat, b: Bytes, first: bool)
    requires Wrote(fs, k, b, first) && k < |fs| && fs[k].Invalid?
    ensures Encode(fs) == Err(fs[k].error)
  {
    Advance(fs, k, b, first, b, first, Some(fs[k].error));
  }

  /** `addComma`, the key, and a value text the caller formatted (an integer, a float, a
      constant). */
  method WriteText(ghost fs: seq<Field>, ghost k: nat, b: Bytes, first: bool, key: Bytes, text: Bytes)
    returns (b': Bytes, first': bool)
    requires Wrote(fs, k, b, first) && k < |fs| && fs[k] == Written(key, text)
    ensures Wrote(fs, k + 1, b', first')
  {
    b', first' := AddComma(b, first);
    b' := AppendKey(b', key);
    b' := b' + text;
    Advance(fs, k, b, first, b', first', None);
  }

  /** `addComma`, the key, and the value through the `appendQuote` closure. */
  method WriteQuoted(ghost fs: seq<Field>, ghost k: nat, b: Bytes, first: bool, key: Bytes, val: Bytes)
    returns (b': Bytes, first': bool)
    requires Wrote(fs, k, b, first) && k < |fs| && fs[k] == Written(key, JsonQuote(val))
    ensures Wrote(fs, k + 1, b', first')
  {
    b', first' := AddComma(b, first);
    b' := AppendKey(b', key);
    b' := AppendQuote(b', val);
    Advance(fs, k, b, first, b', first', None);
  }

  /** A block `if val != "" { addComma(); addString(key, val) }`. */
  method WriteString(ghost fs: seq<Field>, ghost k: nat, b: Bytes, first: bool, key: Bytes, val: Bytes)
    returns (b': Bytes, first': bool)
    requires Wrote(fs, k, b, first) && k < |fs| && fs[k] == StringField(key, val)
    ensures Wrote(fs, k + 1, b', first')
  {
    if val != [] {
      b', first' := WriteQuoted(fs, k, b, first, key, val);
    } else {
      b', first' := b, first;
      Skip(fs, k, b, first);
    }
  }

  lemma CommaJoinStep(ts: seq<Bytes>, i: nat)
    requires i < |ts|
    ensures CommaJoin(ts[..i + 1]) == CommaJoin(ts[..i]) + (if i == 0 then [] else ",") + ts[i]
  {
    assert ts[..i + 1] == ts[..i] + [ts[i]];
    CommaJoinSnoc(ts[..i], ts[i]);
  }

  /** `[`, the quoted strings separated by commas, `]`. */
  method AppendQuotedList(b: Bytes, vals: seq<Bytes>) returns (b': Bytes)
    ensures b' == b + ArrayText(JsonQuotes(vals))
  {
    ghost var ts := JsonQuotes(vals);
    b' := b + ['['];
    ghost var open := b';
    for i := 0 to |vals|
      invariant b' == open + CommaJoin(ts[..i])
    {
      ghost var before := b';
      ghost var sep: Bytes := if i == 0 then [] else ",";
      if i > 0 {
        b' := b' + [','];
      }
      b' := AppendQuote(b', vals[i]);
      assert b' == before + sep + ts[i];
      CommaJoinStep(ts, i);
      Regroup4(open, CommaJoin(ts[..i]), sep, ts[i]);
    }
    assert ts[..|vals|] == ts;
    b' := b' + [']'];
  }

  /** The `addComma` and `addStringSlice` steps for the k-th field, a string list field. */
  method WriteList(ghost fs: seq<Field>, ghost k: nat, b: Bytes, first: bool, key: Bytes, vals: seq<Bytes>)
    returns (b': Bytes, first': bool)
    requires Wrote(fs, k, b, first) && k < |fs| && fs[k] == ListField(key, vals)
    ensures Wrote(fs, k + 1, b', first')
  {
    b', first' := b, first;
    if |vals| > 0 {
      b', first' := AddComma(b', first');
      b' := AppendKey(b', key);
      b' := AppendQuotedList(b', vals);
    }
    Advance(fs, k, b, first, b', first', None);
  }

  // ---------------------------------------------------------------------------
  // Properties of the object text

  /** Exactly one comma between two non-empty runs: no leading, trailing or doubled comma. */
  lemma {:induction false} CommaJoinAppend(ts: seq<Bytes>, us: seq<Bytes>)
    requires ts != [] && us != []
    ensures CommaJoin(ts + us) == CommaJoin(ts) + "," + CommaJoin(us)
    decreases |us|
  {
    var last := us[|us| - 1];
    assert (ts + us)[..|ts + us| - 1] == ts + us[..|us| - 1];
    if |us| == 1 {
      assert ts + us == ts + [last];
      CommaJoinSnoc(ts, last);
    } else {
      CommaJoinAppend(ts, us[..|us| - 1]);
    }
  }

  /** Where the i-th text sits in the joined text: at the start for the first, right
      after a comma for every other. */
  lemma {:induction false} CommaJoinAt(ts: seq<Bytes>, i: nat) returns (j: nat)
    requires i < |ts|
    ensures j + |ts[i]| <= |CommaJoin(ts)| && CommaJoin(ts)[j..j + |ts[i]|] == ts[i]
    ensures i == 0 ==> j == 0
    ensures i > 0 ==> j > 0 && CommaJoin(ts)[j - 1] == ','
    decreases |ts|
  {
    var n := |ts|;
    var front := ts[..n - 1];
    var sep: Bytes := if n > 1 then "," else [];
    var c := CommaJoin(ts);
    assert c == CommaJoin(front) + sep + ts[n - 1];
    if i == n - 1 {
      j := |CommaJoin(front)| + |sep|;
      assert c[j..j + |ts[i]|] == ts[i];
      if n > 1 {
        assert c[j - 1] == sep[0];
      } else {
        assert j == 0;
      }
    } else {
      j := CommaJoinAt(front, i);
      assert c[..|CommaJoin(front)|] == CommaJoin(front);
      assert c[j..j + |ts[i]|] == CommaJoin(front)[j..j + |ts[i]|];
      if i > 0 {
        assert c[j - 1] == CommaJoin(front)[j - 1];
      }
    }
  }

  /** The members of two non-empty runs are joined with exactly one comma. */
  lemma JoinAppend(ms: seq<Member>, ns: seq<Member>)
    requires ms != [] && ns != []
    ensures Join(ms + ns) == Join(ms) + "," + Join(ns)
  {
    assert Rendered(ms + ns) == Rendered(ms) + Rendered(ns);
    CommaJoinAppend(Rendered(ms), Rendered(ns));
  }

  /** Members keeps the field order: the members of a concatenation are the concatenated members. */
  lemma {:induction false} MembersAppend(fs: seq<Field>, gs: seq<Field>)
    ensures Members(fs + gs) == Members(fs) + Members(gs)
    decreases |gs|
  {
    if gs != [] {
      assert (fs + gs)[..|fs + gs| - 1] == fs + gs[..|gs| - 1];
      MembersAppend(fs, gs[..|gs| - 1]);
    } else {
      assert fs + gs == fs;
    }
  }

  /** A member is emitted exactly when its field is written with that text. */
  lemma {:induction false} MemberIffWritten(fs: seq<Field>, m: Member)
    ensures m in Members(fs) <==> Written(m.key, m.text) in fs
  {
    if fs != [] {
      var init := fs[..|fs| - 1];
      MemberIffWritten(init, m);
      assert fs == init + [fs[|fs| - 1]];
    }
  }

  /** No member is emitted exactly when no field is written. */
  lemma {:induction false} MembersEmptyIff(fs: seq<Field>)
    ensures Members(fs) == [] <==> forall k :: 0 <= k < |fs| ==> !fs[k].Written?
  {
    if fs != [] {
      var init := fs[..|fs| - 1];
      MembersEmptyIff(init);
      assert forall k :: 0 <= k < |init| ==> init[k] == fs[k];
    }
  }

  /** With distinct field keys, a member with a field's key is emitted exactly when that
      field is written, and carries that field's text. */
  lemma MemberOfField(fs: seq<Field>, k: nat, t: Bytes)
    requires k < |fs| && Distinct(FieldKeys(fs))
    ensures Member(fs[k].key, t) in Members(fs) <==> fs[k] == Written(fs[k].key, t)
  {
    var key := fs[k].key;
    var ks := FieldKeys(fs);
    MemberIffWritten(fs, Member(key, t));
    if fs[k] == Written(key, t) {
      assert Written(key, t) in fs;
    }
    if Written(key, t) in fs {
      var j :| 0 <= j < |fs| && fs[j] == Written(key, t);
      assert ks[j] == key == ks[k];
      assert j == k;
    }
  }

  /** An object with no member is exactly `{}`. */
  lemma EmptyObject(ms: seq<Member>)
    ensures ObjectText(ms) == "{}" <==> ms == []
  {
    if ms != [] {
      var rs := Rendered(ms);
      assert |CommaJoin(rs)| >= |rs[|rs| - 1]| > 0;
    }
  }

  /** An encoder writes the empty object `{}` exactly when every field is left out. */
  lemma EncodeEmptyIff(fs: seq<Field>)
    ensures Encode(fs) == Ok("{}") <==> forall k :: 0 <= k < |fs| ==> fs[k].Omitted?
  {
    FirstErrorNoneIff(fs);
    MembersEmptyIff(fs);
    EmptyObject(Members(fs));
  }

  /** The emitted keys are the field keys with the omitted ones deleted, in the same order. */
  lemma {:induction false} KeysInFieldOrder(fs: seq<Field>)
    ensures IsSubsequence(MemberKeys(Members(fs)), FieldKeys(fs))
  {
    if fs != [] {
      var init := fs[..|fs| - 1];
      var last := fs[|fs| - 1];
      KeysInFieldOrder(init);
      var ys := FieldKeys(fs);
      assert ys[..|ys| - 1] == FieldKeys(init);
      if last.Written? {
        var ms := Members(init) + [Member(last.key, last.text)];
        assert Members(fs) == ms;
        var xs := MemberKeys(ms);
        assert xs[..|xs| - 1] == MemberKeys(Members(init));
        assert xs[|xs| - 1] == ys[|ys| - 1];
      } else {
        assert Members(fs) == Members(init);
        SubsequenceDropLast(MemberKeys(Members(init)), ys);
      }
    }
  }

  lemma {:induction false} SubsequenceDropLast(xs: seq<Bytes>, ys: seq<Bytes>)
    requires ys != [] && IsSubsequence(xs, ys[..|ys| - 1])
    ensures IsSubsequence(xs, ys)
    decreases |ys|, 0
  {
    if xs != [] && xs[|xs| - 1] == ys[|ys| - 1] {
      SubsequenceWeaken(xs, ys[..|ys| - 1]);
    }
  }

  lemma {:induction false} SubsequenceWeaken(xs: seq<Bytes>, ys: seq<Bytes>)
    requires xs != [] && IsSubsequence(xs, ys)
    ensures IsSubsequence(xs[..|xs| - 1], ys)
    decreases |ys|, 1
  {
    var xs' := xs[..|xs| - 1];
    var ys' := ys[..|ys| - 1];
    if xs[|xs| - 1] != ys[|ys| - 1] {
      SubsequenceWeaken(xs, ys');
    }
    SubsequenceDropLast(xs', ys);
  }

  lemma {:induction false} SubsequenceMembers(xs: seq<Bytes>, ys: seq<Bytes>, x: Bytes)
    requires IsSubsequence(xs, ys) && x in xs
    ensures x in ys
    decreases |ys|
  {
    if xs[|xs| - 1] == ys[|ys| - 1] {
      if x != xs[|xs| - 1] {
        SubsequenceMembers(xs[..|xs| - 1], ys[..|ys| - 1], x);
      }
    } else {
      SubsequenceMembers(xs, ys[..|ys| - 1], x);
    }
  }

  /** A subsequence of a list without repeats has no repeats. */
  lemma {:induction false} SubsequenceDistinct(xs: seq<Bytes>, ys: seq<Bytes>)
    requires IsSubsequence(xs, ys) && Distinct(ys)
    ensures Distinct(xs)
    decreases |ys|
  {
    if xs != [] {
      var xs', ys' := xs[..|xs| - 1], ys[..|ys| - 1];
      assert Distinct(ys');
      if xs[|xs| - 1] == ys[|ys| - 1] {
        SubsequenceDistinct(xs', ys');
        forall i | 0 <= i < |xs'| ensures xs'[i] != xs[|xs| - 1] {
          SubsequenceMembers(xs', ys', xs'[i]);
        }
      } else {
        SubsequenceDistinct(xs, ys');
      }
    }
  }

  /** No key is emitted twice when the field keys are distinct. */
  lemma NoRepeatedKey(fs: seq<Field>)
    requires Distinct(FieldKeys(fs))
    ensures Distinct(MemberKeys(Members(fs)))
  {
    KeysInFieldOrder(fs);
    SubsequenceDistinct(MemberKeys(Members(fs)), FieldKeys(fs));
  }
}
