/** The float-free wire form of a payload.

    Matrix events are Canonical JSON (Matrix specification, appendix "Canonical JSON"), which has no floating-point
    numbers, so each float travels as a one-entry object under a reserved key and user keys that start with the reserved
    prefix are escaped. */
module Wire {
  import opened Json
  import opened Prelude

  const ESCAPE_PREFIX := "$rcp_"
  const FLOAT_TAG := "$rcp_float"

  /** Python's `repr` and `float` on doubles. */
  datatype FloatText = FloatText(repr: Float -> string, parse: string -> Option<Float>)

  ghost predicate Exact(t: FloatText) {
    forall f :: t.parse(t.repr(f)) == Some(f)
  }

  predicate StartsWith(s: string, prefix: string) {
    |prefix| <= |s| && s[..|prefix|] == prefix
  }

  function EncodeKey(k: string): string {
    if StartsWith(k, ESCAPE_PREFIX) then ESCAPE_PREFIX + k else k
  }

  function DecodeKey(k: string): string {
    if StartsWith(k, ESCAPE_PREFIX + ESCAPE_PREFIX) then k[|ESCAPE_PREFIX|..] else k
  }

  lemma DecodeKeyInvertsEncodeKey(k: string)
    ensures DecodeKey(EncodeKey(k)) == k
    ensures EncodeKey(k) != FLOAT_TAG
  {
    if |k| >= 10 { assert k[..5] == k[..10][..5]; }
    if |k| >= 5 { assert k[..5][0] == k[0] && (ESCAPE_PREFIX + k)[..10] == ESCAPE_PREFIX + k[..5]; }
    assert (ESCAPE_PREFIX + k)[5..] == k;
    assert FLOAT_TAG[..5] == ESCAPE_PREFIX && FLOAT_TAG[5] == 'f' && ESCAPE_PREFIX[0] == '$';
    assert (ESCAPE_PREFIX + ESCAPE_PREFIX)[..5] == ESCAPE_PREFIX;
  }

  function EncodeKeys(ks: set<string>): (r: set<string>)
    ensures forall k :: k in ks ==> EncodeKey(k) in r
    ensures forall j :: j in r ==> DecodeKey(j) in ks && EncodeKey(DecodeKey(j)) == j
    ensures FLOAT_TAG !in r
  {
    EveryKeyInverts();
    set k | k in ks :: EncodeKey(k)
  }

  lemma EveryKeyInverts()
    ensures forall k :: DecodeKey(EncodeKey(k)) == k && EncodeKey(k) != FLOAT_TAG
  {
    forall k ensures DecodeKey(EncodeKey(k)) == k && EncodeKey(k) != FLOAT_TAG { DecodeKeyInvertsEncodeKey(k); }
  }

  function Encode(v: Value, t: FloatText): Value {
    match v
    case Real(f) => Obj(map[FLOAT_TAG := Str(t.repr(f))])
    case Obj(o) => Obj(map j | j in EncodeKeys(o.Keys) :: Encode(o[DecodeKey(j)], t))
    case Arr(xs) => Arr(seq(|xs|, i requires 0 <= i < |xs| => Encode(xs[i], t)))
    case _ => v
  }

  datatype Error = Malformed | Ambiguous
  datatype Result = Ok(value: Value) | Err(error: Error)

  predicate IsTag(o: map<string, Value>) {
    o.Keys == {FLOAT_TAG} && o[FLOAT_TAG].Str?
  }

  predicate Collide(ks: set<string>) {
    exists a, b :: a in ks && b in ks && DecodeKey(a) == DecodeKey(b) && a != b
  }

  /** The key among `ks` that decodes to `k`: itself, or its escaped form. */
  function SourceKey(ks: set<string>, k: string): string {
    if k in ks && DecodeKey(k) == k then k else ESCAPE_PREFIX + k
  }

  function DecodeKeys(ks: set<string>): (r: set<string>)
    ensures forall k :: k in ks ==> DecodeKey(k) in r
    ensures forall k :: k in r ==> SourceKey(ks, k) in ks && DecodeKey(SourceKey(ks, k)) == k
  {
    forall j ensures DecodeKey(j) == j || ESCAPE_PREFIX + DecodeKey(j) == j { SourceIsSelfOrEscaped(j); }
    set k | k in ks :: DecodeKey(k)
  }

  lemma SourceIsSelfOrEscaped(j: string)
    ensures DecodeKey(j) == j || ESCAPE_PREFIX + DecodeKey(j) == j
  {
    if StartsWith(j, ESCAPE_PREFIX + ESCAPE_PREFIX) {
      assert j[..5] == j[..10][..5];
      assert (ESCAPE_PREFIX + ESCAPE_PREFIX)[..5] == ESCAPE_PREFIX;
      assert j == j[..5] + j[5..];
    }
  }

  /** An object from its decoded entries.  Two keys that decode to the same key leave the result to their order. */
  function GatherObject(rs: map<string, Result>): Result {
    if exists k :: k in rs && rs[k] == Err(Malformed) then Err(Malformed)
    else if Collide(rs.Keys) || exists k :: k in rs && rs[k].Err? then Err(Ambiguous)
    else Ok(Obj(map k | k in DecodeKeys(rs.Keys) :: rs[SourceKey(rs.Keys, k)].value))
  }

  function GatherList(rs: seq<Result>): Result {
    if exists i :: 0 <= i < |rs| && rs[i] == Err(Malformed) then Err(Malformed)
    else if exists i :: 0 <= i < |rs| && rs[i].Err? then Err(Ambiguous)
    else Ok(Arr(seq(|rs|, i requires 0 <= i < |rs| => rs[i].value)))
  }

  /** A tag whose text is no float is malformed wherever it stands. */
  function Decode(w: Value, t: FloatText): Result {
    match w
    case Obj(o) =>
      if IsTag(o) then
        match t.parse(o[FLOAT_TAG].text)
        case Some(f) => Ok(Real(f))
        case None => Err(Malformed)
      else GatherObject(map k | k in o :: Decode(o[k], t))
    case Arr(xs) => GatherList(seq(|xs|, i requires 0 <= i < |xs| => Decode(xs[i], t)))
    case _ => Ok(w)
  }

  /** Somewhere in `w` a float tag has a text that is no float. */
  ghost predicate BadTag(w: Value, t: FloatText) {
    match w
    case Obj(o) =>
      if IsTag(o) then t.parse(o[FLOAT_TAG].text).None? else exists k | k in o :: BadTag(o[k], t)
    case Arr(xs) => exists i | 0 <= i < |xs| :: BadTag(xs[i], t)
    case _ => false
  }

  /** Decoding reports a malformed value exactly when it has such a tag anywhere, whatever else is wrong with it. */
  lemma {:induction false} MalformedExactly(w: Value, t: FloatText)
    ensures Decode(w, t) == Err(Malformed) <==> BadTag(w, t)
  {
    match w
    case Obj(o) =>
      if !IsTag(o) {
        var rs := map k | k in o :: Decode(o[k], t);
        forall k | k in o ensures rs[k] == Err(Malformed) <==> BadTag(o[k], t) { MalformedExactly(o[k], t); }
      }
    case Arr(xs) =>
      var rs := seq(|xs|, i requires 0 <= i < |xs| => Decode(xs[i], t));
      forall i | 0 <= i < |xs| ensures rs[i] == Err(Malformed) <==> BadTag(xs[i], t) { MalformedExactly(xs[i], t); }
    case _ =>
  }

  // ---------------------------------------------------------------------------
  // Round trip

  /** Decoding inverts encoding on every payload, whatever its keys. */
  lemma {:induction false} RoundTrip(v: Value, t: FloatText)
    requires Exact(t)
    ensures Decode(Encode(v, t), t) == Ok(v)
  {
    match v
    case Obj(o) =>
      forall k | k in o ensures Decode(Encode(o[k], t), t) == Ok(o[k]) { RoundTrip(o[k], t); }
      ObjectRoundTrip(o, t);
    case Arr(xs) =>
      forall i | 0 <= i < |xs| ensures Decode(Encode(xs[i], t), t) == Ok(xs[i]) { RoundTrip(xs[i], t); }
      GatherOkList(seq(|xs|, i requires 0 <= i < |xs| => Decode(Encode(v, t).items[i], t)), xs);
    case _ =>
  }

  lemma GatherOkList(rs: seq<Result>, xs: seq<Value>)
    requires |rs| == |xs| && forall i :: 0 <= i < |rs| ==> rs[i] == Ok(xs[i])
    ensures GatherList(rs) == Ok(Arr(xs))
  {
    assert GatherList(rs).value.items == xs;
  }

  lemma {:induction false} ObjectRoundTrip(o: map<string, Value>, t: FloatText)
    requires forall k :: k in o ==> Decode(Encode(o[k], t), t) == Ok(o[k])
    ensures Decode(Encode(Obj(o), t), t) == Ok(Obj(o))
  {
    var w := Encode(Obj(o), t).fields;
    var rs := map k | k in w :: Decode(w[k], t);
    assert Decode(Obj(w), t) == GatherObject(rs);
    GatherOkObject(rs, o);
  }

  lemma GatherOkObject(rs: map<string, Result>, o: map<string, Value>)
    requires rs.Keys == EncodeKeys(o.Keys) && forall j :: j in rs ==> rs[j] == Ok(o[DecodeKey(j)])
    ensures GatherObject(rs) == Ok(Obj(o))
  {
    EveryKeyInverts();
    assert !Collide(rs.Keys);
    var back := DecodeKeys(rs.Keys);
    forall k | k in o ensures k in back { assert EncodeKey(k) in rs.Keys; }
    assert back == o.Keys;
    var m := map k | k in back :: rs[SourceKey(rs.Keys, k)].value;
    forall k | k in o ensures m[k] == o[k] { assert rs[SourceKey(rs.Keys, k)] == Ok(o[k]); }
    assert m == o;
  }

  /** Distinct payloads have distinct wire forms. */
  lemma EncodingIsInjective(v: Value, u: Value, t: FloatText)
    requires Exact(t) && Encode(v, t) == Encode(u, t)
    ensures v == u
  {
    RoundTrip(v, t);
    RoundTrip(u, t);
  }

  // ---------------------------------------------------------------------------
  // What the encoding looks like

  predicate FloatFree(v: Value) {
    match v
    case Real(_) => false
    case Obj(o) => forall k :: k in o ==> FloatFree(o[k])
    case Arr(xs) => forall i :: 0 <= i < |xs| ==> FloatFree(xs[i])
    case _ => true
  }

  lemma {:induction false} EncodingIsFloatFree(v: Value, t: FloatText)
    ensures FloatFree(Encode(v, t))
  {
    match v
    case Obj(o) =>
      forall k | k in o ensures FloatFree(Encode(o[k], t)) { EncodingIsFloatFree(o[k], t); }
    case Arr(xs) =>
      forall i | 0 <= i < |xs| ensures FloatFree(Encode(xs[i], t)) { EncodingIsFloatFree(xs[i], t); }
    case _ =>
  }

  /** No dictionary entry is lost: each keeps its own key, and there are as many. */
  lemma EveryEntryIsCarried(o: map<string, Value>, t: FloatText)
    ensures var w := Encode(Obj(o), t).fields;
      |w| == |o| && forall k :: k in o ==> EncodeKey(k) in w && w[EncodeKey(k)] == Encode(o[k], t)
  {
    var w := Encode(Obj(o), t).fields;
    EveryKeyInverts();
    assert w.Keys == EncodeKeys(o.Keys);
    EncodeKeysCount(o.Keys);
  }

  lemma {:induction false} EncodeKeysCount(ks: set<string>)
    ensures |EncodeKeys(ks)| == |ks|
  {
    EveryKeyInverts();
    if k :| k in ks {
      EncodeKeysCount(ks - {k});
      forall j ensures j in EncodeKeys(ks) <==> j in EncodeKeys(ks - {k}) + {EncodeKey(k)} {
        if j in EncodeKeys(ks) && DecodeKey(j) != k { assert DecodeKey(j) in ks - {k} && EncodeKey(DecodeKey(j)) == j; }
      }
      assert EncodeKeys(ks) == EncodeKeys(ks - {k}) + {EncodeKey(k)};
      assert EncodeKey(k) !in EncodeKeys(ks - {k});
    } else {
      assert EncodeKeys(ks) == {};
    }
  }

  /** The wire forms there are: tags hold exactly the printed form of a float, and reserved keys are escaped. */
  predicate Canonical(w: Value, t: FloatText) {
    match w
    case Real(_) => false
    case Obj(o) =>
      if IsTag(o) then
        var f := t.parse(o[FLOAT_TAG].text);
        f.Some? && t.repr(f.value) == o[FLOAT_TAG].text
      else
        forall k :: k in o ==> EncodeKey(DecodeKey(k)) == k && Canonical(o[k], t)
    case Arr(xs) => forall i :: 0 <= i < |xs| ==> Canonical(xs[i], t)
    case _ => true
  }

  lemma {:induction false} EncodingIsCanonical(v: Value, t: FloatText)
    requires Exact(t)
    ensures Canonical(Encode(v, t), t)
  {
    match v
    case Obj(o) =>
      forall k | k in o ensures Canonical(Encode(o[k], t), t) { EncodingIsCanonical(o[k], t); }
      assert !IsTag(Encode(v, t).fields);
    case Arr(xs) =>
      forall i | 0 <= i < |xs| ensures Canonical(Encode(xs[i], t), t) { EncodingIsCanonical(xs[i], t); }
    case _ =>
  }

  lemma {:induction false} CanonicalReturns(w: Value, t: FloatText)
    requires Canonical(w, t)
    ensures Decode(w, t).Ok? && Encode(Decode(w, t).value, t) == w
  {
    match w
    case Obj(o) =>
      if !IsTag(o) {
        forall k | k in o
          ensures Decode(o[k], t).Ok? && Encode(Decode(o[k], t).value, t) == o[k]
        {
          CanonicalReturns(o[k], t);
        }
        ObjectReturns(o, t);
      }
    case Arr(xs) =>
      forall i | 0 <= i < |xs|
        ensures Decode(xs[i], t).Ok? && Encode(Decode(xs[i], t).value, t) == xs[i]
      {
        CanonicalReturns(xs[i], t);
      }
      ListReturns(xs, t);
    case _ =>
  }

  lemma ListReturns(xs: seq<Value>, t: FloatText)
    requires forall i :: 0 <= i < |xs| ==> Decode(xs[i], t).Ok? && Encode(Decode(xs[i], t).value, t) == xs[i]
    ensures Decode(Arr(xs), t).Ok? && Encode(Decode(Arr(xs), t).value, t) == Arr(xs)
  {
    var ys := seq(|xs|, i requires 0 <= i < |xs| => Decode(xs[i], t).value);
    GatherOkList(seq(|xs|, i requires 0 <= i < |xs| => Decode(xs[i], t)), ys);
    assert Encode(Arr(ys), t).items == xs;
  }

  lemma ObjectReturns(w: map<string, Value>, t: FloatText)
    requires !IsTag(w)
    requires forall k :: k in w ==>
      Decode(w[k], t).Ok? && Encode(Decode(w[k], t).value, t) == w[k] && EncodeKey(DecodeKey(k)) == k
    ensures Decode(Obj(w), t).Ok? && Encode(Decode(Obj(w), t).value, t) == Obj(w)
  {
    var rs := map k | k in w :: Decode(w[k], t);
    assert Decode(Obj(w), t) == GatherObject(rs);
    GatherReturns(rs);
    EncodesTo(GatherObject(rs).value.fields, w, t);
  }

  lemma EncodesTo(o: map<string, Value>, w: map<string, Value>, t: FloatText)
    requires EncodeKeys(o.Keys) == w.Keys && forall j :: j in w ==> Encode(o[DecodeKey(j)], t) == w[j]
    ensures Encode(Obj(o), t) == Obj(w)
  {
    assert Encode(Obj(o), t).fields == w;
  }

  lemma GatherReturns(rs: map<string, Result>)
    requires forall k :: k in rs ==> rs[k].Ok? && EncodeKey(DecodeKey(k)) == k
    ensures GatherObject(rs).Ok? && GatherObject(rs).value.Obj?
    ensures var o := GatherObject(rs).value.fields;
      EncodeKeys(o.Keys) == rs.Keys && forall j :: j in rs ==> DecodeKey(j) in o && o[DecodeKey(j)] == rs[j].value
  {
    assert !Collide(rs.Keys);
    var o := GatherObject(rs).value.fields;
    assert o.Keys == DecodeKeys(rs.Keys);
    forall j | j in rs ensures DecodeKey(j) in o && o[DecodeKey(j)] == rs[j].value && j in EncodeKeys(o.Keys) {
      var s := SourceKey(rs.Keys, DecodeKey(j));
      assert EncodeKey(DecodeKey(s)) == s;
    }
    forall j | j in EncodeKeys(o.Keys) ensures j in rs {
      var s := SourceKey(rs.Keys, DecodeKey(j));
      assert EncodeKey(DecodeKey(s)) == s;
    }
  }

  /** A wire value comes back unchanged from decoding and encoding exactly when it is canonical; those are also exactly
      the values that are the encoding of something. */
  lemma CanonicalExactly(w: Value, t: FloatText)
    requires Exact(t)
    ensures Canonical(w, t) <==> Decode(w, t).Ok? && Encode(Decode(w, t).value, t) == w
    ensures Canonical(w, t) <==> exists v :: Encode(v, t) == w
  {
    if Canonical(w, t) { CanonicalReturns(w, t); }
    forall v | Encode(v, t) == w ensures Canonical(w, t) { EncodingIsCanonical(v, t); }
  }

  lemma EncodeOne(k: string, n: int, t: FloatText)
    ensures Encode(Obj(map[k := Int(n)]), t) == Obj(map[EncodeKey(k) := Int(n)])
  {
    var o: map<string, Value> := map[k := Int(n)];
    DecodeKeyInvertsEncodeKey(k);
    assert k in o.Keys;
    assert EncodeKeys(o.Keys) == {EncodeKey(k)};
    assert Encode(Obj(o), t).fields == map[EncodeKey(k) := Int(n)];
  }

  lemma GatherOne(rs: map<string, Result>, k: string, v: Value)
    requires k in rs && (forall j :: j in rs ==> j == k) && rs[k] == Ok(v) && DecodeKey(k) == k
    ensures GatherObject(rs) == Ok(Obj(map[k := v]))
  {
    assert !Collide(rs.Keys);
    OneKeyDecoded(rs.Keys, k);
    assert GatherObject(rs).value.fields == map[k := v];
  }

  lemma OneKeyDecoded(ks: set<string>, k: string)
    requires k in ks && (forall j :: j in ks ==> j == k) && DecodeKey(k) == k
    ensures k in DecodeKeys(ks) && (forall j :: j in DecodeKeys(ks) ==> j == k) && SourceKey(ks, k) == k
  {
    forall j | j in DecodeKeys(ks) ensures j == k { assert SourceKey(ks, j) == k; }
  }

  lemma DecodeOne(k: string, n: int, t: FloatText)
    requires DecodeKey(k) == k
    ensures Decode(Obj(map[k := Int(n)]), t) == Ok(Obj(map[k := Int(n)]))
  {
    var o: map<string, Value> := map[k := Int(n)];
    var rs := map j | j in o :: Decode(o[j], t);
    assert !IsTag(o);
    assert k in rs;
    GatherOne(rs, k, Int(n));
  }

  /** A reserved key that is not escaped makes a wire value that is not canonical: it comes back with the key
      escaped. */
  lemma UnescapedKeyDoesNotReturn(t: FloatText)
    ensures var w := Obj(map["$rcp_x" := Int(1)]);
      !Canonical(w, t) && Decode(w, t) == Ok(w) && Encode(w, t) == Obj(map["$rcp_$rcp_x" := Int(1)])
        && Encode(w, t) != w
  {
    var k, escaped := "$rcp_x", "$rcp_$rcp_x";
    assert |k| == 6 && |escaped| == 11 && k[..5] == ESCAPE_PREFIX && ESCAPE_PREFIX + k == escaped;
    assert EncodeKey(k) == escaped && DecodeKey(k) == k;
    EncodeOne(k, 1, t);
    DecodeOne(k, 1, t);
    NotSame(k, escaped, t);
  }

  lemma NotSame(k: string, escaped: string, t: FloatText)
    requires EncodeKey(k) == escaped && DecodeKey(k) == k && k != escaped
    ensures !Canonical(Obj(map[k := Int(1)]), t) && Obj(map[k := Int(1)]) != Obj(map[escaped := Int(1)])
  {
    var o: map<string, Value> := map[k := Int(1)];
    assert k in o && k !in map[escaped := Int(1)];
  }

  // ---------------------------------------------------------------------------
  // What a homeserver accepts

  const MAX_SAFE := 9007199254740991

  /** Canonical JSON: no floats, integers within plus or minus 2^53 - 1. */
  predicate Deliverable(w: Value) {
    match w
    case Real(_) => false
    case Int(n) => -MAX_SAFE <= n <= MAX_SAFE
    case Obj(o) => forall k :: k in o ==> Deliverable(o[k])
    case Arr(xs) => forall i :: 0 <= i < |xs| ==> Deliverable(xs[i])
    case _ => true
  }

  predicate IntegersSafe(v: Value) {
    match v
    case Int(n) => -MAX_SAFE <= n <= MAX_SAFE
    case Obj(o) => forall k :: k in o ==> IntegersSafe(o[k])
    case Arr(xs) => forall i :: 0 <= i < |xs| ==> IntegersSafe(xs[i])
    case _ => true
  }

  lemma ObjectDeliverable(o: map<string, Value>, t: FloatText)
    requires forall k :: k in o ==> (Deliverable(Encode(o[k], t)) <==> IntegersSafe(o[k]))
    ensures Deliverable(Encode(Obj(o), t)) <==> IntegersSafe(Obj(o))
  {
    EveryEntryIsCarried(o, t);
    var w := Encode(Obj(o), t).fields;
    assert forall j :: j in w ==> DecodeKey(j) in o && w[j] == Encode(o[DecodeKey(j)], t);
    if Deliverable(Obj(w)) {
      forall k | k in o ensures IntegersSafe(o[k]) { assert Deliverable(w[EncodeKey(k)]); }
    }
  }

  /** The encoding removes every obstacle but one: a message is deliverable exactly when its integers are in range. */
  lemma {:induction false} DeliverableExactly(v: Value, t: FloatText)
    ensures Deliverable(Encode(v, t)) <==> IntegersSafe(v)
  {
    match v
    case Obj(o) =>
      forall k | k in o ensures Deliverable(Encode(o[k], t)) <==> IntegersSafe(o[k]) { DeliverableExactly(o[k], t); }
      ObjectDeliverable(o, t);
    case Arr(xs) =>
      forall i | 0 <= i < |xs|
        ensures Deliverable(Encode(xs[i], t)) <==> IntegersSafe(xs[i])
      {
        DeliverableExactly(xs[i], t);
      }
      var ws := Encode(v, t).items;
      assert forall i :: 0 <= i < |xs| ==> ws[i] == Encode(xs[i], t);
      if Deliverable(Arr(ws)) {
        forall i | 0 <= i < |xs| ensures IntegersSafe(xs[i]) { assert Deliverable(ws[i]); }
      }
    case _ =>
  }

  /** The first integer that no homeserver takes is encoded all the same. */
  lemma UnsafeIntegerPasses(t: FloatText)
    ensures Encode(Int(MAX_SAFE + 1), t) == Int(9007199254740992) && !Deliverable(Encode(Int(MAX_SAFE + 1), t))
  {
    DeliverableExactly(Int(MAX_SAFE + 1), t);
  }
}
