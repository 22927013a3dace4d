/** The signed message envelope. */
module Envelope {
  import opened Prelude
  import opened Json
  import opened Wire

  const VERSION := 0
  const SIG_PREFIX := "hmac-sha256:"

  datatype Kind = KindEvent | KindCommand | KindAck {
    function Text(): string {
      match this
      case KindEvent => "event"
      case KindCommand => "command"
      case KindAck => "ack"
    }
  }

  datatype Role = Simclient | McpServer {
    function Text(): string {
      match this
      case Simclient => "simclient"
      case McpServer => "mcpserver"
    }
  }

  function KindOf(v: Value): Option<Kind> {
    if v == Str("event") then Some(KindEvent)
    else if v == Str("command") then Some(KindCommand)
    else if v == Str("ack") then Some(KindAck)
    else None
  }

  function RoleOf(v: Value): Option<Role> {
    if v == Str("simclient") then Some(Simclient)
    else if v == Str("mcpserver") then Some(McpServer)
    else None
  }

  datatype Message = Message(
    sim: string, kind: Kind, typ: string, number: int, role: Role, payload: map<string, Value>,
    ts: string, inReplyTo: Option<string>, version: int, sig: Option<string>,
    transportSender: Option<string>, transportEventId: Option<string>)

  function OptionalText(s: Option<string>): Value {
    if s.Some? then Str(s.value) else Null
  }

  /** The fields the signature covers. */
  function SignedFields(m: Message): map<string, Value> {
    map["sim" := Str(m.sim), "kind" := Str(m.kind.Text()), "type" := Str(m.typ), "seq" := Int(m.number),
        "sender_role" := Str(m.role.Text()), "payload" := Obj(m.payload), "ts" := Str(m.ts),
        "in_reply_to" := OptionalText(m.inReplyTo), "version" := Int(m.version)]
  }

  function SignedPayload(m: Message, t: FloatText): Value {
    Encode(Obj(SignedFields(m)), t)
  }

  /** The whole wire envelope; what the transport adds on receipt does not travel. */
  function ToDict(m: Message, t: FloatText): Value {
    Encode(Obj(SignedFields(m)["sig" := OptionalText(m.sig)]), t)
  }

  /** Keyed digests of a payload, from its sorted-key text. */
  type Digest = (string, Value) -> string

  function Signature(m: Message, secret: string, digest: Digest, t: FloatText): string {
    SIG_PREFIX + digest(secret, SignedPayload(m, t))
  }

  predicate Verifies(m: Message, secret: string, digest: Digest, t: FloatText) {
    m.sig.Some? && StartsWith(m.sig.value, SIG_PREFIX) && m.sig.value == Signature(m, secret, digest, t)
  }

  const FIELDS := {"sim", "kind", "type", "seq", "sender_role", "payload", "ts", "in_reply_to", "version", "sig",
    "transport_sender", "transport_event_id"}

  predicate OptionalTextAt(o: map<string, Value>, k: string) {
    k in o ==> o[k].Null? || o[k].Str?
  }

  function TextAt(o: map<string, Value>, k: string): Option<string> {
    if k in o && o[k].Str? then Some(o[k].text) else None
  }

  /** Validation: no unknown field, the required ones present, each of its type; the others have defaults. */
  function Validate(o: map<string, Value>, now: string): Option<Message> {
    if !(o.Keys <= FIELDS)
      || !("sim" in o && o["sim"].Str? && "kind" in o && KindOf(o["kind"]).Some? && "type" in o && o["type"].Str?
           && "seq" in o && o["seq"].Int? && "sender_role" in o && RoleOf(o["sender_role"]).Some?)
      || ("payload" in o && !o["payload"].Obj?) || ("ts" in o && !o["ts"].Str?)
        || ("version" in o && !o["version"].Int?)
      || !(OptionalTextAt(o, "in_reply_to") && OptionalTextAt(o, "sig") && OptionalTextAt(o, "transport_sender")
           && OptionalTextAt(o, "transport_event_id"))
    then None
    else Some(Message(
      o["sim"].text, KindOf(o["kind"]).value, o["type"].text, o["seq"].number, RoleOf(o["sender_role"]).value,
      if "payload" in o then o["payload"].fields else map[],
      TextAt(o, "ts").GetOr(now), TextAt(o, "in_reply_to"), if "version" in o then o["version"].number else VERSION,
      TextAt(o, "sig"), TextAt(o, "transport_sender"), TextAt(o, "transport_event_id")))
  }

  function FromDict(w: Value, now: string, t: FloatText): Option<Message> {
    match Decode(w, t)
    case Ok(Obj(o)) => Validate(o, now)
    case _ => None
  }

  function Signed(m: Message, secret: string, digest: Digest, t: FloatText): Message {
    m.(sig := Some(Signature(m, secret, digest, t)))
  }

  function Received(m: Message): Message {
    m.(transportSender := None, transportEventId := None)
  }

  /** `o` holds the fields of `m` under their wire names, and nothing else. */
  ghost predicate Holds(o: map<string, Value>, m: Message) {
    && o.Keys == {"sim", "kind", "type", "seq", "sender_role", "payload", "ts", "in_reply_to", "version", "sig"}
    && o["sim"] == Str(m.sim) && o["kind"] == Str(m.kind.Text()) && o["type"] == Str(m.typ) && o["seq"] == Int(m.number)
    && o["sender_role"] == Str(m.role.Text()) && o["payload"] == Obj(m.payload) && o["ts"] == Str(m.ts)
    && o["in_reply_to"] == OptionalText(m.inReplyTo) && o["version"] == Int(m.version)
      && o["sig"] == OptionalText(m.sig)
  }

  lemma ValidateReads(o: map<string, Value>, m: Message, now: string)
    requires Holds(o, m)
    ensures Validate(o, now) == Some(Received(m))
  {
  }

  lemma ValidateInvertsFields(m: Message, now: string)
    ensures Validate(SignedFields(m)["sig" := OptionalText(m.sig)], now) == Some(Received(m))
  {
    ValidateReads(SignedFields(m)["sig" := OptionalText(m.sig)], m, now);
  }

  /** For every message, secret and digest: what is received is what was signed, and it verifies. */
  lemma {:induction false} ReceivedVerifies(m: Message, secret: string, digest: Digest, now: string, t: FloatText)
    requires Exact(t)
    ensures var s := Signed(m, secret, digest, t);
      FromDict(ToDict(s, t), now, t) == Some(Received(s)) && Verifies(Received(s), secret, digest, t)
  {
    var s := Signed(m, secret, digest, t);
    RoundTrip(Obj(SignedFields(s)["sig" := OptionalText(s.sig)]), t);
    ValidateInvertsFields(s, now);
    assert SignedFields(Received(s)) == SignedFields(m);
  }

  /** The signature covers exactly the bytes that travel beside it. */
  lemma {:induction false} SignedIsWhatTravels(m: Message, t: FloatText)
    ensures SignedPayload(m, t).Obj? && ToDict(m, t).Obj?
    ensures ToDict(m, t).fields - {"sig"} == SignedPayload(m, t).fields
  {
    EncodeWithout(SignedFields(m), "sig", OptionalText(m.sig), t);
  }

  /** Encoding an object with one more, unescaped key adds that key and changes no other entry. */
  lemma EncodeWithout(o: map<string, Value>, k: string, v: Value, t: FloatText)
    requires k !in o && !StartsWith(k, ESCAPE_PREFIX)
    ensures Encode(Obj(o[k := v]), t).fields - {k} == Encode(Obj(o), t).fields
  {
    DecodeKeyInvertsEncodeKey(k);
    EveryKeyInverts();
    var a, b := EncodeKeys(o[k := v].Keys), EncodeKeys(o.Keys);
    forall j ensures j in a - {k} <==> j in b { }
  }

  predicate SameSigned(m: Message, n: Message) {
    SignedFields(m) == SignedFields(n)
  }

  /** With a collision-free digest a signature verifies for exactly the messages that agree with the signed one in every
      covered field: the encoding merges no two payloads. */
  lemma VerifiesExactlyTheSigned(m: Message, n: Message, secret: string, digest: Digest, t: FloatText)
    requires Exact(t) && forall a, b :: digest(secret, a) == digest(secret, b) ==> a == b
    ensures Verifies(n.(sig := Signed(m, secret, digest, t).sig), secret, digest, t) <==> SameSigned(m, n)
  {
    var sig := Signature(m, secret, digest, t);
    var r := n.(sig := Some(sig));
    assert SignedFields(r) == SignedFields(n);
    var a, b := digest(secret, SignedPayload(m, t)), digest(secret, SignedPayload(r, t));
    if sig == Signature(r, secret, digest, t) {
      assert (SIG_PREFIX + a)[|SIG_PREFIX|..] == a && (SIG_PREFIX + b)[|SIG_PREFIX|..] == b;
      EncodingIsInjective(Obj(SignedFields(m)), Obj(SignedFields(n)), t);
    }
  }

  /** The message object. */
  class RcpMessage {
    const sim: string
    const kind: Kind
    const typ: string
    const number: int
    const role: Role
    const payload: map<string, Value>
    const ts: string
    const inReplyTo: Option<string>
    const version: int
    var sig: Option<string>
    var transportSender: Option<string>
    var transportEventId: Option<string>

    constructor (m: Message)
      ensures Content() == m
    {
      sim, kind, typ, number, role, payload := m.sim, m.kind, m.typ, m.number, m.role, m.payload;
      ts, inReplyTo, version, sig := m.ts, m.inReplyTo, m.version, m.sig;
      transportSender, transportEventId := m.transportSender, m.transportEventId;
    }

    function Content(): Message
      reads this
    {
      Message(sim, kind, typ, number, role, payload, ts, inReplyTo, version, sig, transportSender, transportEventId)
    }

    /** Signing in place touches only the signature, and what is then sent is received intact and verifies. */
    method Sign(secret: string, digest: Digest, t: FloatText)
      modifies this`sig
      ensures Content() == Signed(old(Content()), secret, digest, t)
      ensures Exact(t) ==> forall now :: FromDict(ToDict(Content(), t), now, t) == Some(Received(Content()))
      ensures Exact(t) ==> Verifies(Received(Content()), secret, digest, t)
    {
      ghost var m := Content();
      if Exact(t) {
        forall now
          ensures FromDict(ToDict(Signed(m, secret, digest, t), t), now, t)
              == Some(Received(Signed(m, secret, digest, t)))
        {
          ReceivedVerifies(m, secret, digest, now, t);
        }
        ReceivedVerifies(m, secret, digest, "", t);
      }
      sig := Some(Signature(Content(), secret, digest, t));
    }

    method Verify(secret: string, digest: Digest, t: FloatText) returns (ok: bool)
      ensures ok == Verifies(Content(), secret, digest, t)
    {
      if sig.None? { return false; }
      if !StartsWith(sig.value, SIG_PREFIX) { return false; }
      return sig.value == SIG_PREFIX + digest(secret, SignedPayload(Content(), t));
    }
  }
}
