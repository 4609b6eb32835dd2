/**
  Decoding of a verdict message: the compact JWS form of section 7.1 of RFC 7515 when a key is set, plain JSON
  otherwise.
*/
module Signing {
  import opened Wrappers
  import opened Store

  /** A byte string; one `char` per byte. */
  type Bytes = string

  datatype Verdict = Verdict(chatId: string, messageId: string, status: string)

  /** The codecs the decoder calls. `verify` checks a signature over a signing input with the configured key. */
  datatype Codec = Codec(
    hasKey: bool,
    base64: Bytes -> Option<Bytes>,
    verify: (Bytes, Bytes) -> bool,
    unmarshal: Bytes -> Option<Verdict>,
    parse: string -> Option<MessageId>)

  datatype DecodeError = WrongPartCount(parts: nat) | BadBody | BadSignature | BadJson | BadMessageId

  /** `strings.Split(s, ".")`. */
  function Split(s: Bytes): (parts: seq<Bytes>)
    ensures |parts| >= 1
  {
    if s == "" then [""]
    else
      var rest := Split(s[1..]);
      if s[0] == '.' then [""] + rest else [[s[0]] + rest[0]] + rest[1..]
  }

  /** `strings.Join(parts, ".")`. */
  function Join(parts: seq<Bytes>): Bytes {
    if parts == [] then ""
    else if |parts| == 1 then parts[0]
    else parts[0] + "." + Join(parts[1..])
  }

  function Dots(s: Bytes): nat {
    if s == "" then 0 else (if s[0] == '.' then 1 else 0) + Dots(s[1..])
  }

  function DecodeJson(codec: Codec, data: Bytes): Result<(Verdict, MessageId), DecodeError> {
    match codec.unmarshal(data)
    case None => Failure(BadJson)
    case Some(v) =>
      match codec.parse(v.messageId)
      case None => Failure(BadMessageId)
      case Some(id) => Success((v, id))
  }

  /** `decodeMsg`. */
  function DecodeMsg(codec: Codec, msg: Bytes): Result<(Verdict, MessageId), DecodeError> {
    if !codec.hasKey then DecodeJson(codec, msg)
    else
      var parts := Split(msg);
      if |parts| != 3 then Failure(WrongPartCount(|parts|))
      else
        match codec.base64(parts[1])
        case None => Failure(BadBody)
        case Some(data) =>
          if !codec.verify(Join(parts[0..2]), parts[2]) then Failure(BadSignature)
          else DecodeJson(codec, data)
  }

  /** A decoded verdict names the message that its identifier parses to. */
  lemma DecodedId(codec: Codec, msg: Bytes)
    ensures DecodeMsg(codec, msg).Success? ==>
        codec.parse(DecodeMsg(codec, msg).value.0.messageId) == Some(DecodeMsg(codec, msg).value.1)
  {
  }

  lemma {:induction false} JoinSplit(s: Bytes)
    ensures Join(Split(s)) == s
    ensures |Split(s)| == Dots(s) + 1
    ensures forall i | 0 <= i < |Split(s)| :: '.' !in Split(s)[i]
  {
    if s != "" {
      var rest := Split(s[1..]);
      JoinSplit(s[1..]);
      if s[0] == '.' {
        assert Split(s)[1..] == rest;
        assert "" + "." + s[1..] == s;
      } else {
        assert Split(s)[1..] == rest[1..];
        assert [s[0]] + s[1..] == s;
        if |rest| > 1 {
          assert Split(s) == [[s[0]] + rest[0]] + rest[1..];
          assert Join(Split(s)) == ([s[0]] + rest[0]) + "." + Join(rest[1..]);
          assert Join(Split(s)) == [s[0]] + (rest[0] + "." + Join(rest[1..]));
        } else {
          assert rest == [s[1..]];
        }
      }
    }
  }

  lemma {:induction false} SplitAtDot(a: Bytes, b: Bytes)
    requires '.' !in a
    ensures Split(a + "." + b) == [a] + Split(b)
  {
    var s := a + "." + b;
    if a == "" {
      assert s[1..] == b;
    } else {
      assert s[1..] == a[1..] + "." + b;
      SplitAtDot(a[1..], b);
      assert ([a[1..]] + Split(b))[1..] == Split(b);
      assert [a[0]] + a[1..] == a;
    }
  }

  lemma {:induction false} SplitWithoutDot(a: Bytes)
    requires '.' !in a
    ensures Split(a) == [a]
  {
    if a != "" {
      SplitWithoutDot(a[1..]);
      assert [a[0]] + a[1..] == a;
    }
  }

  /** Splitting undoes joining, for every non-empty list of parts without dots. */
  lemma {:induction false} SplitJoin(parts: seq<Bytes>)
    requires parts != [] && forall i | 0 <= i < |parts| :: '.' !in parts[i]
    ensures Split(Join(parts)) == parts
  {
    if |parts| == 1 {
      SplitWithoutDot(parts[0]);
    } else {
      SplitJoin(parts[1..]);
      SplitAtDot(parts[0], Join(parts[1..]));
    }
  }

  /** `msg` is three segments, and what is signed is everything up to the last dot. */
  predicate IsCompact(msg: Bytes, header: Bytes, body: Bytes, signature: Bytes) {
    && '.' !in header && '.' !in body && '.' !in signature
    && msg == header + "." + body + "." + signature
  }

  lemma CompactIsSplit(msg: Bytes, header: Bytes, body: Bytes, signature: Bytes)
    ensures IsCompact(msg, header, body, signature) <==> Split(msg) == [header, body, signature]
    ensures IsCompact(msg, header, body, signature) ==> Join([header, body]) == header + "." + body
  {
    var parts := [header, body, signature];
    assert parts[1..] == [body, signature] && [body, signature][1..] == [signature];
    assert Join([signature]) == signature;
    assert Join([body, signature]) == body + "." + signature;
    assert Join(parts) == header + "." + (body + "." + signature);
    assert Join(parts) == header + "." + body + "." + signature;
    assert [header, body][1..] == [body];
    if IsCompact(msg, header, body, signature) {
      SplitJoin(parts);
    }
    if Split(msg) == parts {
      JoinSplit(msg);
      assert '.' !in parts[0] && '.' !in parts[1] && '.' !in parts[2];
    }
  }

  /**
    With a key set a message decodes just when it is a compact JWS of exactly three segments whose body decodes and
    whose signature verifies over the message up to its last dot; the verdict is then the one in the body.
  */
  lemma SignedMessageDecodes(codec: Codec, msg: Bytes, v: Verdict, id: MessageId)
    requires codec.hasKey
    ensures DecodeMsg(codec, msg) == Success((v, id)) <==>
            exists header, body, signature ::
              && IsCompact(msg, header, body, signature)
              && codec.verify(msg[..|msg| - |signature| - 1], signature)
              && codec.base64(body).Some?
              && codec.unmarshal(codec.base64(body).value) == Some(v)
              && codec.parse(v.messageId) == Some(id)
  {
    var parts := Split(msg);
    if |parts| == 3 {
      CompactIsSplit(msg, parts[0], parts[1], parts[2]);
      assert parts == [parts[0], parts[1], parts[2]];
      assert parts[0..2] == [parts[0], parts[1]];
      assert msg[..|msg| - |parts[2]| - 1] == parts[0] + "." + parts[1];
    }
    forall header, body, signature | IsCompact(msg, header, body, signature)
      ensures parts == [header, body, signature]
    {
      CompactIsSplit(msg, header, body, signature);
    }
  }

  /** Without a key the message itself is the JSON of the verdict, and nothing else is asked of it. */
  lemma UnsignedMessageDecodes(codec: Codec, msg: Bytes, v: Verdict, id: MessageId)
    requires !codec.hasKey
    ensures DecodeMsg(codec, msg) == Success((v, id)) <==>
            codec.unmarshal(msg) == Some(v) && codec.parse(v.messageId) == Some(id)
  {
  }

  /** With a key set, any other number of dots than two is refused, and the error tells the number of segments. */
  lemma WrongSegmentCountIsRefused(codec: Codec, msg: Bytes)
    requires codec.hasKey
    ensures Dots(msg) != 2 <==> DecodeMsg(codec, msg) == Failure(WrongPartCount(Dots(msg) + 1))
  {
    JoinSplit(msg);
  }
}
