/** The binary wire format of cluster invalidations: length-prefixed payloads, back to back
    in a counted batch behind a small header. What the bytes mean, and when a batch survives
    the round trip. */
module Codec {
  import opened Bytes

  const MaxString := 65535
  const MaxEvents := 4096
  const Magic: Byte := 0x42
  const Version: Byte := 3

  type Text = seq<Byte>
  type Key = k: seq<Byte> | |k| == 16 witness seq(16, _ => 0)
  type Unsigned = n: nat | n < 0x1_0000_0000_0000_0000
  type Signed = n: int | -0x8000_0000_0000_0000 <= n < 0x8000_0000_0000_0000

  /** Go's zero time is not the Unix epoch. */
  datatype Time = Zero | At(nanos: Signed)

  datatype Kind = Purges | Refreshes

  datatype Event =
    | Purge(key: Key, varyKey: Text, issuer: Text, issuedAt: Time, number: Unsigned)
    | Refresh(key: Key, issuer: Text, issuedAt: Time, number: Unsigned)

  /** One of the four batch codecs; gossip frames carry a type byte. */
  datatype Codec = Codec(kind: Kind, gossip: bool)

  datatype Error = ShortFrame | BadMagic | BadVersion | WrongType | StringTooLong | TooMany | TrailingBytes

  datatype Result<T> = Ok(value: T) | Err(error: Error)

  /** The strings fit their length fields. */
  predicate Fits(e: Event) {
    (e.Purge? ==> |e.varyKey| <= MaxString) && |e.issuer| <= MaxString
  }

  // ---- Meaning of the bytes ----

  function EncodeTime(t: Time): Signed {
    if t.Zero? then 0 else t.nanos
  }

  function DecodeTime(n: Signed): Time {
    if n == 0 then Zero else At(n)
  }

  function ToUnsigned(n: Signed): Unsigned {
    if n < 0 then n + 0x1_0000_0000_0000_0000 else n
  }

  function ToSigned(n: Unsigned): Signed {
    if n < 0x8000_0000_0000_0000 then n else n - 0x1_0000_0000_0000_0000
  }

  function StringBytes(s: Text): (b: Text)
    ensures |b| == 2 + |s|
  {
    LittleEndian(|s|, 2) + s
  }

  function TailBytes(t: Time, number: Unsigned): (b: Text)
    ensures |b| == 16
  {
    LittleEndian(ToUnsigned(EncodeTime(t)), 8) + LittleEndian(number, 8)
  }

  function PayloadLen(e: Event): nat {
    if e.Purge? then 16 + 2 + |e.varyKey| + 2 + |e.issuer| + 8 + 8 else 16 + 2 + |e.issuer| + 8 + 8
  }

  function Payload(e: Event): (b: Text)
    ensures |b| == PayloadLen(e)
  {
    if e.Purge? then
      e.key + StringBytes(e.varyKey) + StringBytes(e.issuer) + TailBytes(e.issuedAt, e.number)
    else
      e.key + StringBytes(e.issuer) + TailBytes(e.issuedAt, e.number)
  }

  function Payloads<E>(put: E -> Text, evts: seq<E>): Text {
    if evts == [] then [] else put(evts[0]) + Payloads(put, evts[1..])
  }

  function Header(c: Codec): (b: Text)
    ensures |b| == HeaderLen(c)
  {
    [Magic, Version] + if c.gossip then [TypeByte(c.kind)] else []
  }

  function HeaderLen(c: Codec): nat {
    if c.gossip then 3 else 2
  }

  function TypeByte(k: Kind): Byte {
    if k == Purges then 4 else 5
  }

  /** The whole frame; the count field holds 32 bits. */
  function Frame(c: Codec, evts: seq<Event>): Text {
    Header(c) + LittleEndian(|evts|, 4) + Payloads(Payload, evts)
  }

  // ---- Reading from the front of a byte string ----

  datatype Parse<T> = Got(value: T, rest: Text) | Short

  function ReadText(s: Text): Parse<Text> {
    if |s| < 2 then Short
    else
      var n := FromLittleEndian(s[..2]);
      if |s| < 2 + n then Short else Got(s[2..2 + n], s[2 + n..])
  }

  lemma UnsignedBytes(b: Text)
    requires |b| == 8
    ensures FromLittleEndian(b) < 0x1_0000_0000_0000_0000
  {
    LittleEndianWrites(b);
    Pow256Known();
  }

  function ReadUnsigned(b: Text): Unsigned
    requires |b| == 8
  {
    UnsignedBytes(b);
    FromLittleEndian(b)
  }

  function ReadTail(s: Text): Parse<(Time, Unsigned)> {
    if |s| < 16 then Short
    else Got((DecodeTime(ToSigned(ReadUnsigned(s[..8]))), ReadUnsigned(s[8..16])), s[16..])
  }

  function ReadRest(s: Text): Parse<(Text, Time, Unsigned)> {
    match ReadText(s)
    case Short => Short
    case Got(issuer, s1) =>
      match ReadTail(s1)
      case Short => Short
      case Got(tail, s2) => Got((issuer, tail.0, tail.1), s2)
  }

  function ReadPayload(k: Kind, s: Text): Parse<Event> {
    if |s| < 16 then Short
    else if k == Refreshes then
      match ReadRest(s[16..])
      case Short => Short
      case Got(r, rest) => Got(Refresh(s[..16], r.0, r.1, r.2), rest)
    else
      match ReadText(s[16..])
      case Short => Short
      case Got(vary, s1) =>
        match ReadRest(s1)
        case Short => Short
        case Got(r, rest) => Got(Purge(s[..16], vary, r.0, r.1, r.2), rest)
  }

  function Reader(k: Kind): Text -> Parse<Event> {
    b => ReadPayload(k, b)
  }

  function ReadPayloads<E>(read: Text -> Parse<E>, s: Text, n: nat): Parse<seq<E>>
    decreases n
  {
    if n == 0 then Got([], s)
    else
      match read(s)
      case Short => Short
      case Got(e, s1) =>
        match ReadPayloads(read, s1, n - 1)
        case Short => Short
        case Got(es, rest) => Got([e] + es, rest)
  }

  /** The count and the bytes behind it, once the header is right. */
  function Opened(c: Codec, s: Text): Result<(nat, Text)> {
    var h := HeaderLen(c);
    if |s| < h then Err(ShortFrame)
    else if s[0] != Magic then Err(BadMagic)
    else if s[1] != Version then Err(BadVersion)
    else if c.gossip && s[2] != TypeByte(c.kind) then Err(WrongType)
    else if |s| < h + 4 then Err(ShortFrame)
    else Ok((FromLittleEndian(s[h..h + 4]), s[h + 4..]))
  }

  /** What a byte string means as a batch frame, or why it is refused. */
  function Decoded(c: Codec, s: Text): Result<seq<Event>> {
    match Opened(c, s)
    case Err(error) => Err(error)
    case Ok((n, body)) =>
      if n > MaxEvents then Err(TooMany)
      else
        match ReadPayloads(Reader(c.kind), body, n)
        case Short => Err(ShortFrame)
        case Got(evts, rest) => if rest == [] then Ok(evts) else Err(TrailingBytes)
  }

  // ---- Reading undoes writing, and writing undoes reading ----

  lemma TextReads(x: Text, rest: Text)
    requires |x| <= MaxString
    ensures ReadText(StringBytes(x) + rest) == Got(x, rest)
  {
    var s := StringBytes(x) + rest;
    assert s[..2] == LittleEndian(|x|, 2);
    Pow256Known();
    LittleEndianReads(|x|, 2);
    assert s[2..2 + |x|] == x && s[2 + |x|..] == rest;
  }

  lemma TextWrites(s: Text)
    requires ReadText(s).Got?
    ensures var p := ReadText(s); s == StringBytes(p.value) + p.rest && |p.value| <= MaxString
  {
    LittleEndianWrites(s[..2]);
    Pow256Known();
    var n := FromLittleEndian(s[..2]);
    assert s == s[..2] + s[2..2 + n] + s[2 + n..];
  }

  /** What a timestamp becomes: the epoch itself reads back as the zero time. */
  function Normal(t: Time): Time {
    if t == At(0) then Zero else t
  }

  lemma TailReads(t: Time, number: Unsigned, rest: Text)
    ensures ReadTail(TailBytes(t, number) + rest) == Got((Normal(t), number), rest)
  {
    var s := TailBytes(t, number) + rest;
    Pow256Known();
    assert s[..8] == LittleEndian(ToUnsigned(EncodeTime(t)), 8) && s[8..16] == LittleEndian(number, 8);
    LittleEndianReads(ToUnsigned(EncodeTime(t)), 8);
    LittleEndianReads(number, 8);
    assert s[16..] == rest;
  }

  lemma TailWrites(s: Text)
    requires ReadTail(s).Got?
    ensures var p := ReadTail(s); s == TailBytes(p.value.0, p.value.1) + p.rest && p.value.0 != At(0)
  {
    LittleEndianWrites(s[..8]);
    LittleEndianWrites(s[8..16]);
    assert s == s[..8] + s[8..16] + s[16..];
  }

  lemma RestReads(issuer: Text, t: Time, number: Unsigned, rest: Text)
    requires |issuer| <= MaxString
    ensures ReadRest(StringBytes(issuer) + TailBytes(t, number) + rest) == Got((issuer, Normal(t), number), rest)
  {
    TextReads(issuer, TailBytes(t, number) + rest);
    TailReads(t, number, rest);
    assert StringBytes(issuer) + TailBytes(t, number) + rest == StringBytes(issuer) + (TailBytes(t, number) + rest);
  }

  lemma RestWrites(s: Text)
    requires ReadRest(s).Got?
    ensures var p := ReadRest(s);
            && s == StringBytes(p.value.0) + TailBytes(p.value.1, p.value.2) + p.rest
            && |p.value.0| <= MaxString && p.value.1 != At(0)
  {
    TextWrites(s);
    var s1 := ReadText(s).rest;
    TailWrites(s1);
    var p := ReadRest(s);
    assert s == StringBytes(p.value.0) + (TailBytes(p.value.1, p.value.2) + p.rest);
  }

  function NormalEvent(e: Event): Event {
    e.(issuedAt := Normal(e.issuedAt))
  }

  function KindOf(e: Event): Kind {
    if e.Purge? then Purges else Refreshes
  }

  lemma Cut(a: Text, b: Text)
    ensures (a + b)[..|a|] == a && (a + b)[|a|..] == b
  {}

  lemma Regroup(a: Text, b: Text, c: Text, r: Text)
    ensures a + b + c + r == a + (b + c + r)
    ensures c == [] ==> a + b + r == a + (b + r)
  {}

  lemma Regroup2(a: Text, b: Text, c: Text, d: Text, r: Text)
    ensures a + b + c + d + r == a + (b + (c + d + r))
  {}

  lemma RefreshReads(e: Event, rest: Text)
    requires e.Refresh? && Fits(e)
    ensures ReadPayload(Refreshes, Payload(e) + rest) == Got(NormalEvent(e), rest)
  {
    var issuer, tail := StringBytes(e.issuer), TailBytes(e.issuedAt, e.number);
    Regroup(e.key, issuer, tail, rest);
    Cut(e.key, issuer + tail + rest);
    RestReads(e.issuer, e.issuedAt, e.number, rest);
  }

  lemma PurgeReads(e: Event, rest: Text)
    requires e.Purge? && Fits(e)
    ensures ReadPayload(Purges, Payload(e) + rest) == Got(NormalEvent(e), rest)
  {
    var vary, issuer, tail := StringBytes(e.varyKey), StringBytes(e.issuer), TailBytes(e.issuedAt, e.number);
    Regroup2(e.key, vary, issuer, tail, rest);
    Cut(e.key, vary + (issuer + tail + rest));
    TextReads(e.varyKey, issuer + tail + rest);
    RestReads(e.issuer, e.issuedAt, e.number, rest);
  }

  lemma PayloadReads(e: Event, rest: Text)
    requires Fits(e)
    ensures ReadPayload(KindOf(e), Payload(e) + rest) == Got(NormalEvent(e), rest)
  {
    if e.Purge? { PurgeReads(e, rest); } else { RefreshReads(e, rest); }
  }

  lemma RefreshWrites(s: Text)
    requires ReadPayload(Refreshes, s).Got?
    ensures var p := ReadPayload(Refreshes, s);
            && s == Payload(p.value) + p.rest
            && KindOf(p.value) == Refreshes && Fits(p.value) && p.value.issuedAt != At(0)
  {
    RestWrites(s[16..]);
    var p := ReadPayload(Refreshes, s);
    assert s == s[..16] + s[16..];
    Regroup(s[..16], StringBytes(p.value.issuer), TailBytes(p.value.issuedAt, p.value.number), p.rest);
  }

  lemma PurgeWrites(s: Text)
    requires ReadPayload(Purges, s).Got?
    ensures var p := ReadPayload(Purges, s);
            && s == Payload(p.value) + p.rest
            && KindOf(p.value) == Purges && Fits(p.value) && p.value.issuedAt != At(0)
  {
    TextWrites(s[16..]);
    RestWrites(ReadText(s[16..]).rest);
    var p := ReadPayload(Purges, s);
    assert s == s[..16] + s[16..];
    Regroup2(s[..16], StringBytes(p.value.varyKey), StringBytes(p.value.issuer),
             TailBytes(p.value.issuedAt, p.value.number), p.rest);
  }

  lemma PayloadWrites(k: Kind, s: Text)
    requires ReadPayload(k, s).Got?
    ensures var p := ReadPayload(k, s);
            && s == Payload(p.value) + p.rest
            && KindOf(p.value) == k && Fits(p.value) && p.value.issuedAt != At(0)
  {
    if k == Purges { PurgeWrites(s); } else { RefreshWrites(s); }
  }

  function NormalAll(evts: seq<Event>): (r: seq<Event>)
    ensures |r| == |evts|
  {
    if evts == [] then [] else [NormalEvent(evts[0])] + NormalAll(evts[1..])
  }

  lemma {:induction false} PayloadsRead(k: Kind, evts: seq<Event>)
    requires forall e | e in evts :: KindOf(e) == k && Fits(e)
    ensures ReadPayloads(Reader(k), Payloads(Payload, evts), |evts|) == Got(NormalAll(evts), [])
  {
    if evts != [] {
      PayloadReads(evts[0], Payloads(Payload, evts[1..]));
      PayloadsRead(k, evts[1..]);
    }
  }

  /** If one read undoes one write, reading a batch undoes writing it. */
  lemma {:induction false} PayloadsWrite<E(!new)>(
    put: E -> Text, read: Text -> Parse<E>, ok: E -> bool, s: Text, n: nat)
    requires forall b :: read(b).Got? ==> b == put(read(b).value) + read(b).rest && ok(read(b).value)
    requires ReadPayloads(read, s, n).Got?
    ensures var p := ReadPayloads(read, s, n);
            s == Payloads(put, p.value) + p.rest && |p.value| == n && forall e | e in p.value :: ok(e)
    decreases n
  {
    if n > 0 {
      var s1 := read(s).rest;
      PayloadsWrite(put, read, ok, s1, n - 1);
      var p := ReadPayloads(read, s, n);
      var es := ReadPayloads(read, s1, n - 1).value;
      assert p.value[1..] == es && p.value[0] == read(s).value;
      Regroup(put(p.value[0]), Payloads(put, es), [], p.rest);
    }
  }

  lemma OpenedReads(c: Codec, n: nat, body: Text)
    requires n < 0x1_0000_0000
    ensures Opened(c, Header(c) + LittleEndian(n, 4) + body) == Ok((n, body))
  {
    var s, h := Header(c) + LittleEndian(n, 4) + body, HeaderLen(c);
    Pow256Known();
    LittleEndianReads(n, 4);
    Cut(Header(c) + LittleEndian(n, 4), body);
    Cut(Header(c), LittleEndian(n, 4));
    assert s[h..h + 4] == s[..h + 4][h..];
  }

  lemma OpenedWrites(c: Codec, s: Text)
    requires Opened(c, s).Ok?
    ensures var (n, body) := Opened(c, s).value; s == Header(c) + LittleEndian(n, 4) + body
  {
    var h := HeaderLen(c);
    LittleEndianWrites(s[h..h + 4]);
    assert s == s[..h] + s[h..h + 4] + s[h + 4..];
    assert s[..h] == Header(c);
  }

  /** Decoding an encoded batch gives every event back, the epoch timestamps as zero times. */
  lemma FrameReads(c: Codec, evts: seq<Event>)
    requires forall e | e in evts :: KindOf(e) == c.kind && Fits(e)
    requires |evts| <= MaxEvents
    ensures Decoded(c, Frame(c, evts)) == Ok(NormalAll(evts))
  {
    OpenedReads(c, |evts|, Payloads(Payload, evts));
    PayloadsRead(c.kind, evts);
  }

  /** Whatever a decoder accepts is exactly the encoding of what it returned. */
  lemma AcceptedIsEncoding(c: Codec, s: Text)
    requires Decoded(c, s).Ok?
    ensures var evts := Decoded(c, s).value;
            && s == Frame(c, evts) && |evts| <= MaxEvents
            && forall e | e in evts :: KindOf(e) == c.kind && Fits(e) && e.issuedAt != At(0)
  {
    OpenedWrites(c, s);
    var (n, body) := Opened(c, s).value;
    forall b | ReadPayload(c.kind, b).Got?
      ensures var p := ReadPayload(c.kind, b); b == Payload(p.value) + p.rest && Readable(c.kind, p.value)
    {
      PayloadWrites(c.kind, b);
    }
    PayloadsWrite(Payload, Reader(c.kind), e => Readable(c.kind, e), body, n);
    var evts := Decoded(c, s).value;
    assert Payloads(Payload, evts) + [] == Payloads(Payload, evts);
    assert forall e | e in evts :: Readable(c.kind, e);
  }

  /** An event some bytes decode to. */
  predicate Readable(k: Kind, e: Event) {
    KindOf(e) == k && Fits(e) && e.issuedAt != At(0)
  }

  lemma {:induction false} NormalSame(evts: seq<Event>)
    ensures NormalAll(evts) == evts <==> forall e | e in evts :: e.issuedAt != At(0)
  {
    if evts != [] {
      NormalSame(evts[1..]);
      assert evts == [evts[0]] + evts[1..];
      assert NormalAll(evts)[1..] == NormalAll(evts[1..]);
    }
  }

  /** The round trip holds exactly for batches of at most 4096 events without an epoch timestamp. */
  lemma RoundTrip(c: Codec, evts: seq<Event>)
    requires forall e | e in evts :: KindOf(e) == c.kind && Fits(e)
    ensures Decoded(c, Frame(c, evts)) == Ok(evts)
            <==> |evts| <= MaxEvents && forall e | e in evts :: e.issuedAt != At(0)
  {
    if |evts| <= MaxEvents {
      FrameReads(c, evts);
      NormalSame(evts);
    } else if Decoded(c, Frame(c, evts)).Ok? {
      AcceptedIsEncoding(c, Frame(c, evts));
    }
  }
}
