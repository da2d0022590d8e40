/** Writing and reading batch frames at a moving offset, and splitting batches under a
    datagram budget. */
module Wire {
  import opened Bytes
  import opened Codec

  // ---- Writing ----

  method PutUint(buf: array<Byte>, off: nat, v: nat, k: nat)
    requires off + k <= buf.Length
    modifies buf
    ensures buf[..off + k] == old(buf[..off]) + LittleEndian(v, k)
  {
    var x := v;
    for i := 0 to k
      invariant buf[..off + i] + LittleEndian(x, k - i) == old(buf[..off]) + LittleEndian(v, k)
    {
      ghost var before := buf[..off + i];
      buf[off + i] := x % 256;
      assert buf[..off + i + 1] == before + [x % 256];
      assert LittleEndian(x, k - i) == [x % 256] + LittleEndian(x / 256, k - i - 1);
      x := x / 256;
    }
    assert LittleEndian(x, 0) == [];
    assert buf[..off + k] + [] == buf[..off + k];
  }

  method PutBytes(buf: array<Byte>, off: nat, s: Text)
    requires off + |s| <= buf.Length
    modifies buf
    ensures buf[..off + |s|] == old(buf[..off]) + s
  {
    for i := 0 to |s|
      invariant buf[..off + i] == old(buf[..off]) + s[..i]
    {
      ghost var before := buf[..off + i];
      buf[off + i] := s[i];
      assert buf[..off + i + 1] == before + [s[i]];
    }
    assert s[..|s|] == s;
  }

  /** `putString`. */
  method PutString(buf: array<Byte>, off: nat, s: Text) returns (r: Result<nat>)
    requires off + 2 + |s| <= buf.Length
    modifies buf
    ensures |s| > MaxString ==> r == Err(StringTooLong)
    ensures |s| <= MaxString ==> r == Ok(off + 2 + |s|) && buf[..off + 2 + |s|] == old(buf[..off]) + StringBytes(s)
  {
    if |s| > MaxString { return Err(StringTooLong); }
    PutUint(buf, off, |s|, 2);
    PutBytes(buf, off + 2, s);
    return Ok(off + 2 + |s|);
  }

  method PutTail(buf: array<Byte>, off: nat, t: Time, number: Unsigned)
    requires off + 16 <= buf.Length
    modifies buf
    ensures buf[..off + 16] == old(buf[..off]) + TailBytes(t, number)
  {
    PutUint(buf, off, ToUnsigned(EncodeTime(t)), 8);
    PutUint(buf, off + 8, number, 8);
    Regroup(old(buf[..off]), LittleEndian(ToUnsigned(EncodeTime(t)), 8), [], LittleEndian(number, 8));
  }

  /** The strings of a payload, behind the key. */
  method PutStrings(buf: array<Byte>, off0: nat, e: Event) returns (r: Result<nat>)
    requires off0 + PayloadLen(e) - 32 <= buf.Length
    modifies buf
    ensures !Fits(e) ==> r == Err(StringTooLong)
    ensures Fits(e) ==> r == Ok(off0 + PayloadLen(e) - 32)
    ensures Fits(e) ==> buf[..off0 + PayloadLen(e) - 32] == old(buf[..off0]) + Strings(e)
  {
    var off := off0;
    if e.Purge? {
      r := PutString(buf, off, e.varyKey);
      if r.Err? { return; }
      off := r.value;
    }
    r := PutString(buf, off, e.issuer);
  }

  function Strings(e: Event): Text {
    if e.Purge? then StringBytes(e.varyKey) + StringBytes(e.issuer) else StringBytes(e.issuer)
  }

  /** `putPurgePayload` and `putRefreshPayload`. */
  method PutPayload(buf: array<Byte>, off: nat, e: Event) returns (r: Result<nat>)
    requires off + PayloadLen(e) <= buf.Length
    modifies buf
    ensures !Fits(e) ==> r == Err(StringTooLong)
    ensures Fits(e) ==> r == Ok(off + PayloadLen(e)) && buf[..off + PayloadLen(e)] == old(buf[..off]) + Payload(e)
  {
    ghost var before := buf[..off];
    PutBytes(buf, off, e.key);
    assert buf[..off + 16] == before + e.key;
    r := PutStrings(buf, off + 16, e);
    if r.Err? { return; }
    var end: nat := r.value;
    assert buf[..end] == before + e.key + Strings(e);
    PutTail(buf, end, e.issuedAt, e.number);
    PayloadParts(before, e);
    r := Ok(end + 16);
  }

  lemma PayloadParts(before: Text, e: Event)
    ensures before + e.key + Strings(e) + TailBytes(e.issuedAt, e.number) == before + Payload(e)
  {
    if e.Purge? {
      Behind2(before, e.key, StringBytes(e.varyKey), StringBytes(e.issuer), TailBytes(e.issuedAt, e.number));
    } else {
      Behind(before, e.key, StringBytes(e.issuer), TailBytes(e.issuedAt, e.number));
    }
  }

  lemma Behind(x: Text, k: Text, a: Text, t: Text)
    ensures x + k + a + t == x + (k + a + t)
  {}

  lemma Behind2(x: Text, k: Text, a: Text, b: Text, t: Text)
    ensures x + k + (a + b) + t == x + (k + a + b + t)
  {}

  function TotalLen(evts: seq<Event>): nat {
    if evts == [] then 0 else TotalLen(evts[..|evts| - 1]) + PayloadLen(evts[|evts| - 1])
  }

  lemma {:induction false} TotalLenGrows(evts: seq<Event>, i: nat)
    requires i <= |evts|
    ensures TotalLen(evts[..i]) <= TotalLen(evts)
    decreases |evts| - i
  {
    if i < |evts| {
      assert evts[..i + 1][..i] == evts[..i];
      TotalLenGrows(evts, i + 1);
    } else {
      assert evts[..i] == evts;
    }
  }

  lemma {:induction false} PayloadsLast<E>(put: E -> Text, evts: seq<E>, e: E)
    ensures Payloads(put, evts + [e]) == Payloads(put, evts) + put(e)
  {
    if evts == [] {
      assert [e][1..] == [];
      assert put(e) + [] == [] + put(e);
    } else {
      PayloadsLast(put, evts[1..], e);
      assert (evts + [e])[1..] == evts[1..] + [e];
      assert put(evts[0]) + (Payloads(put, evts[1..]) + put(e)) == put(evts[0]) + Payloads(put, evts[1..]) + put(e);
    }
  }

  lemma {:induction false} PayloadsSize(evts: seq<Event>)
    ensures |Payloads(Payload, evts)| == TotalLen(evts)
  {
    if evts != [] {
      var most, e := evts[..|evts| - 1], evts[|evts| - 1];
      assert evts == most + [e];
      PayloadsSize(most);
      PayloadsLast(Payload, most, e);
    }
  }

  lemma PutOneBytes<E>(put: E -> Text, before: Text, evts: seq<E>, i: nat)
    requires i < |evts|
    ensures before + Payloads(put, evts[..i]) + put(evts[i]) == before + Payloads(put, evts[..i + 1])
    ensures evts[..i + 1] == evts[..i] + [evts[i]]
  {
    assert evts[..i + 1] == evts[..i] + [evts[i]];
    PayloadsLast(put, evts[..i], evts[i]);
    Regroup(before, Payloads(put, evts[..i]), [], put(evts[i]));
  }

  lemma PutOneLen(evts: seq<Event>, i: nat)
    requires i < |evts|
    ensures TotalLen(evts[..i]) + PayloadLen(evts[i]) == TotalLen(evts[..i + 1]) <= TotalLen(evts)
  {
    assert evts[..i + 1][..i] == evts[..i];
    TotalLenGrows(evts, i + 1);
  }

  method PutAll(buf: array<Byte>, start: nat, evts: seq<Event>) returns (r: Result<nat>)
    requires start + TotalLen(evts) <= buf.Length
    modifies buf
    ensures (forall e | e in evts :: Fits(e)) ==> r == Ok(start + TotalLen(evts))
    ensures (forall e | e in evts :: Fits(e)) ==>
              buf[..start + TotalLen(evts)] == old(buf[..start]) + Payloads(Payload, evts)
    ensures !(forall e | e in evts :: Fits(e)) ==> r == Err(StringTooLong)
  {
    var off := start;
    for i := 0 to |evts|
      invariant off == start + TotalLen(evts[..i]) && (forall e | e in evts[..i] :: Fits(e))
      invariant off <= buf.Length && buf[..off] == old(buf[..start]) + Payloads(Payload, evts[..i])
    {
      PutOneBytes(Payload, old(buf[..start]), evts, i);
      PutOneLen(evts, i);
      r := PutPayload(buf, off, evts[i]);
      if r.Err? { return; }
      off := r.value;
    }
    assert evts[..|evts|] == evts;
    r := Ok(off);
  }

  /** `batchCodec.encode`: size the buffer, then write header, count and payloads into it. */
  method Encode(c: Codec, evts: seq<Event>) returns (r: Result<Text>)
    requires forall e | e in evts :: KindOf(e) == c.kind
    ensures (forall e | e in evts :: Fits(e)) ==> r == Ok(Frame(c, evts))
    ensures !(forall e | e in evts :: Fits(e)) ==> r == Err(StringTooLong)
  {
    var total := HeaderLen(c) + 4;
    for i := 0 to |evts|
      invariant total == HeaderLen(c) + 4 + TotalLen(evts[..i])
    {
      assert evts[..i + 1][..i] == evts[..i];
      total := total + PayloadLen(evts[i]);
    }
    assert evts[..|evts|] == evts;
    var buf := new Byte[total](_ => 0);
    PayloadsSize(evts);
    PutBytes(buf, 0, Header(c));
    assert buf[..HeaderLen(c)] == Header(c);
    PutUint(buf, HeaderLen(c), |evts|, 4);
    var end := PutAll(buf, HeaderLen(c) + 4, evts);
    if end.Err? { return Err(end.error); }
    return Ok(buf[..end.value]);
  }

  // ---- Reading ----

  /** `readString`. */
  method ReadString(buf: Text, off: nat) returns (r: Result<Text>, next: nat)
    requires off <= |buf|
    ensures match ReadText(buf[off..])
            case Short => r == Err(ShortFrame)
            case Got(s, rest) => r == Ok(s) && off + 2 + |s| == next <= |buf| && buf[next..] == rest
  {
    next := off;
    if off + 2 > |buf| { return Err(ShortFrame), next; }
    assert buf[off..][..2] == buf[off..off + 2];
    var n := FromLittleEndian(buf[off..off + 2]);
    next := off + 2;
    if next + n > |buf| { return Err(ShortFrame), next; }
    assert buf[off..][2..2 + n] == buf[next..next + n] && buf[off..][2 + n..] == buf[next + n..];
    return Ok(buf[next..next + n]), next + n;
  }

  /** The issuer, time and number both payloads end with. */
  method DecodeRest(buf: Text, start: nat) returns (r: Result<(Text, Time, Unsigned)>)
    requires start <= |buf|
    ensures match ReadRest(buf[start..])
            case Short => r == Err(ShortFrame)
            case Got(v, _) => r == Ok(v)
  {
    var issuer, off := ReadString(buf, start);
    if issuer.Err? { return Err(ShortFrame); }
    if off + 16 > |buf| { return Err(ShortFrame); }
    assert buf[off..][..8] == buf[off..off + 8] && buf[off..][8..16] == buf[off + 8..off + 16];
    var time := DecodeTime(ToSigned(ReadUnsigned(buf[off..off + 8])));
    return Ok((issuer.value, time, ReadUnsigned(buf[off + 8..off + 16])));
  }

  /** `decodePurgePayload` and `decodeRefreshPayload`. */
  method DecodePayload(k: Kind, buf: Text, start: nat) returns (r: Result<Event>)
    requires start <= |buf|
    ensures match ReadPayload(k, buf[start..])
            case Short => r == Err(ShortFrame)
            case Got(e, _) => r == Ok(e)
  {
    var off: nat := start;
    if off + 16 > |buf| { return Err(ShortFrame); }
    var key := buf[off..off + 16];
    assert buf[start..][..16] == key && buf[start..][16..] == buf[off + 16..];
    off := off + 16;
    var vary: Text := [];
    if k == Purges {
      var text, next := ReadString(buf, off);
      if text.Err? { return Err(ShortFrame); }
      vary, off := text.value, next;
    }
    var v := DecodeRest(buf, off);
    if v.Err? { return Err(ShortFrame); }
    if k == Purges { return Ok(Purge(key, vary, v.value.0, v.value.1, v.value.2)); }
    return Ok(Refresh(key, v.value.0, v.value.1, v.value.2));
  }

  /** The length fields of a payload at `off`. */
  predicate Fields(k: Kind, buf: Text, off: nat, e: Event) {
    && KindOf(e) == k && off + PayloadLen(e) <= |buf|
    && (k == Purges ==> FromLittleEndian(buf[off + 16..off + 18]) == |e.varyKey|)
    && var at := if k == Purges then off + 18 + |e.varyKey| else off + 16;
       FromLittleEndian(buf[at..at + 2]) == |e.issuer|
  }

  /** The bounded decoders read the width from the length fields a second time. */
  method Width(k: Kind, buf: Text, off: nat, ghost e: Event) returns (r: Result<nat>)
    requires off <= |buf| && Fields(k, buf, off, e)
    ensures r == Ok(PayloadLen(e))
  {
    var consumed := 16;
    if off + consumed + 2 > |buf| { return Err(ShortFrame); }
    if k == Purges {
      consumed := consumed + 2 + FromLittleEndian(buf[off + 16..off + 18]);
      if off + consumed + 2 > |buf| { return Err(ShortFrame); }
    }
    consumed := consumed + 2 + FromLittleEndian(buf[off + consumed..off + consumed + 2]) + 16;
    if off + consumed > |buf| { return Err(ShortFrame); }
    return Ok(consumed);
  }

  /** `decodePurgePayloadBounded` and `decodeRefreshPayloadBounded`. */
  method DecodeBounded(k: Kind, buf: Text, off: nat) returns (r: Result<Event>, next: nat)
    requires off <= |buf|
    ensures match ReadPayload(k, buf[off..])
            case Short => r == Err(ShortFrame)
            case Got(e, rest) => r == Ok(e) && off + PayloadLen(e) == next <= |buf| && buf[next..] == rest
  {
    next := off;
    r := DecodePayload(k, buf, off);
    if r.Err? { return; }
    FieldsOf(k, buf, off);
    var width := Width(k, buf, off, r.value);
    if width.Err? { return Err(ShortFrame), off; }
    next := off + width.value;
  }

  lemma FieldsOf(k: Kind, buf: Text, off: nat)
    requires off <= |buf| && ReadPayload(k, buf[off..]).Got?
    ensures var p := ReadPayload(k, buf[off..]);
            Fields(k, buf, off, p.value) && buf[off + PayloadLen(p.value)..] == p.rest
  {
    if k == Purges { PurgeFields(buf, off); } else { RefreshFields(buf, off); }
  }

  lemma RestAt(buf: Text, at: nat)
    requires at <= |buf| && ReadRest(buf[at..]).Got?
    ensures var p := ReadRest(buf[at..]); var end := at + 2 + |p.value.0| + 16;
            && end <= |buf| && p.rest == buf[end..]
            && FromLittleEndian(buf[at..at + 2]) == |p.value.0|
  {
    TextAt(buf, at);
    var p := ReadText(buf[at..]);
    assert p.rest[16..] == buf[at + 2 + |p.value| + 16..];
  }

  lemma RefreshFields(buf: Text, off: nat)
    requires off <= |buf| && ReadPayload(Refreshes, buf[off..]).Got?
    ensures var p := ReadPayload(Refreshes, buf[off..]);
            Fields(Refreshes, buf, off, p.value) && buf[off + PayloadLen(p.value)..] == p.rest
  {
    assert buf[off..][16..] == buf[off + 16..];
    RestAt(buf, off + 16);
  }

  lemma PurgeFields(buf: Text, off: nat)
    requires off <= |buf| && ReadPayload(Purges, buf[off..]).Got?
    ensures var p := ReadPayload(Purges, buf[off..]);
            Fields(Purges, buf, off, p.value) && buf[off + PayloadLen(p.value)..] == p.rest
  {
    assert buf[off..][16..] == buf[off + 16..];
    TextAt(buf, off + 16);
    var vary := ReadText(buf[off + 16..]);
    var at := off + 16 + 2 + |vary.value|;
    assert vary.rest == buf[at..];
    RestAt(buf, at);
    var p, rest := ReadPayload(Purges, buf[off..]), ReadRest(buf[at..]);
    assert p.value.varyKey == vary.value && p.value.issuer == rest.value.0 && p.rest == rest.rest;
  }

  lemma TextAt(buf: Text, at: nat)
    requires at <= |buf| && ReadText(buf[at..]).Got?
    ensures var p := ReadText(buf[at..]);
            && at + 2 + |p.value| <= |buf| && p.rest == buf[at + 2 + |p.value|..]
            && FromLittleEndian(buf[at..at + 2]) == |p.value|
  {
    assert buf[at..][..2] == buf[at..at + 2];
  }

  function Before<E>(es: seq<E>, p: Parse<seq<E>>): Parse<seq<E>> {
    if p.Short? then Short else Got(es + p.value, p.rest)
  }

  lemma BeforeStep<E>(read: Text -> Parse<E>, es: seq<E>, s: Text, n: nat)
    requires n > 0
    ensures read(s).Short? ==> Before(es, ReadPayloads(read, s, n)) == Short
    ensures read(s).Got? ==> Before(es, ReadPayloads(read, s, n))
                             == Before(es + [read(s).value], ReadPayloads(read, read(s).rest, n - 1))
  {
    if read(s).Got? && ReadPayloads(read, read(s).rest, n - 1).Got? {
      var more := ReadPayloads(read, read(s).rest, n - 1).value;
      assert es + ([read(s).value] + more) == es + [read(s).value] + more;
    }
  }

  ghost predicate Reads(k: Kind, read: Text -> Parse<Event>) {
    forall b {:trigger ReadPayload(k, b)} :: read(b) == ReadPayload(k, b)
  }

  /** One round of the loop over `decodeOne`: what is left to read shrinks by the event read. */
  method DecodeNext(k: Kind, buf: Text, off: nat, ghost read: Text -> Parse<Event>, ghost evts: seq<Event>,
          ghost n: nat)
      returns (r: Result<Event>, next: nat)
    requires off <= |buf| && n > 0 && Reads(k, read)
    ensures r.Err? ==> r.error == ShortFrame && Before(evts, ReadPayloads(read, buf[off..], n)) == Short
    ensures r.Ok? ==> next <= |buf| && Before(evts, ReadPayloads(read, buf[off..], n))
                                       == Before(evts + [r.value], ReadPayloads(read, buf[next..], n - 1))
  {
    BeforeStep(read, evts, buf[off..], n);
    r, next := DecodeBounded(k, buf, off);
  }

  method DecodeAll(k: Kind, buf: Text, start: nat, count: nat, ghost read: Text -> Parse<Event>)
      returns (r: Result<seq<Event>>, end: nat)
    requires start <= |buf| && Reads(k, read)
    ensures match ReadPayloads(read, buf[start..], count)
            case Short => r == Err(ShortFrame)
            case Got(evts, rest) => r == Ok(evts) && end <= |buf| && rest == buf[end..]
  {
    ghost var whole := ReadPayloads(read, buf[start..], count);
    var evts: seq<Event> := [];
    end := start;
    assert whole == Before(evts, whole) by { assert whole.Got? ==> [] + whole.value == whole.value; }
    for i := 0 to count
      invariant end <= |buf| && whole == Before(evts, ReadPayloads(read, buf[end..], count - i))
    {
      var evt, next := DecodeNext(k, buf, end, read, evts, count - i);
      if evt.Err? { return Err(ShortFrame), end; }
      evts := evts + [evt.value];
      end := next;
    }
    assert evts + [] == evts;
    return Ok(evts), end;
  }

  /** The checks of `decodeFrame` and the count field. */
  method Open(c: Codec, buf: Text) returns (r: Result<nat>)
    ensures match Opened(c, buf)
            case Err(error) => r == Err(error)
            case Ok((n, body)) => r == Ok(n) && HeaderLen(c) + 4 <= |buf| && body == buf[HeaderLen(c) + 4..]
  {
    var off := HeaderLen(c);
    if |buf| < off { return Err(ShortFrame); }
    if buf[0] != Magic { return Err(BadMagic); }
    if buf[1] != Version { return Err(BadVersion); }
    if c.gossip && buf[2] != TypeByte(c.kind) { return Err(WrongType); }
    if off + 4 > |buf| { return Err(ShortFrame); }
    return Ok(FromLittleEndian(buf[off..off + 4]));
  }

  /** `batchCodec.decode`. */
  method Decode(c: Codec, buf: Text) returns (r: Result<seq<Event>>)
    ensures r == Decoded(c, buf)
  {
    var count := Open(c, buf);
    if count.Err? { return Err(count.error); }
    if count.value > MaxEvents { return Err(TooMany); }
    var evts, off := DecodeAll(c.kind, buf, HeaderLen(c) + 4, count.value, Reader(c.kind));
    if evts.Err? { return Err(ShortFrame); }
    if off != |buf| { return Err(TrailingBytes); }
    return evts;
  }

  // ---- Splitting under a budget ----

  function BatchLen(c: Codec, part: seq<Event>): nat {
    HeaderLen(c) + 4 + TotalLen(part)
  }

  lemma FrameSize(c: Codec, part: seq<Event>)
    ensures |Frame(c, part)| == BatchLen(c, part)
  {
    PayloadsSize(part);
  }

  function Flat<E>(parts: seq<seq<E>>): seq<E> {
    if parts == [] then [] else parts[0] + Flat(parts[1..])
  }

  lemma {:induction false} FlatLast<E>(parts: seq<seq<E>>, p: seq<E>)
    ensures Flat(parts + [p]) == Flat(parts) + p
  {
    if parts == [] {
      assert [p][1..] == [];
    } else {
      FlatLast(parts[1..], p);
      assert (parts + [p])[1..] == parts[1..] + [p];
    }
  }

  /** Within the budget, or a single event. */
  predicate Within(c: Codec, budget: int, part: seq<Event>) {
    part != [] && (|part| == 1 || BatchLen(c, part) <= budget)
  }

  /** Every part is within the budget, and no part could have taken the next event too. */
  ghost predicate Greedy(c: Codec, budget: int, parts: seq<seq<Event>>) {
    && (forall p | p in parts :: Within(c, budget, p))
    && (forall i | 0 < i < |parts| :: parts[i] != [] && BatchLen(c, parts[i - 1] + parts[i][..1]) > budget)
  }

  lemma GreedyLast(c: Codec, budget: int, parts: seq<seq<Event>>, part: seq<Event>)
    requires Greedy(c, budget, parts) && Within(c, budget, part)
    requires parts != [] ==> BatchLen(c, parts[|parts| - 1] + part[..1]) > budget
    ensures Greedy(c, budget, parts + [part])
  {}

  /** The inner loop: the end of the frame that starts at `start`. */
  method FrameEnd(c: Codec, evts: seq<Event>, start: nat, budget: int) returns (end: nat)
    requires start < |evts| && budget > 0
    ensures start < end <= |evts| && Within(c, budget, evts[start..end])
    ensures end < |evts| ==> BatchLen(c, evts[start..end] + evts[end..end + 1]) > budget
  {
    end := start;
    var frame := HeaderLen(c) + 4;
    while end < |evts|
      invariant start <= end <= |evts| && frame == BatchLen(c, evts[start..end])
      invariant end > start ==> Within(c, budget, evts[start..end])
    {
      var part := evts[start..end + 1];
      assert part[..|part| - 1] == evts[start..end] && part == evts[start..end] + evts[end..end + 1];
      var n := frame + PayloadLen(evts[end]);
      if end > start && n > budget { break; }
      frame := n;
      end := end + 1;
    }
  }

  lemma Extends(c: Codec, budget: int, evts: seq<Event>, start: nat, end: nat, parts: seq<seq<Event>>)
    requires start < end <= |evts| && Flat(parts) == evts[..start]
    requires Greedy(c, budget, parts) && Within(c, budget, evts[start..end])
    requires parts != [] ==> BatchLen(c, parts[|parts| - 1] + evts[start..start + 1]) > budget
    ensures Flat(parts + [evts[start..end]]) == evts[..end] && Greedy(c, budget, parts + [evts[start..end]])
    ensures evts[..end] == evts[..start] + evts[start..end]
  {
    var part := evts[start..end];
    FlatLast(parts, part);
    Cuts(evts, start, end);
    GreedyLast(c, budget, parts, part);
  }

  lemma Cuts<E>(s: seq<E>, start: nat, end: nat)
    requires start < end <= |s|
    ensures s[..end] == s[..start] + s[start..end] && s[start..end][..1] == s[start..start + 1]
  {}

  ghost predicate AllFit(evts: seq<Event>) {
    forall e | e in evts :: Fits(e)
  }

  ghost predicate FramesOf(c: Codec, parts: seq<seq<Event>>, frames: seq<Text>) {
    |frames| == |parts| && forall i | 0 <= i < |parts| :: frames[i] == Frame(c, parts[i])
  }

  lemma FitsCut(evts: seq<Event>, start: nat, end: nat)
    requires start <= end <= |evts|
    ensures AllFit(evts[..end]) <==> AllFit(evts[..start]) && AllFit(evts[start..end])
    ensures AllFit(evts) ==> AllFit(evts[..end])
  {
    assert evts[..end] == evts[..start] + evts[start..end];
  }

  lemma FramesLast(c: Codec, parts: seq<seq<Event>>, frames: seq<Text>, part: seq<Event>, frame: Text)
    requires FramesOf(c, parts, frames) && frame == Frame(c, part)
    ensures FramesOf(c, parts + [part], frames + [frame])
  {}

  /** The outer loop of `encodeBudgeted`. */
  method EncodeParts(c: Codec, evts: seq<Event>, budget: int) returns (r: Result<seq<Text>>,
          ghost parts: seq<seq<Event>>)
    requires budget > 0 && forall e | e in evts :: KindOf(e) == c.kind
    ensures !AllFit(evts) ==> r == Err(StringTooLong)
    ensures AllFit(evts) ==> r.Ok? && FramesOf(c, parts, r.value) && Flat(parts) == evts && Greedy(c, budget, parts)
  {
    var frames: seq<Text> := [];
    parts := [];
    var start: nat := 0;
    while start < |evts|
      invariant start <= |evts| && Flat(parts) == evts[..start] && AllFit(evts[..start])
      invariant FramesOf(c, parts, frames) && Greedy(c, budget, parts)
      invariant parts != [] && start < |evts| ==>
                  BatchLen(c, parts[|parts| - 1] + evts[start..start + 1]) > budget
      decreases |evts| - start
    {
      var end := FrameEnd(c, evts, start, budget);
      var part := evts[start..end];
      var body := Encode(c, part);
      FitsCut(evts, start, end);
      if body.Err? { return Err(body.error), parts; }
      Extends(c, budget, evts, start, end, parts);
      FramesLast(c, parts, frames, part, body.value);
      frames, parts, start := frames + [body.value], parts + [part], end;
    }
    assert evts[..start] == evts;
    r := Ok(frames);
  }

  /** `encodeBudgeted`; `parts` are the batches behind the frames. */
  method EncodeBudgeted(c: Codec, evts: seq<Event>, budget: int)
      returns (r: Result<seq<Text>>, ghost parts: seq<seq<Event>>)
    requires forall e | e in evts :: KindOf(e) == c.kind
    ensures !AllFit(evts) ==> r == Err(StringTooLong)
    ensures AllFit(evts) ==> r.Ok? && FramesOf(c, parts, r.value) && Flat(parts) == evts
    ensures AllFit(evts) && budget > 0 ==> Greedy(c, budget, parts)
    ensures AllFit(evts) && budget <= 0 ==> parts == if evts == [] then [] else [evts]
  {
    if evts == [] { return Ok([]), []; }
    if budget <= 0 {
      var body := Encode(c, evts);
      if body.Err? { return Err(body.error), []; }
      assert [evts][1..] == [] && evts + [] == evts;
      return Ok([body.value]), [evts];
    }
    r, parts := EncodeParts(c, evts, budget);
  }

  lemma {:induction false} TotalLenSum(a: seq<Event>, b: seq<Event>)
    ensures TotalLen(a + b) == TotalLen(a) + TotalLen(b)
  {
    if b == [] {
      assert a + b == a;
    } else {
      TotalLenSum(a, b[..|b| - 1]);
      assert (a + b)[..|a + b| - 1] == a + b[..|b| - 1];
    }
  }

  /** A greedy part reaches at least as far as any part that starts no later. */
  lemma ReachesAsFar(c: Codec, budget: int, q: seq<Event>, d: nat, p: seq<Event>, next: seq<Event>)
    requires Within(c, budget, q) && d < |q| && p != []
    requires |p| < |q| - d ==> |next| == 1 && BatchLen(c, p + next) > budget && p + next <= q[d..]
    ensures |p| >= |q| - d
  {
    if |p| < |q| - d {
      var m := d + |p| + 1;
      assert q == q[..d] + (p + next) + q[m..];
      TotalLenSum(q[..d], p + next);
      TotalLenSum(q[..d] + (p + next), q[m..]);
    }
  }

  lemma Align<E>(a: seq<E>, x: seq<E>, b: seq<E>, y: seq<E>)
    requires a + x == b + y && |a| <= |b|
    ensures |b| - |a| <= |x| && x[|b| - |a|..] == y
  {
    assert |x| == |b| + |y| - |a|;
    assert x == (a + x)[|a|..] && y == (b + y)[|b|..];
  }

  /** No split of the events into frames within the budget has fewer frames than the greedy one. */
  lemma {:induction false} FewestFrames(c: Codec, budget: int, ps: seq<seq<Event>>, qs: seq<seq<Event>>, d: nat)
    requires Greedy(c, budget, ps) && forall q | q in qs :: Within(c, budget, q)
    requires d <= |Flat(qs)| && Flat(qs)[d..] == Flat(ps)
    ensures |ps| <= |qs|
    decreases |qs|
  {
    if ps != [] {
      assert Within(c, budget, ps[0]) && ps[0] <= Flat(ps);
      var q := qs[0];
      if d >= |q| {
        assert Flat(qs[1..])[d - |q|..] == Flat(ps);
        FewestFrames(c, budget, ps, qs[1..], d - |q|);
      } else {
        FirstReaches(c, budget, ps, qs, d);
        var e := |ps[0]| - (|q| - d);
        assert Flat(qs)[d..] == q[d..] + Flat(qs[1..]);
        Align(q[d..], Flat(qs[1..]), ps[0], Flat(ps[1..]));
        FewestFrames(c, budget, ps[1..], qs[1..], e);
      }
    }
  }

  lemma FirstReaches(c: Codec, budget: int, ps: seq<seq<Event>>, qs: seq<seq<Event>>, d: nat)
    requires ps != [] && qs != [] && Greedy(c, budget, ps) && Within(c, budget, qs[0])
    requires d < |qs[0]| && Flat(qs)[d..] == Flat(ps)
    ensures |ps[0]| >= |qs[0]| - d
  {
    var p, q := ps[0], qs[0];
    assert Within(c, budget, p);
    if |p| < |q| - d {
      assert |Flat(ps)| >= |q| - d;
      assert |ps| > 1;
      assert Within(c, budget, ps[1]) && ps[1..][0] == ps[1];
      var next := ps[1][..1];
      assert p + next <= Flat(ps);
      assert q[d..] <= Flat(ps);
      ReachesAsFar(c, budget, q, d, p, next);
    }
  }
}
