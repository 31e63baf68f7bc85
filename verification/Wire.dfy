/** The bytes in which ids are stored: varints, length-prefixed strings, messages, and frames in a file. */
module Wire {
  import opened Basics

  type Byte = b: int | 0 <= b < 256
  type Bytes = seq<Byte>

  // ------------------------------------------------------------------ varints

  /** Base 128, least significant group first; all bytes but the last have the high bit set. */
  function Varint(n: nat): (r: Bytes)
    ensures r != []
  {
    if n < 128 then [n] else [n % 128 + 128] + Varint(n / 128)
  }

  /** Reads a varint from place k of at most ten bytes; the tenth may only be 0 or 1. */
  function ReadVarint(s: Bytes, k: nat): (r: Option<(nat, nat)>)
    ensures r.Some? ==> 0 < r.value.1 <= |s|
    decreases |s|
  {
    if s == [] || k >= 10 then None
    else if s[0] < 128 then
      if k == 9 && s[0] > 1 then None else Some((s[0], 1))
    else match ReadVarint(s[1..], k + 1)
      case None => None
      case Some(p) => Some((s[0] - 128 + 128 * p.0, 1 + p.1))
  }

  /** What fits into the bytes from place k on: 64 bits, less seven for every byte before. */
  function Room(k: nat): (r: nat)
    requires k <= 9
    ensures r > 0
    decreases 9 - k
  {
    if k == 9 then 2 else 128 * Room(k + 1)
  }

  lemma {:induction false} RoomForAll()
    ensures Room(0) == U64_MAX + 1
  {
    assert Room(9) == 2 && Room(8) == 256 && Room(7) == 32768 && Room(6) == 4194304;
    assert Room(5) == 536870912 && Room(4) == 68719476736 && Room(3) == 8796093022208;
    assert Room(2) == 1125899906842624 && Room(1) == 144115188075855872;
  }

  lemma {:induction false} VarintAt(n: nat, k: nat, tail: Bytes)
    requires k <= 9 && n < Room(k)
    ensures ReadVarint(Varint(n) + tail, k) == Some((n, |Varint(n)|))
    ensures |Varint(n)| <= 10 - k
    decreases 10 - k
  {
    var s := Varint(n) + tail;
    if n >= 128 {
      assert k < 9;
      assert s[1..] == Varint(n / 128) + tail;
      VarintAt(n / 128, k + 1, tail);
    }
  }

  /** Reading a varint undoes writing it, whatever follows; it takes at most ten bytes. */
  lemma {:induction false} VarintRoundTrip(n: nat, tail: Bytes)
    requires n <= U64_MAX
    ensures ReadVarint(Varint(n) + tail, 0) == Some((n, |Varint(n)|)) && |Varint(n)| <= 10
  {
    RoomForAll();
    VarintAt(n, 0, tail);
  }

  function Power(k: nat): (r: nat)
    ensures r > 0
  {
    if k == 0 then 1 else 128 * Power(k - 1)
  }

  /** The number with the lowest seven bits of the bytes as its groups, least significant first. */
  function Groups(s: Bytes): (n: nat)
  {
    if s == [] then 0 else (s[0] % 128) + 128 * Groups(s[1..])
  }

  lemma {:induction false} DivideTwice(n: nat, p: nat)
    requires p > 0
    ensures n / 128 / p == n / (128 * p)
  {
    var q, r := n / 128 / p, n / 128 % p;
    var low := n % 128 + 128 * r;
    assert n / 128 == p * q + r;
    assert r + 1 <= p;
    assert 128 * (p * q) == (128 * p) * q;
    assert n == (128 * p) * q + low && 0 <= low < 128 * p;
    QuotientIs(n, 128 * p, q, low);
  }

  lemma {:induction false} QuotientIs(n: nat, d: nat, q: nat, r: nat)
    requires d > 0 && n == d * q + r && r < d
    ensures n / d == q
  {
    var x := n / d;
    assert n == d * x + n % d;
    assert x < q ==> d * (x + 1) <= d * q;
    assert x > q ==> d * (q + 1) <= d * x;
  }

  lemma {:induction false} PowerIs(k: nat)
    ensures Power(k) == if k == 0 then 1 else 128 * Power(k - 1)
  {
  }

  /** Byte i holds group i of the number, and its high bit says whether another byte follows. */
  lemma {:induction false} VarintByte(n: nat, i: nat)
    requires i < |Varint(n)|
    ensures Varint(n)[i] == n / Power(i) % 128 + if i + 1 < |Varint(n)| then 128 else 0
  {
    hide Power;
    PowerIs(i);
    if i > 0 {
      VarintByte(n / 128, i - 1);
      DivideTwice(n, Power(i - 1));
    }
  }

  /** No byte is wasted. */
  lemma {:induction false} VarintLength(n: nat)
    ensures n < Power(|Varint(n)|) && (n > 0 ==> Power(|Varint(n)| - 1) <= n)
  {
    hide Power;
    PowerIs(0);
    PowerIs(1);
    if n >= 128 {
      var k := |Varint(n / 128)|;
      VarintLength(n / 128);
      PowerIs(k);
      PowerIs(k + 1);
    }
  }

  /** The first k bytes of s are a varint of the number n: at most ten bytes, and the tenth at most 1. */
  ghost predicate IsVarint(s: Bytes, n: nat, k: nat, room: nat)
  {
    && 0 < k <= |s| && k <= room
    && (forall i :: 0 <= i < k - 1 ==> s[i] >= 128) && s[k - 1] < 128 && (k == room ==> s[k - 1] <= 1)
    && n == Groups(s[..k])
  }

  lemma {:induction false} ReadsFrom(s: Bytes, from: nat, n: nat, k: nat)
    requires from <= 9
    ensures ReadVarint(s, from) == Some((n, k)) <==> IsVarint(s, n, k, 10 - from)
    decreases |s|
  {
    if s != [] && s[0] < 128 {
      assert s[..1][1..] == [] && Groups(s[..1]) == s[0];
    } else if s != [] && from < 9 {
      if k > 1 && k <= |s| {
        assert s[..k][1..] == s[1..][..k - 1];
        if n >= s[0] - 128 && (n - (s[0] - 128)) % 128 == 0 {
          var m := (n - (s[0] - 128)) / 128;
          ReadsFrom(s[1..], from + 1, m, k - 1);
          AfterFirst(s, n, m, k, 10 - from);
          assert ReadVarint(s, from) == Some((n, k)) <==> ReadVarint(s[1..], from + 1) == Some((m, k - 1));
        }
      }
    }
  }

  lemma {:induction false} AfterFirst(s: Bytes, n: nat, m: nat, k: nat, room: nat)
    requires 1 < k <= |s| && s[0] >= 128 && room > 1 && n == s[0] - 128 + 128 * m
    ensures IsVarint(s, n, k, room) <==> IsVarint(s[1..], m, k - 1, room - 1)
  {
    var t := s[1..];
    assert s[..k][1..] == t[..k - 1];
    assert Groups(s[..k]) == s[0] % 128 + 128 * Groups(t[..k - 1]);
    assert t[k - 2] == s[k - 1];
    assert forall i :: 0 < i < k - 1 ==> s[i] == t[i - 1];
    if IsVarint(t, m, k - 1, room - 1) {
      forall i | 0 <= i < k - 1
        ensures s[i] >= 128
      {
        assert i > 0 ==> s[i] == t[i - 1];
      }
    }
  }

  /** Reading accepts exactly the varints of 64 bits, shortest form or not. */
  lemma {:induction false} ReadsExactlyVarints(s: Bytes, n: nat, k: nat)
    ensures ReadVarint(s, 0) == Some((n, k)) <==> IsVarint(s, n, k, 10)
    ensures ReadVarint(s, 0) == Some((n, k)) ==> n <= U64_MAX
  {
    ReadsFrom(s, 0, n, k);
    if ReadVarint(s, 0) == Some((n, k)) {
      ReadsWithin(s, 0);
      RoomForAll();
    }
  }

  lemma {:induction false} ReadsWithin(s: Bytes, k: nat)
    requires k <= 9
    ensures ReadVarint(s, k).Some? ==> ReadVarint(s, k).value.0 < Room(k)
    decreases |s|
  {
    if s != [] {
      if k < 9 {
        assert Room(k) == 128 * Room(k + 1);
        ReadsWithin(s[1..], k + 1);
      } else {
        assert ReadVarint(s[1..], 10).None?;
      }
    }
  }

  /** Looking at the first ten bytes is enough. */
  lemma {:induction false} TenBytesSuffice(s: Bytes, k: nat, m: nat)
    requires k <= 10 && m <= |s| && m >= 10 - k
    ensures ReadVarint(s[..m], k) == ReadVarint(s, k)
    decreases |s|
  {
    if s != [] && k < 10 && s[0] >= 128 {
      assert s[..m][1..] == s[1..][..m - 1];
      TenBytesSuffice(s[1..], k + 1, m - 1);
    }
  }

  // ------------------------------------------------------------------ strings

  ghost predicate Fits(s: Bytes)
  {
    |s| <= U64_MAX
  }

  /** A string, or a whole message, with its length in front. */
  function Prefixed(id: Bytes): (r: Bytes)
    ensures r != []
  {
    Varint(|id|) + id
  }

  function EncodeIds(ids: seq<Bytes>): (r: Bytes)
  {
    if ids == [] then [] else Prefixed(ids[0]) + EncodeIds(ids[1..])
  }

  method WriteIds(ids: seq<Bytes>) returns (out: Bytes)
    ensures out == EncodeIds(ids)
  {
    out := [];
    for i := 0 to |ids|
      invariant out + EncodeIds(ids[i..]) == EncodeIds(ids)
    {
      var buffer := Varint(|ids[i]|);
      buffer := buffer + ids[i];
      assert ids[i..][0] == ids[i] && ids[i..][1..] == ids[i + 1..];
      assert out + (Prefixed(ids[i]) + EncodeIds(ids[i + 1..])) == (out + Prefixed(ids[i])) + EncodeIds(ids[i + 1..]);
      out := out + buffer;
    }
    assert ids[|ids|..] == [];
  }

  /** The first string of s and what follows it; None where decoding panics. */
  function DecodeId(s: Bytes): (r: Option<(Bytes, Bytes)>)
    ensures r.Some? ==> |r.value.1| < |s|
  {
    match ReadVarint(s, 0)
    case None => None
    case Some(p) => if p.1 + p.0 <= |s| then Some((s[p.1..p.1 + p.0], s[p.1 + p.0..])) else None
  }

  function DecodeIds(s: Bytes): (r: Option<seq<Bytes>>)
    decreases |s|
  {
    if s == [] then Some([])
    else match DecodeId(s)
      case None => None
      case Some(p) =>
        match DecodeIds(p.1)
        case None => None
        case Some(rest) => Some([p.0] + rest)
  }

  /** What was read first, before the rest. */
  ghost function Before(first: seq<Bytes>, rest: Option<seq<Bytes>>): (r: Option<seq<Bytes>>)
  {
    if rest.None? then None else Some(first + rest.value)
  }

  lemma {:induction false} NothingBefore(rest: Option<seq<Bytes>>)
    ensures Before([], rest) == rest
  {
    if rest.Some? {
      assert [] + rest.value == rest.value;
    }
  }

  lemma {:induction false} OneBefore(first: seq<Bytes>, x: Bytes, rest: Option<seq<Bytes>>)
    ensures Before(first, Before([x], rest)) == Before(first + [x], rest)
  {
    if rest.Some? {
      assert first + ([x] + rest.value) == first + [x] + rest.value;
    }
  }

  method ReadIds(buffer: Bytes) returns (r: Option<seq<Bytes>>)
    ensures r == DecodeIds(buffer)
  {
    var rest, ids := buffer, [];
    NothingBefore(DecodeIds(buffer));
    while rest != []
      invariant DecodeIds(buffer) == Before(ids, DecodeIds(rest))
      decreases |rest|
    {
      var next := DecodeId(rest);
      if next.None? {
        return None;
      }
      OneBefore(ids, next.value.0, DecodeIds(next.value.1));
      ids := ids + [next.value.0];
      rest := next.value.1;
    }
    assert ids + [] == ids;
    return Some(ids);
  }

  lemma {:induction false} IdRoundTrip(id: Bytes, tail: Bytes)
    requires Fits(id)
    ensures DecodeId(Prefixed(id) + tail) == Some((id, tail))
  {
    var s, k := Prefixed(id) + tail, |Varint(|id|)|;
    VarintRoundTrip(|id|, id + tail);
    assert s == Varint(|id|) + (id + tail);
    assert s[k..k + |id|] == id && s[k + |id|..] == tail;
  }

  /** Decoding a list of ids undoes encoding it. */
  lemma {:induction false} IdsRoundTrip(ids: seq<Bytes>)
    requires forall i :: 0 <= i < |ids| ==> Fits(ids[i])
    ensures DecodeIds(EncodeIds(ids)) == Some(ids)
  {
    if ids != [] {
      IdsRoundTrip(ids[1..]);
      IdRoundTrip(ids[0], EncodeIds(ids[1..]));
      assert [ids[0]] + ids[1..] == ids;
    }
  }

  // ------------------------------------------------------------------ messages

  /** The ids of one type: field 1 is the type, left out if it is 0; field 3 holds the compressed ids. */
  datatype Message = Message(typeId: nat, data: Bytes)

  const TYPE_TAG: Byte := 0x08
  const DATA_TAG: Byte := 0x1A

  function EncodeMessage(m: Message): (r: Bytes)
    ensures r != []
  {
    (if m.typeId == 0 then [] else [TYPE_TAG] + Varint(m.typeId)) + [DATA_TAG] + Prefixed(m.data)
  }

  function DecodeMessage(s: Bytes): (r: Option<Message>)
  {
    if s != [] && s[0] == TYPE_TAG then
      match ReadVarint(s[1..], 0)
      case None => None
      case Some(p) => DecodeData(p.0, s[1 + p.1..])
    else DecodeData(0, s)
  }

  function DecodeData(typeId: nat, s: Bytes): (r: Option<Message>)
  {
    if s == [] || s[0] != DATA_TAG then None
    else match DecodeId(s[1..])
      case None => None
      case Some(p) => if p.1 == [] then Some(Message(typeId, p.0)) else None
  }

  lemma {:induction false} MessageRoundTrip(m: Message)
    requires m.typeId <= U64_MAX && Fits(m.data)
    ensures DecodeMessage(EncodeMessage(m)) == Some(m)
  {
    hide EncodeMessage, DecodeMessage, Prefixed, Varint, ReadVarint, DecodeData;
    var rest := [DATA_TAG] + Prefixed(m.data);
    DataRoundTrip(m.typeId, m.data);
    MessageParts(m);
    if m.typeId == 0 {
      NoType(rest);
    } else {
      VarintRoundTrip(m.typeId, rest);
      TypeFirst(m.typeId, Varint(m.typeId), rest);
    }
  }

  lemma {:induction false} MessageParts(m: Message)
    ensures var rest := [DATA_TAG] + Prefixed(m.data);
            EncodeMessage(m) == if m.typeId == 0 then rest else [TYPE_TAG] + (Varint(m.typeId) + rest)
  {
    hide Prefixed, Varint;
    var rest := [DATA_TAG] + Prefixed(m.data);
    assert [] + [DATA_TAG] + Prefixed(m.data) == rest;
    assert [TYPE_TAG] + Varint(m.typeId) + [DATA_TAG] + Prefixed(m.data) == [TYPE_TAG] + (Varint(m.typeId) + rest);
  }

  lemma {:induction false} NoType(s: Bytes)
    requires s != [] && s[0] == DATA_TAG
    ensures DecodeMessage(s) == DecodeData(0, s)
  {
    hide DecodeData;
  }

  lemma {:induction false} TypeFirst(typeId: nat, v: Bytes, rest: Bytes)
    requires ReadVarint(v + rest, 0) == Some((typeId, |v|))
    ensures DecodeMessage([TYPE_TAG] + (v + rest)) == DecodeData(typeId, rest)
  {
    hide ReadVarint, DecodeData;
    AfterType(v, rest);
  }

  lemma {:induction false} AfterType(v: Bytes, rest: Bytes)
    ensures var s := [TYPE_TAG] + (v + rest);
            s[1..] == v + rest && s[1 + |v|..] == rest
  {
  }

  lemma {:induction false} DataRoundTrip(typeId: nat, data: Bytes)
    requires Fits(data)
    ensures DecodeData(typeId, [DATA_TAG] + Prefixed(data)) == Some(Message(typeId, data))
  {
    var s := [DATA_TAG] + Prefixed(data);
    IdRoundTrip(data, []);
    assert Prefixed(data) + [] == Prefixed(data);
    assert s[1..] == Prefixed(data);
  }

  // ------------------------------------------------------------------ frames

  function File(ms: seq<Bytes>): (r: Bytes)
  {
    if ms == [] then [] else Prefixed(ms[0]) + File(ms[1..])
  }

  /** The delimiter at the start of s and its length; None at the end, which is taken to be near if ten bytes are not there. */
  function ReadDelimiter(s: Bytes): (r: Option<Option<(nat, nat)>>)
  {
    if |s| < 10 then None else Some(ReadVarint(s[..10], 0))
  }

  /** The messages of a file; None where reading panics. */
  function ReadFrames(s: Bytes): (r: Option<seq<Bytes>>)
    decreases |s|
  {
    match ReadDelimiter(s)
    case None => Some([])
    case Some(None) => None
    case Some(Some(p)) =>
      if p.1 + p.0 > |s| then None
      else match ReadFrames(s[p.1 + p.0..])
        case None => None
        case Some(rest) => Some([s[p.1..p.1 + p.0]] + rest)
  }

  /** The loop over the messages of a file. */
  method ReadMessages(file: Bytes) returns (r: Option<seq<Bytes>>)
    ensures r == ReadFrames(file)
  {
    var pos, ms := 0, [];
    assert file[0..] == file;
    NothingBefore(ReadFrames(file));
    while |file| - pos >= 10
      invariant 0 <= pos <= |file|
      invariant ReadFrames(file) == Before(ms, ReadFrames(file[pos..]))
      decreases |file| - pos
    {
      var s := file[pos..];
      var delimiter := ReadVarint(s[..10], 0);
      if delimiter.None? {
        return None;
      }
      var d, n := delimiter.value.0, delimiter.value.1;
      if n + d > |s| {
        return None;
      }
      OneBefore(ms, s[n..n + d], ReadFrames(s[n + d..]));
      assert s[n + d..] == file[pos + n + d..];
      ms := ms + [s[n..n + d]];
      pos := pos + n + d;
    }
    assert ms + [] == ms;
    return Some(ms);
  }

  lemma {:induction false} FirstFrame(m: Bytes, rest: Bytes)
    requires Fits(m)
    ensures var s := Prefixed(m) + rest;
            ReadFrames(s) == if |s| < 10 then Some([]) else
              match ReadFrames(rest) case None => None case Some(more) => Some([m] + more)
  {
    var s, k := Prefixed(m) + rest, |Varint(|m|)|;
    assert s == Varint(|m|) + (m + rest);
    VarintRoundTrip(|m|, m + rest);
    if |s| >= 10 {
      TenBytesSuffice(s, 0, 10);
      assert s[k..k + |m|] == m && s[k + |m|..] == rest;
    }
  }

  /** Reading never goes wrong on a file of frames, and yields a prefix of what was written. */
  lemma {:induction false} ReadsPrefix(ms: seq<Bytes>)
    requires forall i :: 0 <= i < |ms| ==> Fits(ms[i])
    ensures ReadFrames(File(ms)).Some? && ReadFrames(File(ms)).value <= ms
  {
    if ms != [] {
      ReadsPrefix(ms[1..]);
      FirstFrame(ms[0], File(ms[1..]));
      assert ms == [ms[0]] + ms[1..];
    }
  }

  lemma {:induction false} LastFrameWithin(ms: seq<Bytes>)
    requires ms != []
    ensures |File(ms)| >= |Prefixed(ms[|ms| - 1])|
  {
    if |ms| > 1 {
      LastFrameWithin(ms[1..]);
    }
  }

  /** Everything is read back if and only if the last frame is at least ten bytes long. */
  lemma {:induction false} AllFramesReadIff(ms: seq<Bytes>)
    requires forall i :: 0 <= i < |ms| ==> Fits(ms[i])
    ensures ReadFrames(File(ms)) == Some(ms) <==> (ms == [] || |Prefixed(ms[|ms| - 1])| >= 10)
  {
    if ms != [] {
      var rest := ms[1..];
      AllFramesReadIff(rest);
      ReadsPrefix(rest);
      FirstFrame(ms[0], File(rest));
      LastFrameWithin(ms);
      assert ms == [ms[0]] + rest;
      if rest == [] {
        assert File(ms) == Prefixed(ms[0]) + [];
        assert Prefixed(ms[0]) + [] == Prefixed(ms[0]);
      } else {
        assert rest[|rest| - 1] == ms[|ms| - 1];
      }
    }
  }

  /** The bytes of a message with a small type and little data: field 1 as a varint, field 3 with its length. */
  lemma {:induction false} MessageBytes(m: Message)
    requires m.typeId < 128 && |m.data| < 128
    ensures EncodeMessage(m) == (if m.typeId == 0 then [] else [0x08, m.typeId]) + [0x1A, |m.data|] + m.data
  {
    assert [TYPE_TAG] + Varint(m.typeId) == [0x08, m.typeId];
    assert [DATA_TAG] + Prefixed(m.data) == [0x1A, |m.data|] + m.data;
  }

  /** The bytes of two short texts. */
  lemma {:induction false} IdBytes(a: Bytes, b: Bytes)
    requires |a| < 128 && |b| < 128
    ensures EncodeIds([a, b]) == [|a|] + a + [|b|] + b && File([a, b]) == [|a|] + a + [|b|] + b
  {
    assert [a, b][1..] == [b] && [b][1..] == [];
    assert EncodeIds([b]) == Prefixed(b) + [] && File([b]) == Prefixed(b) + [];
  }

  /** A short last frame is lost: here a message of two bytes. */
  lemma {:induction false} ShortFrameIsLost()
    ensures ReadFrames(File([EncodeMessage(Message(0, []))])) == Some([])
  {
    var m := EncodeMessage(Message(0, []));
    assert m == [DATA_TAG] + Prefixed([]);
    assert Prefixed([]) == [0];
    assert |m| == 2 && Varint(2) == [2];
    assert File([m]) == Prefixed(m) + File([m][1..]);
    assert |File([m])| == 3;
  }
}
