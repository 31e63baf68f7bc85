/** Ids: texts numbered densely per type, and the file in which the numbering is kept. */
module IdStores {
  import opened Basics
  import opened Wire

  type TypeId = nat

  /** The numbers are the places in the vector, and each text has exactly one. */
  ghost predicate Dense(v: seq<Bytes>, m: map<Bytes, nat>)
  {
    && (forall i :: 0 <= i < |v| ==> v[i] in m && m[v[i]] == i)
    && (forall s :: s in m ==> m[s] < |v| && v[m[s]] == s)
  }

  ghost predicate NoRepeats(v: seq<Bytes>)
  {
    forall i, j :: 0 <= i < j < |v| ==> v[i] != v[j]
  }

  /** A bijection: no text has two numbers, no number two texts. */
  lemma {:induction false} DenseIsBijection(v: seq<Bytes>, m: map<Bytes, nat>)
    requires Dense(v, m)
    ensures NoRepeats(v) && m.Keys == set i | 0 <= i < |v| :: v[i]
    ensures |m| == |v|
  {
    forall s | s in m
      ensures s in set i | 0 <= i < |v| :: v[i]
    {
      assert v[m[s]] == s;
    }
    forall i, j | 0 <= i < j < |v|
      ensures v[i] != v[j]
    {
      assert m[v[i]] == i && m[v[j]] == j;
    }
    DenseSize(v, m);
  }

  lemma {:induction false} DenseSize(v: seq<Bytes>, m: map<Bytes, nat>)
    requires Dense(v, m)
    ensures |m| == |v|
  {
    if v == [] {
      assert forall s :: s !in m;
      assert m == map[];
    } else {
      var n := |v| - 1;
      var x := v[n];
      var m1 := m - {x};
      assert m == m1[x := n];
      assert Dense(v[..n], m1);
      DenseSize(v[..n], m1);
    }
  }

  /** The list with only the first occurrence of every text. */
  function Distinct(ids: seq<Bytes>): (r: seq<Bytes>)
  {
    if ids == [] then []
    else
      var front, x := Distinct(ids[..|ids| - 1]), ids[|ids| - 1];
      if x in front then front else front + [x]
  }

  lemma {:induction false} DistinctOfDistinct(ids: seq<Bytes>)
    requires NoRepeats(ids)
    ensures Distinct(ids) == ids
  {
    if ids != [] {
      var n := |ids| - 1;
      DistinctOfDistinct(ids[..n]);
      assert ids == ids[..n] + [ids[n]];
      assert ids[n] !in ids[..n];
    }
  }

  /** Text x stands in the list before the first y. */
  ghost predicate ComesFirst(ids: seq<Bytes>, x: Bytes, y: Bytes)
  {
    forall b :: 0 <= b < |ids| && ids[b] == y ==> x in ids[..b]
  }

  lemma {:induction false} DistinctTexts(ids: seq<Bytes>)
    ensures NoRepeats(Distinct(ids))
    ensures forall x :: x in Distinct(ids) <==> x in ids
  {
    if ids != [] {
      DistinctTexts(ids[..|ids| - 1]);
      assert ids == ids[..|ids| - 1] + [ids[|ids| - 1]];
    }
  }

  /** Each text once, in the order in which they first occur; DistinctTexts says that none is missing. */
  lemma {:induction false} DistinctIsOrdered(ids: seq<Bytes>, i: nat, j: nat)
    requires i < j < |Distinct(ids)|
    ensures ComesFirst(ids, Distinct(ids)[i], Distinct(ids)[j])
  {
    var n := |ids| - 1;
    var front, x, y := ids[..n], Distinct(ids)[i], Distinct(ids)[j];
    DistinctTexts(front);
    assert Distinct(front) <= Distinct(ids) && i < |Distinct(front)|;
    assert x in Distinct(front) && x in front;
    if j < |Distinct(front)| {
      DistinctIsOrdered(front, i, j);
    } else {
      assert y !in front;
    }
    StillFirst(ids, x, y);
  }

  lemma {:induction false} StillFirst(ids: seq<Bytes>, x: Bytes, y: Bytes)
    requires ids != [] && x in ids[..|ids| - 1]
    requires ComesFirst(ids[..|ids| - 1], x, y) || y !in ids[..|ids| - 1]
    ensures ComesFirst(ids, x, y)
  {
    var front := ids[..|ids| - 1];
    forall b | 0 <= b < |ids| && ids[b] == y
      ensures x in ids[..b]
    {
      assert ids[..b] == front[..b];
      if b < |front| {
        assert front[b] == y;
      }
    }
  }

  class IdStore {
    var ids: map<TypeId, seq<Bytes>>
    var mapping: map<TypeId, map<Bytes, nat>>

    constructor ()
      ensures Valid() && ids == map[]
    {
      ids, mapping := map[], map[];
    }

    function Ids(t: TypeId): (v: seq<Bytes>)
      reads this
    {
      if t in ids then ids[t] else []
    }

    function Mapping(t: TypeId): (m: map<Bytes, nat>)
      reads this
    {
      if t in mapping then mapping[t] else map[]
    }

    ghost predicate Valid()
      reads this
    {
      forall t :: Dense(Ids(t), Mapping(t))
    }

    /** The id of a text: the one it has, or the next number. */
    method CreateId(text: Bytes, t: TypeId) returns (internal: nat)
      requires Valid()
      modifies this
      ensures Valid()
      ensures Ids(t) == if text in old(Ids(t)) then old(Ids(t)) else old(Ids(t)) + [text]
      ensures forall u :: u != t ==> Ids(u) == old(Ids(u))
      ensures internal < |Ids(t)| && Ids(t)[internal] == text
    {
      assert Dense(Ids(t), Mapping(t));
      var known: map<Bytes, nat> := Mapping(t);
      mapping := mapping[t := known];
      if text in known {
        forall u
          ensures Dense(Ids(u), Mapping(u))
        {
          assert Dense(old(Ids(u)), old(Mapping(u)));
          assert Ids(u) == old(Ids(u)) && Mapping(u) == old(Mapping(u));
        }
        return known[text];
      }
      internal := |Ids(t)|;
      DenseMore(Ids(t), known, text);
      ids := ids[t := Ids(t) + [text]];
      known := known[text := internal];
      mapping := mapping[t := known];
      forall u
        ensures Dense(Ids(u), Mapping(u))
      {
        assert u != t ==> Ids(u) == old(Ids(u)) && Mapping(u) == old(Mapping(u));
        assert Dense(old(Ids(u)), old(Mapping(u)));
      }
    }

    /** Forgets the ids of a type and numbers the given texts anew. */
    method ReplaceIds(texts: seq<Bytes>, t: TypeId)
      requires Valid()
      modifies this
      ensures Valid() && Ids(t) == Distinct(texts)
      ensures forall u :: u != t ==> Ids(u) == old(Ids(u))
    {
      Clear(t);
      for i := 0 to |texts|
        invariant Valid() && Ids(t) == Distinct(texts[..i])
        invariant forall u :: u != t ==> Ids(u) == old(Ids(u))
      {
        assert texts[..i + 1][..i] == texts[..i];
        var _ := CreateId(texts[i], t);
      }
      assert texts[..|texts|] == texts;
    }

    method Clear(t: TypeId)
      requires Valid()
      modifies this
      ensures Valid() && Ids(t) == [] && forall u :: u != t ==> Ids(u) == old(Ids(u))
    {
      if t in mapping {
        mapping := mapping[t := map[]];
      }
      if t in ids {
        ids := ids[t := []];
      }
      forall u
        ensures Dense(Ids(u), Mapping(u))
      {
        assert Dense(old(Ids(u)), old(Mapping(u)));
        assert u != t ==> Ids(u) == old(Ids(u)) && Mapping(u) == old(Mapping(u));
      }
    }

    /** Panics, in the source, if there is no such id. */
    method Get(internal: nat, t: TypeId) returns (text: Bytes)
      requires Valid() && internal < |Ids(t)|
      ensures text in Mapping(t) && Mapping(t)[text] == internal
    {
      assert Dense(Ids(t), Mapping(t));
      text := Ids(t)[internal];
    }

    method TryGetFromExt(text: Bytes, t: TypeId) returns (internal: Option<nat>)
      requires Valid()
      ensures internal.Some? <==> text in Ids(t)
      ensures internal.Some? ==> internal.value < |Ids(t)| && Ids(t)[internal.value] == text
    {
      assert Dense(Ids(t), Mapping(t));
      if text in Mapping(t) {
        internal := Some(Mapping(t)[text]);
      } else {
        internal := None;
      }
    }

    /** Writes the types in the given order; pack is the compression. */
    method Serialize(order: seq<TypeId>, pack: Bytes -> Bytes) returns (file: Bytes)
      requires forall i :: 0 <= i < |order| ==> order[i] in ids
      ensures file == File(Written(ids, order, pack))
    {
      file := [];
      assert order[0..] == order;
      for i := 0 to |order|
        invariant file + File(Written(ids, order[i..], pack)) == File(Written(ids, order, pack))
      {
        var packed := WriteIds(ids[order[i]]);
        var m := EncodeMessage(Message(order[i], pack(packed)));
        assert order[i..][0] == order[i] && order[i..][1..] == order[i + 1..];
        var rest := Written(ids, order[i + 1..], pack);
        assert Written(ids, order[i..], pack) == [m] + rest;
        assert File([m] + rest) == Prefixed(m) + File(rest);
        assert file + (Prefixed(m) + File(rest)) == (file + Prefixed(m)) + File(rest);
        file := file + Prefixed(m);
      }
      assert order[|order|..] == [] && Written(ids, [], pack) == [];
    }

    /** Reads a file into this store; what is not readable panics, here the result is false. */
    method Deserialize(file: Bytes, unpack: Bytes -> Bytes) returns (ok: bool)
      requires Valid()
      modifies this
      ensures Valid() && ok == Parsed(file, unpack).Some?
      ensures ok ==> forall t :: Ids(t) == Loaded(Parsed(file, unpack).value, t, old(Ids(t)))
    {
      hide Entries, Loaded, Distinct, DecodeMessage, DecodeIds, ReadFrames;
      var frames := ReadMessages(file);
      NoEntries(unpack);
      if frames.None? {
        return false;
      }
      var ms := frames.value;
      for i := 0 to |ms|
        invariant Valid() && Entries(ms[..i], unpack).Some?
        invariant forall t :: Ids(t) == Loaded(Entries(ms[..i], unpack).value, t, old(Ids(t)))
      {
        NextEntry(ms, unpack, i);
        EntriesPrefix(ms, unpack, i + 1);
        var m := DecodeMessage(ms[i]);
        if m.None? {
          return false;
        }
        var texts := ReadIds(unpack(m.value.data));
        if texts.None? {
          return false;
        }
        LoadedMore(Entries(ms[..i], unpack).value, (m.value.typeId, texts.value));
        ReplaceIds(texts.value, m.value.typeId);
      }
      assert ms[..|ms|] == ms;
      return true;
    }
  }

  lemma {:induction false} DenseMore(v: seq<Bytes>, m: map<Bytes, nat>, text: Bytes)
    requires Dense(v, m) && text !in m
    ensures Dense(v + [text], m[text := |v|]) && text !in v
  {
  }

  // ------------------------------------------------------------------ the file

  /** The messages of a file, one for each type. */
  function Written(ids: map<TypeId, seq<Bytes>>, order: seq<TypeId>, pack: Bytes -> Bytes): (ms: seq<Bytes>)
    requires forall i :: 0 <= i < |order| ==> order[i] in ids
    ensures |ms| == |order|
    ensures forall i :: 0 <= i < |order| ==> ms[i] == EncodeMessage(Message(order[i], pack(EncodeIds(ids[order[i]]))))
  {
    seq(|order|, i requires 0 <= i < |order| => EncodeMessage(Message(order[i], pack(EncodeIds(ids[order[i]])))))
  }

  /** One message: the type and its texts. */
  function EntryOf(m: Bytes, unpack: Bytes -> Bytes): (r: Option<(TypeId, seq<Bytes>)>)
  {
    match DecodeMessage(m)
    case None => None
    case Some(msg) =>
      match DecodeIds(unpack(msg.data))
      case None => None
      case Some(texts) => Some((msg.typeId, texts))
  }

  function Entries(ms: seq<Bytes>, unpack: Bytes -> Bytes): (r: Option<seq<(TypeId, seq<Bytes>)>>)
  {
    if ms == [] then Some([])
    else
      match (Entries(ms[..|ms| - 1], unpack), EntryOf(ms[|ms| - 1], unpack))
      case (Some(front), Some(e)) => Some(front + [e])
      case _ => None
  }

  lemma {:induction false} NoEntries(unpack: Bytes -> Bytes)
    ensures Entries([], unpack) == Some([]) && forall t, earlier :: Loaded([], t, earlier) == earlier
  {
  }

  lemma {:induction false} NextEntry(ms: seq<Bytes>, unpack: Bytes -> Bytes, i: nat)
    requires i < |ms|
    ensures Entries(ms[..i], unpack).Some? ==>
              var e := EntryOf(ms[i], unpack);
              Entries(ms[..i + 1], unpack) == if e.Some? then Some(Entries(ms[..i], unpack).value + [e.value]) else None
  {
    hide EntryOf;
    assert ms[..i + 1][..i] == ms[..i];
  }

  function Parsed(file: Bytes, unpack: Bytes -> Bytes): (r: Option<seq<(TypeId, seq<Bytes>)>>)
  {
    match ReadFrames(file)
    case None => None
    case Some(ms) => Entries(ms, unpack)
  }

  /** The texts of type t once the entries have been read into a store that had earlier before. */
  function Loaded(es: seq<(TypeId, seq<Bytes>)>, t: TypeId, earlier: seq<Bytes>): (r: seq<Bytes>)
  {
    if es == [] then earlier
    else if es[|es| - 1].0 == t then Distinct(es[|es| - 1].1)
    else Loaded(es[..|es| - 1], t, earlier)
  }

  lemma {:induction false} LoadedMore(es: seq<(TypeId, seq<Bytes>)>, e: (TypeId, seq<Bytes>))
    ensures forall t, earlier :: Loaded(es + [e], t, earlier) == if e.0 == t then Distinct(e.1) else Loaded(es, t, earlier)
  {
    assert (es + [e])[..|es + [e]| - 1] == es;
  }

  lemma {:induction false} EntriesPrefix(ms: seq<Bytes>, unpack: Bytes -> Bytes, n: nat)
    requires n <= |ms|
    ensures Entries(ms[..n], unpack).None? ==> Entries(ms, unpack).None?
    decreases |ms| - n
  {
    if n < |ms| {
      assert ms[..n + 1][..n] == ms[..n];
      EntriesPrefix(ms, unpack, n + 1);
    } else {
      assert ms[..n] == ms;
    }
  }

  // ------------------------------------------------------------------ what is restored

  /** A store that can be written: every part fits, and the compression can be undone. */
  ghost predicate Writable(ids: map<TypeId, seq<Bytes>>, order: seq<TypeId>, pack: Bytes -> Bytes, unpack: Bytes -> Bytes)
  {
    && (forall i :: 0 <= i < |order| ==> order[i] in ids && order[i] <= U64_MAX && NoRepeats(ids[order[i]]))
    && (forall i, k :: 0 <= i < |order| && 0 <= k < |ids[order[i]]| ==> Fits(ids[order[i]][k]))
    && (forall b :: unpack(pack(b)) == b)
    && (forall i :: 0 <= i < |order| ==> Fits(pack(EncodeIds(ids[order[i]]))) && Fits(Written(ids, order, pack)[i]))
    && (forall i, j :: 0 <= i < j < |order| ==> order[i] != order[j])
  }

  ghost function Saved(ids: map<TypeId, seq<Bytes>>, order: seq<TypeId>): (es: seq<(TypeId, seq<Bytes>)>)
    requires forall i :: 0 <= i < |order| ==> order[i] in ids
    ensures |es| == |order| && forall i :: 0 <= i < |order| ==> es[i] == (order[i], ids[order[i]])
  {
    seq(|order|, i requires 0 <= i < |order| => (order[i], ids[order[i]]))
  }

  lemma {:induction false} EntryRoundTrip(t: TypeId, texts: seq<Bytes>, pack: Bytes -> Bytes, unpack: Bytes -> Bytes)
    requires t <= U64_MAX && (forall k :: 0 <= k < |texts| ==> Fits(texts[k])) && Fits(pack(EncodeIds(texts)))
    requires forall b :: unpack(pack(b)) == b
    ensures EntryOf(EncodeMessage(Message(t, pack(EncodeIds(texts)))), unpack) == Some((t, texts))
  {
    MessageRoundTrip(Message(t, pack(EncodeIds(texts))));
    IdsRoundTrip(texts);
  }

  lemma {:induction false} EntriesRoundTrip(ids: map<TypeId, seq<Bytes>>, order: seq<TypeId>, pack: Bytes -> Bytes, unpack: Bytes -> Bytes, n: nat)
    requires Writable(ids, order, pack, unpack) && n <= |order|
    ensures Entries(Written(ids, order, pack)[..n], unpack) == Some(Saved(ids, order)[..n])
  {
    hide EntryOf, EncodeMessage, EncodeIds, NoRepeats, Fits;
    var ms, es := Written(ids, order, pack), Saved(ids, order);
    if n > 0 {
      EntriesRoundTrip(ids, order, pack, unpack, n - 1);
      EntryRoundTrip(order[n - 1], ids[order[n - 1]], pack, unpack);
      assert ms[..n][..n - 1] == ms[..n - 1];
      assert es[..n] == es[..n - 1] + [es[n - 1]];
    }
  }

  /** The number of entries tells apart what was read: a proper prefix is not everything. */
  lemma {:induction false} EntriesLength(ms: seq<Bytes>, unpack: Bytes -> Bytes)
    ensures Entries(ms, unpack).Some? ==> |Entries(ms, unpack).value| == |ms|
  {
    if ms != [] {
      EntriesLength(ms[..|ms| - 1], unpack);
    }
  }

  /**
   * Reading what was written restores every type with its texts in their order, if and only if the
   * frame of the type that was written last is at least ten bytes long.
   */
  lemma {:induction false} StoreRoundTripIff(ids: map<TypeId, seq<Bytes>>, order: seq<TypeId>, pack: Bytes -> Bytes, unpack: Bytes -> Bytes)
    requires Writable(ids, order, pack, unpack)
    ensures var ms := Written(ids, order, pack);
            Parsed(File(ms), unpack) == Some(Saved(ids, order)) <==> (ms == [] || |Prefixed(ms[|ms| - 1])| >= 10)
  {
    var ms := Written(ids, order, pack);
    assert forall i :: 0 <= i < |ms| ==> Fits(ms[i]);
    AllFramesReadIff(ms);
    ReadsPrefix(ms);
    EntriesRoundTrip(ids, order, pack, unpack, |order|);
    assert ms[..|order|] == ms && Saved(ids, order)[..|order|] == Saved(ids, order);
    var read := ReadFrames(File(ms)).value;
    EntriesLength(read, unpack);
    if |read| == |ms| {
      assert read == ms;
    }
  }

  lemma {:induction false} LoadedAt(ids: map<TypeId, seq<Bytes>>, order: seq<TypeId>, pack: Bytes -> Bytes, unpack: Bytes -> Bytes, i: nat, n: nat, earlier: seq<Bytes>)
    requires Writable(ids, order, pack, unpack) && i < n <= |order|
    ensures Loaded(Saved(ids, order)[..n], order[i], earlier) == ids[order[i]]
  {
    var es := Saved(ids, order);
    assert es[..n][..n - 1] == es[..n - 1];
    if i == n - 1 {
      DistinctOfDistinct(ids[order[i]]);
    } else {
      LoadedAt(ids, order, pack, unpack, i, n - 1, earlier);
    }
  }

  /** Hence every text gets back the number that it had. */
  lemma {:induction false} NumbersRestored(ids: map<TypeId, seq<Bytes>>, order: seq<TypeId>, pack: Bytes -> Bytes, unpack: Bytes -> Bytes, i: nat, earlier: seq<Bytes>)
    requires Writable(ids, order, pack, unpack) && i < |order|
    requires |Prefixed(Written(ids, order, pack)[|order| - 1])| >= 10
    ensures var r := Parsed(File(Written(ids, order, pack)), unpack);
            r.Some? && Loaded(r.value, order[i], earlier) == ids[order[i]]
  {
    hide Parsed, EncodeMessage, EncodeIds, Loaded, Prefixed, Fits, NoRepeats, File;
    StoreRoundTripIff(ids, order, pack, unpack);
    LoadedAt(ids, order, pack, unpack, i, |order|, earlier);
    assert Saved(ids, order)[..|order|] == Saved(ids, order);
  }

  /** Types are named by hashes; one whose varint takes six bytes or more makes the frame long enough. */
  lemma {:induction false} LongTypeIdSuffices(t: TypeId, data: Bytes)
    requires |Varint(t)| >= 6
    ensures |Prefixed(EncodeMessage(Message(t, data)))| >= 10
  {
    assert t >= 128;
    var m := EncodeMessage(Message(t, data));
    assert |Prefixed(data)| >= 1 && |m| == 2 + |Varint(t)| + |Prefixed(data)|;
    assert |Varint(|m|)| >= 1;
  }

  /**
   * A compression whose output always has seven bytes or more, as the frames of LZ4 have, makes
   * the last frame long enough: what such a store wrote is always read back.
   */
  lemma {:induction false} CompressedRoundTrip(ids: map<TypeId, seq<Bytes>>, order: seq<TypeId>, pack: Bytes -> Bytes, unpack: Bytes -> Bytes)
    requires Writable(ids, order, pack, unpack) && forall b :: |pack(b)| >= 7
    ensures Parsed(File(Written(ids, order, pack)), unpack) == Some(Saved(ids, order))
  {
    hide Parsed, EncodeMessage, EncodeIds, Fits;
    StoreRoundTripIff(ids, order, pack, unpack);
    if order != [] {
      var last := order[|order| - 1];
      LongDataLongFrame(Message(last, pack(EncodeIds(ids[last]))));
    }
  }

  lemma {:induction false} LongDataLongFrame(m: Message)
    requires |m.data| >= 7
    ensures |Prefixed(EncodeMessage(m))| >= 10
  {
    hide Varint;
    assert |Prefixed(m.data)| >= 8;
  }
}
