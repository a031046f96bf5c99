/** Decoding of the UDP touch datagrams (`Nanoleaf.listen_touch_events`).

    Wire format: a big-endian 16-bit record count N, then N records of five
    bytes `[panelHi, panelLo, typeAndStrength, sourceHi, sourceLo]`. The
    touch phase is bits 4-6 of the third byte, the strength its low nibble,
    and a source of 0xFFFF means "no originating panel". */
module Touch {

  import opened Wrappers
  import opened Enums

  type byte = x: int | 0 <= x < 256

  /** Size of one touch record on the wire. */
  const RecordSize: nat := 5
  /** Wire value of the source panel meaning "none". */
  const NoSource: nat := 0xFFFF

  /** One decoded record: the dict with keys panel, type, strength, from. */
  datatype TouchRecord = TouchRecord(panel: nat, phase: EventTouch, strength: nat, source: Option<nat>)

  /** The exceptions the decoding loop can raise: `IndexError` when it reads
      past the end of the datagram, `ValueError` from `EventTouch(bits)`
      when the three phase bits hold 6 or 7. */
  datatype DecodeError = Truncated | UnknownPhase(bits: nat)

  /** The records handed to the notifier, in order, and the exception that
      ended the datagram if there was one. */
  datatype Decoded = Decoded(records: seq<TouchRecord>, error: Option<DecodeError>)

  /** `hi << 8 | lo` on two bytes: the low byte fills the eight bits the
      shift cleared, so the or is an addition. */
  function Be16(hi: byte, lo: byte): (r: nat)
    ensures r < 0x1_0000
    ensures r / 256 == hi && r % 256 == lo
  {
    hi * 256 + lo
  }

  /** `(b & 0x70) >> 4`: on a byte, masking bits 4-6 and shifting them
      down is the quotient by 16 taken modulo 8. */
  function PhaseBits(b: byte): (r: nat)
    ensures r < 8
  {
    (b / 16) % 8
  }

  /** `b & 0xf`: the low nibble, the remainder modulo 16. */
  function StrengthBits(b: byte): (r: nat)
    ensures r < 16
  {
    b % 16
  }

  /** The two field extractions agree with the source's bit operations on
      every byte value. */
  lemma TypeByteFields(x: bv8)
    ensures ((x & 0x70) >> 4) as int == PhaseBits(x as int)
    ensures (x & 0xF) as int == StrengthBits(x as int)
  {
    MaskIsArithmetic(x);
    QuotientAsInt(x);
    RemainderAsInt(x / 16, 8);
    RemainderAsInt(x, 16);
  }

  /** On eight bits, the mask and shift are an unsigned quotient and
      remainder. */
  lemma MaskIsArithmetic(x: bv8)
    ensures (x & 0x70) >> 4 == (x / 16) % 8
    ensures x & 0xF == x % 16
  {
  }

  lemma QuotientAsInt(x: bv8)
    ensures (x / 16) as int == (x as int) / 16
  {
  }

  lemma RemainderAsInt(x: bv8, m: bv8)
    requires m == 8 || m == 16
    ensures (x % m) as int == (x as int) % (m as int)
  {
  }

  /** The "from" field: the 0xFFFF sentinel becomes `None`. */
  function SourceOf(raw: nat): (r: Option<nat>)
    ensures r.None? <==> raw == NoSource
    ensures r.Some? ==> r.value == raw
  {
    if raw == NoSource then None else Some(raw)
  }

  /** A record the wire format can carry. */
  predicate WellFormed(r: TouchRecord) {
    && r.panel < 0x1_0000
    && r.strength < 16
    && (r.source.Some? ==> r.source.value < NoSource)
  }

  /** The record count in the first two bytes. */
  function Count(data: seq<byte>): (n: nat)
    requires |data| >= 2
    ensures n < 0x1_0000
  {
    Be16(data[0], data[1])
  }

  /** One iteration of the inner loop at offset `i`, in the order the source
      evaluates it: it reads bytes i, i+1 and i+2, converts the phase (which
      may raise), and only then reads bytes i+3 and i+4. */
  function RecordAt(data: seq<byte>, i: nat): (r: Result<TouchRecord, DecodeError>)
    ensures r.Success? <==> i + RecordSize <= |data| && PhaseBits(data[i + 2]) <= 5
    ensures r.Failure? && r.error.UnknownPhase? ==>
              i + 2 < |data| && r.error.bits == PhaseBits(data[i + 2]) && 6 <= r.error.bits <= 7
    ensures i + 2 < |data| && PhaseBits(data[i + 2]) >= 6 ==> r == Failure(UnknownPhase(PhaseBits(data[i + 2])))
    ensures |data| <= i + 2 ==> r == Failure(Truncated)
    ensures r.Success? ==>
              && r.value.panel == data[i] as int * 256 + data[i + 1] as int
              && EventTouchToInt(r.value.phase) == (data[i + 2] as int / 16) % 8
              && r.value.strength == data[i + 2] as int % 16
              && r.value.source == SourceOf(data[i + 3] as int * 256 + data[i + 4] as int)
              && WellFormed(r.value)
  {
    if |data| <= i + 2 then Failure(Truncated)
    else match EventTouchFromInt(PhaseBits(data[i + 2]))
      case None => Failure(UnknownPhase(PhaseBits(data[i + 2])))
      case Some(phase) =>
        if |data| < i + RecordSize then Failure(Truncated)
        else Success(TouchRecord(Be16(data[i], data[i + 1]), phase, StrengthBits(data[i + 2]),
                                 SourceOf(Be16(data[i + 3], data[i + 4]))))
  }

  /** The records `num` iterations of the inner loop deliver from offset `i`. */
  function DecodeFrom(data: seq<byte>, i: nat, num: nat): (d: Decoded)
    ensures |d.records| <= num
    ensures d.error.None? ==> |d.records| == num
    decreases num
  {
    if num == 0 then Decoded([], None)
    else match RecordAt(data, i)
      case Failure(e) => Decoded([], Some(e))
      case Success(r) => Prepend(r, DecodeFrom(data, i + RecordSize, num - 1))
  }

  function Prepend(r: TouchRecord, d: Decoded): Decoded {
    Decoded([r] + d.records, d.error)
  }

  /** Everything one datagram delivers: the count is read first (an
      `IndexError` on a datagram shorter than two bytes), then the records. */
  function Decode(data: seq<byte>): (d: Decoded)
    ensures |data| < 2 ==> d == Decoded([], Some(Truncated))
    ensures |data| >= 2 ==> |d.records| <= Count(data)
    ensures d.error.None? ==> |data| >= 2 && |d.records| == Count(data)
  {
    if |data| < 2 then Decoded([], Some(Truncated)) else DecodeFrom(data, 2, Count(data))
  }

  /** The inner `while num:` loop of `listen_touch_events`, with the notifier
      calls collected in `records` in call order. */
  method DecodeDatagram(data: seq<byte>) returns (records: seq<TouchRecord>, error: Option<DecodeError>)
    ensures Decoded(records, error) == Decode(data)
  {
    if |data| < 2 {
      return [], Some(Truncated);
    }
    var num: nat := Be16(data[0], data[1]);
    var i: nat := 2;
    records := [];
    while num != 0
      invariant i == 2 + RecordSize * |records|
      invariant Decode(data) == Decoded(records + DecodeFrom(data, i, num).records, DecodeFrom(data, i, num).error)
    {
      var r := RecordAt(data, i);
      if r.Failure? {
        return records, Some(r.error);
      }
      ghost var rest := DecodeFrom(data, i + RecordSize, num - 1);
      assert DecodeFrom(data, i, num) == Prepend(r.value, rest);
      assert records + ([r.value] + rest.records) == (records + [r.value]) + rest.records;
      records := records + [r.value];
      i := i + RecordSize;
      num := num - 1;
    }
    error := None;
  }

  /** The loop delivers the records at offsets i, i+5, i+10, ... in wire
      order and stops at the first offset that raises, or after `num`. */
  lemma {:induction false} DecodeFromShape(data: seq<byte>, i: nat, num: nat)
    ensures var d := DecodeFrom(data, i, num);
      && |d.records| <= num
      && (d.error.None? ==> |d.records| == num)
      && (forall k :: 0 <= k < |d.records| ==> RecordAt(data, i + RecordSize * k) == Success(d.records[k]))
      && (d.error.Some? ==> |d.records| < num && RecordAt(data, i + RecordSize * |d.records|) == Failure(d.error.value))
    decreases num
  {
    if num > 0 && RecordAt(data, i).Success? {
      DecodeFromShape(data, i + RecordSize, num - 1);
      var d := DecodeFrom(data, i, num);
      var rest := DecodeFrom(data, i + RecordSize, num - 1);
      forall k | 0 <= k < |d.records|
        ensures RecordAt(data, i + RecordSize * k) == Success(d.records[k])
      {
        if k > 0 {
          assert d.records[k] == rest.records[k - 1];
          assert i + RecordSize * k == (i + RecordSize) + RecordSize * (k - 1);
        }
      }
      if d.error.Some? {
        assert i + RecordSize * |d.records| == (i + RecordSize) + RecordSize * |rest.records|;
      }
    }
  }

  /** `num` iterations starting at `i` run without raising exactly when all
      `num` records lie inside the datagram and carry a phase 0..5. */
  lemma {:induction false} DecodeFromSucceedsIff(data: seq<byte>, i: nat, num: nat)
    ensures DecodeFrom(data, i, num).error.None? <==> RecordsPresent(data, i, num)
    decreases num
  {
    if num > 0 {
      DecodeFromSucceedsIff(data, i + RecordSize, num - 1);
      if RecordsPresent(data, i, num) {
        assert PhaseBits(data[i + RecordSize * 0 + 2]) <= 5;
        forall k | 0 <= k < num - 1
          ensures PhaseBits(data[(i + RecordSize) + RecordSize * k + 2]) <= 5
        {
          assert (i + RecordSize) + RecordSize * k == i + RecordSize * (k + 1);
        }
        assert RecordAt(data, i).Success?;
        assert RecordsPresent(data, i + RecordSize, num - 1);
      }
      if RecordAt(data, i).Success? && RecordsPresent(data, i + RecordSize, num - 1) {
        forall k | 0 <= k < num
          ensures PhaseBits(data[i + RecordSize * k + 2]) <= 5
        {
          if k > 0 {
            assert (i + RecordSize) + RecordSize * (k - 1) == i + RecordSize * k;
          }
        }
        assert RecordsPresent(data, i, num);
      }
    }
  }

  /** `num` records starting at `i` lie inside the datagram and carry a
      phase 0..5. */
  predicate RecordsPresent(data: seq<byte>, i: nat, num: nat) {
    && (num > 0 ==> i + RecordSize * num <= |data|)
    && forall k :: 0 <= k < num ==> PhaseBits(data[i + RecordSize * k + 2]) <= 5
  }

  /** Decoding a datagram whose first two bytes encode N yields exactly N
      records, read from offsets 2, 7, 12, ... in wire order, precisely when
      the datagram holds 2 + 5N bytes and no phase field is 6 or 7. */
  lemma DecodeSucceedsIff(data: seq<byte>)
    ensures Decode(data).error.None? <==>
              && |data| >= 2
              && |data| >= 2 + RecordSize * Count(data)
              && forall k :: 0 <= k < Count(data) ==> PhaseBits(data[2 + RecordSize * k + 2]) <= 5
    ensures Decode(data).error.None? ==> |Decode(data).records| == Count(data)
  {
    if |data| >= 2 {
      DecodeFromSucceedsIff(data, 2, Count(data));
      DecodeFromShape(data, 2, Count(data));
    }
  }

  /** Record k of a datagram comes from the five bytes at offset 2 + 5k:
      panel and source are big-endian, the strength is the low nibble. */
  lemma DecodedRecordAt(data: seq<byte>, k: nat)
    requires k < |Decode(data).records|
    ensures |data| >= 2 && k < Count(data)
    ensures var j := 2 + RecordSize * k;
      var r := Decode(data).records[k];
      && j + RecordSize <= |data|
      && r.panel == data[j] as int * 256 + data[j + 1] as int
      && EventTouchToInt(r.phase) == (data[j + 2] as int / 16) % 8
      && r.strength == data[j + 2] as int % 16
      && (r.source.None? <==> data[j + 3] as int * 256 + data[j + 4] as int == NoSource)
      && (r.source.Some? ==> r.source.value == data[j + 3] as int * 256 + data[j + 4] as int)
      && WellFormed(r)
  {
    DecodeFromShape(data, 2, Count(data));
    assert RecordAt(data, 2 + RecordSize * k) == Success(Decode(data).records[k]);
  }

  /** When the loop raises, the error names the offending field: a phase of
      6 or 7, or a datagram too short for the records it announces. */
  lemma DecodeErrorCause(data: seq<byte>)
    requires Decode(data).error.Some?
    ensures var d := Decode(data);
      d.error.value.UnknownPhase? ==>
        var j := 2 + RecordSize * |d.records|;
        j + 2 < |data| && d.error.value.bits == PhaseBits(data[j + 2]) && 6 <= d.error.value.bits <= 7
    ensures var d := Decode(data);
      d.error.value.Truncated? ==> |data| < 2 || |data| < 2 + RecordSize * (|d.records| + 1)
  {
    if |data| >= 2 {
      DecodeFromShape(data, 2, Count(data));
    }
  }

  /** The bytes of one record. */
  function EncodeRecord(r: TouchRecord): (bytes: seq<byte>)
    requires WellFormed(r)
    ensures |bytes| == RecordSize
  {
    var src := if r.source.Some? then r.source.value else NoSource;
    [r.panel / 256, r.panel % 256, EventTouchToInt(r.phase) * 16 + r.strength, src / 256, src % 256]
  }

  function EncodeRecords(rs: seq<TouchRecord>): (bytes: seq<byte>)
    requires forall k :: 0 <= k < |rs| ==> WellFormed(rs[k])
    ensures |bytes| == RecordSize * |rs|
  {
    if |rs| == 0 then [] else EncodeRecord(rs[0]) + EncodeRecords(rs[1..])
  }

  /** A datagram carrying the given records, as the controller sends it. */
  function Encode(rs: seq<TouchRecord>): (bytes: seq<byte>)
    requires |rs| < 0x1_0000
    requires forall k :: 0 <= k < |rs| ==> WellFormed(rs[k])
    ensures |bytes| == 2 + RecordSize * |rs|
  {
    [|rs| / 256, |rs| % 256] + EncodeRecords(rs)
  }

  lemma RecordAtEncoded(prefix: seq<byte>, r: TouchRecord, suffix: seq<byte>)
    requires WellFormed(r)
    ensures RecordAt(prefix + EncodeRecord(r) + suffix, |prefix|) == Success(r)
  {
    var data := prefix + EncodeRecord(r) + suffix;
    var i := |prefix|;
    var p := EventTouchToInt(r.phase);
    assert data[i + 2] == p * 16 + r.strength;
    assert PhaseBits(data[i + 2]) == p;
    EventTouchRoundTrip(r.phase);
  }

  lemma {:induction false} DecodeFromEncoded(prefix: seq<byte>, rs: seq<TouchRecord>)
    requires forall k :: 0 <= k < |rs| ==> WellFormed(rs[k])
    ensures DecodeFrom(prefix + EncodeRecords(rs), |prefix|, |rs|) == Decoded(rs, None)
    decreases |rs|
  {
    if |rs| > 0 {
      var head := EncodeRecord(rs[0]);
      var data := prefix + EncodeRecords(rs);
      assert data == prefix + head + EncodeRecords(rs[1..]);
      RecordAtEncoded(prefix, rs[0], EncodeRecords(rs[1..]));
      DecodeFromEncoded(prefix + head, rs[1..]);
      assert data == (prefix + head) + EncodeRecords(rs[1..]);
      assert [rs[0]] + rs[1..] == rs;
    }
  }

  /** Decoding what the controller encodes gives back the records, for every
      record whose source is absent or not the 0xFFFF sentinel. */
  lemma DecodeEncode(rs: seq<TouchRecord>)
    requires |rs| < 0x1_0000
    requires forall k :: 0 <= k < |rs| ==> WellFormed(rs[k])
    ensures Decode(Encode(rs)) == Decoded(rs, None)
  {
    var header: seq<byte> := [|rs| / 256, |rs| % 256];
    assert Count(Encode(rs)) == |rs|;
    DecodeFromEncoded(header, rs);
  }

  /** The datagram `00 01 00 2A 15 FF FF`: one DOWN touch of strength 5 on
      panel 42 with no source panel. */
  lemma DecodeOneDownTouch()
    ensures Decode([0x00, 0x01, 0x00, 0x2A, 0x15, 0xFF, 0xFF])
         == Decoded([TouchRecord(42, DownPhase, 5, None)], None)
  {
    var data: seq<byte> := [0x00, 0x01, 0x00, 0x2A, 0x15, 0xFF, 0xFF];
    assert Count(data) == 1;
    assert PhaseBits(data[4]) == 1 && StrengthBits(data[4]) == 5;
    assert RecordAt(data, 2) == Success(TouchRecord(42, DownPhase, 5, None));
    assert DecodeFrom(data, 7, 0) == Decoded([], None);
  }

  /** What the outer `while is_open()` loop delivers over the datagrams the
      socket returns: each datagram's records in turn, until one of them
      raises, which ends the listener. */
  function DecodeAll(datagrams: seq<seq<byte>>): (d: Decoded)
    ensures d.error.None? <==> forall j :: 0 <= j < |datagrams| ==> Decode(datagrams[j]).error.None?
    ensures |datagrams| > 0 ==> Decode(datagrams[0]).records <= d.records
    decreases |datagrams|
  {
    if |datagrams| == 0 then Decoded([], None)
    else
      var d := Decode(datagrams[0]);
      if d.error.Some? then d
      else
        var rest := DecodeAll(datagrams[1..]);
        Decoded(d.records + rest.records, rest.error)
  }

  /** A datagram announcing zero records delivers nothing and the listener
      goes on with the next datagram. */
  lemma EmptyDatagramContinues(data: seq<byte>, later: seq<seq<byte>>)
    requires |data| >= 2 && data[0] == 0 && data[1] == 0
    ensures DecodeAll([data] + later) == DecodeAll(later)
  {
    assert ([data] + later)[1..] == later;
  }

  /** Over datagrams that all decode, the listener delivers every record of
      every datagram, as many as the datagrams announce. */
  lemma {:induction false} DecodeAllWellFormed(datagrams: seq<seq<byte>>)
    requires forall j :: 0 <= j < |datagrams| ==> Decode(datagrams[j]).error.None?
    ensures DecodeAll(datagrams).error.None?
    ensures |DecodeAll(datagrams).records| == SumCounts(datagrams)
    decreases |datagrams|
  {
    if |datagrams| > 0 {
      DecodeSucceedsIff(datagrams[0]);
      DecodeAllWellFormed(datagrams[1..]);
    }
  }

  /** Every record the listener hands to the notifier is well formed. */
  lemma {:induction false} DecodeAllRecordsWellFormed(datagrams: seq<seq<byte>>)
    ensures forall k :: 0 <= k < |DecodeAll(datagrams).records| ==> WellFormed(DecodeAll(datagrams).records[k])
    decreases |datagrams|
  {
    if |datagrams| > 0 {
      var d := Decode(datagrams[0]);
      forall k | 0 <= k < |d.records|
        ensures WellFormed(d.records[k])
      {
        DecodedRecordAt(datagrams[0], k);
      }
      if d.error.None? {
        DecodeAllRecordsWellFormed(datagrams[1..]);
      }
    }
  }

  /** The number of records the datagrams announce. */
  function SumCounts(datagrams: seq<seq<byte>>): nat
    decreases |datagrams|
  {
    if |datagrams| == 0 then 0
    else (if |datagrams[0]| >= 2 then Count(datagrams[0]) else 0) + SumCounts(datagrams[1..])
  }
}
