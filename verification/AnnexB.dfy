/** The byte-stream scanners of src/video_passthrough.c, against the NAL-unit
    structure of Annex B of ITU-T H.264: section B.1 for the start codes and
    the zero bytes around them, section 7.4.1 for what a NAL unit may hold. */
module AnnexB {
  import opened WireNumbers

  /** The three bytes 00 00 01 at position p. */
  predicate StartCode(bits: seq<Byte>, p: int) {
    0 <= p && p + 3 <= |bits| && bits[p] == 0 && bits[p + 1] == 0 && bits[p + 2] == 1
  }

  /** The first start code at or after position i, or the length. */
  function FirstFrom(bits: seq<Byte>, i: nat): (p: nat)
    requires i <= |bits|
    ensures i <= p <= |bits| && (p < |bits| ==> p + 3 <= |bits|)
    decreases |bits| - i
  {
    if i + 3 > |bits| then |bits|
    else if StartCode(bits, i) then i
    else FirstFrom(bits, i + 1)
  }

  /** Where bits[start..next] ends once its trailing zeros are stripped. */
  function TrimEnd(bits: seq<Byte>, start: nat, next: nat): (end: nat)
    requires start <= next <= |bits|
    ensures start <= end <= next
    decreases next
  {
    if next > start && bits[next - 1] == 0 then TrimEnd(bits, start, next - 1) else next
  }

  /** The NAL units from `start` on, which follows a start code: up to the next
      start code less trailing zeros, and so on; the last one goes to the end. */
  function Units(bits: seq<Byte>, start: nat): (units: seq<seq<Byte>>)
    requires start <= |bits|
    decreases |bits| - start
  {
    var next := FirstFrom(bits, start);
    if next == |bits| then [bits[start..]]
    else [bits[start..TrimEnd(bits, start, next)]] + Units(bits, next + 3)
  }

  /** The NAL units of an access unit; bytes before the first start code are
      none of them. */
  function Split(bits: seq<Byte>): seq<seq<Byte>> {
    var first := FirstFrom(bits, 0);
    if first == |bits| then [] else Units(bits, first + 3)
  }

  function Max(a: nat, b: nat): nat {
    if a > b then a else b
  }

  function MaxLen(units: seq<seq<Byte>>): nat {
    if units == [] then 0 else Max(|units[0]|, MaxLen(units[1..]))
  }

  /** An IDR slice or a sequence parameter set: `(header & 0x1F)` is 5 or 7. */
  predicate RefreshHeader(header: Byte) {
    header % 32 == 5 || header % 32 == 7
  }

  predicate RefreshUnit(unit: seq<Byte>) {
    |unit| > 0 && RefreshHeader(unit[0])
  }

  /** Some start code is followed by the header of a refresh point. */
  ghost predicate HasRefresh(bits: seq<Byte>) {
    exists p :: StartCode(bits, p) && p + 3 < |bits| && RefreshHeader(bits[p + 3])
  }

  lemma {:induction false} FirstFacts(bits: seq<Byte>, i: nat)
    requires i <= |bits|
    ensures var p := FirstFrom(bits, i);
            && (p < |bits| ==> StartCode(bits, p))
            && (forall r :: i <= r < p ==> !StartCode(bits, r))
    decreases |bits| - i
  {
    if i + 3 > |bits| || StartCode(bits, i) {
    } else {
      FirstFacts(bits, i + 1);
    }
  }

  /** The first start code is the one with none before it. */
  lemma FirstIs(bits: seq<Byte>, i: nat, p: nat)
    requires i <= p <= |bits| && (p < |bits| ==> StartCode(bits, p))
    requires forall r :: i <= r < p ==> !StartCode(bits, r)
    ensures FirstFrom(bits, i) == p
  {
    FirstFacts(bits, i);
    var first := FirstFrom(bits, i);
    assert first < p ==> !StartCode(bits, first);
  }

  lemma {:induction false} TrimFacts(bits: seq<Byte>, start: nat, next: nat)
    requires start <= next <= |bits|
    ensures var end := TrimEnd(bits, start, next);
            && (end == start || bits[end - 1] != 0)
            && (forall j :: end <= j < next ==> bits[j] == 0)
    decreases next
  {
    if next == start || bits[next - 1] != 0 {
    } else {
      TrimFacts(bits, start, next - 1);
    }
  }

  /** The zeros are stripped up to the last byte that is not one. */
  lemma TrimIs(bits: seq<Byte>, start: nat, next: nat, end: nat)
    requires start <= end <= next <= |bits| && (end == start || bits[end - 1] != 0)
    requires forall j :: end <= j < next ==> bits[j] == 0
    ensures TrimEnd(bits, start, next) == end
  {
    TrimFacts(bits, start, next);
    var e := TrimEnd(bits, start, next);
    assert !(e > end);
  }

  // ------------------------------------------------------------------------
  // The scanners

  /** `is_keyframe`: the three-byte skip after a match loses no start code,
      because start codes cannot overlap. */
  method IsKeyframe(bits: seq<Byte>) returns (key: bool)
    ensures key <==> HasRefresh(bits)
  {
    var i := 0;
    while i + 3 < |bits|
      invariant 0 <= i <= |bits|
      invariant forall p :: StartCode(bits, p) && p < i ==> p + 3 >= |bits| || !RefreshHeader(bits[p + 3])
    {
      if bits[i] == 0 && bits[i + 1] == 0 && bits[i + 2] == 1 {
        assert StartCode(bits, i);
        var kind := bits[i + 3] % 32;
        if kind == 5 || kind == 7 {
          return true;
        }
        assert !StartCode(bits, i + 1) && !StartCode(bits, i + 2);
        i := i + 2;
      }
      i := i + 1;
    }
    return false;
  }

  /** What `largest_nal` knows at `start`: the longest unit so far, and if it is
      in one, that the longest of all is this or ahead. */
  ghost predicate SoFar(bits: seq<Byte>, start: nat, inNal: bool, largest: nat)
    requires start <= |bits|
  {
    if inNal then Longest(bits) == Max(largest, LongestFrom(bits, start)) else start == 0 && largest == 0
  }

  /** The part of `largest_nal` at a start code, which ends the unit in hand; a
      four-byte start code's leading zero is not payload. */
  method AtStartCode(bits: seq<Byte>, start: nat, i: nat, inNal: bool, largest: nat) returns (larger: nat)
    requires start <= i && StartCode(bits, i) && FirstFrom(bits, start) == i && SoFar(bits, start, inNal, largest)
    ensures SoFar(bits, i + 3, true, larger)
  {
    larger := largest;
    if inNal {
      var end := i;
      while end > start && bits[end - 1] == 0
        invariant start <= end <= i
        invariant TrimEnd(bits, start, end) == TrimEnd(bits, start, i)
      {
        end := end - 1;
      }
      if end - start > largest {
        larger := end - start;
      }
    }
  }

  /** `largest_nal`: the length of the longest NAL unit. */
  method LargestNal(bits: seq<Byte>) returns (largest: nat)
    ensures largest == MaxLen(Split(bits))
  {
    var i, start := 0, 0;
    largest := 0;
    var inNal := false;
    while i + 2 < |bits|
      invariant 0 <= start <= i <= |bits|
      invariant FirstFrom(bits, start) == FirstFrom(bits, i)
      invariant SoFar(bits, start, inNal, largest)
    {
      if bits[i] == 0 && bits[i + 1] == 0 && bits[i + 2] == 1 {
        largest := AtStartCode(bits, start, i, inNal, largest);
        start := i + 3;
        inNal := true;
        i := i + 2;
      }
      i := i + 1;
    }
    if inNal && |bits| - start > largest {
      largest := |bits| - start;
    }
    LongestIsMaxLen(bits);
  }

  /** The longest unit from `start` on, which follows a start code. */
  ghost function LongestFrom(bits: seq<Byte>, start: nat): nat
    requires start <= |bits|
    decreases |bits| - start
  {
    var next := FirstFrom(bits, start);
    if next == |bits| then |bits| - start
    else Max(TrimEnd(bits, start, next) - start, LongestFrom(bits, next + 3))
  }

  ghost function Longest(bits: seq<Byte>): nat {
    var first := FirstFrom(bits, 0);
    if first == |bits| then 0 else LongestFrom(bits, first + 3)
  }

  lemma {:induction false} LongestFromIs(bits: seq<Byte>, start: nat)
    requires start <= |bits|
    ensures LongestFrom(bits, start) == MaxLen(Units(bits, start))
    decreases |bits| - start
  {
    var next := FirstFrom(bits, start);
    if next == |bits| {
    } else {
      LongestFromIs(bits, next + 3);
      assert Units(bits, start)[1..] == Units(bits, next + 3);
    }
  }

  lemma LongestIsMaxLen(bits: seq<Byte>)
    ensures Longest(bits) == MaxLen(Split(bits))
  {
    var first := FirstFrom(bits, 0);
    if first < |bits| { LongestFromIs(bits, first + 3); }
  }

  /** A unit that starts at `start` and ends before the start code at `next`. */
  lemma UnitEnds(bits: seq<Byte>, start: nat, next: nat, end: nat)
    requires start <= end <= next && StartCode(bits, next)
    requires forall r :: start <= r < next ==> !StartCode(bits, r)
    requires end == start || bits[end - 1] != 0
    requires forall j :: end <= j < next ==> bits[j] == 0
    ensures Units(bits, start) == [bits[start..end]] + Units(bits, next + 3)
  {
    FirstIs(bits, start, next);
    TrimIs(bits, start, next, end);
  }

  /** With no more start codes, the unit in hand is the last. */
  lemma LastUnit(bits: seq<Byte>, start: nat)
    requires start <= |bits| && forall r :: start <= r < |bits| ==> !StartCode(bits, r)
    ensures Units(bits, start) == [bits[start..]]
  {
    FirstIs(bits, start, |bits|);
  }

  // ------------------------------------------------------------------------
  // What the NAL units of a byte string are, by position

  /** bits[s..e] is a NAL unit: it comes right after a start code, and either
      runs up to the zeros before the next start code or, there being none, to
      the end. */
  ghost predicate NalAt(bits: seq<Byte>, s: int, e: int) {
    && 3 <= s <= e <= |bits| && StartCode(bits, s - 3)
    && ((e == |bits| && forall r :: s <= r ==> !StartCode(bits, r))
        || exists next :: EndsBefore(bits, s, e, next))
  }

  /** The start code after bits[s..e] is at `next`, with zeros in between. */
  ghost predicate EndsBefore(bits: seq<Byte>, s: int, e: int, next: int)
    requires 0 <= s <= e <= |bits|
  {
    && e <= next && StartCode(bits, next) && (forall r :: s <= r < next ==> !StartCode(bits, r))
    && (e == s || bits[e - 1] != 0) && (forall j :: e <= j < next ==> bits[j] == 0)
  }

  /** Where the unit after a start code ends. */
  lemma NalEnd(bits: seq<Byte>, s: nat, e: nat)
    requires 3 <= s <= e <= |bits| && StartCode(bits, s - 3)
    ensures var next := FirstFrom(bits, s);
            NalAt(bits, s, e) <==> e == if next == |bits| then |bits| else TrimEnd(bits, s, next)
  {
    var next := FirstFrom(bits, s);
    FirstFacts(bits, s);
    if next < |bits| {
      TrimFacts(bits, s, next);
      assert EndsBefore(bits, s, TrimEnd(bits, s, next), next);
      if NalAt(bits, s, e) {
        var n :| EndsBefore(bits, s, e, n);
        FirstIs(bits, s, n);
        TrimIs(bits, s, next, e);
      }
    }
  }

  /** A unit at or after `n`, which follows a start code, is the one at `n`, or
      comes after the next start code. */
  lemma UnitPlace(bits: seq<Byte>, n: nat, s: nat, e: nat)
    requires 3 <= n <= s && StartCode(bits, n - 3) && NalAt(bits, s, e)
    ensures var next := FirstFrom(bits, n);
            if s == n then e == if next == |bits| then |bits| else TrimEnd(bits, n, next)
            else next < |bits| && s >= next + 3
  {
    FirstFacts(bits, n);
    if s == n {
      NalEnd(bits, n, e);
    } else {
      assert StartCode(bits, s - 3) && !(s - 3 == n - 2) && !(s - 3 == n - 1);
    }
  }

  /** A unit at or after `n`. */
  ghost predicate UnitFrom(bits: seq<Byte>, n: nat, unit: seq<Byte>) {
    exists s, e :: n <= s && NalAt(bits, s, e) && unit == bits[s..e]
  }

  /** Where the unit at `n`, which follows a start code, ends. */
  function EndAt(bits: seq<Byte>, n: nat): (end: nat)
    requires n <= |bits|
    ensures n <= end <= |bits|
  {
    var next := FirstFrom(bits, n);
    if next == |bits| then |bits| else TrimEnd(bits, n, next)
  }

  lemma UnitFromCons(bits: seq<Byte>, n: nat, unit: seq<Byte>)
    requires 3 <= n <= |bits| && StartCode(bits, n - 3)
    ensures var next := FirstFrom(bits, n);
            UnitFrom(bits, n, unit) <==> unit == bits[n..EndAt(bits, n)] || (next < |bits| && UnitFrom(bits, next + 3, unit))
  {
    NalEnd(bits, n, EndAt(bits, n));
    forall s, e | n <= s && NalAt(bits, s, e)
      ensures if s == n then e == EndAt(bits, n) else FirstFrom(bits, n) < |bits| && s >= FirstFrom(bits, n) + 3
    {
      UnitPlace(bits, n, s, e);
    }
  }

  /** Among the units from `n` on are the first one and those after it. */
  lemma FirstUnit(bits: seq<Byte>, n: nat, unit: seq<Byte>)
    requires n <= |bits|
    ensures var next := FirstFrom(bits, n);
            unit in Units(bits, n) <==> unit == bits[n..EndAt(bits, n)] || (next < |bits| && unit in Units(bits, next + 3))
  {
    assert Units(bits, n)[0] == bits[n..EndAt(bits, n)];
  }

  /** The units from `n` on, which follows a start code. */
  lemma {:induction false} UnitsByPosition(bits: seq<Byte>, n: nat, unit: seq<Byte>)
    requires 3 <= n <= |bits| && StartCode(bits, n - 3)
    ensures unit in Units(bits, n) <==> UnitFrom(bits, n, unit)
    decreases |bits| - n
  {
    var next := FirstFrom(bits, n);
    UnitFromCons(bits, n, unit);
    FirstUnit(bits, n, unit);
    if next == |bits| {
    } else {
      FirstFacts(bits, n);
      UnitsByPosition(bits, next + 3, unit);
    }
  }

  /** `Split` lists exactly the NAL units. */
  lemma SplitByPosition(bits: seq<Byte>, unit: seq<Byte>)
    ensures unit in Split(bits) <==> exists s, e :: NalAt(bits, s, e) && unit == bits[s..e]
  {
    var first := FirstFrom(bits, 0);
    FirstFacts(bits, 0);
    forall s, e | NalAt(bits, s, e)
      ensures first < |bits| && s >= first + 3
    {
      assert !(s - 3 < first);
    }
    if first < |bits| {
      UnitsByPosition(bits, first + 3, unit);
    }
  }

  lemma {:induction false} MaxLenBounds(units: seq<seq<Byte>>)
    ensures forall unit :: unit in units ==> |unit| <= MaxLen(units)
    ensures units != [] ==> exists unit :: unit in units && |unit| == MaxLen(units)
  {
    if units == [] {
    } else {
      MaxLenBounds(units[1..]);
      assert units[0] in units;
      assert forall unit :: unit in units[1..] ==> unit in units;
    }
  }

  /** What `LargestNal` returns is the longest extent of a NAL unit, and zero
      exactly when there is none or all are empty. */
  lemma LargestIsExact(bits: seq<Byte>)
    ensures var largest := MaxLen(Split(bits));
            && (forall s, e :: NalAt(bits, s, e) ==> e - s <= largest)
            && (largest > 0 ==> exists s, e :: NalAt(bits, s, e) && e - s == largest)
  {
    var units := Split(bits);
    MaxLenBounds(units);
    forall s, e | NalAt(bits, s, e)
      ensures e - s <= MaxLen(units)
    {
      SplitByPosition(bits, bits[s..e]);
    }
    if MaxLen(units) > 0 {
      var unit :| unit in units && |unit| == MaxLen(units);
      SplitByPosition(bits, unit);
    }
  }

  /** What `IsKeyframe` looks for is a NAL unit of type 5 or 7. */
  lemma RefreshIsUnit(bits: seq<Byte>)
    ensures HasRefresh(bits) <==> exists unit :: unit in Split(bits) && RefreshUnit(unit)
  {
    forall p | StartCode(bits, p) && p + 3 < |bits| && RefreshHeader(bits[p + 3])
      ensures exists unit :: unit in Split(bits) && RefreshUnit(unit)
    {
      var s := p + 3;
      var next := FirstFrom(bits, s);
      FirstFacts(bits, s);
      // A unit that starts with a byte that is not zero is not trimmed away.
      var e := if next == |bits| then |bits| else TrimEnd(bits, s, next);
      assert bits[s] != 0 && next > s;
      if next < |bits| { TrimFacts(bits, s, next); }
      assert e > s;
      NalEnd(bits, s, e);
      SplitByPosition(bits, bits[s..e]);
      assert RefreshUnit(bits[s..e]);
    }
    forall unit | unit in Split(bits) && RefreshUnit(unit)
      ensures HasRefresh(bits)
    {
      SplitByPosition(bits, unit);
      var s, e :| NalAt(bits, s, e) && unit == bits[s..e];
      assert StartCode(bits, s - 3) && RefreshHeader(bits[s - 3 + 3]);
    }
  }

  /** Byte by byte: what `IsKeyframe` looks for is 00 00 01 and a byte whose low
      five bits are 5 or 7. */
  lemma RefreshExactly(bits: seq<Byte>)
    ensures HasRefresh(bits) <==>
            exists p :: 0 <= p < |bits| - 3 && bits[p] == 0 && bits[p + 1] == 0 && bits[p + 2] == 1
                        && bits[p + 3] % 32 in {5, 7}
  {
    forall p | 0 <= p < |bits| - 3 && bits[p] == 0 && bits[p + 1] == 0 && bits[p + 2] == 1 && bits[p + 3] % 32 in {5, 7}
      ensures HasRefresh(bits)
    {
      assert StartCode(bits, p) && RefreshHeader(bits[p + 3]);
    }
  }

  // ------------------------------------------------------------------------
  // Round trip with a serialiser

  /** A NAL unit behind its start code, which `zeros` more zero bytes precede. */
  datatype Nal = Nal(zeros: nat, payload: seq<Byte>)

  function Zeros(n: nat): seq<Byte> {
    seq(n, _ => 0)
  }

  /** A start code of three bytes or more. */
  function LongStartCode(zeros: nat): seq<Byte> {
    Zeros(zeros) + [0, 0, 1]
  }

  function Serialise(nals: seq<Nal>): seq<Byte> {
    if nals == [] then []
    else LongStartCode(nals[0].zeros) + (nals[0].payload + Serialise(nals[1..]))
  }

  function Payloads(nals: seq<Nal>): seq<seq<Byte>> {
    if nals == [] then [] else [nals[0].payload] + Payloads(nals[1..])
  }

  /** What emulation prevention and the trailing bits of section 7.4.1 ensure. */
  ghost predicate ValidPayload(payload: seq<Byte>) {
    && (forall p :: !StartCode(payload, p))
    && (payload == [] || payload[|payload| - 1] != 0)
  }

  /** A payload at `start`, then `zeros` zeros, then a start code. */
  ghost predicate PutAt(bits: seq<Byte>, start: nat, payload: seq<Byte>, zeros: nat) {
    var end := start + |payload|;
    && StartCode(bits, end + zeros)
    && (forall k :: 0 <= k < |payload| ==> bits[start + k] == payload[k])
    && (forall j :: end <= j < end + zeros ==> bits[j] == 0)
  }

  lemma PutIs(bits: seq<Byte>, start: nat, payload: seq<Byte>, zeros: nat, rest: seq<Byte>)
    requires start <= |bits| && bits[start..] == payload + (LongStartCode(zeros) + rest)
    ensures PutAt(bits, start, payload, zeros)
    ensures bits[start + |payload| + zeros + 3..] == rest
  {
    var tail := bits[start..];
    assert forall k :: 0 <= k < |tail| ==> bits[start + k] == tail[k];
    assert tail[|payload| + zeros + 3..] == rest;
    var end := |payload| + zeros;
    assert tail[end] == 0 && tail[end + 1] == 0 && tail[end + 2] == 1;
    assert bits[start + end] == 0 && bits[start + (end + 1)] == 0 && bits[start + (end + 2)] == 1;
    forall j | start + |payload| <= j < start + end
      ensures bits[j] == 0
    {
      assert bits[start + (j - start)] == tail[j - start];
    }
  }

  /** Between a payload and the start code put after it there is no other. */
  lemma NextStart(bits: seq<Byte>, start: nat, payload: seq<Byte>, zeros: nat)
    requires PutAt(bits, start, payload, zeros) && forall p :: !StartCode(payload, p)
    ensures forall r :: start <= r < start + |payload| + zeros ==> !StartCode(bits, r)
  {
    forall r | start <= r < start + |payload| + zeros
      ensures !StartCode(bits, r)
    {
      var k := r - start;
      if k + 2 < |payload| {
        assert !StartCode(payload, k);
        assert bits[start + k] == payload[k] && bits[start + (k + 1)] == payload[k + 1];
        assert bits[start + (k + 2)] == payload[k + 2];
      } else {
        assert bits[r + 2] == 0;
      }
    }
  }

  /** The last payload runs to the end. */
  lemma NoMoreStarts(bits: seq<Byte>, start: nat)
    requires start <= |bits| && forall p :: !StartCode(bits[start..], p)
    ensures Units(bits, start) == [bits[start..]]
  {
    forall r | start <= r < |bits|
      ensures !StartCode(bits, r)
    {
      assert !StartCode(bits[start..], r - start);
    }
    LastUnit(bits, start);
  }

  lemma PayloadAt(bits: seq<Byte>, start: nat, payload: seq<Byte>, zeros: nat)
    requires PutAt(bits, start, payload, zeros)
    ensures var end := start + |payload|;
            bits[start..end] == payload && (end == start || bits[end - 1] == payload[|payload| - 1])
  {
    assert payload != [] ==> bits[start + (|payload| - 1)] == payload[|payload| - 1];
  }

  /** A payload, up to the start code put after it, is the next unit. */
  lemma UnitsCons(bits: seq<Byte>, start: nat, payload: seq<Byte>, zeros: nat)
    requires PutAt(bits, start, payload, zeros) && ValidPayload(payload)
    ensures Units(bits, start) == [payload] + Units(bits, start + |payload| + zeros + 3)
  {
    var end := start + |payload|;
    PayloadAt(bits, start, payload, zeros);
    NextStart(bits, start, payload, zeros);
    UnitEnds(bits, start, end + zeros, end);
  }

  lemma {:induction false} UnitsOfSerialised(bits: seq<Byte>, start: nat, payload: seq<Byte>, nals: seq<Nal>)
    requires ValidPayload(payload)
    requires forall nal :: nal in nals ==> ValidPayload(nal.payload)
    requires start <= |bits| && bits[start..] == payload + Serialise(nals)
    ensures Units(bits, start) == [payload] + Payloads(nals)
    decreases |nals|
  {
    if nals == [] {
      assert bits[start..] == payload;
      NoMoreStarts(bits, start);
    } else {
      var zeros, next := nals[0].zeros, nals[0].payload;
      PutIs(bits, start, payload, zeros, next + Serialise(nals[1..]));
      UnitsCons(bits, start, payload, zeros);
      UnitsOfSerialised(bits, start + |payload| + zeros + 3, next, nals[1..]);
    }
  }

  /** Serialised NAL units split back into the same NAL units. */
  lemma RoundTrip(nals: seq<Nal>)
    requires forall nal :: nal in nals ==> ValidPayload(nal.payload)
    ensures Split(Serialise(nals)) == Payloads(nals)
  {
    var bits := Serialise(nals);
    if nals == [] {
      FirstIs(bits, 0, 0);
    } else {
      var zeros, next := nals[0].zeros, nals[0].payload;
      assert bits[0..] == [] + bits;
      PutIs(bits, 0, [], zeros, next + Serialise(nals[1..]));
      NextStart(bits, 0, [], zeros);
      FirstIs(bits, 0, zeros);
      UnitsOfSerialised(bits, zeros + 3, next, nals[1..]);
    }
  }

  lemma {:induction false} PayloadsAre(nals: seq<Nal>, unit: seq<Byte>)
    ensures unit in Payloads(nals) <==> exists nal :: nal in nals && nal.payload == unit
  {
    if nals == [] {
    } else {
      PayloadsAre(nals[1..], unit);
      assert nals[0] in nals;
      assert forall nal :: nal in nals <==> nal == nals[0] || nal in nals[1..];
    }
  }

  /** On serialised NAL units the scanners see what was serialised: the longest
      payload, and whether one is an IDR slice or a parameter set. */
  lemma ScannersOnSerialised(nals: seq<Nal>)
    requires forall nal :: nal in nals ==> ValidPayload(nal.payload)
    ensures MaxLen(Split(Serialise(nals))) == MaxLen(Payloads(nals))
    ensures forall nal :: nal in nals ==> |nal.payload| <= MaxLen(Split(Serialise(nals)))
    ensures HasRefresh(Serialise(nals)) <==> exists nal :: nal in nals && RefreshUnit(nal.payload)
  {
    RoundTrip(nals);
    RefreshIsUnit(Serialise(nals));
    MaxLenBounds(Payloads(nals));
    forall unit
      ensures unit in Payloads(nals) <==> exists nal :: nal in nals && nal.payload == unit
    {
      PayloadsAre(nals, unit);
    }
  }
}
