/** The header block of a SIP trace: `extract_headers` of src/trace_module.c
    prints it, `parse_trace_headers` of src/event.rs reads it. Joining repeated
    headers with ", " is what section 7.3.1 of RFC 3261 allows. */
module TraceHeaders {

  import opened Options
  import opened Sequences

  /** A header of a message: its name, and what PJSIP prints for it. */
  datatype Header = Header(name: string, line: string)

  // ------------------------------------------------------------------------
  // The printer

  const TRACED_HDR_NAMES: seq<string> := ["Warning", "Reason", "To", "From", "Contact"]

  function LowerChar(c: char): char {
    if 'A' <= c <= 'Z' then c - 'A' + 'a' else c
  }

  function Lower(s: string): string {
    seq(|s|, i requires 0 <= i < |s| => LowerChar(s[i]))
  }

  /** `pj_stricmp2(a, b) == 0`. */
  predicate SameName(a: string, b: string) {
    Lower(a) == Lower(b)
  }

  predicate Traced(name: string) {
    exists traced :: traced in TRACED_HDR_NAMES && SameName(name, traced)
  }

  /** `hdr_is_traced`. */
  method HdrIsTraced(name: string) returns (traced: bool)
    ensures traced <==> Traced(name)
  {
    var i := 0;
    while i < |TRACED_HDR_NAMES|
      invariant 0 <= i <= |TRACED_HDR_NAMES|
      invariant forall j :: 0 <= j < i ==> !SameName(name, TRACED_HDR_NAMES[j])
    {
      if SameName(name, TRACED_HDR_NAMES[i]) {
        return true;
      }
      i := i + 1;
    }
    return false;
  }

  /** Whether PJSIP prints a header's line in a room. It never prints more than
      the room, nor nothing. */
  ghost predicate IsFit(fits: (Header, int) -> bool) {
    forall header, room :: fits(header, room) ==> 0 < |header.line| <= room
  }

  /** `pjsip_hdr_print_on` on buf[at..at + room]: the line's length, or -1 with
      anything left in the room. */
  method PrintOn(header: Header, buf: array<char>, at: nat, room: nat, fits: (Header, int) -> bool) returns (n: int)
    requires at + room <= buf.Length && IsFit(fits)
    modifies buf
    ensures fits(header, room) ==> n == |header.line| && buf[at..at + n] == header.line
    ensures !fits(header, room) ==> n <= 0
    ensures forall j :: 0 <= j < buf.Length && !(at <= j < at + room) ==> buf[j] == old(buf[j])
  {
    if fits(header, room) {
      forall i | 0 <= i < |header.line| {
        buf[at + i] := header.line[i];
      }
      return |header.line|;
    }
    var i := 0;
    while i < room
      invariant 0 <= i <= room
      invariant forall j :: 0 <= j < buf.Length && !(at <= j < at + room) ==> buf[j] == old(buf[j])
    {
      buf[at + i] := *;
      i := i + 1;
    }
    return -1;
  }

  /** The lines of some headers, each ended by a newline. */
  function Block(headers: seq<Header>): string {
    if headers == [] then "" else Block(headers[..|headers| - 1]) + (headers[|headers| - 1].line + "\n")
  }

  /** A header goes out when it is traced and fits. */
  function Selected(fits: (Header, int) -> bool): (Header, int) -> bool {
    (header: Header, room) => Traced(header.name) && fits(header, room)
  }

  /** The headers that go out: those for which `out` holds of the room left when
      their turn comes, one byte of which is kept for the newline. */
  function Kept(headers: seq<Header>, size: int, out: (Header, int) -> bool): seq<Header> {
    if headers == [] then []
    else
      var before := Kept(headers[..|headers| - 1], size, out);
      var header := headers[|headers| - 1];
      if out(header, size - |Block(before)| - 1) then before + [header] else before
  }

  /** The block goes on with the header's line, or stays. */
  ghost predicate Adds(block: string, header: Header, size: int, out: (Header, int) -> bool, next: string) {
    next == if out(header, size - |block| - 1) then block + (header.line + "\n") else block
  }

  lemma BlockLast(headers: seq<Header>, size: int, out: (Header, int) -> bool)
    requires headers != []
    ensures var n := |headers| - 1;
            Adds(Block(Kept(headers[..n], size, out)), headers[n], size, out, Block(Kept(headers, size, out)))
  {
    var kept := Kept(headers[..|headers| - 1], size, out);
    assert (kept + [headers[|headers| - 1]])[..|kept|] == kept;
  }

  /** What is printed before each header, and at the end: a header's line is
      added just when it may go out in the room left at its turn. Once there is
      none, nothing more is added. */
  lemma {:induction false} Blocks(headers: seq<Header>, size: int, out: (Header, int) -> bool) returns (blocks: seq<string>)
    requires IsFit(out)
    ensures |blocks| == |headers| + 1 && blocks[0] == "" && blocks[|headers|] == Block(Kept(headers, size, out))
    ensures forall i :: 0 <= i < |headers| ==> Adds(blocks[i], headers[i], size, out, blocks[i + 1])
    ensures forall i :: 0 <= i <= |headers| && size - |blocks[i]| - 1 <= 0 ==> blocks[|headers|] == blocks[i]
    decreases |headers|
  {
    if headers == [] {
      blocks := [""];
    } else {
      var n := |headers| - 1;
      var before := Blocks(headers[..n], size, out);
      BlockLast(headers, size, out);
      blocks := before + [Block(Kept(headers, size, out))];
      forall i | 0 <= i < |headers|
        ensures Adds(blocks[i], headers[i], size, out, blocks[i + 1])
      {
        if i < n { assert Adds(before[i], headers[..n][i], size, out, before[i + 1]); }
      }
    }
  }

  /** One header after `used` bytes, with its newline; where it does not fit, it
      is as if it were not there. */
  method PrintLine(header: Header, buf: array<char>, used: nat, size: int, fits: (Header, int) -> bool, ghost printed: string)
    returns (end: nat)
    requires used < size - 1 && size <= buf.Length && IsFit(fits)
    requires buf[..used] == printed
    modifies buf
    ensures used <= end <= size
    ensures Adds(printed, header, size, fits, buf[..end])
    ensures forall j :: size <= j < buf.Length ==> buf[j] == old(buf[j])
  {
    var n := PrintOn(header, buf, used, size - used - 1, fits);
    assert buf[..used] == printed;
    if n <= 0 {
      return used;
    }
    buf[used + n] := '\n';
    AppendLine(buf, used, printed, header.line);
    return used + n + 1;
  }

  /** `extract_headers`: whole lines of just the headers that are to go out, in
      order, and nothing written past the buffer. */
  method ExtractHeaders(headers: seq<Header>, buf: array<char>, size: int, fits: (Header, int) -> bool)
    returns (used: nat)
    requires size <= buf.Length && IsFit(fits)
    modifies buf
    ensures used <= buf.Length && buf[..used] == Block(Kept(headers, size, Selected(fits)))
    ensures used <= if size < 0 then 0 else size
    ensures forall j :: 0 <= j < buf.Length && j >= size ==> buf[j] == old(buf[j])
  {
    ghost var blocks := Blocks(headers, size, Selected(fits));
    used := 0;
    var i := 0;
    while i < |headers|
      invariant 0 <= i <= |headers| && 0 <= used <= buf.Length && used <= if size < 0 then 0 else size
      invariant buf[..used] == blocks[i]
      invariant forall j :: 0 <= j < buf.Length && j >= size ==> buf[j] == old(buf[j])
    {
      var header := headers[i];
      assert used == |blocks[i]|;
      var traced := HdrIsTraced(header.name);
      if traced {
        if used >= size - 1 {
          return;
        }
        used := PrintLine(header, buf, used, size, fits, blocks[i]);
      }
      i := i + 1;
    }
  }

  lemma AppendLine(buf: array<char>, used: nat, printed: string, line: string)
    requires used + |line| < buf.Length && buf[..used] == printed
    requires buf[used..used + |line|] == line && buf[used + |line|] == '\n'
    ensures buf[..used + |line| + 1] == printed + (line + "\n")
  {
    var n := |line|;
    assert buf[..used + n + 1] == buf[..used] + (buf[used..used + n] + [buf[used + n]]);
  }

  // ------------------------------------------------------------------------
  // The parser

  /** A header as parsed. */
  datatype Entry = Entry(name: string, value: string)

  /** `char::is_whitespace`: the White_Space property of Unicode. */
  predicate IsWhitespace(c: char) {
    var n := c as int;
    || 0x9 <= n <= 0xD || n == 0x20 || n == 0x85 || n == 0xA0 || n == 0x1680 || 0x2000 <= n <= 0x200A
    || n == 0x2028 || n == 0x2029 || n == 0x202F || n == 0x205F || n == 0x3000
  }

  function TrimStart(s: string): string {
    if s != "" && IsWhitespace(s[0]) then TrimStart(s[1..]) else s
  }

  function TrimEnd(s: string): string {
    if s != "" && IsWhitespace(s[|s| - 1]) then TrimEnd(s[..|s| - 1]) else s
  }

  /** `str::trim`. */
  function Trim(s: string): string {
    TrimEnd(TrimStart(s))
  }

  /** `trim_end_matches('\r')`. */
  function TrimCr(s: string): string {
    if s != "" && s[|s| - 1] == '\r' then TrimCr(s[..|s| - 1]) else s
  }

  /** The position of the first c, or the length. */
  function Find(s: string, c: char): (i: nat)
    ensures i <= |s|
    ensures i < |s| ==> s[i] == c
    ensures forall j :: 0 <= j < i ==> s[j] != c
  {
    if s == "" || s[0] == c then 0 else 1 + Find(s[1..], c)
  }

  /** The header on a line, if it is one. */
  function ParseLine(line: string): Option<Entry> {
    var text := TrimCr(line);
    var colon := Find(text, ':');
    if colon == |text| || Trim(text[..colon]) == "" then None
    else Some(Entry(Trim(text[..colon]), Trim(text[colon + 1..])))
  }

  function AsSeq(entry: Option<Entry>): seq<Entry> {
    if entry.Some? then [entry.value] else []
  }

  /** The headers of a block, line by line. */
  function Entries(raw: string): seq<Entry> {
    if raw == "" then []
    else
      var end := Find(raw, '\n');
      AsSeq(ParseLine(raw[..end])) + if end == |raw| then [] else Entries(raw[end + 1..])
  }

  function ValuesOf(entries: seq<Entry>, name: string): seq<string> {
    if entries == [] then []
    else
      var last := entries[|entries| - 1];
      ValuesOf(entries[..|entries| - 1], name) + if last.name == name then [last.value] else []
  }

  function Join(values: seq<string>): string
    requires values != []
  {
    if |values| == 1 then values[0] else Join(values[..|values| - 1]) + ", " + values[|values| - 1]
  }

  /** Every name with all its values in order, joined. */
  ghost predicate IsJoined(headers: map<string, string>, entries: seq<Entry>) {
    forall name ::
      && (name in headers <==> ValuesOf(entries, name) != [])
      && (name in headers ==> headers[name] == Join(ValuesOf(entries, name)))
  }

  /** An entry is appended to what its name has, or put in. */
  function Absorb(headers: map<string, string>, entry: Entry): map<string, string> {
    headers[entry.name := if entry.name in headers then headers[entry.name] + ", " + entry.value else entry.value]
  }

  lemma ValuesSnoc(entries: seq<Entry>, entry: Entry, name: string)
    ensures ValuesOf(entries + [entry], name) ==
            ValuesOf(entries, name) + if entry.name == name then [entry.value] else []
  {
    assert (entries + [entry])[..|entries|] == entries;
  }

  lemma JoinSnoc(values: seq<string>, value: string)
    ensures Join(values + [value]) == if values == [] then value else Join(values) + ", " + value
  {
    assert (values + [value])[..|values|] == values;
  }

  lemma JoinOneMore(headers: map<string, string>, entries: seq<Entry>, entry: Entry)
    requires IsJoined(headers, entries)
    ensures IsJoined(Absorb(headers, entry), entries + [entry])
  {
    var more, after := entries + [entry], Absorb(headers, entry);
    forall name
      ensures name in after <==> ValuesOf(more, name) != []
      ensures name in after ==> after[name] == Join(ValuesOf(more, name))
    {
      var values := ValuesOf(entries, name);
      ValuesSnoc(entries, entry, name);
      assert values + [] == values;
      JoinSnoc(values, entry.value);
    }
  }

  /** A block is its first line and the rest. */
  lemma EntriesStep(raw: string)
    requires raw != ""
    ensures var end := Find(raw, '\n');
            Entries(raw) == AsSeq(ParseLine(raw[..end])) + Entries(if end == |raw| then "" else raw[end + 1..])
  {
  }

  /** `parse_trace_headers`. */
  method ParseTraceHeaders(raw: string) returns (headers: map<string, string>)
    ensures IsJoined(headers, Entries(raw))
  {
    headers := map[];
    var rest := raw;
    ghost var done: seq<Entry> := [];
    while rest != ""
      invariant Entries(raw) == done + Entries(rest)
      invariant IsJoined(headers, done)
      decreases |rest|
    {
      EntriesStep(rest);
      var end := Find(rest, '\n');
      var line := rest[..end];
      rest := if end == |rest| then "" else rest[end + 1..];
      ghost var entry := AsSeq(ParseLine(line));
      Regroup(done, entry, Entries(rest));
      assert entry == [] ==> done + entry == done;
      var text := TrimCr(line);
      if text == "" {
        continue;
      }
      var colon := Find(text, ':');
      if colon == |text| {
        continue;
      }
      var name := Trim(text[..colon]);
      if name == "" {
        continue;
      }
      var value := Trim(text[colon + 1..]);
      assert entry == [Entry(name, value)];
      JoinOneMore(headers, done, Entry(name, value));
      done := done + entry;
      if name in headers {
        headers := headers[name := headers[name] + ", " + value];
      } else {
        headers := headers[name := value];
      }
    }
    assert done + Entries(rest) == done;
  }

  // ------------------------------------------------------------------------
  // Blocks one after the other

  /** A line and a newline in front of a block. */
  lemma EntriesLine(line: string, rest: string)
    requires '\n' !in line
    ensures Entries(line + "\n" + rest) == AsSeq(ParseLine(line)) + Entries(rest)
  {
    var raw := line + "\n" + rest;
    forall j | 0 <= j < |line|
      ensures raw[j] != '\n'
    {
      assert raw[j] == line[j] && line[j] in line;
    }
    FindIs(raw, '\n', |line|);
    EntriesStep(raw);
    assert raw[..|line|] == line && raw[|line| + 1..] == rest;
  }

  /** Parsing a newline-ended block and then another is parsing them together. */
  lemma {:induction false} EntriesConcat(a: string, b: string)
    requires a == "" || a[|a| - 1] == '\n'
    ensures Entries(a + b) == Entries(a) + Entries(b)
    decreases |a|
  {
    if a == "" {
      assert a + b == b;
    } else {
      var end := Find(a, '\n');
      assert end < |a|;
      var line, rest := a[..end], a[end + 1..];
      assert '\n' !in line;
      assert a == line + "\n" + rest && a + b == line + "\n" + (rest + b);
      EntriesLine(line, rest);
      EntriesLine(line, rest + b);
      assert rest != "" ==> rest[|rest| - 1] == a[|a| - 1];
      EntriesConcat(rest, b);
      Regroup(AsSeq(ParseLine(line)), Entries(rest), Entries(b));
    }
  }

  lemma {:induction false} ValuesConcat(a: seq<Entry>, b: seq<Entry>, name: string)
    ensures ValuesOf(a + b, name) == ValuesOf(a, name) + ValuesOf(b, name)
    decreases |b|
  {
    if b == [] {
      assert a + b == a;
    } else {
      var init, last := b[..|b| - 1], b[|b| - 1];
      ValuesConcat(a, init, name);
      assert a + b == (a + init) + [last];
      ValuesSnoc(a + init, last, name);
    }
  }

  lemma {:induction false} JoinConcat(a: seq<string>, b: seq<string>)
    requires a != [] && b != []
    ensures Join(a + b) == Join(a) + ", " + Join(b)
    decreases |b|
  {
    var init, last := b[..|b| - 1], b[|b| - 1];
    assert b == init + [last] && a + b == (a + init) + [last];
    JoinSnoc(init, last);
    JoinSnoc(a + init, last);
    if init == [] {
      assert a + init == a;
    } else {
      JoinConcat(a, init);
      Regroup4(Join(a) + ", ", Join(init), ", ", last);
    }
  }

  /** Two newline-ended blocks together give, for each name, what each gives,
      joined: parsing takes concatenation to joining. */
  lemma BlocksJoin(a: string, b: string, ha: map<string, string>, hb: map<string, string>, hab: map<string, string>)
    requires a == "" || a[|a| - 1] == '\n'
    requires IsJoined(ha, Entries(a)) && IsJoined(hb, Entries(b)) && IsJoined(hab, Entries(a + b))
    ensures hab.Keys == ha.Keys + hb.Keys
    ensures forall name :: name in hab ==>
              hab[name] == if name !in hb then ha[name] else if name !in ha then hb[name] else ha[name] + ", " + hb[name]
  {
    EntriesConcat(a, b);
    JoinedConcat(Entries(a), Entries(b), ha, hb, hab);
  }

  lemma JoinedConcat(a: seq<Entry>, b: seq<Entry>, ha: map<string, string>, hb: map<string, string>, hab: map<string, string>)
    requires IsJoined(ha, a) && IsJoined(hb, b) && IsJoined(hab, a + b)
    ensures hab.Keys == ha.Keys + hb.Keys
    ensures forall name :: name in hab ==>
              hab[name] == if name !in hb then ha[name] else if name !in ha then hb[name] else ha[name] + ", " + hb[name]
  {
    forall name
      ensures name in hab <==> name in ha || name in hb
      ensures name in hab ==>
                hab[name] == if name !in hb then ha[name] else if name !in ha then hb[name] else ha[name] + ", " + hb[name]
    {
      var va, vb := ValuesOf(a, name), ValuesOf(b, name);
      ValuesConcat(a, b, name);
      if va != [] && vb != [] {
        JoinConcat(va, vb);
      } else {
        assert va + vb == if va == [] then vb else va;
      }
    }
  }

  // ------------------------------------------------------------------------
  // Round trip

  /** Not empty, without colon or newline, and not to be trimmed. */
  ghost predicate CleanName(name: string) {
    name != "" && ':' !in name && '\n' !in name && !IsWhitespace(name[0]) && !IsWhitespace(name[|name| - 1])
  }

  /** On one line, and not to be trimmed. */
  ghost predicate CleanValue(value: string) {
    '\n' !in value && (value == "" || (!IsWhitespace(value[0]) && !IsWhitespace(value[|value| - 1])))
  }

  /** The header prints as its clean name, colon, space and clean value. */
  ghost predicate PrintsAs(header: Header, entry: Entry) {
    CleanName(entry.name) && CleanValue(entry.value) && header.line == entry.name + ": " + entry.value
  }

  lemma FindIs(s: string, c: char, i: nat)
    requires i <= |s| && (i < |s| ==> s[i] == c) && forall j :: 0 <= j < i ==> s[j] != c
    ensures Find(s, c) == i
  {
    var f := Find(s, c);
    assert !(f < i);
  }

  /** A printed header parses as itself. */
  lemma LineRoundTrip(header: Header, entry: Entry)
    requires PrintsAs(header, entry)
    ensures ParseLine(header.line) == Some(entry)
  {
    var line, name, value := header.line, entry.name, entry.value;
    assert TrimCr(line) == line by {
      assert line[|line| - 1] == if value == "" then ' ' else value[|value| - 1];
    }
    FindIs(line, ':', |name|);
    assert line[..|name|] == name && line[|name| + 1..] == " " + value;
    assert (" " + value)[1..] == value && Trim(" " + value) == Trim(value);
    if value != "" {
      assert Trim(value) == value;
    }
  }

  /** A printed header is on one line. */
  lemma OneLine(header: Header, entry: Entry)
    requires PrintsAs(header, entry)
    ensures '\n' !in header.line
  {
  }

  lemma LineEnds(header: Header, entry: Entry)
    requires PrintsAs(header, entry)
    ensures Entries(header.line + "\n") == [entry]
  {
    LineRoundTrip(header, entry);
    OneLine(header, entry);
    EntriesLine(header.line, "");
    assert header.line + "\n" + "" == header.line + "\n";
  }

  /** A block is of whole lines. */
  lemma BlockEnds(headers: seq<Header>)
    ensures Block(headers) == "" || Block(headers)[|Block(headers)| - 1] == '\n'
  {
  }

  /** One more line, one more entry. */
  lemma OneMoreLine(block: string, header: Header, entry: Entry)
    requires block == "" || block[|block| - 1] == '\n'
    requires PrintsAs(header, entry)
    ensures Entries(block + (header.line + "\n")) == Entries(block) + [entry]
  {
    LineEnds(header, entry);
    EntriesConcat(block, header.line + "\n");
  }

  /** A printed block parses as the headers in it, in order. */
  lemma {:induction false} BlockRoundTrip(headers: seq<Header>, entries: seq<Entry>)
    requires |headers| == |entries| && forall i :: 0 <= i < |headers| ==> PrintsAs(headers[i], entries[i])
    ensures Entries(Block(headers)) == entries
    decreases |headers|
  {
    if headers == [] {
    } else {
      var n := |headers| - 1;
      BlockRoundTrip(headers[..n], entries[..n]);
      BlockEnds(headers[..n]);
      OneMoreLine(Block(headers[..n]), headers[n], entries[n]);
      Snoc(entries);
    }
  }

  /** What is read of a message is, for each name printed, the values of the
      headers that went out, in message order, joined. `entryOf` says what
      name and value each of those prints. */
  lemma TraceRoundTrip(headers: seq<Header>, size: int, fits: (Header, int) -> bool, entryOf: Header -> Entry,
                       parsed: map<string, string>)
    requires forall header :: header in Kept(headers, size, Selected(fits)) ==> PrintsAs(header, entryOf(header))
    requires IsJoined(parsed, Entries(Block(Kept(headers, size, Selected(fits)))))
    ensures IsJoined(parsed, Map(Kept(headers, size, Selected(fits)), entryOf))
  {
    var kept := Kept(headers, size, Selected(fits));
    BlockRoundTrip(kept, Map(kept, entryOf));
  }

  function Map(headers: seq<Header>, entryOf: Header -> Entry): seq<Entry> {
    seq(|headers|, i requires 0 <= i < |headers| => entryOf(headers[i]))
  }

  /** Only traced headers of the message go out. */
  lemma {:induction false} KeptAreTraced(headers: seq<Header>, size: int, fits: (Header, int) -> bool)
    ensures forall header :: header in Kept(headers, size, Selected(fits)) ==> header in headers && Traced(header.name)
  {
    if headers == [] {
    } else {
      KeptAreTraced(headers[..|headers| - 1], size, fits);
      assert headers[|headers| - 1] in headers;
      assert forall header :: header in headers[..|headers| - 1] ==> header in headers;
    }
  }
}
