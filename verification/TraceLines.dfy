/** The lines and names of a SIP trace's header block, character by character. */
module TraceLines {

  import opened Options
  import opened TraceHeaders

  // ------------------------------------------------------------------------
  // Names

  /** The letters of one are those of the other, in either case. */
  ghost predicate IgnoringCase(a: string, b: string) {
    |a| == |b| && forall i :: 0 <= i < |a| ==> a[i] == b[i] || CapitalOf(a[i], b[i]) || CapitalOf(b[i], a[i])
  }

  /** In ASCII, a capital letter is 32 below its small one. */
  predicate CapitalOf(capital: char, small: char) {
    'A' <= capital <= 'Z' && small as int == capital as int + 32
  }

  lemma SameNameExactly(a: string, b: string)
    ensures SameName(a, b) <==> IgnoringCase(a, b)
  {
    if SameName(a, b) {
      assert |Lower(a)| == |Lower(b)|;
      forall i | 0 <= i < |a|
        ensures a[i] == b[i] || CapitalOf(a[i], b[i]) || CapitalOf(b[i], a[i])
      {
        assert Lower(a)[i] == Lower(b)[i];
      }
    }
  }

  /** Five names are traced, however they are capitalised, and no others. */
  lemma TracedExactly(name: string)
    ensures Traced(name) <==>
            || IgnoringCase(name, "Warning") || IgnoringCase(name, "Reason") || IgnoringCase(name, "To")
            || IgnoringCase(name, "From") || IgnoringCase(name, "Contact")
  {
    forall traced | traced in TRACED_HDR_NAMES
      ensures SameName(name, traced) <==> IgnoringCase(name, traced)
    {
      SameNameExactly(name, traced);
    }
    assert TRACED_HDR_NAMES[0] == "Warning" && TRACED_HDR_NAMES[1] == "Reason" && TRACED_HDR_NAMES[2] == "To";
    assert TRACED_HDR_NAMES[3] == "From" && TRACED_HDR_NAMES[4] == "Contact";
  }

  /** The last header goes out after those before it exactly when it is traced and
      its line and a newline fit in what they leave. */
  lemma LastHeader(headers: seq<Header>, header: Header, size: int, fits: (Header, int) -> bool)
    ensures var before, all := Kept(headers, size, Selected(fits)), Kept(headers + [header], size, Selected(fits));
            if Traced(header.name) && fits(header, size - |Block(before)| - 1) then
              all == before + [header] && Block(all) == Block(before) + header.line + "\n"
            else
              all == before
  {
    var before := Kept(headers, size, Selected(fits));
    assert (headers + [header])[..|headers|] == headers;
    assert (before + [header])[..|before|] == before;
  }

  // ------------------------------------------------------------------------
  // Lines

  /** The text is the part without the white space at its ends. */
  ghost predicate Stripped(part: string, text: string) {
    && (text != "" ==> !IsWhitespace(text[0]) && !IsWhitespace(text[|text| - 1]))
    && exists i, j :: BlankOutside(part, i, j) && text == part[i..j]
  }

  /** All outside part[i..j] is white space. */
  ghost predicate BlankOutside(part: string, i: int, j: int) {
    && 0 <= i <= j <= |part|
    && (forall k :: 0 <= k < i ==> IsWhitespace(part[k]))
    && (forall k :: j <= k < |part| ==> IsWhitespace(part[k]))
  }

  lemma {:induction false} TrimStartExactly(s: string) returns (i: nat)
    ensures i <= |s| && TrimStart(s) == s[i..]
    ensures forall k :: 0 <= k < i ==> IsWhitespace(s[k])
    ensures i < |s| ==> !IsWhitespace(s[i])
  {
    if s != "" && IsWhitespace(s[0]) {
      i := TrimStartExactly(s[1..]);
      i := i + 1;
    } else {
      i := 0;
    }
  }

  lemma {:induction false} TrimEndExactly(s: string) returns (j: nat)
    ensures j <= |s| && TrimEnd(s) == s[..j]
    ensures forall k :: j <= k < |s| ==> IsWhitespace(s[k])
    ensures j > 0 ==> !IsWhitespace(s[j - 1])
  {
    if s != "" && IsWhitespace(s[|s| - 1]) {
      j := TrimEndExactly(s[..|s| - 1]);
    } else {
      j := |s|;
    }
  }

  /** Trimming strips the white space at the ends, and nothing else. */
  lemma TrimStrips(s: string)
    ensures Stripped(s, Trim(s))
  {
    var i := TrimStartExactly(s);
    var j := TrimEndExactly(s[i..]);
    assert Trim(s) == s[i..i + j] && BlankOutside(s, i, i + j);
  }

  lemma {:induction false} TrimCrExactly(s: string) returns (n: nat)
    ensures n <= |s| && TrimCr(s) == s[..n]
    ensures forall k :: n <= k < |s| ==> s[k] == '\r'
  {
    if s != "" && s[|s| - 1] == '\r' {
      n := TrimCrExactly(s[..|s| - 1]);
    } else {
      n := |s|;
    }
  }

  /** White space after a part is stripped, too. */
  lemma StrippedLonger(part: string, n: nat, text: string)
    requires n <= |part| && Stripped(part[..n], text) && forall k :: n <= k < |part| ==> IsWhitespace(part[k])
    ensures Stripped(part, text)
  {
    var i, j :| BlankOutside(part[..n], i, j) && text == part[..n][i..j];
    assert BlankOutside(part, i, j) && text == part[i..j];
  }

  /** The first colon of a line is at i. */
  ghost predicate FirstColon(line: string, i: int) {
    0 <= i < |line| && line[i] == ':' && forall k :: 0 <= k < i ==> line[k] != ':'
  }

  /** What is around the first colon of a line, up to its last carriage returns. */
  lemma ColonAt(line: string, i: nat) returns (n: nat)
    requires FirstColon(line, i)
    ensures i < n <= |line| && forall k :: n <= k < |line| ==> IsWhitespace(line[k])
    ensures ParseLine(line) ==
            if Trim(line[..i]) == "" then None else Some(Entry(Trim(line[..i]), Trim(line[i + 1..n])))
  {
    n := TrimCrExactly(line);
    FindIs(line[..n], ':', i);
    assert line[..n][..i] == line[..i] && line[..n][i + 1..] == line[i + 1..n];
  }

  lemma NotBlank(s: string)
    ensures Trim(s) != "" <==> exists j :: 0 <= j < |s| && !IsWhitespace(s[j])
  {
    TrimStrips(s);
    if Trim(s) != "" {
      var i, j :| BlankOutside(s, i, j) && Trim(s) == s[i..j];
      assert Trim(s)[0] == s[i];
    }
  }

  /** What follows the colon, without the last carriage returns. */
  lemma ValueStrips(line: string, i: nat, n: nat)
    requires i < n <= |line| && forall k :: n <= k < |line| ==> IsWhitespace(line[k])
    ensures Stripped(line[i + 1..], Trim(line[i + 1..n]))
  {
    TrimStrips(line[i + 1..n]);
    assert line[i + 1..n] == line[i + 1..][..n - i - 1];
    StrippedLonger(line[i + 1..], n - i - 1, Trim(line[i + 1..n]));
  }

  /** What a line with a colon is parsed as: a header if there is something other
      than white space before its first colon, whose name and value are the
      parts around it, stripped. */
  lemma LineWithColon(line: string, i: nat)
    requires FirstColon(line, i)
    ensures ParseLine(line).Some? <==> exists j :: 0 <= j < i && !IsWhitespace(line[j])
    ensures ParseLine(line).Some? ==>
              var header := ParseLine(line).value;
              header.name != "" && Stripped(line[..i], header.name) && Stripped(line[i + 1..], header.value)
  {
    var n := ColonAt(line, i);
    NotBlank(line[..i]);
    TrimStrips(line[..i]);
    ValueStrips(line, i, n);
    assert forall j :: 0 <= j < i ==> line[..i][j] == line[j];
  }

  /** Without a colon it is none. */
  lemma LineWithoutColon(line: string)
    requires ':' !in line
    ensures ParseLine(line) == None
  {
    var n := TrimCrExactly(line);
    FindIs(line[..n], ':', n);
  }

  /** A line is a header if and only if there is something other than white space
      before its first colon. */
  lemma ParsesExactly(line: string)
    ensures ParseLine(line).Some? <==> exists i, j :: FirstColon(line, i) && 0 <= j < i && !IsWhitespace(line[j])
  {
    if ':' in line {
      var i := Find(line, ':');
      assert FirstColon(line, i);
      LineWithColon(line, i);
    } else {
      LineWithoutColon(line);
    }
  }

  /** A block is read line by line. */
  lemma LineByLine(line: string, rest: string)
    requires '\n' !in line
    ensures Entries("") == []
    ensures Entries(line + "\n" + rest) ==
            (if ParseLine(line).Some? then [ParseLine(line).value] else []) + Entries(rest)
  {
    EntriesLine(line, rest);
  }

  /** The last line need not end in a newline. */
  lemma LastLine(line: string)
    requires '\n' !in line
    ensures Entries(line) == if ParseLine(line).Some? then [ParseLine(line).value] else []
  {
    if line == "" {
      LineWithoutColon(line);
    } else {
      FindIs(line, '\n', |line|);
      EntriesStep(line);
      assert line[..|line|] == line;
    }
  }
}
