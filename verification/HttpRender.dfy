/** Printing HTTP/1.x headers, and that reading back what was printed finds the one Host field. */
module HttpRender {
  import opened Bytes
  import opened HttpPreread

  ghost predicate CrlfFree(line: bytes) { Index(line, CRLF) < 0 }

  ghost predicate Printable(lines: seq<bytes>) {
    forall i :: 0 <= i < |lines| ==> lines[i] != [] && CrlfFree(lines[i])
  }

  function Block(lines: seq<bytes>): bytes {
    if lines == [] then [] else lines[0] + (CRLF + Block(lines[1..]))
  }

  /** request-line CRLF *( field-line CRLF ) CRLF */
  function Render(requestLine: bytes, lines: seq<bytes>): bytes {
    requestLine + (CRLF + (Block(lines) + CRLF))
  }

  lemma FirstLine(line: bytes, rest: bytes)
    requires CrlfFree(line)
    ensures Index(line + (CRLF + rest), CRLF) == |line|
  {
    hide IndexFrom;
    var s := line + (CRLF + rest);
    assert s[|line|..|line| + 2] == CRLF;
    forall k | 0 <= k < |line| ensures !MatchAt(s, CRLF, k) {
      if k + 2 <= |line| {
        assert s[k..k + 2] == line[k..k + 2];
        assert !MatchAt(line, CRLF, k);
      } else {
        assert s[k..k + 2][1] == CR;
      }
    }
    IndexIs(s, CRLF, |line|);
  }

  lemma SplitFirst(line: bytes, rest: bytes)
    requires CrlfFree(line)
    ensures SplitLines(line + (CRLF + rest)) == [line] + SplitLines(rest)
  {
    hide IndexFrom;
    var s := line + (CRLF + rest);
    FirstLine(line, rest);
    assert s[..|line|] == line && s[|line| + 2..] == rest;
  }

  lemma {:induction false} SplitBlock(lines: seq<bytes>)
    requires Printable(lines)
    ensures SplitLines(Block(lines) + CRLF) == lines + [[]]
  {
    hide IndexFrom;
    if lines == [] {
      assert CrlfFree([]);
      assert [] + (CRLF + []) == Block(lines) + CRLF;
      SplitFirst([], []);
      assert SplitLines([]) == [];
    } else {
      var rest := Block(lines[1..]) + CRLF;
      assert Block(lines) + CRLF == lines[0] + (CRLF + rest);
      SplitFirst(lines[0], rest);
      SplitBlock(lines[1..]);
    }
  }

  lemma {:induction false} UntilTheBlank(lines: seq<bytes>)
    requires Printable(lines)
    ensures UntilBlank(lines + [[]]) == lines
  {
    if lines != [] {
      assert (lines + [[]])[1..] == lines[1..] + [[]];
      UntilTheBlank(lines[1..]);
    }
  }

  /** Parsing what was printed sees the request line and exactly the printed field lines. */
  lemma ParsePrinted(requestLine: bytes, lines: seq<bytes>)
    requires requestLine != [] && CrlfFree(requestLine) && Printable(lines)
    ensures ParseHeader(Render(requestLine, lines)) ==
      match ValidateRequestLine(requestLine)
      case Some(e) => Err(e)
      case None => OnlyHost(HostValues(lines))
  {
    hide IndexFrom, ValidateRequestLine, OnlyHost, HostValues;
    SplitFirst(requestLine, Block(lines) + CRLF);
    SplitBlock(lines);
    UntilTheBlank(lines);
    var all := SplitLines(Render(requestLine, lines));
    assert all[0] == requestLine && all[1..] == lines + [[]];
  }

  // ---- Where a printed header ends -------------------------------------

  /** Behind a line end, a non-empty line cannot complete the terminator. */
  lemma NotInLine(line: bytes, rest: bytes, k: nat)
    requires line != [] && CrlfFree(line) && k < |line| + 2
    ensures !MatchAt(CRLF + (line + (CRLF + rest)), CRLFCRLF, k)
  {
    hide IndexFrom;
    var tail := line + (CRLF + rest);
    var s := CRLF + tail;
    assert |CRLF| == 2 && |CRLFCRLF| == 4;
    FirstLine(line, rest);
    if k == 1 {
      assert s[1] == LF;
    } else if k + 4 <= |s| {
      var j, at := if k == 0 then 0 else k - 2, if k == 0 then 2 else 0;
      assert !MatchAt(tail, CRLF, j);
      assert tail[j..j + |CRLF|] != CRLF;
      assert s[k..k + 4][at..at + 2] == s[k + at..k + at + 2] == tail[j..j + 2];
      assert CRLFCRLF[at..at + 2] == CRLF;
    }
  }

  lemma MatchShift(front: bytes, back: bytes, p: bytes, k: nat)
    requires k >= |front|
    ensures MatchAt(front + back, p, k) <==> MatchAt(back, p, k - |front|)
  {
    if k + |p| <= |front + back| {
      assert (front + back)[k..k + |p|] == back[k - |front|..k - |front| + |p|];
    }
  }

  lemma {:induction false} BlockEnd(lines: seq<bytes>, body: bytes)
    requires Printable(lines)
    ensures Index(CRLF + (Block(lines) + CRLF + body), CRLFCRLF) == |Block(lines)|
  {
    hide IndexFrom;
    var n := |Block(lines)|;
    var s := CRLF + (Block(lines) + CRLF + body);
    if lines == [] {
      assert s[0..4] == CRLFCRLF;
      IndexIs(s, CRLFCRLF, 0);
    } else {
      var line, rest := lines[0], Block(lines[1..]) + CRLF + body;
      var later := CRLF + rest;
      BlockEnd(lines[1..], body);
      assert s == (CRLF + line) + later;
      assert s == CRLF + (line + (CRLF + rest));
      forall k | 0 <= k < n ensures !MatchAt(s, CRLFCRLF, k) {
        if k < |line| + 2 {
          NotInLine(line, rest, k);
        } else {
          MatchShift(CRLF + line, later, CRLFCRLF, k);
        }
      }
      MatchShift(CRLF + line, later, CRLFCRLF, n);
      IndexIs(s, CRLFCRLF, n);
    }
  }

  /** The terminator ReadHTTPHost looks for is the end of the printed header, whatever follows. */
  lemma PrintedEnd(requestLine: bytes, lines: seq<bytes>, body: bytes)
    requires requestLine != [] && CrlfFree(requestLine) && Printable(lines)
    ensures Index(Render(requestLine, lines) + body, CRLFCRLF) == |Render(requestLine, lines)| - 4
  {
    hide IndexFrom;
    var all := [requestLine] + lines;
    assert all[1..] == lines;
    assert forall i :: 0 < i < |all| ==> all[i] == lines[i - 1];
    BlockEnd(all, body);
    var s, t := Render(requestLine, lines) + body, CRLF + (Block(all) + CRLF + body);
    assert Block(all) == requestLine + (CRLF + Block(lines));
    assert t == CRLF + s;
    var n := |Block(all)|;
    forall k | 0 <= k < n - 2 ensures !MatchAt(s, CRLFCRLF, k) {
      MatchShift(CRLF, s, CRLFCRLF, k + 2);
    }
    MatchShift(CRLF, s, CRLFCRLF, n);
    IndexIs(s, CRLFCRLF, n - 2);
  }

  /**
   * Round trip: a printed request, followed by any body, is routed by its one Host field. It is
   * refused exactly when it is too long, its request line is invalid, or it has not exactly one
   * Host field with a value that survives normalization.
   */
  lemma PrintedRequest(requestLine: bytes, lines: seq<bytes>, body: bytes, max: nat)
    requires requestLine != [] && CrlfFree(requestLine) && Printable(lines)
    requires !NonHttpPrefix(requestLine)
    ensures OneShot(Render(requestLine, lines) + body, max) ==
      if |Render(requestLine, lines)| > max then Err(HeaderTooLarge)
      else match ValidateRequestLine(requestLine)
        case Some(e) => Err(e)
        case None => OnlyHost(HostValues(lines))
  {
    hide IndexFrom, ValidateRequestLine, OnlyHost, HostValues, ParseHeader;
    PrintedEnd(requestLine, lines, body);
    ParsePrinted(requestLine, lines);
    var head := Render(requestLine, lines);
    assert (head + body)[..|head|] == head;
    assert (head + body)[0] == requestLine[0];
  }

  lemma {:induction false} HostValuesConcat(a: seq<bytes>, b: seq<bytes>)
    ensures HostValues(a + b) == HostValues(a) + HostValues(b)
  {
    hide HostField;
    if a == [] {
      assert a + b == b;
    } else {
      assert (a + b)[0] == a[0] && (a + b)[1..] == a[1..] + b;
      HostValuesConcat(a[1..], b);
      var first := match HostField(a[0]) case Some(v) => [v] case None => [];
      assert first + (HostValues(a[1..]) + HostValues(b)) == (first + HostValues(a[1..])) + HostValues(b);
    }
  }

  /** In particular: one Host field among others, spelled any way, selects its canonical name. */
  lemma OneHostSelects(before: seq<bytes>, host: bytes, after: seq<bytes>)
    requires HostValues(before) == [] && HostValues(after) == []
    requires HostField(host).Some? && NormalizeHost(HostField(host).value) != []
    ensures OnlyHost(HostValues(before + [host] + after)) == Ok(NormalizeHost(HostField(host).value))
  {
    HostValuesConcat(before + [host], after);
    HostValuesConcat(before, [host]);
    assert HostValues([host]) == [HostField(host).value];
  }
}
