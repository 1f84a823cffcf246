/** How the GPS driver cuts its input into NMEA sentences (libgps/athr_gps.c, nmea_reader_addc): bytes
    collect in a buffer until a newline, and a line that does not fit is skipped. */
module NmeaFraming {
  import opened Sequences

  const NMEA_MAX_SIZE := 83
  const NL := 10

  type Bytes = seq<int>

  // The bytes collected so far, and everything handed to the parser so far.
  datatype Reader = Reader(buf: Bytes, overflow: bool, parsed: seq<Bytes>)

  const EMPTY := Reader([], false, [])

  function Add(r: Reader, c: int): Reader {
    if r.overflow then r.(overflow := c != NL)
    else if |r.buf| >= NMEA_MAX_SIZE then Reader([], true, r.parsed)
    else if c == NL then Reader([], false, r.parsed + [r.buf + [c]])
    else r.(buf := r.buf + [c])
  }

  function AddAll(r: Reader, bytes: Bytes): Reader {
    if bytes == [] then r else Add(AddAll(r, bytes[..|bytes| - 1]), bytes[|bytes| - 1])
  }

  lemma {:induction false} AddAllInTurn(r: Reader, a: Bytes, b: Bytes)
    ensures AddAll(r, a + b) == AddAll(AddAll(r, a), b)
    decreases |b|
  {
    if b == [] {
      assert a + b == a;
    } else {
      AddAllInTurn(r, a, b[..|b| - 1]);
      assert (a + b)[..|a + b| - 1] == a + b[..|b| - 1];
    }
  }

  class NmeaReader {
    const input: array<int>
    var pos: nat
    var overflow: bool
    var parsed: seq<Bytes>

    ghost predicate Valid()
      reads this, input
    {
      input.Length == NMEA_MAX_SIZE + 1 && pos <= NMEA_MAX_SIZE
    }

    ghost function View(): Reader
      requires Valid()
      reads this, input
    {
      Reader(input[..pos], overflow, parsed)
    }

    constructor ()
      ensures Valid() && View() == EMPTY && fresh(input)
    {
      input := new int[NMEA_MAX_SIZE + 1](_ => 0);
      pos, overflow, parsed := 0, false, [];
    }

    method AddC(c: int)
      requires Valid()
      modifies this, input
      ensures Valid() && View() == Add(old(View()), c)
    {
      if overflow {
        overflow := c != NL;
        return;
      }
      if pos >= input.Length - 1 {
        overflow := true;
        pos := 0;
        return;
      }
      input[pos] := c;
      pos := pos + 1;
      assert input[..pos] == old(input[..pos]) + [c];
      if c == NL {
        parsed := parsed + [input[..pos]];
        pos := 0;
      }
    }

    method Receive(bytes: Bytes)
      requires Valid()
      modifies this, input
      ensures Valid() && View() == AddAll(old(View()), bytes)
    {
      var i := 0;
      assert bytes[..0] == [];
      while i < |bytes|
        invariant i <= |bytes| && Valid() && View() == AddAll(old(View()), bytes[..i])
      {
        AddC(bytes[i]);
        assert bytes[..i + 1][..i] == bytes[..i];
        i := i + 1;
      }
      assert bytes[..i] == bytes;
    }
  }

  // ---- lines ----------------------------------------------------------------------------------------

  predicate NoNewline(s: Bytes) {
    NL !in s
  }

  predicate IsLine(s: Bytes) {
    s != [] && s[|s| - 1] == NL && NoNewline(s[..|s| - 1])
  }

  predicate AreLines(lines: seq<Bytes>) {
    forall l :: l in lines ==> IsLine(l)
  }

  function Joined(lines: seq<Bytes>): Bytes {
    if lines == [] then [] else Joined(lines[..|lines| - 1]) + lines[|lines| - 1]
  }

  // A byte stream is lines and an incomplete last one.
  datatype Text = Text(lines: seq<Bytes>, tail: Bytes)

  function Split(bytes: Bytes): (t: Text) {
    if bytes == [] then Text([], [])
    else
      var before, c := Split(bytes[..|bytes| - 1]), bytes[|bytes| - 1];
      if c == NL then Text(before.lines + [before.tail + [c]], []) else Text(before.lines, before.tail + [c])
  }

  lemma {:induction false} SplitAndJoin(bytes: Bytes)
    ensures var t := Split(bytes); Joined(t.lines) + t.tail == bytes && AreLines(t.lines) && NoNewline(t.tail)
  {
    if bytes == [] {
    } else {
      var less, c := bytes[..|bytes| - 1], bytes[|bytes| - 1];
      var before := Split(less);
      SplitAndJoin(less);
      assert bytes == less + [c];
      Regroup(Joined(before.lines), before.tail, [c]);
      if c == NL {
        JoinedMore(before.lines, before.tail + [c]);
        assert (before.tail + [c])[..|before.tail|] == before.tail;
        assert Split(bytes) == Text(before.lines + [before.tail + [c]], []);
        assert Joined(Split(bytes).lines) + [] == Joined(Split(bytes).lines);
      } else {
        assert Split(bytes) == Text(before.lines, before.tail + [c]);
      }
    }
  }

  lemma JoinedMore(lines: seq<Bytes>, line: Bytes)
    ensures Joined(lines + [line]) == Joined(lines) + line
  {
    assert (lines + [line])[..|lines|] == lines;
  }

  // ---- which lines arrive ---------------------------------------------------------------------------

  // Whether the newline of the last of these lines was itself dropped, so that the next line is
  // skipped: that happens to a line with room for all of it but the newline.
  function Skipping(lines: seq<Bytes>): bool {
    if lines == [] then false
    else !Skipping(lines[..|lines| - 1]) && |lines[|lines| - 1]| == NMEA_MAX_SIZE + 1
  }

  function Arriving(lines: seq<Bytes>): seq<Bytes> {
    if lines == [] then []
    else
      var before := lines[..|lines| - 1];
      Arriving(before) +
      if !Skipping(before) && |lines[|lines| - 1]| <= NMEA_MAX_SIZE then [lines[|lines| - 1]] else []
  }

  lemma {:induction false} AddBody(r: Reader, body: Bytes)
    requires NoNewline(body) && r.buf == []
    ensures AddAll(r, body) ==
      if r.overflow then r
      else if |body| <= NMEA_MAX_SIZE then Reader(body, false, r.parsed)
      else Reader([], true, r.parsed)
  {
    if body == [] {
    } else {
      AddBody(r, body[..|body| - 1]);
      assert body[|body| - 1] in body;
      assert body[..|body| - 1] + [body[|body| - 1]] == body;
    }
  }

  // The parser is given exactly the arriving lines, whole and in order, and the incomplete line is
  // kept for the rest of it.
  lemma {:induction false} ParsedLines(lines: seq<Bytes>, tail: Bytes)
    requires AreLines(lines) && NoNewline(tail)
    ensures AddAll(EMPTY, Joined(lines) + tail) ==
      if Skipping(lines) then Reader([], true, Arriving(lines))
      else if |tail| <= NMEA_MAX_SIZE then Reader(tail, false, Arriving(lines))
      else Reader([], true, Arriving(lines))
    decreases |lines|
  {
    AddAllInTurn(EMPTY, Joined(lines), tail);
    if lines == [] {
      AddBody(EMPTY, tail);
    } else {
      var before, line := lines[..|lines| - 1], lines[|lines| - 1];
      assert line in lines;
      ParsedLines(before, []);
      assert Joined(before) + [] == Joined(before);
      AddAllInTurn(EMPTY, Joined(before), line);
      AddBody(AddAll(EMPTY, Joined(before)), line[..|line| - 1]);
      assert line[..|line| - 1] + [NL] == line;
      AddBody(AddAll(EMPTY, Joined(lines)), tail);
    }
  }

  predicate AllFit(lines: seq<Bytes>) {
    forall l :: l in lines ==> |l| <= NMEA_MAX_SIZE
  }

  lemma {:induction false} ArrivingAreShort(lines: seq<Bytes>)
    ensures forall l :: l in Arriving(lines) ==> l in lines && |l| <= NMEA_MAX_SIZE
  {
    if lines == [] {
    } else {
      var before, line := lines[..|lines| - 1], lines[|lines| - 1];
      ArrivingAreShort(before);
      assert forall l :: l in before ==> l in lines;
    }
  }

  lemma {:induction false} AllArriveIfAllFit(lines: seq<Bytes>)
    ensures AllFit(lines) ==> Arriving(lines) == lines && !Skipping(lines)
    ensures !AllFit(lines) ==> |Arriving(lines)| < |lines|
    ensures |Arriving(lines)| <= |lines|
  {
    if lines == [] {
    } else {
      var before, line := lines[..|lines| - 1], lines[|lines| - 1];
      AllArriveIfAllFit(before);
      assert lines == before + [line];
    }
  }

  // For every byte stream: what the parser is given are whole lines of the stream of at most 83
  // bytes, never a splice or a tail; and it is given every line exactly if every line fits.
  lemma OnlyWholeLines(bytes: Bytes)
    ensures var parsed, lines := AddAll(EMPTY, bytes).parsed, Split(bytes).lines;
      && (forall p :: p in parsed ==> p in lines && IsLine(p) && |p| <= 83)
      && (parsed == lines <==> forall l :: l in lines ==> |l| <= 83)
  {
    var t := Split(bytes);
    SplitAndJoin(bytes);
    ParsedLines(t.lines, t.tail);
    ArrivingAreShort(t.lines);
    AllArriveIfAllFit(t.lines);
  }

  // A first line of exactly 84 bytes takes a second one that fits with it; a longer one does not.
  lemma OneByteTooLong(first: Bytes, second: Bytes)
    requires IsLine(first) && IsLine(second) && |second| <= 83
    ensures AddAll(EMPTY, first + second).parsed ==
      if |first| <= 83 then [first, second]
      else if |first| == 84 then []
      else [second]
  {
    var both := [first, second];
    TwoLines(first, second);
    ParsedLines(both, []);
  }

  lemma TwoLines(first: Bytes, second: Bytes)
    requires IsLine(first) && IsLine(second) && |second| <= NMEA_MAX_SIZE
    ensures AreLines([first, second]) && Joined([first, second]) + [] == first + second
    ensures Arriving([first, second]) ==
      if |first| <= NMEA_MAX_SIZE then [first, second]
      else if |first| == NMEA_MAX_SIZE + 1 then []
      else [second]
  {
    var one := [first];
    assert [] + one == one && one + [second] == [first, second] && [] + first == first;
    JoinedMore([], first);
    JoinedMore(one, second);
    ArrivingMore([], first);
    ArrivingMore(one, second);
    assert [] + [second] == [second];
  }

  lemma ArrivingMore(lines: seq<Bytes>, line: Bytes)
    ensures Skipping(lines + [line]) == (!Skipping(lines) && |line| == NMEA_MAX_SIZE + 1)
    ensures Arriving(lines + [line]) ==
      Arriving(lines) + if !Skipping(lines) && |line| <= NMEA_MAX_SIZE then [line] else []
  {
    assert (lines + [line])[..|lines|] == lines;
  }
}
