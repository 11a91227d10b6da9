/** The event log of the state store: lines appended one at a time, read back from the end of the
    file in blocks with the unfinished front line carried from block to block. */
module EventHistory {
  import opened Text

  type Byte = b: int | 0 <= b < 256

  const NEWLINE: Byte := 10

  /** What one raw line holds. Blank lines, undecodable bytes, malformed JSON and values that are not
      objects are all skipped by the reader; the parser is None for exactly those. */
  type Parser<!E> = seq<Byte> -> Option<E>

  function Event<E>(line: seq<Byte>, parse: Parser<E>): seq<E> {
    match parse(line)
    case None => []
    case Some(event) => [event]
  }

  /** The events of a list of lines, oldest first. */
  function Good<E>(lines: seq<seq<Byte>>, parse: Parser<E>): seq<E> {
    if lines == [] then [] else Event(lines[0], parse) + Good(lines[1..], parse)
  }

  function LastN<E>(s: seq<E>, n: nat): seq<E> {
    if |s| <= n then s else s[|s| - n..]
  }

  /** Reading the whole file: split everything, keep the good lines, take the last `limit`. */
  function WholeFileHistory<E>(content: seq<Byte>, limit: int, parse: Parser<E>): seq<E> {
    if limit <= 0 then [] else LastN(Good(Split(content, NEWLINE), parse), limit)
  }

  function Reversed<E>(s: seq<E>): (r: seq<E>)
    ensures |r| == |s|
  {
    if s == [] then [] else Reversed(s[1..]) + [s[0]]
  }

  lemma {:induction false} ReversedSnoc<E>(s: seq<E>, x: E)
    ensures Reversed(s + [x]) == [x] + Reversed(s)
  {
    if s != [] {
      ReversedSnoc(s[1..], x);
      assert (s + [x])[1..] == s[1..] + [x];
    }
  }

  /** The newest-first list a scan holds once it has gone backward over `lines`. */
  function Newest<E>(lines: seq<seq<Byte>>, limit: nat, parse: Parser<E>): (events: seq<E>)
    ensures |events| <= limit
  {
    if lines == [] then []
    else
      var events := Newest(lines[1..], limit, parse);
      if |events| == limit then events else events + Event(lines[0], parse)
  }

  /** The newest-first list, turned round, is the last `limit` events of the lines. */
  lemma {:induction false} NewestIsLastN<E>(lines: seq<seq<Byte>>, limit: nat, parse: Parser<E>)
    ensures Reversed(Newest(lines, limit, parse)) == LastN(Good(lines, parse), limit)
  {
    if lines != [] {
      NewestIsLastN(lines[1..], limit, parse);
      var events := Newest(lines[1..], limit, parse);
      var rest := Good(lines[1..], parse);
      if parse(lines[0]).Some? {
        assert Good(lines, parse) == [parse(lines[0]).value] + rest;
        OneOlder(events, rest, parse(lines[0]).value, limit);
      } else {
        assert Good(lines, parse) == rest;
        assert events + [] == events;
      }
    }
  }

  lemma {:induction false} OneOlder<E>(events: seq<E>, rest: seq<E>, event: E, limit: nat)
    requires |events| <= limit && Reversed(events) == LastN(rest, limit)
    ensures Reversed(if |events| == limit then events else events + [event]) == LastN([event] + rest, limit)
  {
    if |events| < limit {
      ReversedSnoc(events, event);
    }
  }

  /** A full list is not changed by older lines. */
  lemma {:induction false} FullStaysFull<E>(front: seq<seq<Byte>>, scanned: seq<seq<Byte>>, limit: nat,
      parse: Parser<E>)
    requires |Newest(scanned, limit, parse)| == limit
    ensures Newest(front + scanned, limit, parse) == Newest(scanned, limit, parse)
  {
    if front == [] {
      assert front + scanned == scanned;
    } else {
      FullStaysFull(front[1..], scanned, limit, parse);
      assert (front + scanned)[1..] == front[1..] + scanned;
    }
  }

  /** One block: its lines from last to first until `limit` events are held. */
  method ScanBlock<E>(lines: seq<seq<Byte>>, ghost scanned: seq<seq<Byte>>, limit: nat, parse: Parser<E>,
      before: seq<E>)
    returns (events: seq<E>)
    requires before == Newest(scanned, limit, parse) && |before| < limit
    ensures events == Newest(lines + scanned, limit, parse)
  {
    events := before;
    var k := |lines|;
    ghost var seen := scanned;
    while k > 0 && |events| < limit
      invariant 0 <= k <= |lines|
      invariant lines[..k] + seen == lines + scanned
      invariant events == Newest(seen, limit, parse)
      decreases k
    {
      var raw := lines[k - 1];
      seen := [raw] + seen;
      assert lines[..k] == lines[..k - 1] + [raw];
      if parse(raw).Some? {
        events := events + [parse(raw).value];
      }
      k := k - 1;
    }
    if k > 0 {
      FullStaysFull(lines[..k], seen, limit, parse);
    } else {
      assert lines[..k] + seen == seen;
    }
  }

  /** The reader. `content` is None when the log file does not exist yet; the program uses blocks of
      8192 bytes. */
  method History<E>(content: Option<seq<Byte>>, limit: int, block: nat, parse: Parser<E>) returns (events: seq<E>)
    requires block >= 1
    ensures events == if content.None? then [] else WholeFileHistory(content.value, limit, parse)
  {
    if limit <= 0 || content.None? {
      return [];
    }
    var bytes := content.value;
    ghost var lines := Split(bytes, NEWLINE);
    events := [];
    var position := |bytes|;
    var suffix: seq<Byte> := [];
    ghost var scanned: seq<seq<Byte>> := [];
    assert bytes[..position] + suffix == bytes;
    while position > 0 && |events| < limit
      invariant 0 <= position <= |bytes|
      invariant Split(bytes[..position] + suffix, NEWLINE) + scanned == lines
      invariant events == Newest(scanned, limit, parse)
      invariant NEWLINE !in suffix
      decreases position
    {
      var size := if block < position then block else position;
      var chunk := bytes[position - size..position] + suffix;
      StepBack(bytes, position, size, suffix, scanned);
      var parts := Split(chunk, NEWLINE);
      position := position - size;
      suffix := parts[0];
      events := ScanBlock(parts[1..], scanned, limit, parse, events);
      scanned := parts[1..] + scanned;
    }
    if position == 0 && |events| < limit {
      assert bytes[..position] + suffix == suffix;
      SplitOfFree(suffix, NEWLINE);
      assert lines == [suffix] + scanned && lines[1..] == scanned;
      assert Newest(lines, limit, parse) == events + Event(suffix, parse);
      if parse(suffix).Some? {
        events := events + [parse(suffix).value];
      }
    } else {
      FullStaysFull(Split(bytes[..position] + suffix, NEWLINE), scanned, limit, parse);
    }
    assert events == Newest(lines, limit, parse);
    NewestIsLastN(lines, limit, parse);
    events := Reversed(events);
  }

  /** Moving back over one block keeps the lines: those of the carried front plus those already cut off. */
  lemma {:induction false} StepBack(
    bytes: seq<Byte>, position: nat, size: nat, suffix: seq<Byte>, scanned: seq<seq<Byte>>)
    requires size <= position <= |bytes|
    ensures var parts := Split(bytes[position - size..position] + suffix, NEWLINE);
            Split(bytes[..position - size] + parts[0], NEWLINE) + (parts[1..] + scanned)
            == Split(bytes[..position] + suffix, NEWLINE) + scanned
  {
    var chunk := bytes[position - size..position] + suffix;
    assert bytes[..position - size] + chunk == bytes[..position] + suffix;
    SplitSuffix(bytes[..position - size], chunk, NEWLINE);
  }

  /** Appending one event line the way the store does. */
  function AppendLine(content: seq<Byte>, line: seq<Byte>): seq<Byte> {
    content + (line + [NEWLINE])
  }

  lemma {:induction false} SplitAtEnd(content: seq<Byte>, line: seq<Byte>)
    requires NEWLINE !in line
    ensures var parts := Split(content, NEWLINE);
            Split(AppendLine(content, line), NEWLINE) == parts[..|parts| - 1] + [parts[|parts| - 1] + line, []]
  {
    if content == [] {
      assert AppendLine(content, line) == line + [NEWLINE] + [];
      SplitAfterFree(line, [], NEWLINE);
      assert [] + line == line;
    } else {
      SplitAtEnd(content[1..], line);
      SplitHead(content, line + [NEWLINE], NEWLINE);
      SplitHead(content, [], NEWLINE);
      assert content + [] == content && content[1..] + [] == content[1..];
      PrependAtEnd(Split(content[1..], NEWLINE), line, content[0]);
    }
  }

  lemma {:induction false} PrependAtEnd(rest: seq<seq<Byte>>, line: seq<Byte>, first: Byte)
    requires rest != []
    ensures var grown := rest[..|rest| - 1] + [rest[|rest| - 1] + line, []];
            var parts := [[first] + rest[0]] + rest[1..];
            && [[]] + grown == ([[]] + rest)[..|rest|] + [rest[|rest| - 1] + line, []]
            && [[first] + grown[0]] + grown[1..] == parts[..|parts| - 1] + [parts[|parts| - 1] + line, []]
  {
    assert [first] + (rest[0] + line) == [first] + rest[0] + line;
  }

  lemma {:induction false} GoodAppend<E>(a: seq<seq<Byte>>, b: seq<seq<Byte>>, parse: Parser<E>)
    ensures Good(a + b, parse) == Good(a, parse) + Good(b, parse)
  {
    if a == [] {
      assert a + b == b;
    } else {
      GoodAppend(a[1..], b, parse);
      assert (a + b)[0] == a[0] && (a + b)[1..] == a[1..] + b;
      AppendsAssociate(Event(a[0], parse), Good(a[1..], parse), Good(b, parse));
    }
  }

  lemma {:induction false} AppendsAssociate<E>(a: seq<E>, b: seq<E>, c: seq<E>)
    ensures a + (b + c) == a + b + c
  {
  }

  /** Reading after appending: the event is read exactly when the bytes left after the last newline,
      glued in front of the line, still parse. A line cut off by an earlier crash therefore swallows
      the next event unless the parser can live with it. */
  lemma {:induction false} ReadAfterAppend<E>(content: seq<Byte>, line: seq<Byte>, limit: nat, parse: Parser<E>)
    requires NEWLINE !in line && limit > 0 && parse([]) == None
    ensures var parts := Split(content, NEWLINE);
            var finished, tail := parts[..|parts| - 1], parts[|parts| - 1];
            WholeFileHistory(AppendLine(content, line), limit, parse)
            == LastN(Good(finished, parse) + Event(tail + line, parse), limit)
  {
    var parts := Split(content, NEWLINE);
    var finished, tail := parts[..|parts| - 1], parts[|parts| - 1];
    SplitAtEnd(content, line);
    GoodAppend(finished, [tail + line, []], parse);
    assert [tail + line, []][1..] == [[]];
    assert Good([[]], parse) == [];
    assert Good([tail + line, []], parse) == Event(tail + line, parse);
  }

  /** A log whose bytes end at a line end loses nothing: the appended event follows all earlier ones. */
  lemma {:induction false} ReadAfterCleanAppend<E>(content: seq<Byte>, line: seq<Byte>, limit: nat, parse: Parser<E>)
    requires NEWLINE !in line && limit > 0 && parse([]) == None && parse(line).Some?
    requires content == [] || content[|content| - 1] == NEWLINE
    ensures WholeFileHistory(AppendLine(content, line), limit, parse)
            == LastN(WholeFileHistory(content, limit, parse) + [parse(line).value], limit)
  {
    var parts := Split(content, NEWLINE);
    var finished := parts[..|parts| - 1];
    CleanEnd(content);
    AllIsFinished(parts, parse);
    ReadAfterAppend(content, line, limit, parse);
    assert parts[|parts| - 1] + line == line;
    TrimTwice(Good(finished, parse), parse(line).value, limit);
  }

  lemma {:induction false} CleanEnd(content: seq<Byte>)
    requires content == [] || content[|content| - 1] == NEWLINE
    ensures var parts := Split(content, NEWLINE);
            parts[|parts| - 1] == []
  {
    if content != [] {
      var front := content[..|content| - 1];
      assert content == AppendLine(front, []);
      SplitAtEnd(front, []);
    }
  }

  lemma {:induction false} AllIsFinished<E>(parts: seq<seq<Byte>>, parse: Parser<E>)
    requires parts != [] && parts[|parts| - 1] == [] && parse([]) == None
    ensures Good(parts, parse) == Good(parts[..|parts| - 1], parse)
  {
    var finished, last: seq<seq<Byte>> := parts[..|parts| - 1], [[]];
    assert last[1..] == [] && Event(last[0], parse) == [] && Good(last, parse) == [];
    GoodAppend(finished, last, parse);
    assert parts == finished + last;
    assert Good(finished, parse) + [] == Good(finished, parse);
  }

  lemma {:induction false} TrimTwice<E>(s: seq<E>, x: E, n: nat)
    requires n > 0
    ensures LastN(LastN(s, n) + [x], n) == LastN(s + [x], n)
  {}
}
