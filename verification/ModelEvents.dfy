/** The NDJSON framing of model events: what is written, and how it is read back however it is cut. */
module ModelEvents {
  import opened Wrappers

  /** What a trim removes: the white space and line ends of ECMA-262, section 22.1.3.32. */
  predicate IsSpace(c: char) {
    || c in {'\t', '\n', '\r', ' ', '\U{000B}', '\U{000C}', '\U{00A0}', '\U{1680}', '\U{2028}', '\U{2029}',
             '\U{202F}', '\U{205F}', '\U{3000}', '\U{FEFF}'}
    || '\U{2000}' <= c <= '\U{200A}'
  }

  function TrimStart(s: string): string {
    if s != [] && IsSpace(s[0]) then TrimStart(s[1..]) else s
  }

  function TrimEnd(s: string): string {
    if s != [] && IsSpace(s[|s| - 1]) then TrimEnd(s[..|s| - 1]) else s
  }

  function Trim(s: string): string {
    TrimEnd(TrimStart(s))
  }

  /** Events read, and whether reading ended at a line that does not parse. */
  datatype Reading<+V> = Reading(events: seq<V>, failed: bool)

  // ---- the whole text, split at its newlines -------------------------------------------

  function IndexOf(s: string, from: nat): (i: nat)
    requires from <= |s|
    ensures from <= i <= |s|
    ensures i < |s| ==> s[i] == '\n'
    ensures forall j :: from <= j < i ==> s[j] != '\n'
    decreases |s| - from
  {
    if from == |s| || s[from] == '\n' then from else IndexOf(s, from + 1)
  }

  /** The text at its newlines; what follows the last one is the last part. */
  function Split(text: string): seq<string>
    decreases |text|
  {
    var i := IndexOf(text, 0);
    if i == |text| then [text] else [text[..i]] + Split(text[i + 1..])
  }

  /** One line read after what came before: blank lines say nothing, a bad one ends the reading. */
  function ReadLine<V>(parse: string -> Option<V>, before: Reading<V>, line: string): Reading<V> {
    var t := Trim(line);
    if before.failed || t == "" then before
    else if parse(t).Some? then before.(events := before.events + [parse(t).value])
    else before.(failed := true)
  }

  function ReadLines<V>(parse: string -> Option<V>, before: Reading<V>, lines: seq<string>): Reading<V>
    decreases |lines|
  {
    if lines == [] then before else ReadLines(parse, ReadLine(parse, before, lines[0]), lines[1..])
  }

  function ReadText<V>(parse: string -> Option<V>, text: string): Reading<V> {
    ReadLines(parse, Reading([], false), Split(text))
  }

  // ---- the reader, chunk by chunk ------------------------------------------------------

  function Joined(chunks: seq<string>): string {
    if chunks == [] then "" else chunks[0] + Joined(chunks[1..])
  }

  lemma {:induction false} FailedStays<V>(parse: string -> Option<V>, before: Reading<V>, lines: seq<string>)
    requires before.failed
    ensures ReadLines(parse, before, lines) == before
  {
    if lines != [] {
      FailedStays(parse, before, lines[1..]);
    }
  }

  /** The reader of a stream that arrives as `chunks`: it yields what splitting the whole text
      would, wherever the cuts fall, and stops at the same bad line. */
  method ReadModelEvents<V>(parse: string -> Option<V>, chunks: seq<string>) returns (events: seq<V>, failed: bool)
    ensures Reading(events, failed) == ReadText(parse, Joined(chunks))
  {
    events, failed := [], false;
    var buffer := "";
    ghost var whole := ReadText(parse, Joined(chunks));
    assert "" + Joined(chunks) == Joined(chunks) && chunks[0..] == chunks;
    for n := 0 to |chunks|
      invariant !failed && IndexOf(buffer, 0) == |buffer|
      invariant ReadLines(parse, Reading(events, false), Split(buffer + Joined(chunks[n..]))) == whole
    {
      ghost var rest := Joined(chunks[n + 1..]);
      assert buffer + Joined(chunks[n..]) == (buffer + chunks[n]) + rest by {
        assert chunks[n..][1..] == chunks[n + 1..];
      }
      buffer := buffer + chunks[n];
      var newline := IndexOf(buffer, 0);
      while newline < |buffer|
        invariant newline == IndexOf(buffer, 0)
        invariant ReadLines(parse, Reading(events, false), Split(buffer + rest)) == whole
        decreases |buffer|
      {
        SplitFirst(buffer, rest);
        var line := Trim(buffer[..newline]);
        buffer := buffer[newline + 1..];
        if line != "" {
          if parse(line).None? {
            FailedStays(parse, Reading(events, true), Split(buffer + rest));
            return events, true;
          }
          events := events + [parse(line).value];
        }
        newline := IndexOf(buffer, 0);
      }
    }
    assert chunks[|chunks|..] == [] && buffer + "" == buffer;
    var tail := Trim(buffer);
    if tail != "" {
      if parse(tail).None? { return events, true; }
      events := events + [parse(tail).value];
    }
  }

  lemma SplitFirst(buffer: string, rest: string)
    requires IndexOf(buffer, 0) < |buffer|
    ensures var i := IndexOf(buffer, 0); Split(buffer + rest) == [buffer[..i]] + Split(buffer[i + 1..] + rest)
  {
    var i := IndexOf(buffer, 0);
    var text := buffer + rest;
    assert forall j :: 0 <= j <= i ==> text[j] == buffer[j];
    assert IndexOf(text, 0) == i;
    assert text[..i] == buffer[..i] && text[i + 1..] == buffer[i + 1..] + rest;
  }

  // ---- what is read, told by the lines -------------------------------------------------

  function Between(parts: seq<string>): string
    requires parts != []
  {
    if |parts| == 1 then parts[0] else parts[0] + "\n" + Between(parts[1..])
  }

  /** The parts hold no newline and, newlines between them, are the text again. */
  lemma {:induction false} SplitIs(text: string)
    ensures Split(text) != [] && Between(Split(text)) == text
    ensures forall i :: 0 <= i < |Split(text)| ==> '\n' !in Split(text)[i]
    decreases |text|
  {
    var i := IndexOf(text, 0);
    if i < |text| {
      SplitIs(text[i + 1..]);
      var rest := Split(text[i + 1..]);
      assert Split(text)[1..] == rest;
      assert text == text[..i] + "\n" + text[i + 1..];
      forall k | 0 <= k < |Split(text)| ensures '\n' !in Split(text)[k] {
        if k > 0 { assert Split(text)[k] == rest[k - 1]; }
      }
    }
  }

  predicate Blank(line: string) {
    forall i :: 0 <= i < |line| ==> IsSpace(line[i])
  }

  lemma {:induction false} TrimStartIs(s: string) returns (before: string)
    ensures s == before + TrimStart(s) && Blank(before)
    ensures TrimStart(s) != "" ==> !IsSpace(TrimStart(s)[0])
  {
    before := "";
    if s != [] && IsSpace(s[0]) {
      var rest := TrimStartIs(s[1..]);
      before := [s[0]] + rest;
    }
  }

  lemma {:induction false} TrimEndIs(s: string) returns (after: string)
    ensures s == TrimEnd(s) + after && Blank(after)
    ensures TrimEnd(s) != "" ==> !IsSpace(TrimEnd(s)[|TrimEnd(s)| - 1])
  {
    after := "";
    if s != [] && IsSpace(s[|s| - 1]) {
      var front := TrimEndIs(s[..|s| - 1]);
      after := front + [s[|s| - 1]];
    }
  }

  /** A trim takes white space off both ends, and all of it. */
  lemma TrimIs(s: string) returns (before: string, after: string)
    ensures s == before + Trim(s) + after && Blank(before) && Blank(after)
    ensures Trim(s) != "" ==> !IsSpace(Trim(s)[0]) && !IsSpace(Trim(s)[|Trim(s)| - 1])
    ensures Trim(s) == "" <==> Blank(s)
  {
    before := TrimStartIs(s);
    after := TrimEndIs(TrimStart(s));
    if Trim(s) != "" {
      assert Trim(s)[0] == TrimStart(s)[0];
      assert s[|before|] == Trim(s)[0];
    }
  }

  /** A line that says something and does not parse. */
  predicate Bad<V>(parse: string -> Option<V>, line: string) {
    !Blank(line) && parse(Trim(line)) == None
  }

  /** The events of lines none of which is bad: one for each line that is not blank. */
  function Events<V>(parse: string -> Option<V>, lines: seq<string>): seq<V>
    requires forall i :: 0 <= i < |lines| ==> !Bad(parse, lines[i])
  {
    if lines == [] then []
    else
      assert !Bad(parse, lines[0]);
      (if Blank(lines[0]) then [] else [parse(Trim(lines[0])).value]) + Events(parse, lines[1..])
  }

  /** `n` is the place of the first bad line, or past the end when there is none. */
  predicate FirstBad<V>(parse: string -> Option<V>, lines: seq<string>, n: nat) {
    && n <= |lines|
    && (forall i :: 0 <= i < n ==> !Bad(parse, lines[i]))
    && (n < |lines| ==> Bad(parse, lines[n]))
  }

  lemma {:induction false} LinesTold<V>(parse: string -> Option<V>, before: seq<V>, lines: seq<string>, n: nat)
    requires FirstBad(parse, lines, n)
    ensures ReadLines(parse, Reading(before, false), lines) ==
            Reading(before + Events(parse, lines[..n]), n < |lines|)
    decreases |lines|
  {
    if lines != [] {
      var _, _ := TrimIs(lines[0]);
      if n == 0 {
        FailedStays(parse, Reading(before, true), lines[1..]);
        assert before + [] == before;
      } else {
        assert lines[..n][1..] == lines[1..][..n - 1];
        if Blank(lines[0]) {
          LinesTold(parse, before, lines[1..], n - 1);
        } else {
          var v := parse(Trim(lines[0])).value;
          LinesTold(parse, before + [v], lines[1..], n - 1);
          assert before + [v] + Events(parse, lines[1..][..n - 1]) ==
                 before + ([v] + Events(parse, lines[1..][..n - 1]));
        }
      }
    } else {
      assert before + [] == before;
    }
  }

  lemma {:induction false} FirstBadIs<V>(parse: string -> Option<V>, lines: seq<string>, from: nat) returns (n: nat)
    requires from <= |lines| && forall i :: 0 <= i < from ==> !Bad(parse, lines[i])
    ensures FirstBad(parse, lines, n)
    decreases |lines| - from
  {
    if from < |lines| && !Bad(parse, lines[from]) {
      n := FirstBadIs(parse, lines, from + 1);
    } else {
      n := from;
    }
  }

  /** The reading fails if and only if some line that is not blank does not parse, and what it
      yields are the events of the lines before the first such line. */
  lemma ReadingTold<V>(parse: string -> Option<V>, text: string) returns (n: nat)
    ensures FirstBad(parse, Split(text), n)
    ensures ReadText(parse, text) == Reading(Events(parse, Split(text)[..n]), n < |Split(text)|)
    ensures ReadText(parse, text).failed <==>
            exists i :: 0 <= i < |Split(text)| && Bad(parse, Split(text)[i])
  {
    n := FirstBadIs(parse, Split(text), 0);
    LinesTold(parse, [], Split(text), n);
    assert [] + Events(parse, Split(text)[..n]) == Events(parse, Split(text)[..n]);
  }

  // ---- the writer ----------------------------------------------------------------------

  function Framed(lines: seq<string>): string {
    if lines == [] then "" else lines[0] + "\n" + Framed(lines[1..])
  }

  /** The encoding writes `v` on one line of its own and reads back as `v`. */
  ghost predicate OnOneLine<V>(encode: V -> Option<string>, parse: string -> Option<V>, v: V) {
    && encode(v).Some?
    && var line := encode(v).value;
       '\n' !in line && line != "" && Trim(line) == line && parse(line) == Some(v)
  }

  function Encoded<V>(encode: V -> Option<string>, events: seq<V>): seq<string>
    requires forall v :: v in events ==> encode(v).Some?
  {
    if events == [] then [] else [encode(events[0]).value] + Encoded(encode, events[1..])
  }

  lemma FrameSplits(line: string, rest: string)
    requires '\n' !in line
    ensures Split(line + "\n" + rest) == [line] + Split(rest)
  {
    var text := line + "\n" + rest;
    assert text[|line|] == '\n';
    assert forall j :: 0 <= j < |line| ==> text[j] == line[j];
    assert IndexOf(text, 0) == |line|;
    assert text[..|line|] == line && text[|line| + 1..] == rest;
  }

  lemma {:induction false} FramedSplits(lines: seq<string>)
    requires forall i :: 0 <= i < |lines| ==> '\n' !in lines[i]
    ensures Split(Framed(lines)) == lines + [""]
  {
    if lines == [] {
      assert Split("") == [""];
    } else {
      FrameSplits(lines[0], Framed(lines[1..]));
      FramedSplits(lines[1..]);
      assert [lines[0]] + (lines[1..] + [""]) == lines + [""];
    }
  }

  lemma {:induction false} LinesRead<V>(parse: string -> Option<V>, before: seq<V>, lines: seq<string>, values: seq<V>)
    requires |lines| == |values|
    requires forall i :: 0 <= i < |lines| ==>
      lines[i] != "" && Trim(lines[i]) == lines[i] && parse(lines[i]) == Some(values[i])
    ensures ReadLines(parse, Reading(before, false), lines + [""]) == Reading(before + values, false)
    decreases |lines|
  {
    if lines == [] {
      assert lines + [""] == [""] && before + values == before;
      assert ReadLines(parse, Reading(before, false), [""]) ==
             ReadLines(parse, ReadLine(parse, Reading(before, false), ""), []);
    } else {
      assert (lines + [""])[1..] == lines[1..] + [""];
      LinesRead(parse, before + [values[0]], lines[1..], values[1..]);
      assert before + [values[0]] + values[1..] == before + values;
    }
  }

  lemma {:induction false} EncodedAt<V>(encode: V -> Option<string>, events: seq<V>)
    requires forall v :: v in events ==> encode(v).Some?
    ensures |Encoded(encode, events)| == |events|
    ensures forall i :: 0 <= i < |events| ==> encode(events[i]) == Some(Encoded(encode, events)[i])
  {
    if events != [] {
      assert events[0] in events && forall v :: v in events[1..] ==> v in events;
      EncodedAt(encode, events[1..]);
    }
  }

  /** What is framed reads back as the events sent, in order and all of them. */
  lemma {:induction false} FramedReadsBack<V>(encode: V -> Option<string>, parse: string -> Option<V>, events: seq<V>)
    requires forall v :: v in events ==> encode(v).Some?
    requires forall i :: 0 <= i < |events| ==> OnOneLine(encode, parse, events[i])
    ensures ReadText(parse, Framed(Encoded(encode, events))) == Reading(events, false)
  {
    var lines := Encoded(encode, events);
    EncodedAt(encode, events);
    forall i | 0 <= i < |lines|
      ensures '\n' !in lines[i] && lines[i] != "" && Trim(lines[i]) == lines[i] && parse(lines[i]) == Some(events[i])
    {
      assert OnOneLine(encode, parse, events[i]);
    }
    FramedSplits(lines);
    LinesRead(parse, [], lines, events);
    assert [] + events == events;
  }

  datatype Pulled<+V> = Event(value: V) | End | Threw

  datatype Ending = Streaming | Closed | Errored | Cancelled

  /** The stream over one provider's answer: one event a pull, one timer, one end. */
  class ModelEventStream<V(!new)> {
    const encode: V -> Option<string>
    const deadlineMs: nat
    const firstEventDeadlineMs: nat
    var done: bool
    var timer: Option<nat>
    var ending: Ending
    var enqueued: seq<string>
    ghost var sent: seq<V>

    /** A timer runs exactly while the stream is open, and what was enqueued is the events sent. */
    ghost predicate Valid()
      reads this
    {
      && (done <==> ending != Streaming)
      && timer == (if done then None else if sent == [] then Some(firstEventDeadlineMs) else Some(deadlineMs))
      && (forall v :: v in sent ==> encode(v).Some?)
      && Framed(Encoded(encode, sent)) == Joined(enqueued)
    }

    constructor (encode: V -> Option<string>, deadlineMs: nat, firstEventDeadlineMs: nat)
      ensures Valid() && !done && enqueued == []
    {
      this.encode, this.deadlineMs, this.firstEventDeadlineMs := encode, deadlineMs, firstEventDeadlineMs;
      done, timer, ending, enqueued, sent := false, Some(firstEventDeadlineMs), Streaming, [], [];
    }

    /** The iterator answered a pull. Once the stream has ended the answer changes nothing. */
    method OnNext(next: Pulled<V>)
      requires Valid()
      modifies this
      ensures Valid()
      ensures old(done) ==> ending == old(ending) && enqueued == old(enqueued) && sent == old(sent)
      ensures !old(done) ==>
        match next
        case Event(v) =>
          if encode(v).Some? then
            !done && sent == old(sent) + [v] && enqueued == old(enqueued) + [encode(v).value + "\n"]
          else ending == Errored && enqueued == old(enqueued) && sent == old(sent)
        case End => ending == Closed && enqueued == old(enqueued) && sent == old(sent)
        case Threw => ending == Errored && enqueued == old(enqueued) && sent == old(sent)
    {
      if done { return; }
      match next {
        case End =>
          done, timer, ending := true, None, Closed;
        case Threw =>
          Abort();
        case Event(v) =>
          timer := Some(deadlineMs);
          var line := encode(v);
          if line.None? {
            Abort();
            return;
          }
          FrameMore(encode, sent, v);
          JoinedMore(enqueued, line.value + "\n");
          enqueued := enqueued + [line.value + "\n"];
          sent := sent + [v];
      }
    }

    method Abort()
      modifies `done, `timer, `ending
      ensures done && ending == (if old(done) then old(ending) else Errored)
      ensures timer == if old(done) then old(timer) else None
    {
      if done { return; }
      done, ending := true, Errored;
      timer := None;
    }

    /** The silence timer fires. */
    method OnSilence()
      requires Valid() && timer.Some?
      modifies this
      ensures Valid() && ending == Errored && enqueued == old(enqueued)
    {
      Abort();
    }

    method Cancel()
      requires Valid()
      modifies this
      ensures Valid() && done && enqueued == old(enqueued)
      ensures ending == if old(done) then old(ending) else Cancelled
    {
      if !done {
        ending := Cancelled;
      }
      done, timer := true, None;
    }

    /** However the transport cuts what was enqueued, the reader yields the events sent. */
    lemma ReadsBack(parse: string -> Option<V>, chunks: seq<string>)
      requires Valid() && Joined(chunks) == Joined(enqueued)
      requires forall i :: 0 <= i < |sent| ==> OnOneLine(encode, parse, sent[i])
      ensures ReadText(parse, Joined(chunks)) == Reading(sent, false)
    {
      FramedReadsBack(encode, parse, sent);
    }
  }

  lemma {:induction false} JoinedMore(chunks: seq<string>, last: string)
    ensures Joined(chunks + [last]) == Joined(chunks) + last
  {
    if chunks == [] {
      assert [last][1..] == [] && last + "" == last && "" + last == last && [] + [last] == [last];
    } else {
      JoinedMore(chunks[1..], last);
      assert (chunks + [last])[1..] == chunks[1..] + [last];
      assert chunks[0] + (Joined(chunks[1..]) + last) == (chunks[0] + Joined(chunks[1..])) + last;
    }
  }

  lemma {:induction false} FrameMore<V>(encode: V -> Option<string>, events: seq<V>, v: V)
    requires encode(v).Some? && forall e :: e in events ==> encode(e).Some?
    ensures Framed(Encoded(encode, events + [v])) == Framed(Encoded(encode, events)) + (encode(v).value + "\n")
  {
    if events == [] {
      assert [v][1..] == [] && [] + [v] == [v];
      assert Encoded(encode, [v]) == [encode(v).value];
    } else {
      FrameMore(encode, events[1..], v);
      assert (events + [v])[1..] == events[1..] + [v];
      var a, b, c := encode(events[0]).value + "\n", Framed(Encoded(encode, events[1..])), encode(v).value + "\n";
      assert Encoded(encode, events)[1..] == Encoded(encode, events[1..]);
      assert Encoded(encode, events + [v])[1..] == Encoded(encode, events[1..] + [v]);
      assert a + (b + c) == (a + b) + c;
    }
  }
}
