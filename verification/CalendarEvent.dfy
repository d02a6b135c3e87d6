/** The calendar event attached to emails: its content lines, folded and put
    together (services/core/cmd/api/mail.go; section 3.6.1 of RFC 5545). */
module CalendarEvent {
  import opened Common
  import opened CalendarText

  /** The octets of printable ASCII text. */
  function Ascii(s: string): (r: Bytes)
    ensures |r| == |s|
  {
    seq(|s|, i requires 0 <= i < |s| => if ' ' <= s[i] <= '~' then s[i] as int else 32)
  }

  /** uid, sequence, stamp, start, end: already written out as text. */
  datatype Event = Event(
    uid: Bytes, sequence: Bytes, stamp: Bytes, start: Bytes, end: Bytes,
    summary: Bytes, description: Bytes, url: Bytes, kind: Bytes)

  function Kind(ev: Event): Bytes { if ev.kind == [] then Ascii("PUBLISH") else ev.kind }

  predicate Cancels(ev: Event) { Kind(ev) == Ascii("CANCEL") }

  function Head(ev: Event): seq<Bytes> {
    [ Ascii("BEGIN:VCALENDAR"), Ascii("VERSION:2.0"), Ascii("PRODID:-//WantMyTime//Booking//EN"),
      Ascii("CALSCALE:GREGORIAN"), Ascii("METHOD:") + Kind(ev),
      Ascii("BEGIN:VEVENT"),
      Ascii("UID:") + (ev.uid + Ascii("@wantmytime.com")),
      Ascii("SEQUENCE:") + ev.sequence,
      Ascii("DTSTAMP:") + ev.stamp, Ascii("DTSTART:") + ev.start, Ascii("DTEND:") + ev.end,
      Ascii("SUMMARY:") + Escape(ev.summary),
      Ascii("STATUS:") + (if Cancels(ev) then Ascii("CANCELLED") else Ascii("CONFIRMED")) ]
  }

  function Details(ev: Event): seq<Bytes> {
    (if ev.description != [] then [Ascii("DESCRIPTION:") + Escape(ev.description)] else [])
    + (if ev.url != [] then [Ascii("URL:") + ev.url] else [])
  }

  /** Only an event that stands reminds anybody. */
  function Alarm(ev: Event): seq<Bytes> {
    if Cancels(ev) then []
    else [Ascii("BEGIN:VALARM"), Ascii("ACTION:DISPLAY"), Ascii("DESCRIPTION:") + Escape(ev.summary), Ascii("TRIGGER:-PT15M"), Ascii("END:VALARM")]
  }

  function Lines(ev: Event): seq<Bytes> {
    Head(ev) + Details(ev) + Alarm(ev) + [Ascii("END:VEVENT"), Ascii("END:VCALENDAR")]
  }

  /** A content line that can be folded and read back. */
  predicate LineOk(line: Bytes) { Utf8(line) && Foldable(line) && OneLine(line) && line != [] && !Blank(line[0]) }

  ghost predicate LinesOk(lines: seq<Bytes>) { forall l | l in lines :: LineOk(l) }

  /** The folded lines, one after the other. */
  function Written(lines: seq<Bytes>): Bytes
    requires forall l | l in lines :: Foldable(l)
  {
    if lines == [] then [] else Written(lines[..|lines| - 1]) + Folded(lines[|lines| - 1])
  }

  /** The same lines unfolded, each ended by a line break. */
  function Plain(lines: seq<Bytes>): Bytes {
    if lines == [] then [] else lines[0] + CRLF + Plain(lines[1..])
  }

  /** What the caller supplies: any valid text for people to read, and one-line
      values for the fields that are written as they are. */
  predicate Supplied(ev: Event) {
    && Utf8(ev.summary) && Utf8(ev.description)
    && Utf8(ev.uid) && OneLine(ev.uid) && Utf8(ev.sequence) && OneLine(ev.sequence)
    && Utf8(ev.stamp) && OneLine(ev.stamp) && Utf8(ev.start) && OneLine(ev.start) && Utf8(ev.end) && OneLine(ev.end)
    && Utf8(ev.url) && OneLine(ev.url) && Utf8(ev.kind) && OneLine(ev.kind)
  }

  lemma {:induction false} AsciiUtf8(s: Bytes)
    requires forall i | 0 <= i < |s| :: 32 <= s[i] < 127
    ensures Utf8(s) && OneLine(s)
  {
    if s != [] {
      AsciiUtf8(s[1..]);
      OneUtf8(s[0], s[1..]);
      assert [s[0]] + s[1..] == s;
    }
  }

  lemma AsciiFine(s: string)
    ensures Utf8(Ascii(s)) && OneLine(Ascii(s))
  {
    AsciiUtf8(Ascii(s));
  }

  lemma OneLineConcat(s: Bytes, t: Bytes)
    requires OneLine(s) && OneLine(t)
    ensures OneLine(s + t)
  {}

  /** A property: its name and colon, then its value. */
  lemma PropertyOk(name: string, value: Bytes)
    requires name != "" && 'A' <= name[0] <= 'Z' && Utf8(value) && OneLine(value)
    ensures LineOk(Ascii(name) + value)
  {
    AsciiFine(name);
    Utf8Concat(Ascii(name), value);
    Utf8Flows(Ascii(name) + value, FIRST);
    OneLineConcat(Ascii(name), value);
    assert (Ascii(name) + value)[0] == Ascii(name)[0];
  }

  lemma FixedOk(name: string)
    requires name != "" && 'A' <= name[0] <= 'Z'
    ensures LineOk(Ascii(name))
  {
    PropertyOk(name, []);
    assert Ascii(name) + [] == Ascii(name);
  }

  lemma EscapedOk(name: string, text: Bytes)
    requires name != "" && 'A' <= name[0] <= 'Z' && Utf8(text)
    ensures LineOk(Ascii(name) + Escape(text))
  {
    EscapeKeepsUtf8(text);
    EscapeThenUnescape(text);
    PropertyOk(name, Escape(text));
  }

  lemma HeadOk(ev: Event)
    requires Supplied(ev)
    ensures LinesOk(Head(ev))
  {
    hide LineOk, Utf8, OneLine, Escape, Ascii;
    FixedOk("BEGIN:VCALENDAR");
    FixedOk("VERSION:2.0");
    FixedOk("PRODID:-//WantMyTime//Booking//EN");
    FixedOk("CALSCALE:GREGORIAN");
    FixedOk("BEGIN:VEVENT");
    ValuesOk(ev);
    PropertyOk("METHOD:", Kind(ev));
    PropertyOk("UID:", ev.uid + Ascii("@wantmytime.com"));
    PropertyOk("SEQUENCE:", ev.sequence);
    PropertyOk("DTSTAMP:", ev.stamp);
    PropertyOk("DTSTART:", ev.start);
    PropertyOk("DTEND:", ev.end);
    EscapedOk("SUMMARY:", ev.summary);
    PropertyOk("STATUS:", if Cancels(ev) then Ascii("CANCELLED") else Ascii("CONFIRMED"));
  }

  lemma ValuesOk(ev: Event)
    requires Supplied(ev)
    ensures Utf8(Kind(ev)) && OneLine(Kind(ev))
    ensures var uid := ev.uid + Ascii("@wantmytime.com"); Utf8(uid) && OneLine(uid)
    ensures Utf8(Ascii("CANCELLED")) && OneLine(Ascii("CANCELLED"))
    ensures Utf8(Ascii("CONFIRMED")) && OneLine(Ascii("CONFIRMED"))
  {
    hide Ascii, Utf8, OneLine;
    AsciiFine("PUBLISH");
    AsciiFine("CANCELLED");
    AsciiFine("CONFIRMED");
    AsciiFine("@wantmytime.com");
    Utf8Concat(ev.uid, Ascii("@wantmytime.com"));
    OneLineConcat(ev.uid, Ascii("@wantmytime.com"));
  }

  lemma TailOk(ev: Event)
    requires Supplied(ev)
    ensures LinesOk(Details(ev)) && LinesOk(Alarm(ev)) && LinesOk([Ascii("END:VEVENT"), Ascii("END:VCALENDAR")])
  {
    hide LineOk, Utf8, OneLine, Escape, Ascii;
    EscapedOk("DESCRIPTION:", ev.description);
    EscapedOk("DESCRIPTION:", ev.summary);
    PropertyOk("URL:", ev.url);
    FixedOk("BEGIN:VALARM");
    FixedOk("ACTION:DISPLAY");
    FixedOk("TRIGGER:-PT15M");
    FixedOk("END:VALARM");
    FixedOk("END:VEVENT");
    FixedOk("END:VCALENDAR");
  }

  /** Every line of an event can be folded and read back. */
  lemma EventLinesOk(ev: Event)
    requires Supplied(ev)
    ensures LinesOk(Lines(ev))
  {
    hide Head, Details, Alarm, LineOk, Ascii, Supplied;
    HeadOk(ev);
    TailOk(ev);
  }

  /** The list of content lines, appended to as the event calls for it. */
  method ContentLines(ev: Event) returns (lines: seq<Bytes>)
    ensures lines == Lines(ev)
  {
    hide Escape, Ascii, Head, Cancels;
    lines := Head(ev);
    ghost var details: seq<Bytes> := [];
    if ev.description != [] {
      lines := lines + [Ascii("DESCRIPTION:") + Escape(ev.description)];
      details := [Ascii("DESCRIPTION:") + Escape(ev.description)];
    }
    if ev.url != [] {
      lines := lines + [Ascii("URL:") + ev.url];
      details := details + [Ascii("URL:") + ev.url];
    }
    assert details == Details(ev) && lines == Head(ev) + Details(ev);
    if !Cancels(ev) {
      lines := lines + [Ascii("BEGIN:VALARM"), Ascii("ACTION:DISPLAY"), Ascii("DESCRIPTION:") + Escape(ev.summary), Ascii("TRIGGER:-PT15M"), Ascii("END:VALARM")];
    }
    assert lines == Head(ev) + Details(ev) + Alarm(ev);
    lines := lines + [Ascii("END:VEVENT"), Ascii("END:VCALENDAR")];
  }

  /** calendarEvent.ICS */
  method ICS(ev: Event) returns (out: Bytes)
    requires Supplied(ev)
    ensures LinesOk(Lines(ev)) && out == Written(Lines(ev))
  {
    hide Supplied, LineOk, Foldable, Folded, Lines;
    EventLinesOk(ev);
    ValidLines(Lines(ev));
    var lines := ContentLines(ev);
    out := [];
    for i := 0 to |lines|
      invariant out == Written(lines[..i])
    {
      assert lines[..i + 1][..i] == lines[..i] && lines[i] in lines;
      var folded := FoldLine(lines[i]);
      out := out + folded;
    }
    assert lines[..|lines|] == lines;
  }

  lemma ValidLines(lines: seq<Bytes>)
    requires LinesOk(lines)
    ensures forall l | l in lines :: Foldable(l)
  {}

  /** Text after a list of lines: what unfolding leaves of both. */
  lemma {:induction false} UnfoldWritten(lines: seq<Bytes>, rest: Bytes)
    requires LinesOk(lines) && (forall l | l in lines :: Foldable(l)) && (rest == [] || !Blank(rest[0]))
    ensures Unfold(Written(lines) + rest) == Plain(lines) + Unfold(rest)
    decreases |lines|
  {
    hide Foldable, Utf8, Unfold, Folded;
    if lines == [] {
      assert [] + rest == rest && [] + Unfold(rest) == Unfold(rest);
    } else {
      var n := |lines| - 1;
      var last := lines[n];
      assert LineOk(last);
      FoldedStarts(last);
      UnfoldWritten(lines[..n], Folded(last) + rest);
      FoldThenUnfold(last, rest);
      assert Written(lines[..n]) + Folded(last) + rest == Written(lines[..n]) + (Folded(last) + rest);
      PlainSnoc(lines[..n], last);
      assert lines[..n] + [last] == lines;
      assert Plain(lines[..n]) + (last + CRLF + Unfold(rest)) == Plain(lines[..n]) + (last + CRLF) + Unfold(rest);
    }
  }

  lemma {:induction false} PlainSnoc(lines: seq<Bytes>, last: Bytes)
    ensures Plain(lines + [last]) == Plain(lines) + (last + CRLF)
  {
    if lines == [] {
      assert Plain([last]) == last + CRLF + Plain([last][1..]) && [last][1..] == [];
      assert [] + [last] == [last];
    } else {
      PlainSnoc(lines[1..], last);
      assert (lines + [last])[1..] == lines[1..] + [last];
    }
  }

  /** A folded line begins as the line does. */
  lemma FoldedStarts(line: Bytes)
    requires LineOk(line)
    ensures Folded(line) != [] && Folded(line)[0] == line[0]
  {
    if |line| > FIRST {
      CutFlows(line, FIRST);
    }
  }

  lemma {:induction false} WrittenIsShort(lines: seq<Bytes>, rest: Bytes)
    requires LinesOk(lines) && (forall l | l in lines :: Foldable(l)) && ShortLines(rest, 0)
    ensures ShortLines(Written(lines) + rest, 0)
    decreases |lines|
  {
    hide Foldable, Utf8, ShortLines, Folded;
    if lines == [] {
      assert [] + rest == rest;
    } else {
      var n := |lines| - 1;
      assert LineOk(lines[n]);
      FoldedIsShort(lines[n], rest);
      WrittenIsShort(lines[..n], Folded(lines[n]) + rest);
      assert Written(lines[..n]) + Folded(lines[n]) + rest == Written(lines[..n]) + (Folded(lines[n]) + rest);
    }
  }

  /** Line by line: when the event starts and ends, that a cancelled event says
      so and only that one, which optional lines there are, and that only an
      event that stands carries the alarm, fifteen minutes ahead. */
  lemma LinesSay(ev: Event)
    ensures var lines := Lines(ev);
      var optional := (if ev.description != [] then 1 else 0) + (if ev.url != [] then 1 else 0);
      var n := 13 + optional + (if ev.kind == Ascii("CANCEL") then 0 else 5) + 2;
      && |lines| == n
      && lines[4] == Ascii("METHOD:") + (if ev.kind == [] then Ascii("PUBLISH") else ev.kind)
      && lines[6] == Ascii("UID:") + (ev.uid + Ascii("@wantmytime.com"))
      && lines[7] == Ascii("SEQUENCE:") + ev.sequence
      && lines[8] == Ascii("DTSTAMP:") + ev.stamp
      && lines[9] == Ascii("DTSTART:") + ev.start
      && lines[10] == Ascii("DTEND:") + ev.end
      && lines[11] == Ascii("SUMMARY:") + Escape(ev.summary)
      && lines[12] == Ascii("STATUS:") + (if ev.kind == Ascii("CANCEL") then Ascii("CANCELLED") else Ascii("CONFIRMED"))
      && (ev.description != [] ==> lines[13] == Ascii("DESCRIPTION:") + Escape(ev.description))
      && (ev.url != [] ==> lines[12 + optional] == Ascii("URL:") + ev.url)
      && (ev.kind != Ascii("CANCEL") ==>
            && lines[13 + optional] == Ascii("BEGIN:VALARM") && lines[n - 4] == Ascii("TRIGGER:-PT15M")
            && lines[n - 3] == Ascii("END:VALARM"))
      && lines[n - 2] == Ascii("END:VEVENT") && lines[n - 1] == Ascii("END:VCALENDAR")
  {
    hide Escape, Ascii, Cancels, Head;
    CancelledKind(ev);
    HeadSays(ev);
    TailSays(ev);
  }

  lemma TailSays(ev: Event)
    ensures var tail := Details(ev) + Alarm(ev) + [Ascii("END:VEVENT"), Ascii("END:VCALENDAR")];
      var optional := (if ev.description != [] then 1 else 0) + (if ev.url != [] then 1 else 0);
      var n := optional + (if Cancels(ev) then 0 else 5) + 2;
      && |tail| == n
      && (ev.description != [] ==> tail[0] == Ascii("DESCRIPTION:") + Escape(ev.description))
      && (ev.url != [] ==> tail[optional - 1] == Ascii("URL:") + ev.url)
      && (!Cancels(ev) ==>
            && tail[optional] == Ascii("BEGIN:VALARM") && tail[n - 4] == Ascii("TRIGGER:-PT15M")
            && tail[n - 3] == Ascii("END:VALARM"))
      && tail[n - 2] == Ascii("END:VEVENT") && tail[n - 1] == Ascii("END:VCALENDAR")
      && Lines(ev) == Head(ev) + tail
  {
    hide Escape, Ascii, Cancels, Head;
    assert Lines(ev) == Head(ev) + (Details(ev) + Alarm(ev) + [Ascii("END:VEVENT"), Ascii("END:VCALENDAR")]);
  }

  lemma HeadSays(ev: Event)
    ensures var head := Head(ev);
      && |head| == 13
      && head[4] == Ascii("METHOD:") + Kind(ev)
      && head[6] == Ascii("UID:") + (ev.uid + Ascii("@wantmytime.com"))
      && head[7] == Ascii("SEQUENCE:") + ev.sequence && head[8] == Ascii("DTSTAMP:") + ev.stamp
      && head[9] == Ascii("DTSTART:") + ev.start && head[10] == Ascii("DTEND:") + ev.end
      && head[11] == Ascii("SUMMARY:") + Escape(ev.summary)
      && head[12] == Ascii("STATUS:") + (if Cancels(ev) then Ascii("CANCELLED") else Ascii("CONFIRMED"))
  {
    hide Escape, Ascii, Cancels;
  }

  lemma CancelledKind(ev: Event)
    ensures Cancels(ev) <==> ev.kind == Ascii("CANCEL")
  {
    assert |Ascii("PUBLISH")| != |Ascii("CANCEL")|;
  }

  /** The whole attachment: no physical line is longer than 75 octets,
      unfolding it gives exactly the event's lines, which say when it starts and
      ends and whether it is cancelled, and summary and description read back
      from theirs up to the kind of line breaks. */
  lemma EventReadsBack(ev: Event)
    requires Supplied(ev)
    ensures LinesOk(Lines(ev)) && (forall l | l in Lines(ev) :: Foldable(l))
    ensures ShortLines(Written(Lines(ev)), 0)
    ensures Unfold(Written(Lines(ev))) == Plain(Lines(ev))
    ensures |Lines(ev)| > 13
    ensures Lines(ev)[9] == Ascii("DTSTART:") + ev.start && Lines(ev)[10] == Ascii("DTEND:") + ev.end
    ensures Lines(ev)[12] == Ascii("STATUS:") + (if ev.kind == Ascii("CANCEL") then Ascii("CANCELLED") else Ascii("CONFIRMED"))
    ensures Lines(ev)[11] == Ascii("SUMMARY:") + Escape(ev.summary) && Unescape(Escape(ev.summary)) == NewlinesAsLf(ev.summary)
    ensures ev.description != [] ==>
      Lines(ev)[13] == Ascii("DESCRIPTION:") + Escape(ev.description) && Unescape(Escape(ev.description)) == NewlinesAsLf(ev.description)
  {
    hide Supplied, LineOk, Foldable, Unfold, Folded, Escape, Written, Plain, Ascii, Head, Details, Alarm;
    EventLinesOk(ev);
    ValidLines(Lines(ev));
    WrittenIsShort(Lines(ev), []);
    UnfoldWritten(Lines(ev), []);
    LinesSay(ev);
    UnfoldNothing();
    assert Written(Lines(ev)) + [] == Written(Lines(ev)) && Plain(Lines(ev)) + [] == Plain(Lines(ev));
    EscapeThenUnescape(ev.summary);
    EscapeThenUnescape(ev.description);
  }

  lemma UnfoldNothing()
    ensures Unfold([]) == []
  {}
}
