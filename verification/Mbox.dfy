/** Mailbox export and import in mboxrd format (`ops/mailboxops`). */
module Mbox {
  import opened Text

  const Separator := "From octo-mail@localhost"

  // ---------------------------------------------------------------------------
  // Lines
  // ---------------------------------------------------------------------------

  function DropCr(s: string): string {
    if s != "" && s[|s| - 1] == '\r' then s[..|s| - 1] else s
  }

  /** The lines a bufio.Scanner finds. */
  function Lines(s: string): seq<string> {
    if '\n' in s then [DropCr(s[..IndexOf(s, '\n')])] + Lines(s[IndexOf(s, '\n') + 1..])
    else if s == "" then []
    else [DropCr(s)]
  }

  function End(line: string): string {
    line + "\r\n"
  }

  /** Each line with its line end. */
  function Unlines(lines: seq<string>): string {
    if lines == [] then "" else Unlines(lines[..|lines| - 1]) + End(lines[|lines| - 1])
  }

  function JoinLines(lines: seq<string>): string {
    if lines == [] then "" else Unlines(lines[..|lines| - 1]) + lines[|lines| - 1]
  }

  predicate OneLine(s: string) {
    '\n' !in s
  }

  predicate AllOneLine(lines: seq<string>) {
    forall i :: 0 <= i < |lines| ==> OneLine(lines[i])
  }

  lemma {:induction false} LinesAreLines(s: string)
    ensures AllOneLine(Lines(s))
  {
    if '\n' in s {
      LinesAreLines(s[IndexOf(s, '\n') + 1..]);
    }
  }

  lemma Regroup(a: string, b: string, c: string)
    ensures (a + b) + c == a + (b + c)
  {
  }

  lemma ShiftLines(lines: seq<string>, tail: seq<string>)
    requires lines != []
    ensures lines[..|lines| - 1] + ([lines[|lines| - 1]] + tail) == lines + tail
  {
  }

  lemma LinesOfOne(l: string, rest: string)
    requires OneLine(l)
    ensures Lines(End(l) + rest) == [l] + Lines(rest)
  {
    var s, n := End(l) + rest, |l| + 1;
    assert s[..n] == l + "\r" && s[n] == '\n' && s[n + 1..] == rest;
    FirstIndex(s, '\n', n);
    assert DropCr(l + "\r") == l;
  }

  /** Written lines are read back. */
  lemma {:induction false} LinesOfUnlines(lines: seq<string>, rest: string)
    requires AllOneLine(lines)
    ensures Lines(Unlines(lines) + rest) == lines + Lines(rest)
  {
    if lines == [] {
      assert Unlines(lines) + rest == rest;
    } else {
      var front, last := lines[..|lines| - 1], lines[|lines| - 1];
      LinesOfUnlines(front, End(last) + rest);
      LinesOfOne(last, rest);
      assert Unlines(lines) + rest == Unlines(front) + (End(last) + rest) by {
        Regroup(Unlines(front), End(last), rest);
      }
      ShiftLines(lines, Lines(rest));
    }
  }

  lemma {:induction false} UnlinesAdd(a: seq<string>, b: seq<string>)
    ensures Unlines(a + b) == Unlines(a) + Unlines(b)
  {
    if b == [] {
      assert a + b == a;
    } else {
      var front, last := b[..|b| - 1], b[|b| - 1];
      UnlinesAdd(a, front);
      assert (a + b)[..|a + b| - 1] == a + front;
      Regroup(Unlines(a), Unlines(front), End(last));
    }
  }

  // ---------------------------------------------------------------------------
  // Escaping
  // ---------------------------------------------------------------------------

  predicate HasFrom(s: string) {
    "From " <= s
  }

  function TrimQuotes(s: string): string {
    if s != "" && s[0] == '>' then TrimQuotes(s[1..]) else s
  }

  function Escape(line: string): string {
    if HasFrom(TrimQuotes(line)) then ">" + line else line
  }

  function Unescape(line: string): string {
    if line != "" && line[0] == '>' && HasFrom(TrimQuotes(line)) then line[1..] else line
  }

  /** No escaped line can be taken for a separator, and unescaping restores the line. */
  lemma EscapeRoundTrip(line: string)
    ensures Unescape(Escape(line)) == line && !HasFrom(Escape(line)) && (OneLine(line) ==> OneLine(Escape(line)))
  {
    var quoted := ">" + line;
    assert quoted[1..] == line && TrimQuotes(quoted) == TrimQuotes(line);
    assert line != "" && line[0] != '>' ==> TrimQuotes(line) == line;
    assert quoted[0] != "From "[0];
    assert HasFrom(line) ==> line[0] == 'F';
  }

  function EscapeAll(lines: seq<string>): seq<string> {
    seq(|lines|, i requires 0 <= i < |lines| => Escape(lines[i]))
  }

  // ---------------------------------------------------------------------------
  // Export
  // ---------------------------------------------------------------------------

  /** The lines written for one message: separator, escaped body, blank line. */
  function Section(data: string): seq<string> {
    [Separator] + EscapeAll(Lines(data)) + [""]
  }

  function Sections(messages: seq<string>): seq<string> {
    if messages == [] then [] else Sections(messages[..|messages| - 1]) + Section(messages[|messages| - 1])
  }

  method WriteBody(w: string, body: string) returns (w': string)
    ensures w' == w + Unlines(EscapeAll(Lines(body)))
  {
    var lines := Lines(body);
    w' := w;
    for i := 0 to |lines|
      invariant w' == w + Unlines(EscapeAll(lines[..i]))
    {
      var line := lines[i];
      if HasFrom(TrimQuotes(line)) {
        line := ">" + line;
      }
      assert EscapeAll(lines[..i + 1])[..i] == EscapeAll(lines[..i]);
      Regroup(w, Unlines(EscapeAll(lines[..i])), End(line));
      w' := w' + End(line);
    }
    assert lines[..|lines|] == lines;
  }

  method ExportMbox(messages: seq<string>) returns (text: string, n: nat)
    ensures text == Unlines(Sections(messages)) && n == |messages|
  {
    text, n := "", 0;
    for i := 0 to |messages|
      invariant text == Unlines(Sections(messages[..i])) && n == i
    {
      assert messages[..i + 1][..i] == messages[..i];
      ghost var before, body := text, Unlines(EscapeAll(Lines(messages[i])));
      text := text + End(Separator);
      text := WriteBody(text, messages[i]);
      text := text + End("");
      n := n + 1;
      SectionText(messages[i]);
      UnlinesAdd(Sections(messages[..i]), Section(messages[i]));
      Regroup(before + End(Separator), body, End(""));
      Regroup(before, End(Separator), body + End(""));
    }
    assert messages[..|messages|] == messages;
  }

  lemma SectionText(data: string)
    ensures Unlines(Section(data)) == End(Separator) + (Unlines(EscapeAll(Lines(data))) + End(""))
  {
    var body := EscapeAll(Lines(data));
    UnlinesAdd([Separator], body);
    UnlinesAdd([Separator] + body, [""]);
    UnlinesOne(Separator);
    UnlinesOne("");
    Regroup(End(Separator), Unlines(body), End(""));
  }

  lemma UnlinesOne(line: string)
    ensures Unlines([line]) == End(line)
  {
    assert Unlines([line][..0]) == "";
  }

  // ---------------------------------------------------------------------------
  // Import
  // ---------------------------------------------------------------------------

  /** The importer between two lines. */
  datatype Reader = Reader(started: bool, cur: seq<string>, delivered: seq<string>)

  function Flush(r: Reader): Reader {
    if r.cur == [] then r
    else
      var raw := JoinLines(r.cur);
      Reader(r.started, [], r.delivered + if TrimSpace(raw) == "" then [] else [End(raw)])
  }

  function Read(r: Reader, line: string): Reader {
    if HasFrom(line) then (if r.started then Flush(r) else r).(started := true)
    else r.(cur := r.cur + [Unescape(line)])
  }

  function ReadAll(r: Reader, lines: seq<string>): Reader {
    if lines == [] then r else Read(ReadAll(r, lines[..|lines| - 1]), lines[|lines| - 1])
  }

  const Fresh := Reader(false, [], [])

  /** Reading on, or flushing, only adds to what is delivered. */
  lemma {:induction false} DeliveredGrows(r: Reader, lines: seq<string>, k: nat)
    requires k <= |lines|
    ensures ReadAll(r, lines[..k]).delivered <= ReadAll(r, lines).delivered <= Flush(ReadAll(r, lines)).delivered
  {
    if k < |lines| {
      DeliveredGrows(r, lines[..|lines| - 1], k);
      assert lines[..|lines| - 1][..k] == lines[..k];
    } else {
      assert lines[..k] == lines;
    }
  }

  /** What is delivered if every delivery succeeds, the scanner giving up after `readable`
      lines: without the message it is in. */
  function Deliverable(lines: seq<string>, readable: nat): seq<string> {
    if readable < |lines| then ReadAll(Fresh, lines[..readable]).delivered else Flush(ReadAll(Fresh, lines)).delivered
  }

  /** Imports, while the scanner reads `readable` lines and `accepts` deliveries succeed.  What
      is delivered is a beginning of what the text holds, up to the first error. */
  method ImportMbox(text: string, readable: nat, accepts: nat) returns (delivered: seq<string>, n: nat, ok: bool)
    ensures n == |delivered| && delivered <= Deliverable(Lines(text), readable)
    ensures delivered <= Flush(ReadAll(Fresh, Lines(text))).delivered
    ensures ok <==> readable >= |Lines(text)| && |Deliverable(Lines(text), readable)| <= accepts
    ensures delivered == Deliverable(Lines(text), readable) || |delivered| == accepts
  {
    var lines := Lines(text);
    var started, cur: seq<string> := false, [];
    delivered, ok := [], true;
    for i := 0 to |lines|
      invariant i <= readable && |delivered| <= accepts
      invariant Reader(started, cur, delivered) == ReadAll(Fresh, lines[..i])
    {
      DeliverableFrom(lines, i, readable);
      ReadNext(lines, i);
      if i == readable {
        return delivered, |delivered|, false;
      }
      ok, started, cur, delivered := ReadLine(started, cur, delivered, lines[i], accepts);
      if !ok {
        return delivered, |delivered|, false;
      }
    }
    assert lines[..|lines|] == lines;
    ok, cur, delivered := FlushTo(started, cur, delivered, accepts);
    n := |delivered|;
  }

  lemma ReadNext(lines: seq<string>, i: nat)
    requires i < |lines|
    ensures ReadAll(Fresh, lines[..i + 1]) == Read(ReadAll(Fresh, lines[..i]), lines[i])
  {
    assert lines[..i + 1][..i] == lines[..i];
  }

  /** What the first lines deliver is part of what will be delivered. */
  lemma DeliveredPart(lines: seq<string>, i: nat, readable: nat)
    requires i <= |lines| && i <= readable
    ensures ReadAll(Fresh, lines[..i]).delivered <= Deliverable(lines, readable) <= Flush(ReadAll(Fresh, lines)).delivered
  {
    if readable < |lines| {
      var end := lines[..readable];
      assert end[..i] == lines[..i];
      DeliveredGrows(Fresh, end, i);
      DeliveredGrows(Fresh, lines, readable);
    } else {
      DeliveredGrows(Fresh, lines, i);
    }
  }

  lemma DeliverableFrom(lines: seq<string>, i: nat, readable: nat)
    requires i < |lines| && i <= readable
    ensures ReadAll(Fresh, lines[..i]).delivered <= Deliverable(lines, readable) <= Flush(ReadAll(Fresh, lines)).delivered
    ensures i < readable ==> Read(ReadAll(Fresh, lines[..i]), lines[i]).delivered <= Deliverable(lines, readable)
  {
    DeliveredPart(lines, i, readable);
    if i < readable {
      ReadNext(lines, i);
      DeliveredPart(lines, i + 1, readable);
    }
  }

  method ReadLine(started: bool, cur: seq<string>, delivered: seq<string>, text: string, accepts: nat)
    returns (ok: bool, started': bool, cur': seq<string>, delivered': seq<string>)
    requires |delivered| <= accepts
    ensures ok <==> |Read(Reader(started, cur, delivered), text).delivered| <= accepts
    ensures ok ==> Reader(started', cur', delivered') == Read(Reader(started, cur, delivered), text)
    ensures !ok ==> delivered' == delivered && |delivered| == accepts
  {
    ok, started', cur', delivered' := true, started, cur, delivered;
    var line := text;
    if HasFrom(line) {
      if started {
        ok, cur', delivered' := FlushTo(started, cur, delivered, accepts);
      }
      started' := true;
      return;
    }
    if line != "" && line[0] == '>' && HasFrom(TrimQuotes(line)) {
      line := line[1..];
    }
    cur' := cur + [line];
  }

  /** Delivers what has been collected, unless it is blank or the delivery fails. */
  method FlushTo(started: bool, cur: seq<string>, delivered: seq<string>, accepts: nat)
    returns (ok: bool, cur': seq<string>, delivered': seq<string>)
    requires |delivered| <= accepts
    ensures ok <==> |Flush(Reader(started, cur, delivered)).delivered| <= accepts
    ensures ok ==> Reader(started, cur', delivered') == Flush(Reader(started, cur, delivered))
    ensures !ok ==> delivered' == delivered && |delivered| == accepts
    ensures |delivered'| <= accepts
  {
    ok, cur', delivered' := true, [], delivered;
    if cur != [] {
      var raw := JoinLines(cur);
      if TrimSpace(raw) != "" {
        if |delivered| == accepts {
          return false, cur', delivered';
        }
        delivered' := delivered + [End(raw)];
      }
    }
  }

  // ---------------------------------------------------------------------------
  // Round trip
  // ---------------------------------------------------------------------------

  /** A message as import delivers it: its lines and one empty line. */
  function Restored(data: string): string {
    End(JoinLines(Lines(data) + [""]))
  }

  predicate Blank(data: string) {
    TrimSpace(JoinLines(Lines(data) + [""])) == ""
  }

  function RestoredAll(messages: seq<string>): seq<string> {
    if messages == [] then []
    else
      var last := messages[|messages| - 1];
      RestoredAll(messages[..|messages| - 1]) + if Blank(last) then [] else [Restored(last)]
  }

  lemma {:induction false} ReadAdd(r: Reader, a: seq<string>, b: seq<string>)
    ensures ReadAll(r, a + b) == ReadAll(ReadAll(r, a), b)
  {
    if b == [] {
      assert a + b == a;
    } else {
      ReadAdd(r, a, b[..|b| - 1]);
      assert (a + b)[..|a + b| - 1] == a + b[..|b| - 1];
    }
  }

  /** Reading an escaped body collects the original lines. */
  lemma {:induction false} ReadBody(r: Reader, lines: seq<string>)
    ensures ReadAll(r, EscapeAll(lines)) == r.(cur := r.cur + lines)
  {
    if lines == [] {
      assert r.cur + lines == r.cur;
    } else {
      var front, last := lines[..|lines| - 1], lines[|lines| - 1];
      ReadBody(r, front);
      EscapeRoundTrip(last);
      assert EscapeAll(lines)[..|lines| - 1] == EscapeAll(front);
      assert r.cur + front + [last] == r.cur + lines;
    }
  }

  lemma ReadSection(r: Reader, data: string)
    ensures ReadAll(r, Section(data)) ==
      var f := (if r.started then Flush(r) else r).(started := true);
      f.(cur := f.cur + Lines(data) + [""])
  {
    var f, body := Read(r, Separator), EscapeAll(Lines(data));
    ReadAdd(r, [Separator] + body, [""]);
    ReadAdd(r, [Separator], body);
    assert ReadAll(r, [Separator]) == f;
    ReadBody(f, Lines(data));
    assert !HasFrom("") && Unescape("") == "";
    assert ReadAll(f.(cur := f.cur + Lines(data)), [""]) == Read(f.(cur := f.cur + Lines(data)), "");
  }

  /** After reading n exported messages, all but the last are delivered. */
  lemma {:induction false} ReadSections(messages: seq<string>)
    ensures messages != [] ==>
      ReadAll(Fresh, Sections(messages)) ==
      Reader(true, Lines(messages[|messages| - 1]) + [""], RestoredAll(messages[..|messages| - 1]))
  {
    if messages != [] {
      var front, last := messages[..|messages| - 1], messages[|messages| - 1];
      ReadSections(front);
      ReadAdd(Fresh, Sections(front), Section(last));
      ReadSection(ReadAll(Fresh, Sections(front)), last);
      assert [] + Lines(last) + [""] == Lines(last) + [""];
    }
  }

  /** Importing an export delivers every message that is not blank, in order, each with
      its original lines and exactly one empty line more. */
  lemma ImportInvertsExport(messages: seq<string>)
    ensures Flush(ReadAll(Fresh, Lines(Unlines(Sections(messages))))).delivered == RestoredAll(messages)
  {
    SectionsAreLines(messages);
    LinesOfUnlines(Sections(messages), "");
    assert Unlines(Sections(messages)) + "" == Unlines(Sections(messages));
    assert Sections(messages) + Lines("") == Sections(messages);
    ReadSections(messages);
  }

  lemma {:induction false} SectionsAreLines(messages: seq<string>)
    ensures AllOneLine(Sections(messages))
  {
    if messages != [] {
      var last := messages[|messages| - 1];
      SectionsAreLines(messages[..|messages| - 1]);
      LinesAreLines(last);
      forall i | 0 <= i < |Lines(last)| ensures OneLine(EscapeAll(Lines(last))[i]) {
        EscapeRoundTrip(Lines(last)[i]);
      }
    }
  }

  /** The delivered text has the original lines and one empty line. */
  lemma RestoredLines(data: string)
    ensures Lines(Restored(data)) == Lines(data) + [""]
  {
    var lines := Lines(data) + [""];
    LinesAreLines(data);
    assert lines[..|Lines(data)|] == Lines(data);
    Regroup(Unlines(Lines(data)), "", "\r\n");
    assert Restored(data) == Unlines(lines);
    LinesOfUnlines(lines, "");
    assert Unlines(lines) + "" == Unlines(lines) && lines + Lines("") == lines;
  }
}
