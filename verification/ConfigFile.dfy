/** A configuration file: read line by line into records, written back record by record. */
module ConfigFile {
  import opened Options
  import opened ConfigText
  import opened ConfigEntries

  // ----- the text as lines

  /** What one read of a line takes: up to its end, or as much as the buffer holds. */
  function LineLength(text: string): (n: nat)
    requires text != ""
    ensures 0 < n <= |text| && n < MAX_LINE_LENGTH
  {
    var end := Find(text, 0, LINE_ENDS);
    var whole := if end < |text| then end + 1 else end;
    if whole < MAX_LINE_LENGTH then whole else MAX_LINE_LENGTH - 1
  }

  /** The records read; and whether reading a line overran memory, after which nothing more can be said. */
  datatype Contents = Contents(records: seq<Record>, overrun: bool)

  function Parse(text: string): Contents
    decreases |text|
  {
    if text == "" then Contents([], false)
    else
      var n := LineLength(text);
      match ParseLine(text[..n])
      case Overrun => Contents([], true)
      case Skipped => Parse(text[n..])
      case Stored(r) => var rest := Parse(text[n..]); Contents([r] + rest.records, rest.overrun)
  }

  // ----- the records as lines

  /** What lies in memory behind each record when it is printed. */
  type Surroundings = nat -> string

  function Lines(records: seq<Record>, beyond: Surroundings): (lines: seq<string>)
    ensures |lines| == |records|
    ensures forall i :: 0 <= i < |lines| ==> lines[i] == Print(records[i], beyond(i))
  {
    seq(|records|, i requires 0 <= i < |records| => Print(records[i], beyond(i)))
  }

  function Joined(lines: seq<string>): string {
    if lines == [] then "" else Joined(lines[..|lines| - 1]) + lines[|lines| - 1]
  }

  // ----- the round trip

  predicate GoodComment(text: string) {
    IsLine(text) && (text[0] == '#' || forall c :: c in text ==> c in SPACES)
  }

  predicate Good(r: Record) {
    match r
    case Comment(text) => GoodComment(text)
    case Entry(_, _, _, _) => GoodEntry(r)
  }

  ghost predicate AllGood(records: seq<Record>) {
    forall i :: 0 <= i < |records| ==> Good(records[i])
  }

  /** A line reads as the comment it is exactly when it is blank or starts with a hash sign. */
  lemma CommentComesBackIff(text: string)
    ensures ParseLine(text) == Stored(Comment(text)) <==>
              (text != "" && text[0] == '#') || (forall c :: c in text ==> c in SPACES)
  {
    var start := Skip(text, 0, SPACES);
    assert forall k :: 0 <= k < |text| ==> text[k] in text;
    if start == |text| {
      assert forall c :: c in text ==> c in SPACES;
    }
  }

  /** A record comes back from its line, whatever lies beyond it in memory, exactly if it is good. */
  lemma GoodIff(r: Record)
    ensures (forall beyond :: IsLine(Print(r, beyond)) && ParseLine(Print(r, beyond)) == Stored(r)) <==> Good(r)
  {
    hide ParseLine, IsLine, Print, GoodEntry;
    match r
    case Comment(text) => CommentIff(text);
    case Entry(_, _, _, _) => ComesBackIff(r);
  }

  lemma CommentIff(text: string)
    ensures (forall beyond :: IsLine(Print(Comment(text), beyond))
                              && ParseLine(Print(Comment(text), beyond)) == Stored(Comment(text)))
            <==> GoodComment(text)
  {
    hide ParseLine;
    CommentComesBackIff(text);
    if GoodComment(text) {
      assert forall beyond :: Print(Comment(text), beyond) == text;
    } else {
      assert |text| >= MAX_LINE_LENGTH ==> !IsLine(Print(Comment(text), ""));
      assert |text| < MAX_LINE_LENGTH ==> Print(Comment(text), "") == text;
    }
  }

  lemma LineStandsFirst(s: string, rest: string)
    requires IsLine(s)
    ensures LineLength(s + rest) == |s|
    ensures (s + rest)[..|s|] == s && (s + rest)[|s|..] == rest
  {
    var t := s + rest;
    assert forall k :: 0 <= k < |s| - 1 ==> t[k] == s[..|s| - 1][k];
    FindIs(t, 0, LINE_ENDS, |s| - 1);
  }

  lemma JoinedLast(lines: seq<string>, l: string)
    ensures Joined(lines + [l]) == Joined(lines) + l
  {
    assert (lines + [l])[..|lines|] == lines;
  }

  lemma JoinedNone()
    ensures Joined([]) == ""
  {
  }

  lemma {:induction false} JoinedFirst(lines: seq<string>)
    requires lines != []
    ensures Joined(lines) == lines[0] + Joined(lines[1..])
  {
    hide Joined;
    var n := |lines| - 1;
    var front, last := lines[..n], lines[n];
    assert lines == front + [last];
    JoinedLast(front, last);
    JoinedNone();
    if n > 0 {
      JoinedFirst(front);
      assert lines[1..] == front[1..] + [last];
      JoinedLast(front[1..], last);
    }
  }

  lemma {:induction false} LinesParse(records: seq<Record>, lines: seq<string>)
    requires |records| == |lines|
    requires forall i :: 0 <= i < |lines| ==> IsLine(lines[i]) && ParseLine(lines[i]) == Stored(records[i])
    ensures Parse(Joined(lines)) == Contents(records, false)
    decreases |records|
  {
    hide ParseLine, IsLine, LineLength;
    JoinedNone();
    if records != [] {
      JoinedFirst(lines);
      LineStandsFirst(lines[0], Joined(lines[1..]));
      LinesParse(records[1..], lines[1..]);
      assert records == [records[0]] + records[1..];
      NotEmpty(lines[0]);
    }
  }

  lemma NotEmpty(s: string)
    requires IsLine(s)
    ensures s != ""
  {
  }

  lemma ParseFirst(line: string, text: string)
    requires IsLine(line)
    ensures Parse(line + text)
            == match ParseLine(line)
               case Overrun => Contents([], true)
               case Skipped => Parse(text)
               case Stored(r) => Contents([r] + Parse(text).records, Parse(text).overrun)
  {
    hide ParseLine, IsLine, LineLength;
    LineStandsFirst(line, text);
    NotEmpty(line);
  }

  /** A line that is skipped leaves no trace: the file reads as without it. */
  lemma {:induction false} SkippedLeavesNoTrace(before: seq<string>, line: string, after: seq<string>)
    requires IsLine(line) && ParseLine(line) == Skipped
    requires forall i :: 0 <= i < |before| ==> IsLine(before[i])
    ensures Parse(Joined(before + [line] + after)) == Parse(Joined(before + after))
    decreases |before|
  {
    hide ParseLine, IsLine, Joined, Parse;
    var all, rest := before + [line] + after, before + after;
    JoinedFirst(all);
    if before == [] {
      assert all[1..] == after && rest == after;
      ParseFirst(line, Joined(after));
    } else {
      JoinedFirst(rest);
      assert all[1..] == before[1..] + [line] + after && rest[1..] == before[1..] + after;
      SkippedLeavesNoTrace(before[1..], line, after);
      ParseFirst(before[0], Joined(all[1..]));
      ParseFirst(before[0], Joined(rest[1..]));
    }
  }

  /** A read takes a line with its end, or the last one without, but at most 511 characters. */
  lemma LineTaken(text: string, end: nat)
    requires text != "" && end <= |text| && '\n' !in text[..end] && (end < |text| ==> text[end] == '\n')
    ensures LineLength(text) == if end >= 511 then 511 else if end < |text| then end + 1 else end
  {
    assert forall k :: 0 <= k < end ==> text[k] == text[..end][k];
    FindIs(text, 0, LINE_ENDS, end);
  }

  /** Reading what was written gives the records that were written. */
  lemma RoundTrip(records: seq<Record>, beyond: Surroundings)
    requires AllGood(records)
    ensures Parse(Joined(Lines(records, beyond))) == Contents(records, false)
  {
    hide ParseLine, IsLine, Print, Good, Parse, Joined;
    var lines := Lines(records, beyond);
    forall i | 0 <= i < |lines|
      ensures IsLine(lines[i]) && ParseLine(lines[i]) == Stored(records[i])
    {
      GoodIff(records[i]);
      assert IsLine(Print(records[i], beyond(i)));
    }
    LinesParse(records, lines);
  }

  // ----- the header

  /** The header is put before records that do not begin with a comment. */
  function FileLine(fileName: string): Record {
    Comment("#  Filename: " + fileName + "\n")
  }

  function Headed(fileName: string, header: seq<string>, records: seq<Record>): seq<Record> {
    if records == [] || !records[0].Comment? then
      [FileLine(fileName)] + seq(|header|, i requires 0 <= i < |header| => Comment(header[i])) + records
    else records
  }

  lemma HeadedOnce(fileName: string, header: seq<string>, records: seq<Record>)
    ensures var h := Headed(fileName, header, records);
            h != [] && h[0].Comment? && Headed(fileName, header, h) == h
  {
  }

  /** The file name's line, the header's lines in order, and the records; or the records alone. */
  lemma HeadedMeans(fileName: string, header: seq<string>, records: seq<Record>)
    ensures var h, n := Headed(fileName, header, records), |header|;
            if records != [] && records[0].Comment? then h == records
            else
              && |h| == 1 + n + |records| && h[0] == Comment("#  Filename: " + fileName + "\n")
              && (forall i :: 0 <= i < n ==> h[1 + i] == Comment(header[i]))
              && (forall i :: 0 <= i < |records| ==> h[1 + n + i] == records[i])
  {
  }

  /** How an entry looks when it is written. */
  lemma PrintedEntry(beyond: string)
    ensures Print(Entry("PORT", "a", "4242", "# old"), beyond) == "PORT[a]=4242\t\t# old\n"
    ensures Print(Entry("PORT", "", "4242", ""), beyond) == "PORT=4242\n"
  {
  }

  lemma FileLineGood(fileName: string)
    requires |fileName| < 256 && '\n' !in fileName
    ensures Good(FileLine(fileName))
  {
    var t := "#  Filename: " + fileName;
    assert (t + "\n")[..|t|] == t;
  }

  lemma HeadedGood(fileName: string, header: seq<string>, records: seq<Record>)
    requires AllGood(records) && |fileName| < 256 && '\n' !in fileName
    requires forall i :: 0 <= i < |header| ==> GoodComment(header[i])
    ensures AllGood(Headed(fileName, header, records))
  {
    hide GoodEntry, GoodComment;
    FileLineGood(fileName);
  }

  /** What Flush writes, Open reads: the records, behind the header if they had none; and written again it is the
      same text. */
  lemma FlushedComesBack(fileName: string, header: seq<string>, records: seq<Record>, beyond: Surroundings,
                         later: Surroundings)
    requires AllGood(records) && |fileName| < 256 && '\n' !in fileName
    requires forall i :: 0 <= i < |header| ==> GoodComment(header[i])
    ensures var h := Headed(fileName, header, records);
            var c := Parse(Joined(Lines(h, beyond)));
            && c == Contents(h, false)
            && Joined(Lines(Headed(fileName, header, c.records), later)) == Joined(Lines(h, beyond))
  {
    hide GoodEntry, GoodComment, Parse, Joined, Print;
    var h := Headed(fileName, header, records);
    HeadedGood(fileName, header, records);
    RoundTrip(h, beyond);
    HeadedOnce(fileName, header, records);
    LinesFixed(h, beyond, later);
  }

  lemma LinesFixed(records: seq<Record>, beyond: Surroundings, later: Surroundings)
    requires AllGood(records)
    ensures Lines(records, beyond) == Lines(records, later)
  {
    hide Print, GoodEntry;
    forall i | 0 <= i < |records|
      ensures Print(records[i], beyond(i)) == Print(records[i], later(i))
    {
      GoodFixed(records[i], beyond(i));
      GoodFixed(records[i], later(i));
    }
  }

  lemma GoodFixed(r: Record, beyond: string)
    requires Good(r)
    ensures Print(r, beyond) == Print(r, "")
  {
    if r.Entry? {
      GoodFits(r);
      PrintFixed(r, beyond);
    }
  }
}
