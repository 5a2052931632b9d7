/** Reading and writing the file as it is done: a line buffer cut in place, records appended as they come, a
    stream written record by record. */
module ConfigReader {
  import opened Options
  import opened ConfigText
  import opened ConfigEntries
  import opened ConfigFile

  lemma SuffixScans(s: string, t: string, from: nat, these: string)
    requires |s| == |t| && from <= |s| && forall k :: from <= k < |s| ==> s[k] == t[k]
    ensures Skip(s, from, these) == Skip(t, from, these) && Find(s, from, these) == Find(t, from, these)
  {
    hide Skip, Find;
    SkipIs(t, from, these, Skip(s, from, these));
    FindIs(t, from, these, Find(s, from, these));
  }

  lemma SuffixTokens(s: string, t: string, from: nat, ends: string)
    requires |s| == |t| && from <= |s| && s[from..] == t[from..]
    ensures Strtok(s, from, ends) == Strtok(t, from, ends)
  {
    hide Skip, Find;
    assert forall k :: from <= k < |s| ==> s[k] == s[from..][k - from] && t[k] == t[from..][k - from];
    SuffixScans(s, t, from, ends);
    var start := Skip(s, from, ends);
    SuffixScans(s, t, start, ends);
    assert s[start..Find(s, start, ends)] == t[start..Find(s, start, ends)];
  }

  /** The buffer's first n characters are the line; a token found in it is cut off by a zero character. */
  method StrtokInPlace(line: array<char>, n: nat, from: nat, ends: string) returns (token: Option<Token>)
    requires from <= n <= line.Length
    modifies line
    ensures token == Strtok(old(line[..n]), from, ends)
    ensures token.Some? ==> from <= token.value.next <= n && line[token.value.next..n] == old(line[token.value.next..n])
  {
    ghost var s := line[..n];
    var start := from;
    while start < n && line[start] in ends
      invariant from <= start <= n
      invariant forall k :: from <= k < start ==> s[k] in ends
    {
      assert s[start] == line[start];
      start := start + 1;
    }
    SkipIs(s, from, ends, start);
    if start == n {
      return None;
    }
    var end := start;
    while end < n && line[end] !in ends
      invariant start <= end <= n
      invariant forall k :: start <= k < end ==> s[k] !in ends
    {
      assert s[end] == line[end];
      end := end + 1;
    }
    FindIs(s, start, ends, end);
    var text := line[start..end];
    assert text == s[start..end];
    var next := end;
    if end < n {
      line[end] := '\0';
      next := end + 1;
    }
    token := Some(Token(text, next));
  }

  /** Cuts the line into its fields. */
  method ReadEntry(line: array<char>, n: nat, from: nat) returns (r: Reading)
    requires from <= n <= line.Length
    modifies line
    ensures r == ParseEntry(old(line[..n]), from)
  {
    hide Strtok, Named;
    ghost var s := line[..n];
    var first := StrtokInPlace(line, n, from, ID_ENDS);
    if first == None {
      return Skipped;
    }
    var name := Named(first.value.text);
    if name == BadName {
      return Skipped;
    } else if name == NegativeLength {
      return Overrun;
    }
    ghost var s1 := line[..n];
    assert s1[first.value.next..] == line[first.value.next..n] == s[first.value.next..];
    SuffixTokens(s, s1, first.value.next, VALUE_ENDS);
    var second := StrtokInPlace(line, n, first.value.next, VALUE_ENDS);
    if second == None {
      return Stored(Entry(name.id, name.instance, "", ""));
    }
    var next := second.value.next;
    ghost var s2 := line[..n];
    assert s2[next..] == line[next..n] == s1[next..] == s1[first.value.next..][next - first.value.next..] == s[next..];
    SuffixTokens(s, s2, next, LINE_ENDS);
    var third := StrtokInPlace(line, n, next, LINE_ENDS);
    var comment := "";
    if third.Some? {
      var i := 0;
      while i < |third.value.text| && third.value.text[i] != '#'
        invariant 0 <= i <= |third.value.text|
        invariant forall k :: 0 <= k < i ==> third.value.text[k] !in "#"
      {
        i := i + 1;
      }
      FindIs(third.value.text, 0, "#", i);
      comment := third.value.text[i..];
      if |comment| > MAX_COMMENT_LENGTH {
        comment := comment[..MAX_COMMENT_LENGTH];
      }
    }
    var value := second.value.text;
    if |value| > MAX_LINE_LENGTH {
      value := value[..MAX_LINE_LENGTH];
    }
    r := Stored(Entry(name.id, name.instance, value, comment));
  }

  method ReadLine(line: array<char>, n: nat) returns (r: Reading)
    requires n <= line.Length
    modifies line
    ensures r == ParseLine(old(line[..n]))
  {
    ghost var s := line[..n];
    var start := 0;
    while start < n && line[start] in SPACES
      invariant 0 <= start <= n
      invariant forall k :: 0 <= k < start ==> s[k] in SPACES
    {
      assert s[start] == line[start];
      start := start + 1;
    }
    SkipIs(s, 0, SPACES, start);
    if start < n && line[start] == '#' {
      assert line[start..n] == s[start..];
      return Stored(Comment(line[start..n]));
    } else if start == n {
      return Stored(Comment(line[..n]));
    }
    r := ReadEntry(line, n, start);
  }

  /** The records read before a line, and what reading the line does. */
  lemma ParseStep(done: seq<Record>, rest: string)
    requires rest != ""
    ensures var n := LineLength(rest);
            var later := Parse(rest[n..]);
            match ParseLine(rest[..n])
            case Overrun => Parse(rest) == Contents([], true)
            case Skipped => Parse(rest) == later
            case Stored(r) =>
              Parse(rest).overrun == later.overrun && done + Parse(rest).records == done + [r] + later.records
  {
    hide ParseLine, LineLength;
  }

  class File {
    const fileName: string
    const header: seq<string>
    var fileData: seq<Record>
    ghost var overrun: bool

    /** The header's lines are the file's own text; here they may be any. */
    constructor (fileName: string, header: seq<string>, text: string)
      ensures this.fileName == fileName && this.header == header
      ensures Contents(fileData, overrun) == Parse(text)
    {
      this.fileName := fileName;
      this.header := header;
      fileData := [];
      overrun := false;
      new;
      assert [] + Parse(text).records == Parse(text).records;
      var line := new char[MAX_LINE_LENGTH](_ => '\0');
      var rest := text;
      while rest != ""
        invariant fresh(line) && line.Length == MAX_LINE_LENGTH
        invariant !overrun && fileData + Parse(rest).records == Parse(text).records
                  && Parse(rest).overrun == Parse(text).overrun
        decreases |rest|
      {
        hide ParseLine, LineLength, Parse;
        var n := LineLength(rest);
        Fill(line, rest[..n]);
        var r := ReadLine(line, n);
        ParseStep(fileData, rest);
        if r.Overrun? {
          overrun := true;
          assert fileData + [] == fileData;
          return;
        }
        if r.Stored? {
          fileData := fileData + [r.record];
        }
        rest := rest[n..];
      }
      assert fileData + [] == fileData;
    }

    static method Fill(line: array<char>, s: string)
      requires |s| <= line.Length
      modifies line
      ensures line[..|s|] == s
    {
      var i := 0;
      while i < |s|
        invariant 0 <= i <= |s| && line[..i] == s[..i]
      {
        line[i] := s[i];
        i := i + 1;
      }
    }

    /** Writes the file; records that do not begin with a comment get the header first. */
    method Flush(beyond: Surroundings) returns (stream: string)
      modifies this
      ensures fileData == Headed(fileName, header, old(fileData))
      ensures stream == Joined(Lines(fileData, beyond))
    {
      hide Print, Headed;
      if fileData == [] || !fileData[0].Comment? {
        InsertTextHdr();
      } else {
        HasHeader(fileName, header, fileData);
      }
      ghost var lines := Lines(fileData, beyond);
      stream := "";
      var i := 0;
      while i < |fileData|
        invariant 0 <= i <= |fileData| && stream == Joined(lines[..i])
      {
        stream := stream + Print(fileData[i], beyond(i));
        assert lines[..i + 1][..i] == lines[..i];
        i := i + 1;
      }
      assert lines[..i] == lines;
    }

    /** Each line goes behind the one put in before it. */
    method InsertTextHdr()
      requires fileData == [] || !fileData[0].Comment?
      modifies this
      ensures fileData == Headed(fileName, header, old(fileData))
    {
      ghost var was := fileData;
      fileData := [FileLine(fileName)] + fileData;
      var i := 0;
      while i < |header|
        invariant 0 <= i <= |header|
        invariant fileData == [FileLine(fileName)]
                  + seq(i, k requires 0 <= k < i => if k < |header| then Comment(header[k]) else Comment("")) + was
      {
        fileData := fileData[..i + 1] + [Comment(header[i])] + fileData[i + 1..];
        i := i + 1;
      }
    }
  }

  lemma HasHeader(fileName: string, header: seq<string>, records: seq<Record>)
    requires records != [] && records[0].Comment?
    ensures Headed(fileName, header, records) == records
  {
  }

  /** Written and opened again, a file of good records has the records it had when it was written. */
  method WriteAndReopen(file: File, beyond: Surroundings) returns (again: File)
    requires AllGood(file.fileData) && |file.fileName| < 256 && '\n' !in file.fileName
    requires forall i :: 0 <= i < |file.header| ==> GoodComment(file.header[i])
    modifies file
    ensures again.fileData == file.fileData == Headed(file.fileName, file.header, old(file.fileData)) && !again.overrun
  {
    hide Parse, Joined, Lines, AllGood, GoodComment, Headed;
    FlushedComesBack(file.fileName, file.header, file.fileData, beyond, beyond);
    var stream := file.Flush(beyond);
    again := new File(file.fileName, file.header, stream);
  }
}
