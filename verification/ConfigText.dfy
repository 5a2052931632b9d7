/** The configuration file's text: how a line is read into a record and a record printed as a line. */
module ConfigText {
  import opened Options

  const MAX_ID_LENGTH: nat := 64
  const MAX_INSTANCE_LENGTH: nat := 32
  const MAX_LINE_LENGTH: nat := 512
  const MAX_COMMENT_LENGTH: nat := 128

  datatype Record =
    | Comment(text: string)
    | Entry(id: string, instance: string, value: string, comment: string)

  // ----- scanning

  const SPACES: string := " \t\n\U{000B}\U{000C}\r"
  const ID_ENDS: string := "= \t"
  const VALUE_ENDS: string := " #\t\n"
  const LINE_ENDS: string := "\n"

  /** The first place from `from` on whose character is not one of these. */
  function Skip(s: string, from: nat, these: string): (i: nat)
    requires from <= |s|
    ensures from <= i <= |s|
    ensures forall k :: from <= k < i ==> s[k] in these
    ensures i < |s| ==> s[i] !in these
    decreases |s| - from
  {
    if from < |s| && s[from] in these then Skip(s, from + 1, these) else from
  }

  /** The first place from `from` on whose character is one of these. */
  function Find(s: string, from: nat, these: string): (i: nat)
    requires from <= |s|
    ensures from <= i <= |s|
    ensures forall k :: from <= k < i ==> s[k] !in these
    ensures i < |s| ==> s[i] in these
    decreases |s| - from
  {
    if from < |s| && s[from] !in these then Find(s, from + 1, these) else from
  }

  lemma SkipIs(s: string, from: nat, these: string, i: nat)
    requires from <= i <= |s|
    requires forall k :: from <= k < i ==> s[k] in these
    requires i < |s| ==> s[i] !in these
    ensures Skip(s, from, these) == i
  {
    var j := Skip(s, from, these);
  }

  lemma FindIs(s: string, from: nat, these: string, i: nat)
    requires from <= i <= |s|
    requires forall k :: from <= k < i ==> s[k] !in these
    requires i < |s| ==> s[i] in these
    ensures Find(s, from, these) == i
  {
    var j := Find(s, from, these);
  }

  /** A token, and where the next one is looked for: behind the delimiter that ended it. */
  datatype Token = Token(text: string, next: nat)

  function Strtok(s: string, from: nat, ends: string): (t: Option<Token>)
    requires from <= |s|
    ensures t.Some? ==> t.value.text != [] && t.value.next <= |s| && forall c :: c in t.value.text ==> c !in ends
  {
    var start := Skip(s, from, ends);
    if start == |s| then None
    else
      var end := Find(s, start, ends);
      Some(Token(s[start..end], if end < |s| then end + 1 else end))
  }

  // ----- reading a line

  /** What a token yields: an identifier and an instance; nothing; or, when the first closing bracket comes before
      the first opening one, an instance whose length is computed as negative and copied over all memory. */
  datatype Naming = Name(id: string, instance: string) | BadName | NegativeLength

  function Named(token: string): Naming {
    var open := Find(token, 0, "[");
    if open < |token| then
      var close := Find(token, 0, "]");
      if close == |token| || close - (open + 1) > MAX_INSTANCE_LENGTH || open > MAX_ID_LENGTH then BadName
      else if close < open then NegativeLength
      else Name(token[..open], token[open + 1..close])
    else if |token| > MAX_ID_LENGTH then BadName
    else Name(token, "")
  }

  /** What reading a line does: a record is stored, the line is skipped, or memory is overrun. */
  datatype Reading = Stored(record: Record) | Skipped | Overrun

  function CommentIn(s: string, from: nat): string
    requires from <= |s|
  {
    match Strtok(s, from, LINE_ENDS)
    case None => ""
    case Some(t) => Clip(t.text[Find(t.text, 0, "#")..], MAX_COMMENT_LENGTH)
  }

  /** A copy of at most n characters. */
  function Clip(s: string, n: nat): string {
    if |s| > n then s[..n] else s
  }

  function ParseEntry(s: string, from: nat): Reading
    requires from <= |s|
  {
    match Strtok(s, from, ID_ENDS)
    case None => Skipped
    case Some(first) =>
      match Named(first.text)
      case BadName => Skipped
      case NegativeLength => Overrun
      case Name(id, instance) =>
        match Strtok(s, first.next, VALUE_ENDS)
        case None => Stored(Entry(id, instance, "", ""))
        case Some(second) => Stored(Entry(id, instance, Clip(second.text, MAX_LINE_LENGTH), CommentIn(s, second.next)))
  }

  function ParseLine(s: string): Reading {
    var start := Skip(s, 0, SPACES);
    if start == |s| then Stored(Comment(s))
    else if s[start] == '#' then Stored(Comment(s[start..]))
    else ParseEntry(s, start)
  }

  // ----- printing

  /** The fields lie in memory one behind the other, each in an array. A field that fills its array has no
      terminator, and what is printed for it runs on into the next field; behind the last one, into what lies
      beyond the record. */
  function IdText(e: Record, beyond: string): string
    requires e.Entry?
  {
    if |e.id| < MAX_ID_LENGTH then e.id else e.id + InstanceText(e, beyond)
  }

  function InstanceText(e: Record, beyond: string): string
    requires e.Entry?
  {
    if |e.instance| < MAX_INSTANCE_LENGTH then e.instance else e.instance + ValueText(e, beyond)
  }

  function ValueText(e: Record, beyond: string): string
    requires e.Entry?
  {
    if |e.value| < MAX_LINE_LENGTH then e.value else e.value + CommentText(e, beyond)
  }

  function CommentText(e: Record, beyond: string): string
    requires e.Entry?
  {
    if |e.comment| < MAX_COMMENT_LENGTH then e.comment else e.comment + beyond
  }

  function NameText(e: Record, beyond: string): string
    requires e.Entry?
  {
    if e.instance != "" then IdText(e, beyond) + "[" + InstanceText(e, beyond) + "]" else IdText(e, beyond)
  }

  function Print(r: Record, beyond: string): string {
    match r
    case Comment(text) => if |text| < MAX_LINE_LENGTH then text else text + beyond
    case Entry(_, _, _, comment) =>
      if comment != "" then NameText(r, beyond) + "=" + ValueText(r, beyond) + "\t\t" + CommentText(r, beyond) + "\n"
      else NameText(r, beyond) + "=" + ValueText(r, beyond) + "\n"
  }

  // ----- which entries come back

  predicate Free(s: string, of: string) {
    forall c :: c in s ==> c !in of
  }

  /** No field that fills its array is followed by another one. */
  predicate Terminated(e: Record)
    requires e.Entry?
  {
    (|e.id| < MAX_ID_LENGTH || e.instance == "") && (|e.instance| < MAX_INSTANCE_LENGTH || e.value == "")
  }

  /** The run-on happens to be read as if it were not there: the printed value's bracket closes the instance early. */
  predicate Harmless(e: Record)
    requires e.Entry?
  {
    && |e.instance| == MAX_INSTANCE_LENGTH && '=' !in e.value
    && if |e.id| < MAX_ID_LENGTH then e.value != "" && e.value[0] == ']'
       else |e.value| >= 2 && e.value[0] == '[' && e.value[1] == ']' && forall c :: c in e.instance ==> c == '['
  }

  predicate GoodName(e: Record)
    requires e.Entry?
  {
    && Free(e.id, "= \t[") && |e.id| <= MAX_ID_LENGTH
    && Free(e.instance, "= \t]") && |e.instance| <= MAX_INSTANCE_LENGTH
    && (e.instance != "" ==> ']' !in e.id)
    && (e.id != "" || e.instance != "")
    && (e.id != "" ==> e.id[0] != '#' && e.id[0] !in SPACES)
    && (Terminated(e) || Harmless(e))
  }

  /** No field has a line end in it. */
  predicate OneLine(e: Record)
    requires e.Entry?
  {
    Free(e.id, LINE_ENDS) && Free(e.instance, LINE_ENDS) && Free(e.value, LINE_ENDS) && Free(e.comment, LINE_ENDS)
  }

  predicate GoodEntry(e: Record)
    requires e.Entry?
  {
    && GoodName(e) && OneLine(e)
    && Free(e.value, VALUE_ENDS)
    && (e.value == "" ==> e.comment == "")
    && (e.comment != "" ==> e.comment[0] == '#')
    && |e.comment| < MAX_COMMENT_LENGTH
    && |Print(e, "")| < MAX_LINE_LENGTH
  }

  /** A whole line that fits into the line buffer. */
  predicate IsLine(s: string) {
    s != "" && |s| < MAX_LINE_LENGTH && s[|s| - 1] == '\n' && '\n' !in s[..|s| - 1]
  }

  /** Printed, the entry is one line, and that line reads as the entry, whatever lies beyond it in memory. */
  ghost predicate ComesBack(e: Record)
    requires e.Entry?
  {
    forall beyond :: IsLine(Print(e, beyond)) && ParseLine(Print(e, beyond)) == Stored(e)
  }

  // ----- tokens

  /** A token that starts where it is looked for. */
  lemma StrtokHere(s: string, from: nat, ends: string, t: string)
    requires t != [] && Free(t, ends)
    requires from + |t| <= |s| && s[from..from + |t|] == t
    requires from + |t| < |s| ==> s[from + |t|] in ends
    ensures Strtok(s, from, ends) == Some(Token(t, if from + |t| < |s| then from + |t| + 1 else |s|))
  {
    assert forall k :: 0 <= k < |t| ==> s[from + k] == t[k] && t[k] in t;
    SkipIs(s, from, ends, from);
    FindIs(s, from, ends, from + |t|);
  }

  /** A token that starts where it is looked for, and reaches at least as far as no delimiter stands. */
  lemma StrtokAtLeast(s: string, from: nat, ends: string, t: string)
    requires t != [] && Free(t, ends)
    requires from + |t| <= |s| && s[from..from + |t|] == t
    ensures Strtok(s, from, ends).Some? && |Strtok(s, from, ends).value.text| >= |t|
  {
    assert forall k :: 0 <= k < |t| ==> s[from + k] == t[k] && t[k] in t;
    SkipIs(s, from, ends, from);
  }

  /** Where a token stands. */
  lemma StrtokPlace(s: string, from: nat, ends: string)
    requires from <= |s| && Strtok(s, from, ends).Some?
    ensures var t, start := Strtok(s, from, ends).value, Skip(s, from, ends);
            && start + |t.text| <= t.next <= |s| && s[start] == t.text[0] && s[start..start + |t.text|] == t.text
            && (t.next < |s| ==> t.next == start + |t.text| + 1)
            && (t.next == |s| ==> t.next <= start + |t.text| + 1)
            && (start + |t.text| < |s| ==> t.next == start + |t.text| + 1 && s[start + |t.text|] in ends)
            && (|s| > 0 && s[|s| - 1] in ends ==> start + |t.text| < |s|)
  {
  }

  lemma StrtokSplits(s: string, from: nat, ends: string)
    requires from <= |s| && Strtok(s, from, ends).Some?
    ensures Free(Strtok(s, from, ends).value.text, ends) && Strtok(s, from, ends).value.text != ""
    ensures from < |s| && from <= Skip(s, from, ends)
  {
  }

  // ----- names

  /** Where the brackets of a name that was read stand. */
  lemma NamedAt(token: string, id: string, instance: string)
    requires Named(token) == Name(id, instance) && token != ""
    ensures var k, close := |id|, |id| + 1 + |instance|;
            || (instance == "" && token == id && '[' !in token)
            || (close < |token| && token[..k] == id
               && token[k] == '[' && token[k + 1..close] == instance && token[close] == ']')
  {
    if Find(token, 0, "[") == |token| {
      assert forall c :: c in token ==> c !in "[";
    }
  }

  lemma NamedMeans(token: string, id: string, instance: string)
    requires Named(token) == Name(id, instance) && Free(token, ID_ENDS) && token != ""
    ensures Free(id, "= \t[") && |id| <= MAX_ID_LENGTH && Free(instance, "= \t]") && |instance| <= MAX_INSTANCE_LENGTH
    ensures instance != "" ==> ']' !in id
    ensures |token| >= (if instance != "" || id == "" then |id| + |instance| + 2 else |id|)
    ensures token[0] == if id != "" then id[0] else '['
  {
    var open, close := Find(token, 0, "["), Find(token, 0, "]");
    if open < |token| {
      assert forall c :: c in token[..open] ==> c in token;
      assert forall c :: c in token[open + 1..close] ==> c in token;
    }
  }

  /** The copy length is negative exactly when both brackets are there, the closing one first, and the opening one
      is not too far in. */
  lemma NegativeLengthIff(token: string)
    ensures Named(token) == NegativeLength <==>
              && '[' in token && ']' in token
              && Find(token, 0, "]") < Find(token, 0, "[") <= MAX_ID_LENGTH
  {
    var open, close := Find(token, 0, "["), Find(token, 0, "]");
    assert open < |token| <==> '[' in token by {
      assert open == |token| ==> forall c :: c in token ==> c !in "[";
    }
    assert close < |token| <==> ']' in token by {
      assert close == |token| ==> forall c :: c in token ==> c !in "]";
    }
  }

  /** The line a]b[c]=x overruns memory. */
  lemma BracketsReversed()
    ensures ParseLine("a]b[c]=x") == Overrun
  {
    var s := "a]b[c]=x";
    SkipIs(s, 0, SPACES, 0);
    assert s[0..6] == "a]b[c]";
    StrtokHere(s, 0, ID_ENDS, "a]b[c]");
    FindIs("a]b[c]", 0, "[", 3);
    FindIs("a]b[c]", 0, "]", 1);
  }

  // ----- comments

  lemma CommentMeans(s: string, from: nat)
    requires from <= |s| && s != "" && s[|s| - 1] == '\n'
    ensures var c := CommentIn(s, from);
            && Free(c, LINE_ENDS) && |c| <= MAX_COMMENT_LENGTH && (c != "" ==> c[0] == '#' && from + |c| + 1 <= |s|)
  {
    var t := Strtok(s, from, LINE_ENDS);
    if t.Some? {
      StrtokPlace(s, from, LINE_ENDS);
      assert forall c :: c in t.value.text[Find(t.value.text, 0, "#")..] ==> c in t.value.text;
    }
  }
}
