/** What a line written by hand reads as: blanks in front, an identifier with or without an instance, a delimiter, a
    value, and a comment behind it. */
module ConfigLines {
  import opened Options
  import opened ConfigText

  // ----- blanks in front

  lemma {:induction false} SkipShift(w: string, s: string, from: nat, these: string)
    requires from <= |s|
    ensures Skip(w + s, |w| + from, these) == |w| + Skip(s, from, these)
    decreases |s| - from
  {
    if from < |s| && s[from] in these {
      SkipShift(w, s, from + 1, these);
    }
  }

  lemma {:induction false} FindShift(w: string, s: string, from: nat, these: string)
    requires from <= |s|
    ensures Find(w + s, |w| + from, these) == |w| + Find(s, from, these)
    decreases |s| - from
  {
    if from < |s| && s[from] !in these {
      FindShift(w, s, from + 1, these);
    }
  }

  lemma StrtokShift(w: string, s: string, from: nat, ends: string)
    requires from <= |s|
    ensures Strtok(w + s, |w| + from, ends)
            == match Strtok(s, from, ends)
               case None => None
               case Some(t) => Some(Token(t.text, |w| + t.next))
  {
    hide Skip, Find;
    SkipShift(w, s, from, ends);
    var start := Skip(s, from, ends);
    if start < |s| {
      FindShift(w, s, start, ends);
      var end := Find(s, start, ends);
      SliceShift(w, s, start, end);
    }
  }

  lemma SliceShift(w: string, s: string, from: nat, to: nat)
    requires from <= to <= |s|
    ensures (w + s)[|w| + from..|w| + to] == s[from..to]
  {
    assert forall k :: from <= k < to ==> (w + s)[|w| + k] == s[k];
  }

  lemma EntryShift(w: string, s: string, from: nat)
    requires from <= |s|
    ensures ParseEntry(w + s, |w| + from) == ParseEntry(s, from)
  {
    hide Strtok, Named;
    StrtokShift(w, s, from, ID_ENDS);
    var first := Strtok(s, from, ID_ENDS);
    if first.Some? {
      StrtokShift(w, s, first.value.next, VALUE_ENDS);
      var second := Strtok(s, first.value.next, VALUE_ENDS);
      if second.Some? {
        StrtokShift(w, s, second.value.next, LINE_ENDS);
      }
    }
  }

  /** Blanks in front of a line that is not blank do not change what it reads as. */
  lemma LeadingBlanks(w: string, s: string)
    requires forall c :: c in w ==> c in " \t\n\U{000B}\U{000C}\r"
    requires exists c :: c in s && c !in " \t\n\U{000B}\U{000C}\r"
    ensures ParseLine(w + s) == ParseLine(s)
  {
    hide Skip, ParseEntry;
    SkipShift(w, s, 0, SPACES);
    AllSkipped(w, s);
    var c :| c in s && c !in " \t\n\U{000B}\U{000C}\r";
    var start := Skip(s, 0, SPACES);
    assert start < |s|;
    assert (w + s)[|w| + start..] == s[start..];
    EntryShift(w, s, start);
  }

  lemma AllSkipped(w: string, s: string)
    requires forall c :: c in w ==> c in SPACES
    ensures Skip(w + s, 0, SPACES) == Skip(w + s, |w|, SPACES)
  {
    hide Skip;
    var i := Skip(w + s, |w|, SPACES);
    assert forall k :: 0 <= k < |w| ==> (w + s)[k] == w[k];
    SkipIs(w + s, 0, SPACES, i);
  }

  // ----- the fields of an entry

  function NameOf(id: string, instance: string, bracketed: bool): string {
    if bracketed then id + "[" + instance + "]" else id
  }

  /** A name of at most 64 characters without blanks, equals signs and brackets, that does not begin like a comment;
      and an instance of at most 32 in brackets, if there is one. */
  predicate Readable(id: string, instance: string, bracketed: bool) {
    && Free(id, "= \t[") && |id| <= 64 && Free(instance, "= \t]") && |instance| <= 32
    && (if bracketed then ']' !in id else id != "" && instance == "")
    && (id != "" ==> id[0] !in "# \t\n\U{000B}\U{000C}\r")
  }

  lemma FindIn(a: string, c: char, b: string)
    requires c !in a
    ensures Find(a + [c] + b, 0, [c]) == |a|
  {
    FindIs(a + [c] + b, 0, [c], |a|);
  }

  lemma FreeConcat(a: string, b: string, of: string)
    requires Free(a, of) && Free(b, of)
    ensures Free(a + b, of)
  {
  }

  lemma Bracketed(id: string, instance: string)
    requires Readable(id, instance, true)
    ensures Free(id + "[" + instance + "]", ID_ENDS) && Named(id + "[" + instance + "]") == Name(id, instance)
  {
    hide Find;
    var name := id + "[" + instance + "]";
    assert name == id + ['['] + (instance + "]") && name == (id + "[" + instance) + [']'] + "";
    FindIn(id, '[', instance + "]");
    FindIn(id + "[" + instance, ']', "");
    assert name[..|id|] == id && name[|id| + 1..|id| + 1 + |instance|] == instance;
  }

  lemma Plain(id: string)
    requires Readable(id, "", false)
    ensures Free(id, ID_ENDS) && Named(id) == Name(id, "")
  {
    hide Find;
    assert forall k :: 0 <= k < |id| ==> id[k] in id;
    FindIs(id, 0, "[", |id|);
  }

  lemma NameReads(id: string, instance: string, bracketed: bool)
    requires Readable(id, instance, bracketed)
    ensures var name := NameOf(id, instance, bracketed);
            && name != "" && Free(name, ID_ENDS) && name[0] != '#' && name[0] !in SPACES
            && Named(name) == Name(id, instance)
  {
    hide Named, Free;
    if bracketed {
      Bracketed(id, instance);
    } else {
      Plain(id);
    }
  }

  /** A token behind delimiters. */
  lemma StrtokBehind(s: string, from: nat, start: nat, ends: string, t: string)
    requires from <= start && t != [] && Free(t, ends)
    requires start + |t| <= |s| && s[start..start + |t|] == t
    requires forall k :: from <= k < start ==> s[k] in ends
    requires start + |t| < |s| ==> s[start + |t|] in ends
    ensures Strtok(s, from, ends) == Some(Token(t, if start + |t| < |s| then start + |t| + 1 else |s|))
  {
    assert forall k :: 0 <= k < |t| ==> s[start + k] == t[k] && t[k] in t;
    SkipIs(s, from, ends, start);
    FindIs(s, start, ends, start + |t|);
  }

  /** The first n characters, or all there are. */
  function UpTo(s: string, n: nat): string {
    if |s| <= n then s else s[..n]
  }

  /** What stands behind the value: text without a hash sign, which begins with a blank, and the comment. */
  predicate Behind(between: string, comment: string, end: string) {
    && (between == "" ==> comment == "") && (between != "" ==> between[0] in " \t") && Free(between, "#\n")
    && (comment != "" ==> comment[0] == '#') && Free(comment, "\n")
    && (end == "" || end == "\n")
  }

  lemma CommentReads(s: string, from: nat, between: string, comment: string, end: string)
    requires Behind(between, comment, end) && between != "" && from <= |s|
    requires s[from..] == between[1..] + comment + end
    ensures CommentIn(s, from) == UpTo(comment, 128)
  {
    hide Strtok;
    var t := between[1..] + comment;
    if t == "" {
      assert end != "" ==> s[from] == '\n';
      NoToken(s, from);
    } else {
      var n := |between| - 1;
      assert s[from..from + |t|] == t;
      assert end != "" ==> from + |t| < |s| && s[from + |t|] == '\n';
      FreeTail(between);
      FreeConcat(between[1..], comment, LINE_ENDS);
      StrtokHere(s, from, LINE_ENDS, t);
      assert forall k :: 0 <= k < n ==> t[k] == between[k + 1] && between[k + 1] in between;
      FindIs(t, 0, "#", n);
      assert t[n..] == comment;
    }
  }

  lemma FreeTail(between: string)
    requires between != "" && Free(between, "#\n")
    ensures Free(between[1..], LINE_ENDS)
  {
    forall c | c in between[1..]
      ensures c !in LINE_ENDS
    {
      assert c in between;
    }
  }

  lemma NoToken(s: string, from: nat)
    requires from <= |s| && forall k :: from <= k < |s| ==> s[k] == '\n'
    ensures Strtok(s, from, LINE_ENDS) == None && Strtok(s, from, VALUE_ENDS) == None
  {
    SkipIs(s, from, LINE_ENDS, |s|);
    SkipIs(s, from, VALUE_ENDS, |s|);
  }

  /** The name is the first token, and the entry's rest begins behind the delimiter. */
  lemma NameFirst(s: string, id: string, instance: string, bracketed: bool, sep: char, rest: string)
    requires Readable(id, instance, bracketed) && sep in "= \t"
    requires s == NameOf(id, instance, bracketed) + [sep] + rest
    ensures var n := |NameOf(id, instance, bracketed)|;
            && n < |s| && s[n + 1..] == rest
            && ParseLine(s) == match Strtok(s, n + 1, VALUE_ENDS)
                               case None => Stored(Entry(id, instance, "", ""))
                               case Some(t) => Stored(Entry(id, instance, UpTo(t.text, 512), CommentIn(s, t.next)))
  {
    hide Strtok, Skip, Named, CommentIn, NameOf, Free;
    var name := NameOf(id, instance, bracketed);
    NameReads(id, instance, bracketed);
    assert s[0] == name[0] && s[..|name|] == name && s[|name|] == sep;
    SkipIs(s, 0, SPACES, 0);
    StrtokHere(s, 0, ID_ENDS, name);
  }

  lemma EntryReads(s: string, id: string, instance: string, bracketed: bool, sep: char, gap: string, value: string,
                   between: string, comment: string, end: string)
    requires Readable(id, instance, bracketed) && sep in "= \t" && (forall c :: c in gap ==> c in " \t")
    requires value != "" && Free(value, " #\t\n") && Behind(between, comment, end)
    requires s == NameOf(id, instance, bracketed) + [sep] + gap + value + between + comment + end
    ensures ParseLine(s) == Stored(Entry(id, instance, UpTo(value, 512), UpTo(comment, 128)))
  {
    hide Strtok, ParseLine, CommentIn, NameOf, Readable, Behind;
    var rest := gap + value + between + comment + end;
    assert s == NameOf(id, instance, bracketed) + [sep] + rest;
    NameFirst(s, id, instance, bracketed, sep, rest);
    ValueReads(s, |NameOf(id, instance, bracketed)| + 1, gap, value, between, comment, end);
  }

  lemma ValueReads(s: string, from: nat, gap: string, value: string, between: string, comment: string, end: string)
    requires from <= |s| && s[from..] == gap + value + between + comment + end
    requires (forall c :: c in gap ==> c in " \t")
    requires value != "" && Free(value, " #\t\n") && Behind(between, comment, end)
    ensures var t := Strtok(s, from, VALUE_ENDS);
            t.Some? && t.value.text == value && CommentIn(s, t.value.next) == UpTo(comment, 128)
  {
    hide Strtok, CommentIn;
    var start := from + |gap|;
    var next := start + |value|;
    assert forall k :: 0 <= k < |gap| ==> s[from + k] == gap[k] && gap[k] in gap;
    assert s[start..next] == value;
    assert next < |s| ==> s[next] == (if between != "" then between[0] else '\n');
    StrtokBehind(s, from, start, VALUE_ENDS, value);
    if between == "" {
      NoToken(s, |s|);
      NoComment(s, |s|);
    } else {
      assert s[next + 1..] == between[1..] + comment + end;
      CommentReads(s, next + 1, between, comment, end);
    }
  }

  lemma NoComment(s: string, from: nat)
    requires from <= |s| && Strtok(s, from, LINE_ENDS) == None
    ensures CommentIn(s, from) == ""
  {
  }

  /** An entry written by hand reads as its fields: blanks in front; an identifier, with an instance in brackets or
      without; a delimiter, an equals sign or a blank, and any blanks; a value without blanks and hash signs, of
      which 512 characters are kept; and a comment after at least one blank, of which 128 are kept, or none. */
  lemma HandWritten(lead: string, id: string, instance: string, bracketed: bool, sep: char, gap: string,
                    value: string, between: string, comment: string, end: string)
    requires forall c :: c in lead ==> c in " \t\n\U{000B}\U{000C}\r"
    requires Readable(id, instance, bracketed) && sep in "= \t" && (forall c :: c in gap ==> c in " \t")
    requires value != "" && Free(value, " #\t\n") && Behind(between, comment, end)
    ensures ParseLine(lead + (NameOf(id, instance, bracketed) + [sep] + gap + value + between + comment + end))
            == Stored(Entry(id, instance, UpTo(value, 512), UpTo(comment, 128)))
  {
    hide ParseLine;
    var s := NameOf(id, instance, bracketed) + [sep] + gap + value + between + comment + end;
    NameReads(id, instance, bracketed);
    assert s[0] in s && s[0] == NameOf(id, instance, bracketed)[0];
    LeadingBlanks(lead, s);
    EntryReads(s, id, instance, bracketed, sep, gap, value, between, comment, end);
  }

  /** A line without a value reads as an entry with an empty one. */
  lemma NoValue(id: string, instance: string, bracketed: bool, sep: char, gap: string)
    requires Readable(id, instance, bracketed) && sep in "= \t" && (forall c :: c in gap ==> c in " \t\n")
    ensures ParseLine(NameOf(id, instance, bracketed) + [sep] + gap) == Stored(Entry(id, instance, "", ""))
  {
    hide Strtok, ParseLine, NameOf, Readable;
    var n, s := |NameOf(id, instance, bracketed)|, NameOf(id, instance, bracketed) + [sep] + gap;
    NameFirst(s, id, instance, bracketed, sep, gap);
    assert forall k :: n < k < |s| ==> s[k] == gap[k - n - 1] && gap[k - n - 1] in gap;
    BlanksOnly(s, n + 1);
  }

  lemma BlanksOnly(s: string, from: nat)
    requires from <= |s| && forall k :: from <= k < |s| ==> s[k] in " \t\n"
    ensures Strtok(s, from, VALUE_ENDS) == None
  {
    SkipIs(s, from, VALUE_ENDS, |s|);
  }

  // ----- two lines that do not read as they look

  /** With a blank before it the equals sign is read as the value. */
  lemma BlankBeforeEquals()
    ensures ParseLine("PORT = 4242\n") == Stored(Entry("PORT", "", "=", ""))
  {
    assert "PORT = 4242\n" == NameOf("PORT", "", false) + [' '] + "" + "=" + " 4242" + "" + "\n";
    EntryReads("PORT = 4242\n", "PORT", "", false, ' ', "", "=", " 4242", "", "\n");
  }

  /** Where there is no value, the first word of the comment is read as one. */
  lemma CommentForValue()
    ensures ParseLine("PORT= # old\n") == Stored(Entry("PORT", "", "old", ""))
  {
    hide Strtok, Skip, Find, Named, CommentIn;
    var s := "PORT= # old\n";
    NameReads("PORT", "", false);
    SkipIs(s, 0, SPACES, 0);
    assert s[..4] == "PORT";
    StrtokHere(s, 0, ID_ENDS, "PORT");
    assert s[8..11] == "old";
    StrtokBehind(s, 5, 8, VALUE_ENDS, "old");
    NoToken(s, 12);
    NoComment(s, 12);
  }

  // ----- delimiters in front

  /** Equals signs and blanks in front of the name are passed over. */
  lemma LeadingDelimiters(d: string, s: string)
    requires d != "" && d[0] == '=' && forall c :: c in d ==> c in "= \t"
    requires s != "" && s[0] !in "=# \t\n\U{000B}\U{000C}\r"
    ensures ParseLine(d + s) == ParseLine(s)
  {
    hide Strtok, Skip, CommentIn, Named, ParseEntry;
    assert (d + s)[0] == '=';
    SkipIs(d + s, 0, SPACES, 0);
    SkipIs(s, 0, SPACES, 0);
    PassedOver(d, s);
  }

  lemma PassedOver(d: string, s: string)
    requires (forall c :: c in d ==> c in ID_ENDS) && s != "" && s[0] !in ID_ENDS
    ensures ParseEntry(d + s, 0) == ParseEntry(s, 0)
  {
    hide ParseEntry, Skip, Find;
    assert forall k :: 0 <= k < |d| ==> (d + s)[k] == d[k] && d[k] in d;
    SkipIs(d + s, 0, ID_ENDS, |d|);
    SkipIs(d + s, |d|, ID_ENDS, |d|);
    SameStart(d + s, |d|);
    EntryShift(d, s, 0);
  }

  lemma SameStart(s: string, from: nat)
    requires from <= |s| && Skip(s, 0, ID_ENDS) == Skip(s, from, ID_ENDS)
    ensures ParseEntry(s, 0) == ParseEntry(s, from)
  {
    hide Skip, Find, CommentIn, Named;
  }

  /** A line of delimiters alone is skipped. */
  lemma NoName(d: string)
    requires d != "" && d[0] == '=' && forall c :: c in d ==> c in "= \t"
    ensures ParseLine(d) == Skipped
  {
    hide Find, CommentIn, Named;
    assert forall k :: 0 <= k < |d| ==> d[k] in d;
    SkipIs(d, 0, SPACES, 0);
    SkipIs(d, 0, ID_ENDS, |d|);
  }

  // ----- lines that are skipped

  /** The name a line begins with is refused exactly if it is longer than 64 characters, or if there is an opening
      bracket and no closing one, or the part before it is longer than 64 characters, or that between them longer than
      32. */
  lemma RefusedName(name: string, rest: string)
    requires name != "" && Free(name, "= \t") && name[0] !in "# \t\n\U{000B}\U{000C}\r"
    requires rest == "" || rest[0] in "= \t"
    ensures ParseLine(name + rest) == Skipped <==>
            if '[' !in name then |name| > 64
            else ']' !in name || First(name, '[') > 64 || First(name, ']') - First(name, '[') - 1 > 32
  {
    hide Named, ParseLine, Free, First;
    NameDecides(name, rest);
    NameRefused(name);
  }

  lemma NameDecides(name: string, rest: string)
    requires name != "" && Free(name, "= \t") && name[0] !in "# \t\n\U{000B}\U{000C}\r"
    requires rest == "" || rest[0] in "= \t"
    ensures ParseLine(name + rest) == Skipped <==> Named(name) == BadName
  {
    hide Strtok, Skip, CommentIn, Named, Free;
    var s := name + rest;
    assert s[..|name|] == name && s[0] == name[0];
    SkipIs(s, 0, SPACES, 0);
    StrtokHere(s, 0, ID_ENDS, name);
  }

  lemma NameRefused(name: string)
    ensures Named(name) == BadName <==>
            if '[' !in name then |name| > 64
            else ']' !in name || First(name, '[') > 64 || First(name, ']') - First(name, '[') - 1 > 32
  {
    hide Find;
    FirstIs(name, '[', Find(name, 0, "["));
    FirstIs(name, ']', Find(name, 0, "]"));
  }

  /** The place of the first c, or the length. */
  function First(s: string, c: char): (i: nat)
    ensures i <= |s| && (i < |s| <==> c in s)
    ensures i < |s| ==> s[i] == c
    ensures forall k :: 0 <= k < i ==> s[k] != c
  {
    if s == "" then 0 else if s[0] == c then 0 else 1 + First(s[1..], c)
  }

  lemma FirstIs(s: string, c: char, i: nat)
    requires i <= |s| && (i < |s| ==> s[i] == c) && forall k :: 0 <= k < i ==> s[k] != c
    ensures First(s, c) == i
  {
  }
}
