/** Which entries of a configuration file come back from the line they are printed as. */
module ConfigEntries {
  import opened Options
  import opened ConfigText

  // ----- what good entries print

  lemma PrintFixed(e: Record, beyond: string)
    requires e.Entry? && |e.value| < MAX_LINE_LENGTH && |e.comment| < MAX_COMMENT_LENGTH
    ensures Print(e, beyond) == Print(e, "") && NameText(e, beyond) == NameText(e, "")
    ensures ValueText(e, beyond) == e.value && CommentText(e, beyond) == e.comment
  {
  }

  /** The printed name of an entry with an instance, field by field. */
  lemma NameFields(e: Record)
    requires e.Entry? && |e.value| < MAX_LINE_LENGTH
    ensures var i := if |e.instance| < MAX_INSTANCE_LENGTH then e.instance else e.instance + e.value;
            && InstanceText(e, "") == i
            && IdText(e, "") == (if |e.id| < MAX_ID_LENGTH then e.id else e.id + i)
            && NameText(e, "") == if e.instance != "" then IdText(e, "") + "[" + i + "]" else e.id
  {
  }

  /** The printed name, as far as it is read, and what runs on behind it. */
  lemma NameShape(e: Record) returns (more: string)
    requires e.Entry? && GoodName(e) && |e.value| < MAX_LINE_LENGTH && Free(e.value, VALUE_ENDS)
    ensures e.instance == "" ==> NameText(e, "") == e.id
    ensures e.instance != "" ==> NameText(e, "") == e.id + "[" + e.instance + "]" + more
    ensures Free(NameText(e, ""), ID_ENDS)
  {
    hide NameText, IdText, InstanceText, Free, Harmless;
    NameFields(e);
    more := "";
    if e.instance != "" && !Terminated(e) {
      if |e.id| < MAX_ID_LENGTH {
        more := ShortIdShape(e.id, e.instance, e.value, e);
      } else {
        more := FullIdShape(e.id, e.instance, e.value, e);
      }
    } else if e.instance != "" {
      assert e.id + "[" + e.instance + "]" + "" == e.id + "[" + e.instance + "]";
      assert e.value == "" ==> e.instance + e.value == e.instance;
    }
    if e.instance != "" {
      NameFree(e, more);
    } else {
      IdFree(e);
    }
  }

  lemma IdFree(e: Record)
    requires e.Entry? && GoodName(e)
    ensures Free(e.id, ID_ENDS)
  {
  }

  lemma ShortIdShape(id: string, instance: string, value: string, e: Record) returns (more: string)
    requires e.Entry? && Harmless(e) && |id| < MAX_ID_LENGTH
    requires e.id == id && e.instance == instance && e.value == value
    ensures id + "[" + (instance + value) + "]" == id + "[" + instance + "]" + more
    ensures |instance| == MAX_INSTANCE_LENGTH && '=' !in value
    ensures forall c :: c in more ==> c in value || c in instance || c == '[' || c == ']'
  {
    more := value[1..] + "]";
    assert value == "]" + value[1..];
  }

  lemma FullIdShape(id: string, instance: string, value: string, e: Record) returns (more: string)
    requires e.Entry? && Harmless(e) && |id| >= MAX_ID_LENGTH
    requires e.id == id && e.instance == instance && e.value == value
    ensures id + (instance + value) + "[" + (instance + value) + "]" == id + "[" + instance + "]" + more
    ensures |instance| == MAX_INSTANCE_LENGTH && '=' !in value
    ensures forall c :: c in more ==> c in value || c in instance || c == '[' || c == ']'
  {
    var tail := value[2..];
    more := tail + "[" + (instance + value) + "]";
    assert value == "[" + "]" + tail;
    BracketsRotate(instance);
    assert id + (instance + value) == id + (instance + "[") + "]" + tail;
    assert id + ("[" + instance) + "]" + tail + "[" + (instance + value) + "]" == id + "[" + instance + "]" + more;
  }

  lemma BracketsRotate(s: string)
    requires forall c :: c in s ==> c == '['
    ensures s + "[" == "[" + s
  {
    var l, r := s + "[", "[" + s;
    assert forall k :: 0 <= k < |s| ==> s[k] in s;
    assert forall k :: 0 <= k < |l| ==> l[k] == '[' && r[k] == '[';
  }

  lemma NameFree(e: Record, more: string)
    requires e.Entry? && Free(e.id, "= \t[") && Free(e.instance, "= \t]")
    requires forall c :: c in more ==> c in e.value || c in e.instance || c == '[' || c == ']'
    requires more != "" ==> '=' !in e.value
    requires Free(e.value, VALUE_ENDS)
    ensures Free(e.id + "[" + e.instance + "]" + more, ID_ENDS)
  {
  }

  // ----- a good entry comes back

  lemma NamedComesBack(e: Record)
    requires e.Entry? && GoodName(e) && |e.value| < MAX_LINE_LENGTH && Free(e.value, VALUE_ENDS)
    ensures Named(NameText(e, "")) == Name(e.id, e.instance)
  {
    hide NameText;
    var more := NameShape(e);
    if e.instance != "" {
      BracketsFound(e.id, e.instance, more);
    } else {
      assert forall k :: 0 <= k < |e.id| ==> e.id[k] in e.id;
      FindIs(e.id, 0, "[", |e.id|);
    }
  }

  lemma BracketsFound(id: string, instance: string, more: string)
    requires '[' !in id && ']' !in id && ']' !in instance
    ensures var n := id + "[" + instance + "]" + more;
            && Find(n, 0, "[") == |id| && Find(n, 0, "]") == |id| + 1 + |instance|
            && n[..|id|] == id && n[|id| + 1..|id| + 1 + |instance|] == instance
  {
    hide Find;
    var n := id + "[" + instance + "]" + more;
    var close := |id| + 1 + |instance|;
    assert forall k :: 0 <= k < |id| ==> n[k] == id[k] && n[k] in id;
    FindIs(n, 0, "[", |id|);
    forall k | 0 <= k < close
      ensures n[k] !in "]"
    {
      if k > |id| {
        assert n[k] == instance[k - |id| - 1];
      }
    }
    FindIs(n, 0, "]", close);
  }

  /** Reading a line that starts with a name and an equals sign. */
  lemma NameRead(n: string, rest: string)
    requires n != "" && n[0] != '#' && n[0] !in SPACES && Free(n, ID_ENDS)
    ensures var s := n + "=" + rest;
            && Skip(s, 0, SPACES) == 0 && s[0] != '#'
            && Strtok(s, 0, ID_ENDS) == Some(Token(n, |n| + 1))
            && s[|n| + 1..] == rest
  {
    hide Find, Skip, Strtok;
    var s := n + "=" + rest;
    assert s[0] == n[0] && s[0..|n|] == n;
    SkipIs(s, 0, SPACES, 0);
    StrtokHere(s, 0, ID_ENDS, n);
  }

  lemma ValueRead(s: string, from: nat, value: string, delimiter: char, rest: string)
    requires from <= |s| && s[from..] == value + [delimiter] + rest
    requires value != "" && Free(value, VALUE_ENDS) && delimiter in VALUE_ENDS
    ensures Strtok(s, from, VALUE_ENDS) == Some(Token(value, from + |value| + 1))
    ensures from + |value| + 1 <= |s| && s[from + |value| + 1..] == rest
  {
    hide Find, Skip, Strtok;
    assert s[from..from + |value|] == s[from..][..|value|] == value;
    assert s[from + |value|] == s[from..][|value|] == delimiter;
    StrtokHere(s, from, VALUE_ENDS, value);
  }

  lemma CommentRead(s: string, from: nat, comment: string)
    requires from <= |s| && s[from..] == "\t" + comment + "\n"
    requires comment != "" && comment[0] == '#' && Free(comment, LINE_ENDS) && |comment| <= MAX_COMMENT_LENGTH
    ensures CommentIn(s, from) == comment
  {
    hide Find, Skip, Strtok;
    var t := "\t" + comment;
    assert s[from..from + |t|] == s[from..][..|t|] == t;
    assert s[from + |t|] == s[from..][|t|] == '\n';
    TabbedFree(comment);
    StrtokHere(s, from, LINE_ENDS, t);
    FindIs(t, 0, "#", 1);
    assert t[1..] == comment;
  }

  /** Only the end of the line is left. */
  lemma NothingRead(s: string, from: nat)
    requires from <= |s| && (s[from..] == "\n" || s[from..] == "")
    ensures Strtok(s, from, VALUE_ENDS) == None && CommentIn(s, from) == ""
  {
    assert from < |s| ==> s[from] == s[from..][0] == '\n';
    SkipIs(s, from, VALUE_ENDS, |s|);
    SkipIs(s, from, LINE_ENDS, |s|);
  }

  lemma TabbedFree(s: string)
    requires Free(s, LINE_ENDS)
    ensures Free("\t" + s, LINE_ENDS)
  {
  }

  lemma NameStart(e: Record)
    requires e.Entry? && GoodName(e) && |e.value| < MAX_LINE_LENGTH && Free(e.value, VALUE_ENDS)
    ensures var n := NameText(e, ""); n != "" && n[0] != '#' && n[0] !in SPACES
  {
    var more := NameShape(e);
  }

  lemma ValueFits(e: Record)
    requires e.Entry? && |Print(e, "")| < MAX_LINE_LENGTH
    ensures |e.value| < MAX_LINE_LENGTH
  {
  }

  lemma EntryRead(e: Record)
    requires e.Entry? && GoodEntry(e)
    ensures ParseLine(Print(e, "")) == Stored(e)
  {
    hide Find, Skip, Strtok, Named, GoodName, NameText, CommentIn;
    ValueFits(e);
    PrintFixed(e, "");
    var s, n := Print(e, ""), NameText(e, "");
    NamedComesBack(e);
    NameStart(e);
    var more := NameShape(e);
    if e.value == "" {
      NameRead(n, "\n");
      assert s == n + "=" + "\n";
      NothingRead(s, |n| + 1);
    } else if e.comment == "" {
      NameRead(n, e.value + "\n");
      assert s == n + "=" + (e.value + "\n");
      ValueRead(s, |n| + 1, e.value, '\n', "");
      NothingRead(s, |n| + 1 + |e.value| + 1);
    } else {
      var rest := "\t" + e.comment + "\n";
      NameRead(n, e.value + ['\t'] + rest);
      assert s == n + "=" + (e.value + ['\t'] + rest);
      ValueRead(s, |n| + 1, e.value, '\t', rest);
      CommentRead(s, |n| + 1 + |e.value| + 1, e.comment);
    }
  }

  lemma PrintIsLine(e: Record)
    requires e.Entry? && GoodEntry(e)
    ensures IsLine(Print(e, ""))
  {
    hide GoodName, NameText;
    ValueFits(e);
    PrintFixed(e, "");
    var n := NameText(e, "");
    NameOneLine(e);
    var body := if e.comment != "" then n + "=" + e.value + "\t\t" + e.comment else n + "=" + e.value;
    assert Print(e, "") == body + "\n" && Print(e, "")[..|body|] == body;
  }

  lemma NameOneLine(e: Record)
    requires e.Entry? && OneLine(e) && |e.value| < MAX_LINE_LENGTH
    ensures '\n' !in NameText(e, "")
  {
  }

  lemma GoodComesBack(e: Record)
    requires e.Entry? && GoodEntry(e)
    ensures ComesBack(e)
  {
    hide GoodEntry, ParseLine, Print, IsLine;
    EntryRead(e);
    PrintIsLine(e);
    GoodFits(e);
    forall beyond
      ensures IsLine(Print(e, beyond)) && ParseLine(Print(e, beyond)) == Stored(e)
    {
      PrintFixed(e, beyond);
    }
  }

  lemma GoodFits(e: Record)
    requires e.Entry? && GoodEntry(e)
    ensures |e.value| < MAX_LINE_LENGTH && |e.comment| < MAX_COMMENT_LENGTH
  {
    ValueFits(e);
  }

  // ----- and no other does

  /** The length of the token that an entry's name was read from, at least. */
  function NameLength(e: Record): nat
    requires e.Entry?
  {
    if e.instance != "" || e.id == "" then |e.id| + |e.instance| + 2 else |e.id|
  }

  function Size(s: string): nat { if s == "" then 0 else |s| + 1 }

  /** What is read fits into the line behind the place it was read from, each part with its delimiter. */
  lemma EntryMeans(s: string, from: nat, e: Record)
    requires from <= |s| && IsLine(s) && e.Entry? && ParseEntry(s, from) == Stored(e)
    ensures Free(e.id, "= \t[") && |e.id| <= MAX_ID_LENGTH && Free(e.instance, "= \t]")
            && |e.instance| <= MAX_INSTANCE_LENGTH
    ensures e.instance != "" ==> ']' !in e.id
    ensures Free(e.value, VALUE_ENDS) && (e.value == "" ==> e.comment == "")
    ensures Free(e.comment, LINE_ENDS) && |e.comment| <= MAX_COMMENT_LENGTH && (e.comment != "" ==> e.comment[0] == '#')
    ensures var b := Skip(s, from, ID_ENDS);
            && b < |s| && s[b] == (if e.id != "" then e.id[0] else '[')
            && b + NameLength(e) + (if e.value == "" then 0 else 1) + Size(e.value) + Size(e.comment) <= |s|
    ensures Strtok(s, from, ID_ENDS).Some?
    ensures var first := Strtok(s, from, ID_ENDS).value;
            && Named(first.text) == Name(e.id, e.instance)
            && var second := Strtok(s, first.next, VALUE_ENDS);
               if second.None? then e.value == "" else second.value.text == e.value
  {
    hide Skip, Find, Strtok, Named, CommentIn;
    StrtokPlace(s, from, ID_ENDS);
    var first := Strtok(s, from, ID_ENDS).value;
    StrtokSplits(s, from, ID_ENDS);
    NamedMeans(first.text, e.id, e.instance);
    if Strtok(s, first.next, VALUE_ENDS).Some? {
      StrtokPlace(s, first.next, VALUE_ENDS);
      StrtokSplits(s, first.next, VALUE_ENDS);
      CommentMeans(s, Strtok(s, first.next, VALUE_ENDS).value.next);
    }
  }

  /** Where a printed entry's name ends. */
  lemma PrintParts(e: Record)
    requires e.Entry? && |e.value| < MAX_LINE_LENGTH && |e.comment| < MAX_COMMENT_LENGTH
    ensures var s, n := Print(e, ""), NameText(e, "");
            && |s| == |n| + 2 + |e.value| + (if e.comment == "" then 0 else |e.comment| + 2)
            && s[|s| - 1] == '\n' && s[|n|] == '=' && s[..|n|] == n && s[|n| + 1..|n| + 1 + |e.value|] == e.value
            && (e.value == "" && e.comment == "" ==> s == n + "=\n" && s[|n| + 1] == '\n')
  {
    hide NameText;
    PrintFixed(e, "");
  }

  /** A value that is looked for too early comes out too long. */
  lemma ValueTooLong(s: string, n: string, next: nat, v: string)
    requires |n| + 1 + |v| <= |s| && s[..|n|] == n && s[|n|] == '=' && s[|n| + 1..|n| + 1 + |v|] == v
    requires next <= |n| && Free(n[next..], VALUE_ENDS) && Free(v, VALUE_ENDS)
    ensures Strtok(s, next, VALUE_ENDS).Some? && |Strtok(s, next, VALUE_ENDS).value.text| > |v|
  {
    hide Strtok;
    var t := n[next..] + "=" + v;
    assert s[next..next + |t|] == t by {
      assert s[next..|n|] == s[..|n|][next..];
    }
    StrtokAtLeast(s, next, VALUE_ENDS, t);
  }

  /** A full identifier runs on; for the name to be read right all the same, the instance must be opening brackets
      only, and what comes next must close it one character late. */
  lemma FullIdForced(id: string, instance: string, w: string)
    requires instance != "" && ']' !in instance && Named(id + instance + w) == Name(id, instance)
    ensures |w| >= 2 && w[0] == '[' && w[1] == ']' && forall c :: c in instance ==> c == '['
  {
    hide Named;
    var token, k, l := id + instance + w, |id|, |instance|;
    NamedAt(token, id, instance);
    assert token[k..] == instance + w;
    assert forall i :: 0 <= i < l ==> token[k + i] == instance[i];
    assert token[k + 1 + l] == w[1] && token[k + l] == w[0];
    forall i | 0 <= i < l
      ensures instance[i] == token[k + 1 + i]
    {
      assert token[k + 1..k + 1 + l][i] == token[k + 1 + i];
    }
    forall i | 0 < i < l
      ensures instance[i - 1] == instance[i]
    {
      assert instance[i] == token[k + i] && instance[i - 1] == token[k + 1 + (i - 1)];
    }
    assert instance[0] == token[k] == '[';
    AllAlike(instance);
    assert instance[l - 1] == token[k + l];
  }

  lemma {:induction false} AllAlike(s: string)
    requires s != "" && s[0] == '['
    requires forall i :: 0 < i < |s| ==> s[i - 1] == s[i]
    ensures s[|s| - 1] == '[' && forall c :: c in s ==> c == '['
    decreases |s|
  {
    if |s| > 1 {
      var t := s[..|s| - 1];
      AllAlike(t);
      assert s[|s| - 2] == t[|t| - 1];
      assert s == t + [s[|s| - 1]];
    }
  }

  /** A full instance runs on; what comes next must close it at once. */
  lemma FullInstanceForced(id: string, instance: string, w: string)
    requires instance != "" && Named(id + "[" + instance + w) == Name(id, instance)
    ensures w != "" && w[0] == ']'
  {
    hide Named;
    var token := id + "[" + instance + w;
    NamedAt(token, id, instance);
  }

  /** A printed entry and what reading its line found. */
  ghost predicate ReadBack(e: Record, s: string, p: nat) {
    && e.Entry? && OneLine(e) && |e.value| < MAX_LINE_LENGTH && |e.comment| < MAX_COMMENT_LENGTH
    && s == Print(e, "") && IsLine(s) && p == Skip(s, 0, SPACES) && p < |s| && s[p] != '#'
    && ParseEntry(s, p) == Stored(e)
  }

  /** Where the first equals sign of a printed name stands, if there is one: in the value that the instance ran on
      into. */
  lemma NameParts(e: Record)
    requires e.Entry? && |e.value| < MAX_LINE_LENGTH && '=' !in e.id && '=' !in e.instance && '=' in NameText(e, "")
    ensures |e.instance| >= MAX_INSTANCE_LENGTH && '=' in e.value
    ensures var l, q := |e.id| + |e.instance|, Find(e.value, 0, "=");
            && q < |e.value|
            && if |e.id| < MAX_ID_LENGTH
               then NameText(e, "") == e.id + "[" + e.instance + e.value + "]"
                 && Find(NameText(e, ""), 0, "=") == l + 1 + q
               else NameText(e, "") == e.id + e.instance + e.value + "[" + e.instance + e.value + "]"
                    && Find(NameText(e, ""), 0, "=") == l + q
  {
    hide Find, NameText, IdText, InstanceText;
    NameFields(e);
    RunOn(e);
    EqualsFound(e.value);
    if |e.id| < MAX_ID_LENGTH {
      ShortJoin(e.id, e.instance, e.value);
    } else {
      FullJoin(e.id, e.instance, e.value);
    }
  }

  lemma RunOn(e: Record)
    requires e.Entry? && |e.value| < MAX_LINE_LENGTH && '=' !in e.id && '=' !in e.instance && '=' in NameText(e, "")
    ensures |e.instance| >= MAX_INSTANCE_LENGTH && '=' in e.value
  {
    NameFields(e);
  }

  lemma Regroup(a: string, b: string, c: string, d: string)
    ensures a + (b + c) + d == a + b + c + d
  {
  }

  lemma ShortJoin(id: string, instance: string, v: string)
    requires '=' !in id && '=' !in instance && Find(v, 0, "=") < |v|
    ensures id + "[" + (instance + v) + "]" == id + "[" + instance + v + "]"
    ensures Find(id + "[" + instance + v + "]", 0, "=") == |id| + |instance| + 1 + Find(v, 0, "=")
  {
    hide Find;
    var a := id + "[";
    Regroup(a, instance, v, "]");
    FindBehind(a + instance, v, "]");
  }

  lemma FullJoin(id: string, instance: string, v: string)
    requires '=' !in id && '=' !in instance && Find(v, 0, "=") < |v|
    ensures id + (instance + v) + "[" + (instance + v) + "]" == id + instance + v + "[" + instance + v + "]"
    ensures Find(id + instance + v + "[" + instance + v + "]", 0, "=") == |id| + |instance| + Find(v, 0, "=")
  {
    hide Find;
    var a := id + instance;
    Regroup(id, instance, v, "[");
    Regroup(a + v + "[", instance, v, "]");
    FindBehind(a, v, "[" + instance + v + "]");
    RegroupTail(a + v, "[", instance, v, "]");
  }

  lemma RegroupTail(a: string, b: string, c: string, d: string, e: string)
    ensures a + (b + c + d + e) == a + b + c + d + e
  {
  }

  lemma EqualsFound(v: string)
    requires '=' in v
    ensures Find(v, 0, "=") < |v|
  {
    assert Find(v, 0, "=") == |v| ==> forall c :: c in v ==> c !in "=";
  }

  lemma FindBehind(a: string, v: string, rest: string)
    requires '=' !in a && Find(v, 0, "=") < |v|
    ensures Find(a + v + rest, 0, "=") == |a| + Find(v, 0, "=")
  {
    hide Find;
    var s := a + v + rest;
    assert forall k :: 0 <= k < |a| ==> s[k] == a[k] && a[k] in a;
    assert forall k :: 0 <= k < |v| ==> s[|a| + k] == v[k];
    FindIs(s, 0, "=", |a| + Find(v, 0, "="));
  }

  /** Reading a name that begins well finds its characters up to the first equals sign. */
  lemma TokenFromStart(s: string, f: nat)
    requires f < |s| && f > 0 && s[f] == '=' && Free(s[..f], ID_ENDS)
    ensures Strtok(s, 0, ID_ENDS) == Some(Token(s[..f], f + 1))
  {
    StrtokHere(s, 0, ID_ENDS, s[..f]);
  }

  lemma TailFree(v: string, q: nat, rest: string)
    requires q < |v| && Free(v, VALUE_ENDS) && Free(rest, VALUE_ENDS)
    ensures Free(v[q + 1..] + rest, VALUE_ENDS)
  {
  }

  lemma PrefixFree(id: string, instance: string, v: string)
    requires Free(id, "= \t[") && Free(instance, "= \t]") && Free(v, VALUE_ENDS)
    ensures var u := v[..Find(v, 0, "=")];
            && Free(id + instance + u, ID_ENDS) && Free(id + "[" + instance + u, ID_ENDS)
  {
    var u := v[..Find(v, 0, "=")];
    assert forall c :: c in u ==> c in v && c !in "=";
  }

  lemma BracketsFree(instance: string, v: string)
    requires Free(instance, VALUE_ENDS) && Free(v, VALUE_ENDS)
    ensures Free("[" + instance + v + "]", VALUE_ENDS)
  {
  }

  lemma BracketsOnly(instance: string)
    requires forall c :: c in instance ==> c == '['
    ensures Free(instance, VALUE_ENDS)
  {
  }

  /** A printed name that begins well and is read back contains no equals sign. */
  lemma NoEqualsBegun(e: Record, s: string)
    requires ReadBack(e, s, 0) && Skip(s, 0, ID_ENDS) == 0
    ensures '=' !in NameText(e, "")
  {
    hide Skip, Find, Strtok, Named, NameText, Print, ParseEntry, IsLine;
    if '=' in NameText(e, "") {
      EntryMeans(s, 0, e);
      PrintParts(e);
      NameParts(e);
      var n, f := NameText(e, ""), Find(NameText(e, ""), 0, "=");
      EqualsFound(n);
      assert s[f] == s[..|n|][f] == n[f] && s[..f] == s[..|n|][..f] == n[..f];
      if |e.id| < MAX_ID_LENGTH {
        ShortIdTooLong(e, s, n, f);
      } else {
        FullIdTooLong(e, s, n, f);
      }
    }
  }

  /** What reading finds when the name is cut at an equals sign inside. */
  ghost predicate CutAt(e: Record, s: string, n: string, f: nat) {
    && e.Entry? && |n| + 1 + |e.value| <= |s| && s[..|n|] == n && s[|n|] == '='
    && s[|n| + 1..|n| + 1 + |e.value|] == e.value
    && Free(e.id, "= \t[") && Free(e.instance, "= \t]") && Free(e.value, VALUE_ENDS) && ']' !in e.instance
    && f < |n| && s[f] == '=' && e.instance != "" && Find(e.value, 0, "=") < |e.value|
  }

  lemma ShortIdTooLong(e: Record, s: string, n: string, f: nat)
    requires CutAt(e, s, n, f)
    requires n == e.id + "[" + e.instance + e.value + "]" && f == |e.id| + |e.instance| + 1 + Find(e.value, 0, "=")
    ensures Strtok(s, 0, ID_ENDS).Some?
    ensures var next := Strtok(s, 0, ID_ENDS).value.next;
            Strtok(s, next, VALUE_ENDS).Some? && |Strtok(s, next, VALUE_ENDS).value.text| > |e.value|
  {
    hide Skip, Find, Strtok;
    var v, q := e.value, Find(e.value, 0, "=");
    PrefixFree(e.id, e.instance, v);
    assert s[..f] == s[..|n|][..f] == e.id + "[" + e.instance + v[..q];
    TokenFromStart(s, f);
    assert n[f + 1..] == v[q + 1..] + "]";
    TailFree(v, q, "]");
    ValueTooLong(s, n, f + 1, v);
  }

  lemma FullIdTooLong(e: Record, s: string, n: string, f: nat)
    requires CutAt(e, s, n, f)
    requires n == e.id + e.instance + e.value + "[" + e.instance + e.value + "]"
    requires f == |e.id| + |e.instance| + Find(e.value, 0, "=")
    requires Strtok(s, 0, ID_ENDS).Some? ==> Named(Strtok(s, 0, ID_ENDS).value.text) == Name(e.id, e.instance)
    ensures Strtok(s, 0, ID_ENDS).Some?
    ensures var next := Strtok(s, 0, ID_ENDS).value.next;
            Strtok(s, next, VALUE_ENDS).Some? && |Strtok(s, next, VALUE_ENDS).value.text| > |e.value|
  {
    hide Skip, Find, Strtok, Named;
    var v, q := e.value, Find(e.value, 0, "=");
    PrefixFree(e.id, e.instance, v);
    assert s[..f] == s[..|n|][..f] == e.id + e.instance + v[..q];
    TokenFromStart(s, f);
    FullIdForced(e.id, e.instance, v[..q]);
    BracketsOnly(e.instance);
    BracketsFree(e.instance, v);
    assert n[f + 1..] == v[q + 1..] + ("[" + e.instance + v + "]");
    TailFree(v, q, "[" + e.instance + v + "]");
    ValueTooLong(s, n, f + 1, v);
  }

  /** A printed name that begins with spaces, read from its first equals sign. */
  lemma NoEqualsSpaced(e: Record, s: string, p: nat)
    requires ReadBack(e, s, p) && s[p] == '='
    ensures '=' !in NameText(e, "")
  {
    hide Skip, Find, Strtok, Named, NameText, Print, ParseEntry, IsLine, Free;
    EntryMeans(s, p, e);
    PrintParts(e);
    if '=' in NameText(e, "") {
      SpacedRunOn(e, s, p);
    }
  }

  lemma SpacedRunOn(e: Record, s: string, p: nat)
    requires e.Entry? && |e.value| < MAX_LINE_LENGTH && '=' in NameText(e, "")
    requires var n := NameText(e, "");
             && |n| + 1 + |e.value| <= |s| && s[..|n|] == n && s[|n|] == '='
             && s[|n| + 1..|n| + 1 + |e.value|] == e.value
    requires Free(e.id, "= \t[") && Free(e.instance, "= \t]") && Free(e.value, VALUE_ENDS)
    requires Free(e.id, LINE_ENDS) && Free(e.instance, LINE_ENDS)
    requires p == Skip(s, 0, SPACES) && p < |s| && s[p] == '=' && Strtok(s, p, ID_ENDS).Some?
    ensures var next := Strtok(s, p, ID_ENDS).value.next;
            Strtok(s, next, VALUE_ENDS).Some? && |Strtok(s, next, VALUE_ENDS).value.text| > |e.value|
  {
    hide Skip, Find, Strtok, NameText, Free;
    NoEqualsIn(e);
    NameParts(e);
    var n, f := NameText(e, ""), Find(NameText(e, ""), 0, "=");
    EqualsFound(n);
    assert s[f] == s[..|n|][f] == n[f];
    FirstEquals(s, n, p, f);
    SpacedIdFull(e, n, p);
    SpacedTooLong(e, s, n, p);
  }

  lemma NoEqualsIn(e: Record)
    requires e.Entry? && Free(e.id, "= \t[") && Free(e.instance, "= \t]")
    ensures '=' !in e.id && '=' !in e.instance
  {
  }

  /** The spaces before the first equals sign of a line. */
  lemma FirstEquals(s: string, n: string, p: nat, f: nat)
    requires |n| < |s| && s[..|n|] == n && f < |n| && f == Find(n, 0, "=")
    requires p == Skip(s, 0, SPACES) && p < |s| && s[p] == '='
    ensures p == f && forall k :: 0 <= k < f ==> n[k] in SPACES
  {
    hide Skip, Find;
    assert forall k :: 0 <= k < |n| ==> s[k] == n[k];
    assert s[f] in "=" && s[f] !in SPACES;
    assert forall k :: 0 <= k < f ==> s[k] !in "=";
  }

  lemma SpacedIdFull(e: Record, n: string, p: nat)
    requires p <= |n| && forall k :: 0 <= k < p ==> n[k] in SPACES
    requires e.Entry? && |e.id| < p && (|e.id| < MAX_ID_LENGTH ==> n == e.id + "[" + e.instance + e.value + "]")
    ensures |e.id| >= MAX_ID_LENGTH
  {
    var w := e.id + "[" + e.instance + e.value + "]";
    assert w[|e.id|] == '[';
  }

  lemma SpacedTooLong(e: Record, s: string, n: string, p: nat)
    requires e.Entry? && |n| + 1 + |e.value| <= |s| && s[..|n|] == n && s[|n|] == '='
             && s[|n| + 1..|n| + 1 + |e.value|] == e.value
    requires Free(e.id, "= \t[") && Free(e.instance, "= \t]") && Free(e.value, VALUE_ENDS)
    requires Free(e.id, LINE_ENDS) && Free(e.instance, LINE_ENDS)
    requires n == e.id + e.instance + e.value + "[" + e.instance + e.value + "]"
    requires Find(e.value, 0, "=") < |e.value| && p == |e.id| + |e.instance| + Find(e.value, 0, "=")
    requires forall k :: 0 <= k < p ==> n[k] in SPACES
    requires Strtok(s, p, ID_ENDS).Some?
    ensures var next := Strtok(s, p, ID_ENDS).value.next;
            Strtok(s, next, VALUE_ENDS).Some? && |Strtok(s, next, VALUE_ENDS).value.text| > |e.value|
  {
    hide Skip, Find, Strtok;
    var v, q, l := e.value, Find(e.value, 0, "="), |e.id| + |e.instance|;
    var open := l + |v|;
    var again := open + 1 + |e.instance| + q;
    assert n[open] == '[' && n[again] == v[q] && v[q] == '=';
    assert s[open] == s[..|n|][open] && s[again] == s[..|n|][again];
    TokenBefore(s, p, open, again);
    var next := Strtok(s, p, ID_ENDS).value.next;
    SpacesFree(e.id, n, 0, p);
    SpacesFree(e.instance, n, |e.id|, p);
    WholeFree(e.id, e.instance, v);
    SuffixFree(n, next);
    ValueTooLong(s, n, next, v);
  }

  /** A token looked for before a bracket ends at the latest at the equals sign behind it. */
  lemma TokenBefore(s: string, p: nat, open: nat, again: nat)
    requires p <= open < again < |s| && s[open] == '[' && s[again] == '=' && Strtok(s, p, ID_ENDS).Some?
    ensures Strtok(s, p, ID_ENDS).value.next <= again + 1
  {
    hide Strtok;
    StrtokPlace(s, p, ID_ENDS);
    StrtokSplits(s, p, ID_ENDS);
    var t, b := Strtok(s, p, ID_ENDS).value, Skip(s, p, ID_ENDS);
    assert b <= open;
    forall k | b <= k < b + |t.text|
      ensures s[k] != '='
    {
      assert s[k] == s[b..b + |t.text|][k - b] && t.text[k - b] in t.text;
    }
  }

  /** Spaces that are none of those a field is free of end no value. */
  lemma SpacesFree(field: string, n: string, at: nat, p: nat)
    requires at + |field| <= p <= |n| && n[at..at + |field|] == field && forall k :: 0 <= k < p ==> n[k] in SPACES
    requires ' ' !in field && '\t' !in field && '\n' !in field
    ensures Free(field, VALUE_ENDS)
  {
    assert forall k :: 0 <= k < |field| ==> field[k] == n[at + k] && field[k] in field;
  }

  lemma WholeFree(id: string, instance: string, v: string)
    requires Free(id, VALUE_ENDS) && Free(instance, VALUE_ENDS) && Free(v, VALUE_ENDS)
    ensures Free(id + instance + v + "[" + instance + v + "]", VALUE_ENDS)
  {
  }

  lemma SuffixFree(n: string, from: nat)
    requires from <= |n| && Free(n, VALUE_ENDS)
    ensures Free(n[from..], VALUE_ENDS)
  {
  }

  // ----- how a name that is read back begins and ends

  lemma NameFirst(e: Record)
    requires e.Entry? && |e.value| < MAX_LINE_LENGTH
    ensures var n := NameText(e, "");
            && (n == "" <==> e.id == "" && e.instance == "")
            && (n != "" ==> n[0] == if e.id != "" then e.id[0] else '[')
            && (e.instance == "" ==> n == e.id) && (e.instance != "" ==> '[' in n)
  {
  }

  lemma NameBegins(e: Record, s: string, p: nat)
    requires ReadBack(e, s, p)
    ensures e.id != "" || e.instance != ""
    ensures e.id != "" ==> e.id[0] != '#' && e.id[0] !in SPACES
  {
    hide Skip, Find, Strtok, Named, NameText, Print, ParseEntry;
    EntryMeans(s, p, e);
    PrintParts(e);
    NameFirst(e);
    assert e.id != "" ==> e.id[0] in e.id;
    var n, b := NameText(e, ""), Skip(s, p, ID_ENDS);
    if n == "" {
      SkippedEquals(s);
    } else {
      assert s[0] == s[..|n|][0] == n[0];
      if e.id != "" && e.id[0] in SPACES {
        SpacedStart(s, p, b);
        NoEqualsSpaced(e, s, p);
        EqualsAfter(s, n, p);
        OnlySpaces(n, s, p);
      } else if e.id != "" && e.id[0] == '#' {
        HashStart(s);
      }
    }
  }

  lemma SkippedEquals(s: string)
    requires s != "" && s[0] == '='
    ensures Skip(s, 0, SPACES) == 0 && Skip(s, 0, ID_ENDS) > 0
  {
  }

  lemma HashStart(s: string)
    requires s != "" && s[0] == '#'
    ensures Skip(s, 0, SPACES) == 0
  {
  }

  /** Read from behind spaces, a token begins there, or behind an equals sign. */
  lemma SpacedStart(s: string, p: nat, b: nat)
    requires p == Skip(s, 0, SPACES) && p < |s| && b == Skip(s, p, ID_ENDS) && b < |s| && s[b] in SPACES
    ensures s[p] == '=' && b > p
  {
    assert s[p] !in SPACES;
  }

  lemma EqualsAfter(s: string, n: string, p: nat)
    requires |n| < |s| && s[..|n|] == n && s[|n|] == '=' && '=' !in n
    requires p == Skip(s, 0, SPACES) && p < |s| && s[p] == '='
    ensures p == |n|
  {
    hide Skip;
    assert forall k :: 0 <= k < |n| ==> s[k] == n[k] && n[k] in n;
    assert s[|n|] !in SPACES;
  }

  lemma OnlySpaces(n: string, s: string, p: nat)
    requires p == |n| < |s| && s[..|n|] == n && p == Skip(s, 0, SPACES)
    ensures '[' !in n
  {
    hide Skip;
    assert forall k :: 0 <= k < |n| ==> s[k] == n[k];
  }

  /** The token read from a line whose name begins well and contains no equals sign is the printed name. */
  lemma WholeNameRead(e: Record, s: string, p: nat)
    requires ReadBack(e, s, p) && '=' !in NameText(e, "") && NameText(e, "") != ""
    requires NameText(e, "")[0] !in SPACES && NameText(e, "")[0] != '='
    ensures p == 0 && Skip(s, 0, ID_ENDS) == 0 && Named(NameText(e, "")) == Name(e.id, e.instance)
  {
    hide Skip, Find, Strtok, Named, NameText, Print, ParseEntry;
    var n := NameText(e, "");
    EntryMeans(s, p, e);
    PrintParts(e);
    assert s[0] == s[..|n|][0] == n[0];
    SkipIs(s, 0, SPACES, 0);
    SkipIs(s, 0, ID_ENDS, 0);
    NameTextFree(e);
    TokenFromStart(s, |n|);
  }

  lemma NameTextFree(e: Record)
    requires e.Entry? && |e.value| < MAX_LINE_LENGTH && '=' !in NameText(e, "")
    requires Free(e.id, "= \t[") && Free(e.instance, "= \t]") && Free(e.value, VALUE_ENDS)
    ensures Free(NameText(e, ""), ID_ENDS)
  {
  }

  /** A name that is read back runs on harmlessly, if at all. */
  lemma NameEnds(e: Record)
    requires e.Entry? && |e.value| < MAX_LINE_LENGTH && '=' !in NameText(e, "")
    requires Named(NameText(e, "")) == Name(e.id, e.instance) && ']' !in e.instance
    requires |e.id| <= MAX_ID_LENGTH && |e.instance| <= MAX_INSTANCE_LENGTH
    ensures Terminated(e) || Harmless(e)
  {
    hide Named, NameText, IdText, InstanceText;
    NameFields(e);
    if e.instance != "" && |e.id| < MAX_ID_LENGTH && |e.instance| == MAX_INSTANCE_LENGTH && e.value != "" {
      RegroupTwo(e.id + "[", e.instance, e.value, "]");
      FullInstanceForced(e.id, e.instance, e.value + "]");
      EqualsInside(e.id + "[" + e.instance, e.value, "]");
    } else if e.instance != "" && |e.id| == MAX_ID_LENGTH {
      FullNameEnds(e.id, e.instance, e.value);
    }
  }

  lemma RegroupTwo(a: string, b: string, c: string, d: string)
    ensures a + (b + c) + d == a + b + (c + d) == a + b + c + d
  {
  }

  lemma EqualsInside(a: string, v: string, b: string)
    requires '=' !in a + v + b
    ensures '=' !in v
  {
    assert forall c :: c in v ==> c in a + v + b;
  }

  lemma FullNameEnds(id: string, instance: string, value: string)
    requires instance != "" && ']' !in instance && |instance| <= MAX_INSTANCE_LENGTH
    requires var i := if |instance| < MAX_INSTANCE_LENGTH then instance else instance + value;
             Named(id + i + "[" + i + "]") == Name(id, instance) && '=' !in id + i + "[" + i + "]"
    ensures |instance| == MAX_INSTANCE_LENGTH && '=' !in value && (forall c :: c in instance ==> c == '[')
    ensures |value| >= 2 && value[0] == '[' && value[1] == ']'
  {
    hide Named;
    if |instance| < MAX_INSTANCE_LENGTH {
      var w := "[" + instance + "]";
      assert id + instance + "[" + instance + "]" == id + instance + w;
      assert w[1] == instance[0] && instance[0] in instance;
      FullIdForced(id, instance, w);
    } else {
      var i := instance + value;
      var w := value + "[" + i + "]";
      assert id + i + "[" + i + "]" == id + instance + w;
      EqualsInside(id + instance, value, "[" + i + "]");
      assert instance[0] in instance;
      assert |value| == 0 ==> w[1] == instance[0];
      assert |value| == 1 ==> w[1] == '[';
      FullIdForced(id, instance, w);
    }
  }

  // ----- exactly the good ones

  /** What every line printed for the entry shows, whatever lies beyond the record. */
  lemma PrintedWhole(e: Record)
    requires e.Entry? && IsLine(Print(e, "")) && IsLine(Print(e, "\n"))
    ensures |e.value| < MAX_LINE_LENGTH && OneLine(e)
    ensures e.comment == "" || |e.comment| < MAX_COMMENT_LENGTH
  {
    ValueFits(e);
    PrintedComment(e);
    PrintedFields(e);
  }

  lemma PrintedComment(e: Record)
    requires e.Entry? && IsLine(Print(e, "\n")) && |e.value| < MAX_LINE_LENGTH
    ensures |e.comment| < MAX_COMMENT_LENGTH
  {
  }

  lemma PrintedFields(e: Record)
    requires e.Entry? && IsLine(Print(e, "")) && |e.value| < MAX_LINE_LENGTH && |e.comment| < MAX_COMMENT_LENGTH
    ensures OneLine(e)
  {
    hide NameText;
    PrintFixed(e, "");
    NameShows(e);
    var s, n := Print(e, ""), NameText(e, "");
    var body := if e.comment != "" then n + "=" + e.value + "\t\t" + e.comment else n + "=" + e.value;
    assert s == body + "\n" && s[..|s| - 1] == body;
    assert forall c :: c in n || c in e.value || c in e.comment ==> c in body;
  }

  lemma NameShows(e: Record)
    requires e.Entry? && |e.value| < MAX_LINE_LENGTH
    ensures forall c :: c in e.id || c in e.instance ==> c in NameText(e, "")
  {
  }

  lemma StartsAtOnce(s: string, n: string)
    requires n != "" && |n| < |s| && s[..|n|] == n && n[0] !in SPACES && n[0] != '='
    ensures Skip(s, 0, SPACES) == 0 && Skip(s, 0, ID_ENDS) == 0
  {
    hide Skip;
    assert s[0] == s[..|n|][0];
    SkipIs(s, 0, SPACES, 0);
    SkipIs(s, 0, ID_ENDS, 0);
  }

  lemma OnlyGoodComesBack(e: Record)
    requires e.Entry? && ComesBack(e)
    ensures GoodEntry(e)
  {
    hide ParseEntry, Skip, NameText, Print, Terminated, Harmless, IsLine;
    PrintedWhole(e);
    PrintedComment(e);
    var s, n, p := Print(e, ""), NameText(e, ""), Skip(Print(e, ""), 0, SPACES);
    LineShort(s);
    assert ReadBack(e, s, p);
    EntryMeans(s, p, e);
    PrintParts(e);
    NameBegins(e, s, p);
    NameFirst(e);
    NoEqualsIn(e);
    assert e.id != "" ==> e.id[0] in e.id;
    StartsAtOnce(s, n);
    NoEqualsBegun(e, s);
    WholeNameRead(e, s, p);
    NameEnds(e);
  }

  lemma LineShort(s: string)
    requires IsLine(s)
    ensures s != "" && |s| < MAX_LINE_LENGTH
  {
  }

  /** An entry comes back from its printed line exactly if it is good. */
  lemma ComesBackIff(e: Record)
    requires e.Entry?
    ensures ComesBack(e) <==> GoodEntry(e)
  {
    hide ComesBack, GoodEntry;
    if GoodEntry(e) {
      GoodComesBack(e);
    }
    if ComesBack(e) {
      OnlyGoodComesBack(e);
    }
  }

  /** An instance of 32 characters is accepted, printed with the value run on behind it, and then the line is
      skipped. */
  lemma FullInstanceIsLost(instance: string)
    requires |instance| == MAX_INSTANCE_LENGTH && Free(instance, "= \t[]\n")
    ensures var e := Entry("A", instance, "v", "");
            && ParseLine("A[" + instance + "]=v\n") == Stored(e)
            && Print(e, "") == "A[" + (instance + "v") + "]=v\n"
            && ParseLine(Print(e, "")) == Skipped
  {
    hide ParseLine, Free;
    InstanceLine(instance);
    FreeToo(instance);
    InstanceLine(instance + "v");
    assert "A[" + (instance + "v") + "]" + "=" + "v" + "\n" == "A[" + (instance + "v") + "]=v\n";
  }

  lemma FreeToo(instance: string)
    requires Free(instance, "= \t[]\n")
    ensures Free(instance + "v", "= \t[]\n")
  {
  }

  lemma InstanceLine(instance: string)
    requires Free(instance, "= \t[]\n")
    ensures ParseLine("A[" + instance + "]=v\n")
         == if |instance| <= MAX_INSTANCE_LENGTH then Stored(Entry("A", instance, "v", "")) else Skipped
  {
    hide Find, Skip, Strtok, CommentIn, Free;
    var n := "A[" + instance + "]";
    LineRead(instance);
    InstanceNamed(instance);
    assert n + "=v\n" == "A[" + instance + "]=v\n";
  }

  lemma InstanceNamed(instance: string)
    requires Free(instance, "= \t[]\n")
    ensures Named("A[" + instance + "]") == if |instance| <= MAX_INSTANCE_LENGTH then Name("A", instance) else BadName
  {
    hide Find;
    BracketsFound("A", instance, "");
    assert "A" + "[" + instance + "]" + "" == "A[" + instance + "]";
  }

  lemma LineRead(instance: string)
    requires Free(instance, "= \t[]\n")
    ensures var n := "A[" + instance + "]";
            var s := n + "=v\n";
            && Skip(s, 0, SPACES) == 0 && s[0] == 'A'
            && Strtok(s, 0, ID_ENDS) == Some(Token(n, |n| + 1))
            && Strtok(s, |n| + 1, VALUE_ENDS) == Some(Token("v", |n| + 3))
            && CommentIn(s, |n| + 3) == ""
  {
    hide Find, Skip, Strtok;
    var n := "A[" + instance + "]";
    var s := n + "=v\n";
    assert s == n + "=" + "v\n";
    NameRead(n, "v\n");
    ValueRead(s, |n| + 1, "v", '\n', "");
    NothingRead(s, |n| + 3);
  }
}
