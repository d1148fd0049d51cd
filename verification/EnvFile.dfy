/** Reading and updating the .env file (src/env.ts). */
module EnvFile {
  import opened Prelude
  import JsText

  // ---- Text -------------------------------------------------------------------------

  predicate IsSpace(c: char) {
    JsText.IsSpace(c as int)
  }

  predicate Trimmed(s: string) {
    s != "" ==> !IsSpace(s[0]) && !IsSpace(s[|s| - 1])
  }

  function Trim(s: string): (r: string)
    ensures Trimmed(r) && |r| <= |s| && (|r| == |s| ==> r == s)
    ensures Trimmed(s) ==> r == s
  {
    if s == "" then s
    else if IsSpace(s[0]) then Trim(s[1..])
    else if IsSpace(s[|s| - 1]) then Trim(s[..|s| - 1])
    else s
  }

  predicate Blank(s: string) {
    forall i :: 0 <= i < |s| ==> IsSpace(s[i])
  }

  /** Trimming leaves the text between the white space. */
  lemma {:induction false} TrimPadded(a: string, t: string, b: string)
    requires Blank(a) && Blank(b) && Trimmed(t)
    ensures Trim(a + t + b) == t
  {
    hide JsText.IsSpace;
    var s := a + t + b;
    if a != "" {
      assert s[0] == a[0] && s[1..] == a[1..] + t + b;
      TrimPadded(a[1..], t, b);
    } else if t == "" {
      assert s == b;
      if b != "" {
        TrimPadded("", "", b[1..]);
        assert "" + "" + b[1..] == s[1..];
      }
    } else if b != "" {
      assert s[|s| - 1] == b[|b| - 1] && s[..|s| - 1] == "" + t + b[..|b| - 1] && s[0] == t[0];
      TrimPadded("", t, b[..|b| - 1]);
    } else {
      assert s == t;
    }
  }

  // The position of the first c, or the length.
  function IndexOf(s: string, c: char): (n: nat)
    ensures n <= |s| && c !in s[..n] && (n < |s| ==> s[n] == c)
  {
    if s == "" || s[0] == c then 0 else 1 + IndexOf(s[1..], c)
  }

  function Split(s: string): (lines: seq<string>)
    ensures lines != [] && forall i :: 0 <= i < |lines| ==> '\n' !in lines[i]
  {
    var n := IndexOf(s, '\n');
    if n == |s| then
      assert s[..n] == s;
      [s]
    else [s[..n]] + Split(s[n + 1..])
  }

  function Join(lines: seq<string>): string {
    if lines == [] then "" else if |lines| == 1 then lines[0] else lines[0] + "\n" + Join(lines[1..])
  }

  lemma {:induction false} JoinSplit(s: string)
    ensures Join(Split(s)) == s
  {
    var n := IndexOf(s, '\n');
    if n < |s| {
      var rest := Split(s[n + 1..]);
      JoinSplit(s[n + 1..]);
      assert Split(s) == [s[..n]] + rest && Split(s)[1..] == rest;
      assert s == s[..n] + "\n" + s[n + 1..];
    } else {
      assert s[..n] == s;
    }
  }

  lemma {:induction false} SplitJoin(lines: seq<string>)
    requires lines != [] && forall i :: 0 <= i < |lines| ==> '\n' !in lines[i]
    ensures Split(Join(lines)) == lines
  {
    var s := Join(lines);
    if |lines| == 1 {
      assert IndexOf(s, '\n') == |s|;
    } else {
      SplitJoin(lines[1..]);
      FirstLine(lines[0], Join(lines[1..]));
    }
  }

  lemma IndexOfAt(prefix: string, c: char, rest: string)
    requires c !in prefix
    ensures IndexOf(prefix + [c] + rest, c) == |prefix|
  {
    var s := prefix + [c] + rest;
    var n := IndexOf(s, c);
    assert forall i :: 0 <= i < |prefix| ==> s[i] == prefix[i] && prefix[i] in prefix;
    assert forall i :: 0 <= i < n ==> s[..n][i] == s[i];
    assert s[|prefix|] == c;
    assert n == |prefix|;
  }

  lemma FirstLine(line: string, rest: string)
    requires '\n' !in line
    ensures Split(line + "\n" + rest) == [line] + Split(rest)
  {
    var s := line + "\n" + rest;
    IndexOfAt(line, '\n', rest);
    assert s[..|line|] == line && s[|line| + 1..] == rest;
  }

  // ---- Assignments ------------------------------------------------------------------------

  datatype Assignment = Assignment(key: string, value: string)

  predicate Quoted(v: string) {
    v != "" && v[0] == v[|v| - 1] && (v[0] == '"' || v[0] == '\'')
  }

  function Unquote(v: string): (r: string)
    ensures |r| <= |v| && (r == v <==> !Quoted(v))
  {
    if !Quoted(v) then v else if |v| == 1 then "" else v[1..|v| - 1]
  }

  function Parse(line: string): Option<Assignment> {
    var t := Trim(line);
    if t == "" || t[0] == '#' then None
    else
      var eq := IndexOf(t, '=');
      if eq == |t| then None else Some(Assignment(Trim(t[..eq]), Unquote(Trim(t[eq + 1..]))))
  }

  predicate Assigns(line: string, key: string) {
    Parse(line).Some? && Parse(line).value.key == key
  }

  function Written(key: string, value: string): string { key + "=" + value }

  predicate Clean(key: string, value: string) {
    && Trimmed(key) && '=' !in key && (key != "" ==> key[0] != '#')
    && Trimmed(value) && !Quoted(value)
  }

  /** A written line reads back as what was written exactly when the key is
      trimmed, has no equals sign and does not start a comment, and the value is
      trimmed and not wrapped in quotes. */
  lemma WrittenLineReadsBack(key: string, value: string)
    ensures Parse(Written(key, value)) == Some(Assignment(key, value)) <==> Clean(key, value)
  {
    if Clean(key, value) {
      CleanReadsBack(key, value);
    } else if Parse(Written(key, value)) == Some(Assignment(key, value)) {
      ReadsBackClean(key, value);
    }
  }

  lemma CleanReadsBack(key: string, value: string)
    requires Clean(key, value)
    ensures Parse(Written(key, value)) == Some(Assignment(key, value))
  {
    var s := Written(key, value);
    IndexOfAt(key, '=', value);
    assert s[|s| - 1] == if value == "" then '=' else value[|value| - 1];
    assert s[0] == if key == "" then '=' else key[0];
    assert s[..|key|] == key && s[|key| + 1..] == value;
  }

  lemma ReadsBackClean(key: string, value: string)
    requires Parse(Written(key, value)) == Some(Assignment(key, value))
    ensures Clean(key, value)
  {
    var s := Written(key, value);
    var t := Trim(s);
    var eq := IndexOf(t, '=');
    assert |t| == |s| && t == s && eq == |key|;
    assert t[..eq] == key && t[eq + 1..] == value;
  }

  // ---- What a line says -------------------------------------------------------------------------

  // A line that assigns, taken apart: key, equals sign and value between white space.
  function Spaced(a: string, key: string, b: string, c: string, value: string, d: string): string {
    a + (key + b + "=" + c + value) + d
  }

  // A key the reader can meet: trimmed, without equals sign, starting no comment.
  predicate Key(key: string) {
    Trimmed(key) && '=' !in key && (key != "" ==> key[0] != '#')
  }

  lemma NoEquals(s: string)
    requires Blank(s)
    ensures '=' !in s && '#' !in s
  {
  }

  // Where the middle of such a line is split.
  lemma MiddleSplits(key: string, b: string, c: string, value: string)
    requires Key(key) && Blank(b) && Blank(c) && Trimmed(value)
    ensures var t := key + b + "=" + c + value;
            && IndexOf(t, '=') == |key + b| < |t| && t[0] != '#'
            && Trim(t[..|key + b|]) == key && Trim(t[|key + b| + 1..]) == value
  {
    hide IsSpace;
    var t := key + b + "=" + c + value;
    NoEquals(b);
    assert t == (key + b) + ['='] + (c + value);
    IndexOfAt(key + b, '=', c + value);
    assert t[..|key + b|] == "" + key + b && t[|key + b| + 1..] == c + value + "";
    TrimPadded("", key, b);
    TrimPadded(c, value, "");
    assert t[0] == if key != "" then key[0] else if b != "" then b[0] else '=';
    assert key == "" && b != "" ==> b[0] in b;
  }

  /** A line with a key, an equals sign and a value that neither starts nor ends in
      white space, between any white space, assigns that value to that key; a value in
      matching quotes counts without them, whatever it holds. */
  lemma LineAssigns(a: string, key: string, b: string, c: string, value: string, d: string)
    requires Key(key) && Blank(a) && Blank(b) && Blank(c) && Blank(d) && Trimmed(value)
    requires key == "" ==> b == ""
    requires value == "" ==> c == ""
    ensures var quoted := |value| >= 2 && value[0] in {'"', '\''} && value[|value| - 1] == value[0];
            var meant := if value in {"\"", "'"} then "" else if quoted then value[1..|value| - 1] else value;
            Parse(Spaced(a, key, b, c, value, d)) == Some(Assignment(key, meant))
  {
    hide IsSpace;
    MiddleSplits(key, b, c, value);
    var t := key + b + "=" + c + value;
    MiddleTrimmed(key, b, c, value);
    TrimPadded(a, t, d);
    hide Trim, IndexOf, Trimmed, Blank;
    assert Parse(Spaced(a, key, b, c, value, d)) == Some(Assignment(key, Unquote(value)));
    var quoted := |value| >= 2 && value[0] in {'"', '\''} && value[|value| - 1] == value[0];
    if |value| == 1 {
      assert value == [value[0]];
      assert value !in {"\"", "'"} ==> value[0] != '"' && value[0] != '\'';
    }
    assert value in {"\"", "'"} ==> Unquote(value) == "";
    assert value !in {"\"", "'"} ==> (Quoted(value) <==> quoted);
  }

  lemma MiddleTrimmed(key: string, b: string, c: string, value: string)
    requires Key(key) && Trimmed(value) && (key == "" ==> b == "") && (value == "" ==> c == "")
    ensures Trimmed(key + b + "=" + c + value)
  {
    var t := key + b + "=" + c + value;
    assert t[0] == if key != "" then key[0] else '=';
    assert t[|t| - 1] == if value != "" then value[|value| - 1] else '=';
  }

  /** A line of white space, one whose first other character is a hash, and one
      without an equals sign assign nothing. */
  lemma LineIsIgnored(a: string, rest: string)
    requires Blank(a)
    ensures Parse(a) == None && Parse(a + "#" + rest) == None
    ensures '=' !in rest ==> Parse(rest) == None
  {
    TrimPadded(a, "", "");
    assert a + "" + "" == a;
    CommentTrims(a, rest);
    if '=' !in rest {
      TrimKeeps(rest, '=');
    }
  }

  lemma {:induction false} CommentTrims(a: string, rest: string)
    requires Blank(a)
    ensures Trim(a + "#" + rest) != "" && Trim(a + "#" + rest)[0] == '#'
    decreases |a|, |rest|
  {
    hide JsText.IsSpace;
    var s := a + "#" + rest;
    if a != "" {
      assert s[0] == a[0] && s[1..] == a[1..] + "#" + rest;
      CommentTrims(a[1..], rest);
    } else if rest != "" && IsSpace(rest[|rest| - 1]) {
      HashIsNoSpace();
      assert s[0] == '#' && s[|s| - 1] == rest[|rest| - 1] && s[..|s| - 1] == "" + "#" + rest[..|rest| - 1];
      CommentTrims("", rest[..|rest| - 1]);
    } else {
      HashIsNoSpace();
      assert s[0] == '#' && s[|s| - 1] == if rest == "" then '#' else rest[|rest| - 1];
    }
  }

  lemma HashIsNoSpace()
    ensures !IsSpace('#')
  {
  }

  lemma {:induction false} TrimKeeps(s: string, c: char)
    requires c !in s
    ensures c !in Trim(s)
  {
    hide JsText.IsSpace;
    if s != "" && IsSpace(s[0]) {
      TrimKeeps(s[1..], c);
    } else if s != "" && IsSpace(s[|s| - 1]) {
      TrimKeeps(s[..|s| - 1], c);
    }
  }

  // ---- Reading --------------------------------------------------------------------------------

  predicate Wanted(keys: Option<seq<string>>, key: string) {
    keys.Some? ==> key in keys.value
  }

  function ReadUpTo(lines: seq<string>, keys: Option<seq<string>>, n: nat): map<string, string>
    requires n <= |lines|
  {
    if n == 0 then map[]
    else
      var before := ReadUpTo(lines, keys, n - 1);
      var a := Parse(lines[n - 1]);
      if a.Some? && Wanted(keys, a.value.key) then before[a.value.key := a.value.value] else before
  }

  function Read(file: Option<string>, keys: Option<seq<string>>): map<string, string> {
    if file.None? then map[] else ReadUpTo(Split(file.value), keys, |Split(file.value)|)
  }

  // The last of the first n lines that assigns the key, or n if none does.
  function LastAssignment(lines: seq<string>, key: string, n: nat): (i: nat)
    requires n <= |lines|
    ensures i <= n
  {
    if n == 0 then 0
    else if Assigns(lines[n - 1], key) then n - 1
    else
      var i := LastAssignment(lines, key, n - 1);
      if i == n - 1 then n else i
  }

  lemma {:induction false} LastAssignmentMeaning(lines: seq<string>, key: string, n: nat)
    requires n <= |lines|
    ensures var i := LastAssignment(lines, key, n);
            && (i < n ==> Assigns(lines[i], key))
            && (forall j :: 0 <= j < n && (i < j || i == n) ==> !Assigns(lines[j], key))
  {
    hide Assigns;
    if n > 0 {
      LastAssignmentMeaning(lines, key, n - 1);
    }
  }

  /** Reading gives each wanted key the value of its last assignment, and no
      other key. */
  lemma {:induction false} ReadIsLastAssignment(lines: seq<string>, keys: Option<seq<string>>, n: nat, key: string)
    requires n <= |lines|
    ensures var i, r := LastAssignment(lines, key, n), ReadUpTo(lines, keys, n);
            && (key in r <==> i < n && (keys == None || key in keys.value))
            && (key in r ==> Parse(lines[i]).Some? && r[key] == Parse(lines[i]).value.value)
  {
    hide Parse;
    LastAssignmentMeaning(lines, key, n);
    if n > 0 {
      ReadIsLastAssignment(lines, keys, n - 1, key);
    }
  }

  // ---- Updating ----------------------------------------------------------------------------------

  // The updates as entries, in the order of the object's keys.
  predicate DistinctKeys(entries: seq<Assignment>) {
    forall i, j :: 0 <= i < j < |entries| ==> entries[i].key != entries[j].key
  }

  function NonEmpty(entries: seq<Assignment>): (r: seq<Assignment>)
    ensures forall e :: e in r <==> e in entries && e.value != ""
  {
    if entries == [] then []
    else (if entries[0].value != "" then [entries[0]] else []) + NonEmpty(entries[1..])
  }

  lemma {:induction false} NonEmptyDistinct(entries: seq<Assignment>)
    requires DistinctKeys(entries)
    ensures DistinctKeys(NonEmpty(entries))
  {
    if entries != [] {
      var rest := NonEmpty(entries[1..]);
      assert forall i, j :: 0 <= i < j < |entries[1..]| ==>
               entries[1..][i] == entries[i + 1] && entries[1..][j] == entries[j + 1];
      NonEmptyDistinct(entries[1..]);
      forall j | 0 <= j < |rest| ensures rest[j].key != entries[0].key {
        assert rest[j] in entries[1..];
      }
    }
  }

  function Values(entries: seq<Assignment>): (m: map<string, string>)
    ensures forall k :: k in m <==> exists i :: 0 <= i < |entries| && entries[i].key == k
  {
    if entries == [] then map[]
    else
      var before := Values(entries[..|entries| - 1]);
      before[entries[|entries| - 1].key := entries[|entries| - 1].value]
  }

  lemma {:induction false} ValuesMeaning(entries: seq<Assignment>, i: nat)
    requires DistinctKeys(entries) && i < |entries|
    ensures entries[i].key in Values(entries) && Values(entries)[entries[i].key] == entries[i].value
  {
    if i < |entries| - 1 {
      ValuesMeaning(entries[..|entries| - 1], i);
    }
  }

  predicate AssignedBefore(lines: seq<string>, key: string, n: nat)
    requires n <= |lines|
  {
    exists i :: 0 <= i < n && Assigns(lines[i], key)
  }

  // Line i is the first to assign an updated key.
  predicate Replaced(lines: seq<string>, updates: map<string, string>, i: nat)
    requires i < |lines|
  {
    Parse(lines[i]).Some? && Parse(lines[i]).value.key in updates &&
      !AssignedBefore(lines, Parse(lines[i]).value.key, i)
  }

  function NewLine(lines: seq<string>, updates: map<string, string>, i: nat): string
    requires i < |lines|
  {
    if Replaced(lines, updates, i) then Written(Parse(lines[i]).value.key, updates[Parse(lines[i]).value.key])
    else lines[i]
  }

  // The entries no line assigns, as lines.
  function Appended(lines: seq<string>, entries: seq<Assignment>): (r: seq<string>) {
    if entries == [] then []
    else
      var last := entries[|entries| - 1];
      Appended(lines, entries[..|entries| - 1]) +
      (if AssignedBefore(lines, last.key, |lines|) then [] else [Written(last.key, last.value)])
  }

  function NewLines(lines: seq<string>, entries: seq<Assignment>): seq<string> {
    seq(|lines|, i requires 0 <= i < |lines| => NewLine(lines, Values(entries), i)) + Appended(lines, entries)
  }

  function LinesOf(content: string): seq<string> {
    if content == "" then [] else Split(content)
  }

  function Update(file: Option<string>, updates: seq<Assignment>): Option<string> {
    var entries := NonEmpty(updates);
    if entries == [] then file else Some(Join(NewLines(LinesOf(file.GetOr("")), entries)))
  }

  predicate CleanEntries(entries: seq<Assignment>) {
    && DistinctKeys(entries)
    && (forall e :: e in entries && e.value != "" ==> Clean(e.key, e.value) && '\n' !in Written(e.key, e.value))
  }

  // ---- Read after update ---------------------------------------------------------------------------

  // A written entry that no line assigns.
  predicate FromEntry(lines: seq<string>, entries: seq<Assignment>, line: string) {
    exists i :: 0 <= i < |entries| && !AssignedBefore(lines, entries[i].key, |lines|) &&
                line == Written(entries[i].key, entries[i].value)
  }

  // What the appended lines are: one written line for each unassigned entry.
  lemma {:induction false} AppendedMeaning(lines: seq<string>, entries: seq<Assignment>)
    ensures forall k :: 0 <= k < |Appended(lines, entries)| ==> FromEntry(lines, entries, Appended(lines, entries)[k])
    ensures forall i :: 0 <= i < |entries| && !AssignedBefore(lines, entries[i].key, |lines|) ==>
              Written(entries[i].key, entries[i].value) in Appended(lines, entries)
  {
    hide AssignedBefore, Written;
    if entries != [] {
      var prefix, last := entries[..|entries| - 1], entries[|entries| - 1];
      AppendedMeaning(lines, prefix);
      forall line | FromEntry(lines, prefix, line) ensures FromEntry(lines, entries, line) {
        var i :| 0 <= i < |prefix| && !AssignedBefore(lines, prefix[i].key, |lines|) &&
                 line == Written(prefix[i].key, prefix[i].value);
        assert entries[i] == prefix[i];
      }
      forall k | 0 <= k < |Appended(lines, entries)| ensures FromEntry(lines, entries, Appended(lines, entries)[k]) {
        assert k < |Appended(lines, prefix)| ==> Appended(lines, entries)[k] == Appended(lines, prefix)[k];
      }
      forall i | 0 <= i < |entries| && !AssignedBefore(lines, entries[i].key, |lines|)
        ensures Written(entries[i].key, entries[i].value) in Appended(lines, entries)
      {
        assert i < |prefix| ==> entries[i] == prefix[i];
      }
    }
  }

  ghost predicate AllClean(entries: seq<Assignment>) {
    DistinctKeys(entries) && forall i :: 0 <= i < |entries| ==>
      Clean(entries[i].key, entries[i].value) && '\n' !in Written(entries[i].key, entries[i].value)
  }

  // Each rewritten line still assigns what it did, with the new value where replaced.
  lemma NewLineParses(lines: seq<string>, entries: seq<Assignment>, i: nat)
    requires AllClean(entries) && i < |lines|
    ensures var u := Values(entries);
            && (Parse(NewLine(lines, u, i)).Some? <==> Parse(lines[i]).Some?)
            && (Parse(lines[i]).Some? ==> Parse(NewLine(lines, u, i)).value.key == Parse(lines[i]).value.key)
            && (Replaced(lines, u, i) ==> Parse(NewLine(lines, u, i)).value.value == u[Parse(lines[i]).value.key])
  {
    if Replaced(lines, Values(entries), i) {
      var key := Parse(lines[i]).value.key;
      var j :| 0 <= j < |entries| && entries[j].key == key;
      ValuesMeaning(entries, j);
      CleanReadsBack(entries[j].key, entries[j].value);
    }
  }

  lemma AppendedParses(lines: seq<string>, entries: seq<Assignment>, k: nat)
    requires AllClean(entries) && k < |Appended(lines, entries)|
    ensures var a := Parse(Appended(lines, entries)[k]);
            && a.Some? && a.value.key in Values(entries) && a.value.value == Values(entries)[a.value.key]
            && !AssignedBefore(lines, a.value.key, |lines|)
  {
    AppendedMeaning(lines, entries);
    var i :| 0 <= i < |entries| && !AssignedBefore(lines, entries[i].key, |lines|) &&
             Appended(lines, entries)[k] == Written(entries[i].key, entries[i].value);
    CleanReadsBack(entries[i].key, entries[i].value);
    ValuesMeaning(entries, i);
  }

  predicate AssignedOnce(lines: seq<string>, key: string) {
    forall i, j :: 0 <= i < j < |lines| && Assigns(lines[i], key) ==> !Assigns(lines[j], key)
  }

  // The value the last assignment gives, if any.
  function LastValue(lines: seq<string>, key: string): Option<string> {
    LastAssignmentMeaning(lines, key, |lines|);
    var i := LastAssignment(lines, key, |lines|);
    if i < |lines| then Some(Parse(lines[i]).value.value) else None
  }

  lemma LastValueIs(lines: seq<string>, key: string, i: nat)
    requires i < |lines| && Assigns(lines[i], key) && forall j :: i < j < |lines| ==> !Assigns(lines[j], key)
    ensures LastValue(lines, key) == Some(Parse(lines[i]).value.value)
  {
    hide Parse;
    LastAssignmentMeaning(lines, key, |lines|);
  }

  // What a key reads as after the rewrite.
  lemma RewrittenValue(lines: seq<string>, entries: seq<Assignment>, key: string)
    requires AllClean(entries)
    ensures var now := LastValue(NewLines(lines, entries), key);
            if key !in Values(entries) then now == LastValue(lines, key)
            else if AssignedOnce(lines, key) then now == Some(Values(entries)[key])
            else now == LastValue(lines, key)
  {
    hide Parse, NewLines, Values;
    var last := LastAssignment(lines, key, |lines|);
    LastAssignmentMeaning(lines, key, |lines|);
    if last == |lines| {
      UnassignedValue(lines, entries, key);
    } else {
      AssignedValue(lines, entries, key);
    }
  }

  lemma OutParses(lines: seq<string>, entries: seq<Assignment>, j: nat)
    requires AllClean(entries) && j < |NewLines(lines, entries)|
    ensures var out := NewLines(lines, entries);
            && (j < |lines| ==> out[j] == NewLine(lines, Values(entries), j) &&
                                forall key :: Assigns(out[j], key) <==> Assigns(lines[j], key))
            && (j >= |lines| ==> Parse(out[j]).Some? && Parse(out[j]).value.key in Values(entries) &&
                                 Parse(out[j]).value.value == Values(entries)[Parse(out[j]).value.key] &&
                                 !AssignedBefore(lines, Parse(out[j]).value.key, |lines|))
  {
    if j < |lines| {
      NewLineParses(lines, entries, j);
    } else {
      AppendedParses(lines, entries, j - |lines|);
    }
  }

  lemma AssignedValue(lines: seq<string>, entries: seq<Assignment>, key: string)
    requires AllClean(entries) && AssignedBefore(lines, key, |lines|)
    ensures LastValue(NewLines(lines, entries), key) ==
              if key in Values(entries) && AssignedOnce(lines, key) then Some(Values(entries)[key])
              else LastValue(lines, key)
  {
    hide Parse, Written;
    var out := NewLines(lines, entries);
    var last := LastAssignment(lines, key, |lines|);
    LastAssignmentMeaning(lines, key, |lines|);
    forall j: nat | last <= j < |out| ensures Assigns(out[j], key) <==> j == last {
      OutParses(lines, entries, j);
    }
    LastValueIs(out, key, last);
    OutParses(lines, entries, last);
    NewLineParses(lines, entries, last);
    if key in Values(entries) {
      assert AssignedOnce(lines, key) <==> !AssignedBefore(lines, key, last);
    }
  }

  lemma UnassignedValue(lines: seq<string>, entries: seq<Assignment>, key: string)
    requires AllClean(entries) && !AssignedBefore(lines, key, |lines|)
    ensures LastValue(NewLines(lines, entries), key) ==
              if key in Values(entries) then Some(Values(entries)[key]) else None
    ensures LastValue(lines, key) == None && AssignedOnce(lines, key)
  {
    hide Parse, Written;
    var out := NewLines(lines, entries);
    LastAssignmentMeaning(lines, key, |lines|);
    LastAssignmentMeaning(out, key, |out|);
    forall j: nat | j < |out| && Assigns(out[j], key)
      ensures key in Values(entries) && Parse(out[j]).value.value == Values(entries)[key]
    {
      OutParses(lines, entries, j);
    }
    if key in Values(entries) {
      var i :| 0 <= i < |entries| && entries[i].key == key;
      AppendedMeaning(lines, entries);
      var k :| 0 <= k < |Appended(lines, entries)| && Appended(lines, entries)[k] == Written(key, entries[i].value);
      AppendedIsAssigned(lines, entries, i, k);
      assert Assigns(out[|lines| + k], key);
    }
  }

  lemma AppendedIsAssigned(lines: seq<string>, entries: seq<Assignment>, i: nat, k: nat)
    requires AllClean(entries) && i < |entries| && k < |Appended(lines, entries)|
    requires Appended(lines, entries)[k] == Written(entries[i].key, entries[i].value)
    ensures Assigns(NewLines(lines, entries)[|lines| + k], entries[i].key)
  {
    CleanReadsBack(entries[i].key, entries[i].value);
  }

  // The lines of the new file.
  lemma UpdatedLines(file: Option<string>, updates: seq<Assignment>)
    requires CleanEntries(updates) && NonEmpty(updates) != []
    ensures AllClean(NonEmpty(updates))
    ensures Split(Update(file, updates).value) == NewLines(LinesOf(file.GetOr("")), NonEmpty(updates))
  {
    var entries, lines := NonEmpty(updates), LinesOf(file.GetOr(""));
    NonEmptyDistinct(updates);
    assert AllClean(entries) by {
      forall i | 0 <= i < |entries|
        ensures Clean(entries[i].key, entries[i].value) && '\n' !in Written(entries[i].key, entries[i].value)
      {
        assert entries[i] in entries;
      }
    }
    NewLinesAreLines(lines, entries);
    SplitJoin(NewLines(lines, entries));
  }

  lemma NewLinesAreLines(lines: seq<string>, entries: seq<Assignment>)
    requires AllClean(entries) && entries != [] && forall i :: 0 <= i < |lines| ==> '\n' !in lines[i]
    ensures var out := NewLines(lines, entries); out != [] && forall i :: 0 <= i < |out| ==> '\n' !in out[i]
  {
    hide Parse, Written, Clean;
    var out := NewLines(lines, entries);
    AppendedMeaning(lines, entries);
    forall i: nat | i < |lines| ensures '\n' !in out[i] {
      if Replaced(lines, Values(entries), i) {
        var key := Parse(lines[i]).value.key;
        var j :| 0 <= j < |entries| && entries[j].key == key;
        ValuesMeaning(entries, j);
      }
    }
    if lines == [] {
      assert !AssignedBefore(lines, entries[0].key, |lines|);
    }
  }

  lemma NoLinesNoValues(keys: Option<seq<string>>)
    ensures Split("") == [""] && Read(Some(""), keys) == map[] && LinesOf("") == []
  {
    assert Parse("") == None;
    assert ReadUpTo([""], keys, 0) == map[];
  }

  // Reading in terms of last values.
  lemma ReadIsLastValue(content: string, keys: Option<seq<string>>, key: string)
    ensures var v, r := LastValue(Split(content), key), Read(Some(content), keys);
            (key in r <==> v.Some? && Wanted(keys, key)) && (key in r ==> r[key] == v.value)
  {
    hide Parse;
    ReadIsLastAssignment(Split(content), keys, |Split(content)|, key);
    LastAssignmentMeaning(Split(content), key, |Split(content)|);
  }

  lemma ReadIs(file: Option<string>, keys: Option<seq<string>>, key: string)
    ensures var v, r := LastValue(LinesOf(file.GetOr("")), key), Read(file, keys);
            (key in r <==> v.Some? && Wanted(keys, key)) && (key in r ==> r[key] == v.value)
  {
    if file.GetOr("") == "" {
      NoLinesNoValues(keys);
    } else {
      ReadIsLastValue(file.value, keys, key);
    }
  }

  lemma AssignedTwiceHasValue(lines: seq<string>, key: string)
    ensures !AssignedOnce(lines, key) ==> LastValue(lines, key).Some?
  {
    hide Parse;
    LastAssignmentMeaning(lines, key, |lines|);
  }

  /** The .env round trip, exactly. With clean entries, reading after an update
      gives the old map overridden by the update if and only if each updated key
      was assigned at most once in the file, or its last assignment already had
      the new value: of several assignments only the first is rewritten, and
      reading takes the last. */
  lemma ReadAfterUpdate(file: Option<string>, updates: seq<Assignment>)
    requires CleanEntries(updates)
    ensures var lines, values := LinesOf(file.GetOr("")), Values(NonEmpty(updates));
            Read(Update(file, updates), None) == Read(file, None) + values <==>
              forall key :: key in values ==> AssignedOnce(lines, key) || LastValue(lines, key) == Some(values[key])
  {
    var entries, lines := NonEmpty(updates), LinesOf(file.GetOr(""));
    var values, now, was := Values(entries), Read(Update(file, updates), None), Read(file, None);
    if entries == [] {
      assert was + values == was;
    } else {
      forall key ensures KeyReads(file, updates, key) {
        UpdatedKey(file, updates, key);
      }
      KeysDecide(file, updates);
    }
  }

  // What reading gives one key after the update.
  ghost predicate KeyReads(file: Option<string>, updates: seq<Assignment>, key: string) {
    var lines, values := LinesOf(file.GetOr("")), Values(NonEmpty(updates));
    var now, was := Read(Update(file, updates), None), Read(file, None);
    if key in values && AssignedOnce(lines, key) then key in now && now[key] == values[key]
    else (key in now <==> key in was) && (key in now ==> now[key] == was[key]) &&
         (key in values ==> key in was && LastValue(lines, key) == Some(was[key]))
  }

  lemma UpdatedKey(file: Option<string>, updates: seq<Assignment>, key: string)
    requires CleanEntries(updates) && NonEmpty(updates) != []
    ensures KeyReads(file, updates, key)
  {
    hide Parse, NewLines, AssignedOnce, LastValue, Read, LinesOf, Split, NonEmpty, Values;
    var entries, lines := NonEmpty(updates), LinesOf(file.GetOr(""));
    UpdatedLines(file, updates);
    RewrittenValue(lines, entries, key);
    ReadIs(file, None, key);
    ReadIsLastValue(Update(file, updates).value, None, key);
    AssignedTwiceHasValue(lines, key);
  }

  lemma KeysDecide(file: Option<string>, updates: seq<Assignment>)
    requires forall key :: KeyReads(file, updates, key)
    ensures var lines, values := LinesOf(file.GetOr("")), Values(NonEmpty(updates));
            Read(Update(file, updates), None) == Read(file, None) + values <==>
              forall key :: key in values ==> AssignedOnce(lines, key) || LastValue(lines, key) == Some(values[key])
  {
    hide Read, Update, LinesOf, NonEmpty, Values, AssignedOnce, LastValue;
    var lines, values := LinesOf(file.GetOr("")), Values(NonEmpty(updates));
    var now, was := Read(Update(file, updates), None), Read(file, None);
    assert forall key :: KeyReads(file, updates, key);
    if forall key :: key in values ==> AssignedOnce(lines, key) || LastValue(lines, key) == Some(values[key]) {
      forall key ensures (key in now <==> key in was + values) && (key in now ==> now[key] == (was + values)[key]) {
        assert KeyReads(file, updates, key);
      }
      assert now == was + values;
    } else {
      var key :| key in values && !AssignedOnce(lines, key) && LastValue(lines, key) != Some(values[key]);
      assert KeyReads(file, updates, key);
      assert (was + values)[key] == values[key];
    }
  }

  const TWICE := "A=1\nA=2"

  lemma TwoLines(a: string, b: string, key: string, x: string, y: string)
    requires Parse(a) == Some(Assignment(key, x)) && Parse(b) == Some(Assignment(key, y))
    ensures !AssignedOnce([a, b], key) && LastValue([a, b], key) == Some(y)
  {
    hide Parse;
    assert Assigns([a, b][0], key) && Assigns([a, b][1], key);
    LastValueIs([a, b], key, 1);
  }

  lemma TwiceSplits()
    ensures LinesOf(TWICE) == ["A=1", "A=2"]
  {
    hide Split;
    SplitJoin(["A=1", "A=2"]);
    assert Join(["A=2"]) == "A=2";
    assert ["A=1", "A=2"][1..] == ["A=2"];
    assert Join(["A=1", "A=2"]) == TWICE;
  }

  lemma TwiceLines()
    ensures !AssignedOnce(LinesOf(TWICE), "A") && LastValue(LinesOf(TWICE), "A") == Some("2")
  {
    hide Parse, LinesOf, AssignedOnce, LastValue, Trim, IndexOf, Unquote;
    CleanReadsBack("A", "1");
    CleanReadsBack("A", "2");
    assert Written("A", "1") == "A=1" && Written("A", "2") == "A=2";
    TwiceSplits();
    TwoLines("A=1", "A=2", "A", "1", "2");
  }

  /** A file that assigns a key twice, where the update is written and not read. */
  lemma SomeUpdateIsNotRead()
    ensures var updates := [Assignment("A", "3")]; var now := Read(Update(Some(TWICE), updates), None);
            CleanEntries(updates) && "A" in now && now["A"] == "2"
  {
    var updates := [Assignment("A", "3")];
    TwiceLines();
    SomeEntries();
    hide Parse, LinesOf, Read, Update, AssignedOnce, LastValue, CleanEntries;
    ValuesMeaning(updates, 0);
    UpdatedKey(Some(TWICE), updates, "A");
  }

  lemma SomeEntries()
    ensures CleanEntries([Assignment("A", "3")]) && NonEmpty([Assignment("A", "3")]) == [Assignment("A", "3")]
  {
    assert [Assignment("A", "3")][1..] == [];
  }

  /** Every line that is not the first assignment of an updated key keeps its
      bytes and its place; new lines come after all of them. */
  lemma OtherLinesAreKept(content: string, updates: seq<Assignment>)
    requires CleanEntries(updates) && content != ""
    ensures var lines := Split(content); var out := Split(Update(Some(content), updates).value);
            && |lines| <= |out|
            && (forall i :: 0 <= i < |lines| && !Replaced(lines, Values(NonEmpty(updates)), i) ==> out[i] == lines[i])
            && |out| == |lines| + |Appended(lines, NonEmpty(updates))|
  {
    if NonEmpty(updates) != [] {
      UpdatedLines(Some(content), updates);
    }
  }

  /** The bytes an update writes: the first line that assigns an updated key becomes
      key, equals sign and new value; an updated key no line assigns gets such a line
      after the old ones. */
  lemma UpdateWrites(content: string, updates: seq<Assignment>, e: Assignment)
    requires CleanEntries(updates) && e in updates && e.value != "" && content != ""
    ensures var lines, out := Split(content), Split(Update(Some(content), updates).value);
            && |lines| <= |out|
            && (forall i :: 0 <= i < |lines| && Assigns(lines[i], e.key) &&
                            (forall j :: 0 <= j < i ==> !Assigns(lines[j], e.key)) ==>
                  out[i] == e.key + "=" + e.value)
            && ((forall i :: 0 <= i < |lines| ==> !Assigns(lines[i], e.key)) ==>
                  exists k :: |lines| <= k < |out| && out[k] == e.key + "=" + e.value)
  {
    UpdatedLines(Some(content), updates);
    EntryIsWritten(Split(content), NonEmpty(updates), e);
    hide *;
  }

  /** Into a missing or empty file it writes the lines of the entries with a value;
      when no entry has one it leaves the file alone. */
  lemma NewFileWrites(file: Option<string>, updates: seq<Assignment>)
    requires CleanEntries(updates)
    ensures (forall e :: e in updates ==> e.value == "") ==> Update(file, updates) == file
    ensures file.GetOr("") == "" && (exists e :: e in updates && e.value != "") ==>
              var out := Split(Update(file, updates).value);
              && (forall e :: e in updates && e.value != "" ==> e.key + "=" + e.value in out)
              && (forall line :: line in out ==> LineFor(updates, line))
  {
    var entries := NonEmpty(updates);
    if entries == [] {
      assert forall e :: e in updates ==> e !in entries;
    } else {
      assert entries[0] in entries;
      if file.GetOr("") == "" {
        UpdatedLines(file, updates);
        hide Parse, Written, Clean, NewLines, Split, NonEmpty, LineFor;
        forall e | e in updates && e.value != "" { NewFileLines(updates, e); }
        NewFileLines(updates, entries[0]);
      }
    }
  }

  // The line of one of these entries.
  predicate LineFor(updates: seq<Assignment>, line: string) {
    exists i :: 0 <= i < |updates| && line == updates[i].key + "=" + updates[i].value
  }

  lemma EntryLine(lines: seq<string>, updates: seq<Assignment>, line: string)
    requires FromEntry(lines, NonEmpty(updates), line)
    ensures LineFor(updates, line)
  {
    hide AssignedBefore;
    var entries := NonEmpty(updates);
    var j :| 0 <= j < |entries| && !AssignedBefore(lines, entries[j].key, |lines|) &&
             line == Written(entries[j].key, entries[j].value);
    assert entries[j] in entries && entries[j] in updates;
  }

  lemma NewFileLines(updates: seq<Assignment>, e: Assignment)
    requires AllClean(NonEmpty(updates)) && e in NonEmpty(updates)
    ensures var out := NewLines([], NonEmpty(updates));
            e.key + "=" + e.value in out && forall line :: line in out ==> LineFor(updates, line)
  {
    var entries := NonEmpty(updates);
    EntryIsWritten([], entries, e);
    AppendedMeaning([], entries);
    hide Parse, Written, Clean, Appended, AllClean, FromEntry, LineFor, NonEmpty, AssignedBefore, NewLine, Values;
    var out, added := NewLines([], entries), Appended([], entries);
    assert out == added;
    forall line | line in out ensures LineFor(updates, line) {
      var k :| 0 <= k < |added| && added[k] == line;
      EntryLine([], updates, line);
    }
  }

  lemma EntryIsWritten(lines: seq<string>, entries: seq<Assignment>, e: Assignment)
    requires AllClean(entries) && e in entries
    ensures var out := NewLines(lines, entries);
            && |lines| <= |out|
            && (forall i :: 0 <= i < |lines| && Assigns(lines[i], e.key) &&
                            (forall j :: 0 <= j < i ==> !Assigns(lines[j], e.key)) ==>
                  out[i] == e.key + "=" + e.value)
            && ((forall i :: 0 <= i < |lines| ==> !Assigns(lines[i], e.key)) ==>
                  exists k :: |lines| <= k < |out| && out[k] == e.key + "=" + e.value)
  {
    hide Parse, Appended, Clean;
    var n :| 0 <= n < |entries| && entries[n] == e;
    ValuesMeaning(entries, n);
    AppendedMeaning(lines, entries);
    var out, added := NewLines(lines, entries), Appended(lines, entries);
    assert Written(e.key, e.value) == e.key + "=" + e.value;
    if forall i :: 0 <= i < |lines| ==> !Assigns(lines[i], e.key) {
      var k :| 0 <= k < |added| && added[k] == Written(e.key, e.value);
      assert out[|lines| + k] == added[k];
    }
    forall i | 0 <= i < |lines| && Assigns(lines[i], e.key) && (forall j :: 0 <= j < i ==> !Assigns(lines[j], e.key))
      ensures out[i] == e.key + "=" + e.value
    {
      assert out[i] == NewLine(lines, Values(entries), i);
    }
  }

  /** Applying the same clean update twice is applying it once. */
  lemma UpdateIsIdempotent(file: Option<string>, updates: seq<Assignment>)
    requires CleanEntries(updates)
    ensures Update(Update(file, updates), updates) == Update(file, updates)
  {
    var entries, lines := NonEmpty(updates), LinesOf(file.GetOr(""));
    if entries != [] {
      UpdatedLines(file, updates);
      var once := Update(file, updates).value;
      var out := NewLines(lines, entries);
      JoinSplit(once);
      if once != "" {
        RewriteAgain(lines, entries);
      } else {
        WrittenIsNotEmpty(lines, entries);
      }
    }
  }

  // A rewritten file holds at least one written line, so it is not empty.
  lemma WrittenIsNotEmpty(lines: seq<string>, entries: seq<Assignment>)
    requires AllClean(entries) && entries != []
    ensures NewLines(lines, entries) != [""]
  {
    assert Parse("") == None;
    hide Parse, Written, Clean, NewLines;
    EntryIsAssigned(lines, entries, 0);
  }

  lemma RewriteAgain(lines: seq<string>, entries: seq<Assignment>)
    requires AllClean(entries)
    ensures NewLines(NewLines(lines, entries), entries) == NewLines(lines, entries)
  {
    hide Parse, Written, Clean;
    var out := NewLines(lines, entries);
    forall i: nat | i < |out| ensures NewLine(out, Values(entries), i) == out[i] {
      LineIsWritten(lines, entries, i);
    }
    AllAssigned(lines, entries, |entries|);
    assert entries[..|entries|] == entries;
  }

  // A line the second rewrite would replace already reads that way.
  lemma LineIsWritten(lines: seq<string>, entries: seq<Assignment>, i: nat)
    requires AllClean(entries) && i < |NewLines(lines, entries)|
    ensures NewLine(NewLines(lines, entries), Values(entries), i) == NewLines(lines, entries)[i]
  {
    hide Parse, Written, Clean, Values, AllClean, Appended;
    var out := NewLines(lines, entries);
    if Replaced(out, Values(entries), i) {
      OutParses(lines, entries, i);
      if i < |lines| {
        var key := Parse(out[i]).value.key;
        assert Assigns(out[i], key) && Assigns(lines[i], key);
        forall j: nat | j < i ensures Assigns(out[j], key) <==> Assigns(lines[j], key) {
          OutParses(lines, entries, j);
        }
        assert Replaced(lines, Values(entries), i);
      } else {
        AppendedIsWritten(lines, entries, i - |lines|);
      }
    }
  }

  lemma AppendedIsWritten(lines: seq<string>, entries: seq<Assignment>, k: nat)
    requires AllClean(entries) && k < |Appended(lines, entries)|
    ensures var a := Parse(Appended(lines, entries)[k]);
            a.Some? && a.value.key in Values(entries) &&
            Appended(lines, entries)[k] == Written(a.value.key, Values(entries)[a.value.key])
  {
    AppendedMeaning(lines, entries);
    var i :| 0 <= i < |entries| && !AssignedBefore(lines, entries[i].key, |lines|) &&
             Appended(lines, entries)[k] == Written(entries[i].key, entries[i].value);
    CleanReadsBack(entries[i].key, entries[i].value);
    ValuesMeaning(entries, i);
  }

  // After the rewrite every entry is assigned, so nothing is appended again.
  lemma {:induction false} AllAssigned(lines: seq<string>, entries: seq<Assignment>, n: nat)
    requires AllClean(entries) && n <= |entries|
    ensures Appended(NewLines(lines, entries), entries[..n]) == []
  {
    hide Parse, Written, Clean;
    if n > 0 {
      AllAssigned(lines, entries, n - 1);
      assert entries[..n][..n - 1] == entries[..n - 1];
      EntryIsAssigned(lines, entries, n - 1);
    }
  }

  lemma EntryIsAssigned(lines: seq<string>, entries: seq<Assignment>, i: nat)
    requires AllClean(entries) && i < |entries|
    ensures AssignedBefore(NewLines(lines, entries), entries[i].key, |NewLines(lines, entries)|)
  {
    hide Parse, Written, Clean;
    var out, key := NewLines(lines, entries), entries[i].key;
    if AssignedBefore(lines, key, |lines|) {
      var j :| 0 <= j < |lines| && Assigns(lines[j], key);
      OutParses(lines, entries, j);
      assert Assigns(out[j], key);
    } else {
      AppendedMeaning(lines, entries);
      var k :| 0 <= k < |Appended(lines, entries)| && Appended(lines, entries)[k] == Written(key, entries[i].value);
      AppendedIsAssigned(lines, entries, i, k);
    }
  }

  // ---- The program --------------------------------------------------------------------------------------

  class EnvStore {
    var file: Option<string>

    constructor (file: Option<string>)
      ensures this.file == file
    {
      this.file := file;
    }

    method ReadEnvFile(keys: Option<seq<string>>) returns (result: map<string, string>)
      ensures result == Read(file, keys)
    {
      hide Parse;
      result := map[];
      if file.None? {
        return;
      }
      var lines := Split(file.value);
      for i := 0 to |lines|
        invariant result == ReadUpTo(lines, keys, i)
      {
        var a := ReadLine(lines[i]);
        if a.Some? && Wanted(keys, a.value.key) {
          result := result[a.value.key := a.value.value];
        }
      }
    }

    // The assignment on a line, if there is one.
    static method ReadLine(line: string) returns (a: Option<Assignment>)
      ensures a == Parse(line)
    {
      hide Trim, IndexOf, Unquote;
      var trimmed := Trim(line);
      if trimmed == "" || trimmed[0] == '#' {
        return None;
      }
      var eq := IndexOf(trimmed, '=');
      if eq == |trimmed| {
        return None;
      }
      var key := Trim(trimmed[..eq]);
      var value := Unquote(Trim(trimmed[eq + 1..]));
      return Some(Assignment(key, value));
    }

    method UpdateEnvFile(updates: seq<Assignment>)
      requires DistinctKeys(updates)
      modifies this
      ensures file == Update(old(file), updates)
    {
      hide Trim, Parse, Written, Split, Join, NewLine, AssignedBefore, NonEmpty, LinesOf;
      var entries := NonEmpty(updates);
      if entries == [] {
        return;
      }
      NonEmptyDistinct(updates);
      var lines := LinesOf(file.GetOr(""));
      var out, remaining := RewriteLines(lines, entries);
      var added := RemainingLines(lines, entries, remaining);
      file := Some(Join(out + added));
    }

    // The keys no line used up, in the order of the update.
    method RemainingLines(lines: seq<string>, entries: seq<Assignment>, remaining: map<string, string>)
      returns (added: seq<string>)
      requires DistinctKeys(entries)
      requires forall k :: k in remaining <==> k in Values(entries) && !AssignedBefore(lines, k, |lines|)
      requires forall k :: k in remaining ==> remaining[k] == Values(entries)[k]
      ensures added == Appended(lines, entries)
    {
      hide Written, AssignedBefore, Values;
      added := [];
      assert entries[..0] == [];
      for i := 0 to |entries|
        invariant added == Appended(lines, entries[..i])
      {
        ValuesMeaning(entries, i);
        assert entries[..i + 1][..i] == entries[..i];
        if entries[i].key in remaining {
          added := added + [Written(entries[i].key, remaining[entries[i].key])];
        }
      }
      assert entries[..|entries|] == entries;
    }

    // The line loop: each updated key is used up by the first line assigning it.
    method RewriteLines(lines: seq<string>, entries: seq<Assignment>)
      returns (out: seq<string>, remaining: map<string, string>)
      ensures out == seq(|lines|, i requires 0 <= i < |lines| => NewLine(lines, Values(entries), i))
      ensures forall k :: k in remaining <==> k in Values(entries) && !AssignedBefore(lines, k, |lines|)
      ensures forall k :: k in remaining ==> remaining[k] == Values(entries)[k]
    {
      hide Parse, Written, Values;
      out, remaining := [], Values(entries);
      for i := 0 to |lines|
        invariant |out| == i && forall j :: 0 <= j < i ==> out[j] == NewLine(lines, Values(entries), j)
        invariant forall k :: k in remaining <==> k in Values(entries) && !AssignedBefore(lines, k, i)
        invariant forall k :: k in remaining ==> remaining[k] == Values(entries)[k]
      {
        var a := Parse(lines[i]);
        if a.Some? && a.value.key in remaining {
          out := out + [Written(a.value.key, remaining[a.value.key])];
          remaining := remaining - {a.value.key};
        } else {
          out := out + [lines[i]];
        }
      }
    }
  }
}
