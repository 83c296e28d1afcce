/**
 The host agent's environment-file editor (host_agent/server.py, _env_values and _update_env).

 The editor rewrites the FIRST line of a changed key, the reader keeps the LAST line of a key.
 The main result says exactly when writing is a map update all the same.
 */
module EnvFile {
  import opened Basics

  /** One item of the `changes` dictionary; a dictionary is listed in insertion order. */
  datatype Setting = Setting(key: string, value: string)

  // ---------------------------------------------------------------- lines

  predicate IsSpace(c: char) {
    var n := c as int;
    || 9 <= n <= 13 || 28 <= n <= 32 || n == 0x85 || n == 0xA0 || n == 0x1680
    || 0x2000 <= n <= 0x200A || n == 0x2028 || n == 0x2029 || n == 0x202F
    || n == 0x205F || n == 0x3000
  }

  function LStrip(s: string): string {
    if s != "" && IsSpace(s[0]) then LStrip(s[1..]) else s
  }

  predicate IsComment(line: string) {
    var stripped := LStrip(line);
    stripped != "" && stripped[0] == '#'
  }

  predicate IsEntry(line: string) {
    line != "" && !IsComment(line) && '=' in line
  }

  /** The text before the first '='. */
  function BeforeEquals(line: string): string {
    if line == "" || line[0] == '=' then "" else [line[0]] + BeforeEquals(line[1..])
  }

  /** The text after the first '='. */
  function AfterEquals(line: string): string {
    if line == "" then ""
    else if line[0] == '=' then line[1..]
    else AfterEquals(line[1..])
  }

  function EntryKey(line: string): Option<string> {
    if IsEntry(line) then Some(BeforeEquals(line)) else None
  }

  function Render(key: string, value: string): string {
    key + "=" + value
  }

  /** A key that reads back from the line it is written on. */
  predicate GoodKey(key: string) {
    '=' !in key && !IsComment(key)
  }

  // -------------------------------------------------------------- changes

  function Find(changes: seq<Setting>, key: string): Option<string> {
    if changes == [] then None
    else if changes[0].key == key then Some(changes[0].value)
    else Find(changes[1..], key)
  }

  /** `remaining.pop(key)`. */
  function Drop(changes: seq<Setting>, key: string): seq<Setting> {
    if changes == [] then []
    else if changes[0].key == key then changes[1..]
    else [changes[0]] + Drop(changes[1..], key)
  }

  function AsMap(changes: seq<Setting>): map<string, string> {
    if changes == [] then map[]
    else AsMap(changes[1..])[changes[0].key := changes[0].value]
  }

  /** A dictionary: good keys, none twice. */
  ghost predicate WellFormed(changes: seq<Setting>) {
    && (forall i :: 0 <= i < |changes| ==> GoodKey(changes[i].key))
    && (forall i, j :: 0 <= i < j < |changes| ==> changes[i].key != changes[j].key)
  }

  // ------------------------------------------------------- reader, editor

  /** What `_env_values` returns: the last line of a key wins. */
  function Parse(lines: seq<string>): map<string, string> {
    if lines == [] then map[]
    else
      var last := lines[|lines| - 1];
      var earlier := Parse(lines[..|lines| - 1]);
      if IsEntry(last) then earlier[BeforeEquals(last) := AfterEquals(last)] else earlier
  }

  function RenderAll(changes: seq<Setting>): seq<string> {
    if changes == [] then []
    else [Render(changes[0].key, changes[0].value)] + RenderAll(changes[1..])
  }

  /** The lines `_update_env` writes. */
  function Rewrite(lines: seq<string>, changes: seq<Setting>): seq<string> {
    if lines == [] then RenderAll(changes)
    else
      var key := EntryKey(lines[0]);
      if key.Some? && Find(changes, key.value).Some? then
        [Render(key.value, Find(changes, key.value).value)]
        + Rewrite(lines[1..], Drop(changes, key.value))
      else
        [lines[0]] + Rewrite(lines[1..], changes)
  }

  method EnvValues(lines: seq<string>) returns (values: map<string, string>)
    ensures values == Parse(lines)
  {
    values := map[];
    for i := 0 to |lines|
      invariant values == Parse(lines[..i])
    {
      assert lines[..i + 1][..i] == lines[..i];
      if IsEntry(lines[i]) {
        values := values[BeforeEquals(lines[i]) := AfterEquals(lines[i])];
      }
    }
    assert lines[..|lines|] == lines;
  }

  lemma RewriteHead(lines: seq<string>, i: nat, changes: seq<Setting>)
    requires i < |lines|
    ensures var line := lines[i];
      Rewrite(lines[i..], changes)
      == if IsEntry(line) && Find(changes, BeforeEquals(line)).Some?
         then [Render(BeforeEquals(line), Find(changes, BeforeEquals(line)).value)]
              + Rewrite(lines[i + 1..], Drop(changes, BeforeEquals(line)))
         else [line] + Rewrite(lines[i + 1..], changes)
  {
    assert lines[i..][1..] == lines[i + 1..];
  }

  method EditLines(lines: seq<string>, changes: seq<Setting>) returns (output: seq<string>)
    ensures output == Rewrite(lines, changes)
  {
    var remaining := changes;
    output := [];
    for i := 0 to |lines|
      invariant output + Rewrite(lines[i..], remaining) == Rewrite(lines, changes)
    {
      var line := lines[i];
      RewriteHead(lines, i, remaining);
      if IsEntry(line) && Find(remaining, BeforeEquals(line)).Some? {
        var key := BeforeEquals(line);
        line := Render(key, Find(remaining, key).value);
        remaining := Drop(remaining, key);
      }
      Reassociate(output, line, Rewrite(lines[i + 1..], remaining));
      output := output + [line];
    }
    output := output + RenderAll(remaining);
  }

  lemma Reassociate(a: seq<string>, line: string, b: seq<string>)
    ensures a + [line] + b == a + ([line] + b)
  {
  }

  // ------------------------------------------ independent views of a file

  /** The value of `key`, front to back. */
  function Value(lines: seq<string>, key: string): Option<string> {
    if lines == [] then None
    else if Value(lines[1..], key).Some? then Value(lines[1..], key)
    else if EntryKey(lines[0]) == Some(key) then Some(AfterEquals(lines[0]))
    else None
  }

  /** On how many lines `key` is set. */
  function Count(lines: seq<string>, key: string): nat {
    if lines == [] then 0
    else (if EntryKey(lines[0]) == Some(key) then 1 else 0) + Count(lines[1..], key)
  }

  /** The changes of keys that no line sets, in dictionary order. */
  function Unset(lines: seq<string>, changes: seq<Setting>): seq<Setting> {
    if changes == [] then []
    else (if Count(lines, changes[0].key) == 0 then [changes[0]] else []) + Unset(lines, changes[1..])
  }

  // ------------------------------------------------------- helper lemmas

  lemma {:induction false} CommentIffKeyComment(key: string, value: string)
    ensures IsComment(Render(key, value)) == IsComment(key)
  {
    var line := Render(key, value);
    if key == "" {
      assert line[0] == '=';
    } else {
      assert line[0] == key[0];
      assert line[1..] == Render(key[1..], value);
      if IsSpace(key[0]) {
        CommentIffKeyComment(key[1..], value);
      }
    }
  }

  lemma {:induction false} SplitRendered(key: string, value: string)
    requires '=' !in key
    ensures BeforeEquals(Render(key, value)) == key
    ensures AfterEquals(Render(key, value)) == value
  {
    var line := Render(key, value);
    if key != "" {
      assert line[0] == key[0] && key[0] in key;
      assert line[1..] == Render(key[1..], value);
      SplitRendered(key[1..], value);
      assert [key[0]] + key[1..] == key;
    }
  }

  /** A rendered line reads back as its own key and value. */
  lemma RenderReads(key: string, value: string)
    requires GoodKey(key)
    ensures EntryKey(Render(key, value)) == Some(key)
    ensures AfterEquals(Render(key, value)) == value
  {
    CommentIffKeyComment(key, value);
    SplitRendered(key, value);
    assert Render(key, value)[|key|] == '=';
  }

  lemma {:induction false} KeyHasNoEquals(line: string)
    ensures '=' !in BeforeEquals(line)
    ensures '=' in line ==> Render(BeforeEquals(line), AfterEquals(line)) == line
  {
    if line != "" && line[0] != '=' {
      KeyHasNoEquals(line[1..]);
      assert '=' in line ==> '=' in line[1..];
      assert line == [line[0]] + line[1..];
    } else if line != "" {
      assert line == [line[0]] + line[1..];
    }
  }

  /** A key read from a file is a key that can be written back. */
  lemma EntryKeyIsGood(line: string)
    requires IsEntry(line)
    ensures GoodKey(BeforeEquals(line))
  {
    KeyHasNoEquals(line);
    CommentIffKeyComment(BeforeEquals(line), AfterEquals(line));
  }

  lemma {:induction false} DropKeeps(changes: seq<Setting>, key: string, other: string)
    requires WellFormed(changes)
    ensures WellFormed(Drop(changes, key))
    ensures forall s :: s in Drop(changes, key) ==> s in changes
    ensures Find(Drop(changes, key), other) == if other == key then None else Find(changes, other)
  {
    if changes != [] {
      var tail := changes[1..];
      assert forall i :: 0 <= i < |tail| ==> tail[i] == changes[i + 1];
      if changes[0].key == key {
        AbsentNotFound(tail, key);
      } else {
        DropKeeps(tail, key, other);
        var rest := Drop(tail, key);
        forall j | 0 <= j < |rest| ensures rest[j].key != changes[0].key && GoodKey(rest[j].key) {
          assert rest[j] in tail;
        }
      }
    }
  }

  lemma {:induction false} AbsentNotFound(changes: seq<Setting>, key: string)
    ensures Find(changes, key).None? <==> forall i :: 0 <= i < |changes| ==> changes[i].key != key
  {
    if changes != [] {
      AbsentNotFound(changes[1..], key);
      assert forall i :: 0 <= i < |changes[1..]| ==> changes[1..][i] == changes[i + 1];
      assert forall i :: 1 <= i < |changes| ==> changes[i] == changes[1..][i - 1];
    }
  }

  lemma {:induction false} FindInMap(changes: seq<Setting>, key: string)
    ensures key in AsMap(changes) <==> Find(changes, key).Some?
    ensures key in AsMap(changes) ==> Find(changes, key) == Some(AsMap(changes)[key])
  {
    if changes != [] {
      FindInMap(changes[1..], key);
    }
  }

  lemma {:induction false} ValueOfConcat(a: seq<string>, b: seq<string>, key: string)
    ensures Value(a + b, key) == if Value(b, key).Some? then Value(b, key) else Value(a, key)
    ensures Count(a + b, key) == Count(a, key) + Count(b, key)
  {
    if a == [] {
      assert a + b == b;
    } else {
      assert (a + b)[1..] == a[1..] + b;
      ValueOfConcat(a[1..], b, key);
    }
  }

  /** The dictionary the reader builds and the front-to-back view agree. */
  lemma {:induction false} ParseIsValue(lines: seq<string>, key: string)
    ensures key in Parse(lines) <==> Value(lines, key).Some?
    ensures key in Parse(lines) ==> Value(lines, key) == Some(Parse(lines)[key])
  {
    if lines != [] {
      var n := |lines| - 1;
      ParseIsValue(lines[..n], key);
      assert lines == lines[..n] + [lines[n]];
      ValueOfConcat(lines[..n], [lines[n]], key);
    }
  }

  lemma {:induction false} ValueCounted(lines: seq<string>, key: string)
    ensures Value(lines, key).Some? <==> Count(lines, key) > 0
  {
    if lines != [] {
      ValueCounted(lines[1..], key);
    }
  }

  lemma {:induction false} RenderedReads(changes: seq<Setting>, key: string)
    requires WellFormed(changes)
    ensures Value(RenderAll(changes), key) == Find(changes, key)
    ensures Count(RenderAll(changes), key) == if Find(changes, key).Some? then 1 else 0
  {
    if changes != [] {
      var tail := changes[1..];
      assert forall i :: 0 <= i < |tail| ==> tail[i] == changes[i + 1];
      RenderedReads(tail, key);
      RenderReads(changes[0].key, changes[0].value);
      AbsentNotFound(tail, changes[0].key);
    }
  }

  // --------------------------------------------------------- main results

  /**
   What an edit does to each key, for every file: an unchanged key keeps its value and its
   number of lines; a changed key takes the new value when at most one line sets it and keeps
   its OLD value otherwise.
   */
  lemma {:induction false} EditedValue(lines: seq<string>, changes: seq<Setting>, key: string)
    requires WellFormed(changes)
    ensures Value(Rewrite(lines, changes), key)
         == if Find(changes, key).Some? && Count(lines, key) <= 1 then Find(changes, key)
            else Value(lines, key)
    ensures Count(Rewrite(lines, changes), key)
         == if Find(changes, key).Some? && Count(lines, key) == 0 then 1 else Count(lines, key)
  {
    if lines == [] {
      RenderedReads(changes, key);
    } else {
      var head := EntryKey(lines[0]);
      ValueCounted(lines[1..], key);
      if head.Some? && Find(changes, head.value).Some? {
        EntryKeyIsGood(lines[0]);
        RenderReads(head.value, Find(changes, head.value).value);
        DropKeeps(changes, head.value, key);
        EditedValue(lines[1..], Drop(changes, head.value), key);
      } else {
        EditedValue(lines[1..], changes, key);
      }
    }
  }

  /** The condition under which the editor writes what the reader will read. */
  ghost predicate Writable(lines: seq<string>, changes: seq<Setting>) {
    forall key :: key in AsMap(changes) ==>
      Count(lines, key) <= 1 || (key in Parse(lines) && Parse(lines)[key] == AsMap(changes)[key])
  }

  /** Editing refines map update exactly on writable files. */
  lemma EditIsMapUpdateIff(lines: seq<string>, changes: seq<Setting>)
    requires WellFormed(changes)
    ensures Parse(Rewrite(lines, changes)) == Parse(lines) + AsMap(changes) <==> Writable(lines, changes)
  {
    var edited := Parse(Rewrite(lines, changes));
    var target := Parse(lines) + AsMap(changes);
    forall key
      ensures key in edited <==> key in target
      ensures key in target ==>
        (edited[key] == target[key] <==>
         (key in AsMap(changes) ==>
            Count(lines, key) <= 1 || (key in Parse(lines) && Parse(lines)[key] == AsMap(changes)[key])))
    {
      ParseIsValue(lines, key);
      ParseIsValue(Rewrite(lines, changes), key);
      EditedValue(lines, changes, key);
      FindInMap(changes, key);
      ValueCounted(lines, key);
    }
    if Writable(lines, changes) {
      assert edited.Keys == target.Keys;
    }
    if edited == target {
      forall key | key in AsMap(changes)
        ensures Count(lines, key) <= 1 || (key in Parse(lines) && Parse(lines)[key] == AsMap(changes)[key])
      {
        assert key in target;
      }
    }
  }

  /** A comment, also an indented one, and a line without '=' set nothing; a value may hold '='. */
  lemma ParsedExample()
    ensures Parse(["  #B=2", "C", "D=x=y"]) == map["D" := "x=y"]
  {
    var lines := ["  #B=2", "C", "D=x=y"];
    RenderReads("D", "x=y");
    assert Render("D", "x=y") == "D=x=y";
    assert !IsEntry("  #B=2") && !IsEntry("C");
    assert lines[..2] == ["  #B=2", "C"] && lines[..2][..1] == ["  #B=2"] && lines[..2][..1][..0] == [];
    assert Parse(["  #B=2"]) == map[] && Parse(["  #B=2", "C"]) == map[];
  }

  /** A file that sets one key twice: the edit is lost. */
  lemma DuplicateKeyLosesEdit()
    ensures Parse(Rewrite(["K=1", "K=2"], [Setting("K", "3")])) == map["K" := "2"]
  {
    var lines, changes := ["K=1", "K=2"], [Setting("K", "3")];
    assert !IsSpace('K');
    assert GoodKey("K");
    RenderReads("K", "1");
    RenderReads("K", "2");
    RenderReads("K", "3");
    assert "K" + "=" + "1" == "K=1" && "K" + "=" + "2" == "K=2";
    assert lines == [Render("K", "1"), Render("K", "2")];
    assert lines[1..] == [Render("K", "2")];
    assert Rewrite(lines, changes) == [Render("K", "3"), Render("K", "2")];
    var out := Rewrite(lines, changes);
    assert out[..1] == [Render("K", "3")] && out[..1][..0] == [];
    assert Parse(out[..1]) == map["K" := "3"];
  }

  /** Line i after an edit: rewritten if it is the first to set a changed key, else as it was. */
  lemma {:induction false} EditedLine(lines: seq<string>, changes: seq<Setting>, i: nat)
    requires WellFormed(changes) && i < |lines|
    ensures i < |Rewrite(lines, changes)|
    ensures var key := EntryKey(lines[i]);
      Rewrite(lines, changes)[i]
        == if key.Some? && Find(changes, key.value).Some? && Count(lines[..i], key.value) == 0
           then Render(key.value, Find(changes, key.value).value)
           else lines[i]
  {
    var head := EntryKey(lines[0]);
    var hit := head.Some? && Find(changes, head.value).Some?;
    var rest := if hit then Drop(changes, head.value) else changes;
    if i > 0 {
      var key := EntryKey(lines[i]);
      if hit {
        DropKeeps(changes, head.value, if key.Some? then key.value else "");
      }
      EditedLine(lines[1..], rest, i - 1);
      assert lines[..i][1..] == lines[1..][..i - 1];
    }
  }

  /** What an edit appends: the changes of keys no line sets, in dictionary order. */
  lemma {:induction false} EditedTail(lines: seq<string>, changes: seq<Setting>)
    requires WellFormed(changes)
    ensures |Rewrite(lines, changes)| == |lines| + |Unset(lines, changes)|
    ensures Rewrite(lines, changes)[|lines|..] == RenderAll(Unset(lines, changes))
  {
    if lines == [] {
      UnsetOfEmpty(changes);
      RenderAllLength(changes);
    } else {
      var head := EntryKey(lines[0]);
      var hit := head.Some? && Find(changes, head.value).Some?;
      var rest := if hit then Drop(changes, head.value) else changes;
      if hit {
        DropKeeps(changes, head.value, "");
      }
      EditedTail(lines[1..], rest);
      UnsetAfterHead(lines, changes);
      var first := if hit then Render(head.value, Find(changes, head.value).value) else lines[0];
      assert Rewrite(lines, changes) == [first] + Rewrite(lines[1..], rest);
    }
  }

  lemma {:induction false} RenderAllLength(changes: seq<Setting>)
    ensures |RenderAll(changes)| == |changes|
  {
    if changes != [] {
      RenderAllLength(changes[1..]);
    }
  }

  lemma {:induction false} UnsetOfEmpty(changes: seq<Setting>)
    ensures Unset([], changes) == changes
  {
    if changes != [] {
      UnsetOfEmpty(changes[1..]);
      assert changes == [changes[0]] + changes[1..];
    }
  }

  lemma {:induction false} UnsetAfterHead(lines: seq<string>, changes: seq<Setting>)
    requires lines != []
    requires WellFormed(changes)
    ensures var head := EntryKey(lines[0]);
      var rest := if head.Some? && Find(changes, head.value).Some? then Drop(changes, head.value) else changes;
      Unset(lines[1..], rest) == Unset(lines, changes)
    decreases changes
  {
    var head := EntryKey(lines[0]);
    if changes != [] {
      var tail := changes[1..];
      assert forall i :: 0 <= i < |tail| ==> tail[i] == changes[i + 1];
      UnsetAfterHead(lines, tail);
      if head.Some? {
        AbsentNotFound(tail, head.value);
        if changes[0].key == head.value {
          assert Find(tail, head.value).None?;
        }
      }
    }
  }

  /** Applying the same changes twice is applying them once. */
  lemma {:induction false} EditTwice(lines: seq<string>, changes: seq<Setting>)
    requires WellFormed(changes)
    ensures Rewrite(Rewrite(lines, changes), changes) == Rewrite(lines, changes)
  {
    if lines == [] {
      EditRendered(changes);
    } else {
      var head := EntryKey(lines[0]);
      var out := Rewrite(lines, changes);
      if head.Some? && Find(changes, head.value).Some? {
        EntryKeyIsGood(lines[0]);
        RenderReads(head.value, Find(changes, head.value).value);
        DropKeeps(changes, head.value, "");
        EditTwice(lines[1..], Drop(changes, head.value));
        assert out[1..] == Rewrite(lines[1..], Drop(changes, head.value));
      } else {
        EditTwice(lines[1..], changes);
        assert out[1..] == Rewrite(lines[1..], changes);
      }
    }
  }

  lemma {:induction false} EditRendered(changes: seq<Setting>)
    requires WellFormed(changes)
    ensures Rewrite(RenderAll(changes), changes) == RenderAll(changes)
  {
    if changes != [] {
      var tail := changes[1..];
      assert forall i :: 0 <= i < |tail| ==> tail[i] == changes[i + 1];
      RenderReads(changes[0].key, changes[0].value);
      assert RenderAll(changes)[1..] == RenderAll(tail);
      EditRendered(tail);
    }
  }

  /**
   Undoing an edit: after changing some keys, each on at most one line, editing the same keys to
   `back` leaves the original dictionary overridden by `back` and no trace of the first edit.
   */
  lemma EditThenEditBack(lines: seq<string>, changes: seq<Setting>, back: seq<Setting>)
    requires WellFormed(changes) && WellFormed(back)
    requires AsMap(changes).Keys == AsMap(back).Keys
    requires forall key :: key in AsMap(changes) ==> Count(lines, key) <= 1
    ensures Parse(Rewrite(Rewrite(lines, changes), back)) == Parse(lines) + AsMap(back)
  {
    EditIsMapUpdateIff(lines, changes);
    var edited := Rewrite(lines, changes);
    forall key | key in AsMap(back) ensures Count(edited, key) <= 1 {
      EditedValue(lines, changes, key);
    }
    EditIsMapUpdateIff(edited, back);
    assert Parse(lines) + AsMap(changes) + AsMap(back) == Parse(lines) + AsMap(back);
  }

  // ---------------------------------------------------------- file as text

  predicate IsBreak(c: char) {
    var n := c as int;
    10 <= n <= 13 || 28 <= n <= 30 || n == 0x85 || n == 0x2028 || n == 0x2029
  }

  predicate Unbroken(line: string) {
    forall i :: 0 <= i < |line| ==> !IsBreak(line[i])
  }

  /** The first line of a text, without its terminator. */
  function FirstLine(text: string): string {
    if text == "" || IsBreak(text[0]) then "" else [text[0]] + FirstLine(text[1..])
  }

  lemma {:induction false} FirstLineBounds(text: string)
    ensures |FirstLine(text)| <= |text| && Unbroken(FirstLine(text))
    ensures text[..|FirstLine(text)|] == FirstLine(text)
    ensures |FirstLine(text)| < |text| ==> IsBreak(text[|FirstLine(text)|])
  {
    if text != "" && !IsBreak(text[0]) {
      FirstLineBounds(text[1..]);
    }
  }

  /** `str.splitlines` on a text read with universal newlines. */
  function SplitLines(text: string): seq<string> {
    if text == "" then []
    else
      FirstLineBounds(text);
      var line := FirstLine(text);
      [line] + (if |line| < |text| then SplitLines(text[|line| + 1..]) else [])
  }

  /** `"\n".join(lines) + "\n"`. */
  function JoinLines(lines: seq<string>): string {
    if |lines| == 0 then "\n"
    else if |lines| == 1 then lines[0] + "\n"
    else lines[0] + "\n" + JoinLines(lines[1..])
  }

  lemma {:induction false} FirstLineOfJoined(line: string, rest: string)
    requires Unbroken(line)
    ensures FirstLine(line + "\n" + rest) == line
  {
    var text := line + "\n" + rest;
    if line != "" {
      assert text[1..] == line[1..] + "\n" + rest;
      FirstLineOfJoined(line[1..], rest);
      assert line == [line[0]] + line[1..];
    }
  }

  /** Splitting peels off a first line that has no break. */
  lemma SplitFirst(line: string, rest: string)
    requires Unbroken(line)
    ensures SplitLines(line + "\n" + rest) == [line] + SplitLines(rest)
  {
    var text := line + "\n" + rest;
    FirstLineOfJoined(line, rest);
    assert text[|line| + 1..] == rest;
  }

  lemma {:induction false} JoinThenSplit(lines: seq<string>)
    requires lines != []
    requires forall i :: 0 <= i < |lines| ==> Unbroken(lines[i])
    ensures SplitLines(JoinLines(lines)) == lines
  {
    if |lines| == 1 {
      SplitFirst(lines[0], "");
      assert lines[0] + "\n" + "" == lines[0] + "\n" && lines == [lines[0]];
    } else {
      SplitFirst(lines[0], JoinLines(lines[1..]));
      JoinThenSplit(lines[1..]);
      assert lines == [lines[0]] + lines[1..];
    }
  }

  lemma {:induction false} SplitLinesUnbroken(text: string)
    ensures forall i :: 0 <= i < |SplitLines(text)| ==> Unbroken(SplitLines(text)[i])
    decreases |text|
  {
    if text != "" {
      FirstLineBounds(text);
      var line := FirstLine(text);
      if |line| < |text| {
        SplitLinesUnbroken(text[|line| + 1..]);
      }
    }
  }

  /** What is written is what is read, exactly for a non-empty list of unbroken lines. */
  lemma WriteThenReadIff(lines: seq<string>)
    ensures SplitLines(JoinLines(lines)) == lines
       <==> lines != [] && forall i :: 0 <= i < |lines| ==> Unbroken(lines[i])
  {
    if lines != [] && forall i :: 0 <= i < |lines| ==> Unbroken(lines[i]) {
      JoinThenSplit(lines);
    }
    SplitLinesUnbroken(JoinLines(lines));
    if lines == [] {
      assert SplitLines("\n") != [];
    }
  }

  /** A dictionary without line breaks in keys or values. */
  ghost predicate UnbrokenChanges(changes: seq<Setting>) {
    WellFormed(changes) && forall i :: 0 <= i < |changes| ==> Unbroken(changes[i].key) && Unbroken(changes[i].value)
  }

  /** `_update_env` on the file's text. */
  method UpdateText(text: string, changes: seq<Setting>) returns (written: string)
    ensures written == JoinLines(Rewrite(SplitLines(text), changes))
    ensures UnbrokenChanges(changes) ==>
      (Parse(SplitLines(written)) == Parse(SplitLines(text)) + AsMap(changes) <==> Writable(SplitLines(text), changes))
  {
    var output := EditLines(SplitLines(text), changes);
    written := JoinLines(output);
    if UnbrokenChanges(changes) {
      UpdatedTextReadsIff(text, changes);
    }
  }

  /** The whole edit, text to text, is read back as a map update exactly on writable files. */
  lemma UpdatedTextReadsIff(text: string, changes: seq<Setting>)
    requires UnbrokenChanges(changes)
    ensures Parse(SplitLines(JoinLines(Rewrite(SplitLines(text), changes)))) == Parse(SplitLines(text)) + AsMap(changes)
       <==> Writable(SplitLines(text), changes)
  {
    var lines := SplitLines(text);
    SplitLinesUnbroken(text);
    RewriteUnbroken(lines, changes);
    EditIsMapUpdateIff(lines, changes);
    WriteThenReadIff(Rewrite(lines, changes));
    if lines == [] && changes == [] {
      NothingWritten();
    }
  }

  /** No line at all is written as an empty one, which reads alike. */
  lemma NothingWritten()
    ensures Parse(SplitLines(JoinLines(Rewrite([], [])))) == map[]
  {
    assert JoinLines([]) == "\n";
    assert SplitLines("\n") == [""];
    assert [""][..0] == [] && EntryKey("") == None;
  }

  lemma {:induction false} RewriteUnbroken(lines: seq<string>, changes: seq<Setting>)
    requires WellFormed(changes)
    requires forall i :: 0 <= i < |lines| ==> Unbroken(lines[i])
    requires forall i :: 0 <= i < |changes| ==> Unbroken(changes[i].key) && Unbroken(changes[i].value)
    ensures forall i :: 0 <= i < |Rewrite(lines, changes)| ==> Unbroken(Rewrite(lines, changes)[i])
    ensures lines != [] || changes != [] ==> Rewrite(lines, changes) != []
  {
    if lines == [] {
      RenderAllUnbroken(changes);
    } else {
      var head := EntryKey(lines[0]);
      if head.Some? && Find(changes, head.value).Some? {
        DropKeeps(changes, head.value, "");
        var rest := Drop(changes, head.value);
        forall i | 0 <= i < |rest| ensures Unbroken(rest[i].key) && Unbroken(rest[i].value) {
          assert rest[i] in changes;
        }
        RewriteUnbroken(lines[1..], rest);
        RenderFound(changes, head.value);
      } else {
        RewriteUnbroken(lines[1..], changes);
      }
    }
  }

  lemma {:induction false} RenderFound(changes: seq<Setting>, key: string)
    requires Find(changes, key).Some?
    requires forall i :: 0 <= i < |changes| ==> Unbroken(changes[i].key) && Unbroken(changes[i].value)
    ensures Unbroken(Render(key, Find(changes, key).value))
  {
    if changes[0].key != key {
      RenderFound(changes[1..], key);
    }
  }

  lemma {:induction false} RenderAllUnbroken(changes: seq<Setting>)
    requires forall i :: 0 <= i < |changes| ==> Unbroken(changes[i].key) && Unbroken(changes[i].value)
    ensures forall i :: 0 <= i < |RenderAll(changes)| ==> Unbroken(RenderAll(changes)[i])
    ensures |RenderAll(changes)| == |changes|
  {
    if changes != [] {
      RenderAllUnbroken(changes[1..]);
    }
  }
}
