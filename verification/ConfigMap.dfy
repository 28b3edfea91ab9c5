/** The configuration: a map that remembers the order of its keys, with its printer and parser. */
module ConfigMap {
  import opened Common

  /** The position of the first `c`, or the length of the text. */
  function Find(text: string, c: char): (n: nat)
    ensures n <= |text| && c !in text[..n]
    ensures n < |text| ==> text[n] == c
  {
    if text == "" || text[0] == c then 0 else 1 + Find(text[1..], c)
  }

  /** What repeated `getline` reads from a stream. */
  function Lines(text: string): seq<string>
    decreases |text|
  {
    if text == "" then []
    else
      var n := Find(text, '\n');
      [text[..n]] + if n < |text| then Lines(text[n + 1..]) else []
  }

  /** A line gives a key and a value if both `getline` calls extract something; an empty value does not count. */
  function ParseLine(line: string): Option<(string, string)> {
    var n := Find(line, '=');
    if n + 1 < |line| then Some((line[..n], line[n + 1..])) else None
  }

  /** Exactly the lines `key=value` are parsed, the key ending at the first '='; the value is not empty. */
  lemma ParseLineIff(line: string, key: string, value: string)
    ensures ParseLine(line) == Some((key, value)) <==> line == key + "=" + value && '=' !in key && value != ""
  {
    if line == key + "=" + value && '=' !in key {
      FindAfter(key, '=', value);
      assert line == key + ['='] + value;
      assert line[..|key|] == key && line[|key| + 1..] == value;
    }
    var n := Find(line, '=');
    assert n < |line| ==> line == line[..n] + "=" + line[n + 1..];
  }

  /** Only known keys are assigned. */
  function Assign(entries: map<string, string>, line: string): map<string, string> {
    match ParseLine(line)
    case None => entries
    case Some((key, value)) => if key in entries then entries[key := value] else entries
  }

  function LoadLines(entries: map<string, string>, lines: seq<string>): map<string, string> {
    if lines == [] then entries else LoadLines(Assign(entries, lines[0]), lines[1..])
  }

  function PrintLine(key: string, value: string): string {
    key + "=" + value
  }

  function Print(keyOrder: seq<string>, entries: map<string, string>): string
    requires forall key | key in keyOrder :: key in entries
  {
    if keyOrder == [] then ""
    else PrintLine(keyOrder[0], entries[keyOrder[0]]) + "\n" + Print(keyOrder[1..], entries)
  }

  lemma PrintOneMore(text: string, keyOrder: seq<string>, i: nat, entries: map<string, string>)
    requires i < |keyOrder| && forall key | key in keyOrder :: key in entries
    ensures text + Print(keyOrder[i..], entries)
      == (text + (PrintLine(keyOrder[i], entries[keyOrder[i]]) + "\n")) + Print(keyOrder[i + 1..], entries)
  {
    assert keyOrder[i..][1..] == keyOrder[i + 1..];
  }

  lemma PrintNone(text: string, keyOrder: seq<string>, entries: map<string, string>)
    requires forall key | key in keyOrder :: key in entries
    ensures text + Print(keyOrder[|keyOrder|..], entries) == text
  {}

  ghost predicate IsOrderOf(keyOrder: seq<string>, entries: map<string, string>) {
    && (forall i, j | 0 <= i < j < |keyOrder| :: keyOrder[i] != keyOrder[j])
    && (forall key :: key in keyOrder <==> key in entries)
  }

  /** The text after its first line. */
  function AfterLine(text: string): string {
    if Find(text, '\n') < |text| then text[Find(text, '\n') + 1..] else ""
  }

  lemma AfterLineIs(text: string)
    requires text != ""
    ensures var end := Find(text, '\n');
      AfterLine(text) == (if end < |text| then text[end + 1..] else "") && |AfterLine(text)| < |text|
  {}

  lemma FirstLine(text: string)
    requires text != ""
    ensures Lines(text) == [text[..Find(text, '\n')]] + Lines(AfterLine(text))
  {}

  lemma LoadOneLine(entries: map<string, string>, text: string)
    requires text != ""
    ensures LoadLines(entries, Lines(text))
         == LoadLines(Assign(entries, text[..Find(text, '\n')]), Lines(AfterLine(text)))
  {
    hide Find, Lines, Assign, AfterLine;
    FirstLine(text);
    var line, rest := text[..Find(text, '\n')], Lines(AfterLine(text));
    assert ([line] + rest)[0] == line && ([line] + rest)[1..] == rest;
  }

  lemma LoadNoLines(entries: map<string, string>)
    ensures LoadLines(entries, Lines("")) == entries
  {}

  class ConfigMap {
    var entries: map<string, string>
    var keyOrder: seq<string>

    ghost predicate Valid()
      reads this
    {
      IsOrderOf(keyOrder, entries)
    }

    constructor ()
      ensures Valid() && entries == map[] && keyOrder == []
    {
      entries, keyOrder := map[], [];
    }

    /** Assignment through `operator[]`: a new key goes to the end of the order. */
    method Set(key: string, value: string)
      requires Valid()
      modifies this
      ensures Valid() && entries == old(entries)[key := value]
      ensures keyOrder == if key in old(entries) then old(keyOrder) else old(keyOrder) + [key]
    {
      if key !in entries {
        keyOrder := keyOrder + [key];
      }
      entries := entries[key := value];
    }

    /** `store`: the text written to the file. */
    method Store() returns (text: string)
      requires Valid()
      ensures text == Print(keyOrder, entries)
    {
      hide Print;
      text := "";
      for i := 0 to |keyOrder|
        invariant text + Print(keyOrder[i..], entries) == Print(keyOrder, entries)
      {
        var key := keyOrder[i];
        PrintOneMore(text, keyOrder, i, entries);
        text := text + (key + "=" + entries[key] + "\n");
      }
      PrintNone(text, keyOrder, entries);
    }

    /**
     `load` of a file that may be missing; false stands for the exit on a missing file or an empty property,
     before which the current configuration is written to the file.
     */
    method Load(file: Option<string>) returns (ok: bool, file': Option<string>)
      requires Valid()
      modifies this
      ensures Valid() && keyOrder == old(keyOrder)
      ensures entries == if file.None? then old(entries) else LoadLines(old(entries), Lines(file.value))
      ensures ok <==> file.Some? && forall key | key in entries :: entries[key] != ""
      ensures file' == if ok then file else Some(Print(keyOrder, entries))
    {
      if file.Some? {
        LoadFile(file.value);
        ok := CheckComplete();
        if ok {
          return true, file;
        }
      }
      var text := Store();
      return false, Some(text);
    }

    /** The first loop of `load`, line by line. */
    method LoadFile(text: string)
      requires Valid()
      modifies this
      ensures Valid() && keyOrder == old(keyOrder)
      ensures entries == LoadLines(old(entries), Lines(text))
    {
      hide Find, Lines, LoadLines, Assign, IsOrderOf;
      var file := text;
      while file != ""
        invariant Valid() && keyOrder == old(keyOrder)
        invariant LoadLines(entries, Lines(file)) == LoadLines(old(entries), Lines(text))
        decreases |file|
      {
        var end := Find(file, '\n');
        LoadOneLine(entries, file);
        AfterLineIs(file);
        LoadLine(file[..end]);
        file := if end < |file| then file[end + 1..] else "";
      }
      LoadNoLines(entries);
    }

    /** The body of that loop, for one line. */
    method LoadLine(line: string)
      requires Valid()
      modifies this
      ensures Valid() && keyOrder == old(keyOrder)
      ensures entries == Assign(old(entries), line)
    {
      var separator := Find(line, '=');
      if separator + 1 < |line| {
        var key, value := line[..separator], line[separator + 1..];
        if key in entries {
          entries := entries[key := value];
        }
      }
    }

    /** The second loop of `load`. */
    method CheckComplete() returns (ok: bool)
      requires Valid()
      ensures ok <==> forall key | key in entries :: entries[key] != ""
    {
      for i := 0 to |keyOrder|
        invariant forall k | 0 <= k < i :: entries[keyOrder[k]] != ""
      {
        if entries[keyOrder[i]] == "" {
          assert keyOrder[i] in entries;
          return false;
        }
      }
      ok := true;
    }
  }

  // ---------- round trip ----------

  /** A key that the parser can tell from its value. */
  predicate CleanKey(key: string) {
    '=' !in key && '\n' !in key
  }

  ghost predicate Printable(entries: map<string, string>) {
    forall key | key in entries :: CleanKey(key) && '\n' !in entries[key]
  }

  lemma {:induction false} FindAfter(prefix: string, c: char, rest: string)
    requires c !in prefix
    ensures Find(prefix + [c] + rest, c) == |prefix|
  {
    if prefix != "" {
      assert (prefix + [c] + rest)[1..] == prefix[1..] + [c] + rest;
      FindAfter(prefix[1..], c, rest);
    }
  }

  lemma LinesOfPrintedLine(line: string, rest: string)
    requires '\n' !in line
    ensures Lines(line + "\n" + rest) == [line] + Lines(rest)
  {
    FindAfter(line, '\n', rest);
    assert (line + "\n" + rest)[..|line|] == line;
    assert (line + "\n" + rest)[|line| + 1..] == rest;
  }

  lemma ParsePrintedLine(key: string, value: string)
    requires '=' !in key
    ensures ParseLine(PrintLine(key, value)) == if value == "" then None else Some((key, value))
  {
    FindAfter(key, '=', value);
    assert PrintLine(key, value) == key + ['='] + value;
    assert PrintLine(key, value)[..|key|] == key && PrintLine(key, value)[|key| + 1..] == value;
  }

  /** Loading what was printed assigns every printed value except empty ones. */
  lemma {:induction false} LoadPrinted(keyOrder: seq<string>, entries: map<string, string>, target: map<string, string>)
    requires forall key | key in keyOrder :: key in entries && key in target
    requires forall i, j | 0 <= i < j < |keyOrder| :: keyOrder[i] != keyOrder[j]
    requires Printable(entries)
    ensures var loaded := LoadLines(target, Lines(Print(keyOrder, entries)));
      && loaded.Keys == target.Keys
      && forall key | key in target ::
           loaded[key] == if key in keyOrder && entries[key] != "" then entries[key] else target[key]
  {
    if keyOrder != [] {
      var key, rest := keyOrder[0], keyOrder[1..];
      var line := PrintLine(key, entries[key]);
      LinesOfPrintedLine(line, Print(rest, entries));
      ParsePrintedLine(key, entries[key]);
      var target' := Assign(target, line);
      assert target'.Keys == target.Keys;
      LoadPrinted(rest, entries, target');
      assert ([line] + Lines(Print(rest, entries)))[1..] == Lines(Print(rest, entries));
      assert key !in rest;
      assert forall k :: k in keyOrder <==> k == key || k in rest;
    }
  }

  lemma PrintedFirst(keyOrder: seq<string>, entries: map<string, string>)
    requires forall key | key in keyOrder :: key in entries
    requires Printable(entries) && keyOrder != []
    ensures Lines(Print(keyOrder, entries))
         == [keyOrder[0] + "=" + entries[keyOrder[0]]] + Lines(Print(keyOrder[1..], entries))
  {
    var key := keyOrder[0];
    assert key in keyOrder && key in entries;
    LinesOfPrintedLine(PrintLine(key, entries[key]), Print(keyOrder[1..], entries));
  }

  lemma NothingPrinted(entries: map<string, string>)
    ensures Lines(Print([], entries)) == []
  {}

  /** The file has one line `key=value` for each key, in the order in which the keys were set. */
  lemma {:induction false} PrintedLines(keyOrder: seq<string>, entries: map<string, string>, i: nat)
    requires forall key | key in keyOrder :: key in entries
    requires Printable(entries) && i < |keyOrder|
    ensures |Lines(Print(keyOrder, entries))| == |keyOrder|
    ensures Lines(Print(keyOrder, entries))[i] == keyOrder[i] + "=" + entries[keyOrder[i]]
  {
    hide Lines, Print, Printable;
    var rest := keyOrder[1..];
    PrintedFirst(keyOrder, entries);
    if rest == [] {
      NothingPrinted(entries);
    } else {
      PrintedLines(rest, entries, if i == 0 then 0 else i - 1);
      assert i > 0 ==> keyOrder[i] == rest[i - 1];
    }
  }

  /** A last line counts also without a newline. */
  lemma LastLine(line: string)
    requires line != "" && '\n' !in line
    ensures Lines(line) == [line]
  {
    assert Find(line, '\n') == |line|;
    assert line[..|line|] == line;
  }

  /** What the last line that sets a key gives it. */
  function LastValue(lines: seq<string>, key: string): Option<string> {
    if lines == [] then None
    else
      match ParseLine(lines[|lines| - 1])
      case Some((k, value)) => if k == key then Some(value) else LastValue(lines[..|lines| - 1], key)
      case None => LastValue(lines[..|lines| - 1], key)
  }

  /** Loading gives every known key the value of the last line that sets it, and adds no keys. */
  lemma {:induction false} LastLineWins(entries: map<string, string>, lines: seq<string>, key: string)
    ensures LoadLines(entries, lines).Keys == entries.Keys
    ensures key in entries ==>
      LoadLines(entries, lines)[key] ==
        if LastValue(lines, key).Some? then LastValue(lines, key).value else entries[key]
    decreases |lines|
  {
    if lines != [] {
      var init, last := lines[..|lines| - 1], lines[|lines| - 1];
      LastLineWins(entries, init, key);
      LoadOneMore(entries, init, last);
      assert init + [last] == lines;
      hide LoadLines, ParseLine;
      assert LoadLines(entries, lines) == Assign(LoadLines(entries, init), last);
    }
  }

  lemma {:induction false} LoadOneMore(entries: map<string, string>, lines: seq<string>, last: string)
    ensures LoadLines(entries, lines + [last]) == Assign(LoadLines(entries, lines), last)
  {
    if lines == [] {
      assert [last][1..] == [];
    } else {
      LoadOneMore(Assign(entries, lines[0]), lines[1..], last);
      assert (lines + [last])[1..] == lines[1..] + [last];
    }
  }

  /** Storing and loading copies a configuration to one with the same keys, unless a value is empty in it alone. */
  lemma StoreThenLoadIff(keyOrder: seq<string>, entries: map<string, string>, target: map<string, string>)
    requires IsOrderOf(keyOrder, entries) && target.Keys == entries.Keys && Printable(entries)
    ensures LoadLines(target, Lines(Print(keyOrder, entries))) == entries <==>
      forall key | key in entries :: entries[key] == "" ==> target[key] == ""
  {
    hide LoadLines, Lines, CleanKey;
    LoadPrinted(keyOrder, entries, target);
    SameUnlessEmpty(LoadLines(target, Lines(Print(keyOrder, entries))), entries, target);
  }

  lemma SameUnlessEmpty(loaded: map<string, string>, entries: map<string, string>, target: map<string, string>)
    requires loaded.Keys == entries.Keys == target.Keys
    requires forall key | key in entries ::
      loaded[key] == if entries[key] != "" then entries[key] else target[key]
    ensures loaded == entries <==> forall key | key in entries :: entries[key] == "" ==> target[key] == ""
  {}

  /** Such a value: it is written, but reading it back leaves the target's own value. */
  lemma EmptyValueIsNotCopied(key: string, value: string)
    requires CleanKey(key) && value != ""
    ensures var stored, target := map[key := ""], map[key := value];
      LoadLines(target, Lines(Print([key], stored))) == target != stored
  {
    var stored, target := map[key := ""], map[key := value];
    hide LoadLines, Lines, Print, CleanKey;
    LoadPrinted([key], stored, target);
    var loaded := LoadLines(target, Lines(Print([key], stored)));
    assert loaded.Keys == {key} && loaded[key] == value;
  }

  lemma {:induction false} LinesHaveNoNewline(text: string)
    ensures forall line | line in Lines(text) :: '\n' !in line
    decreases |text|
  {
    if text != "" {
      var n := Find(text, '\n');
      if n < |text| {
        LinesHaveNoNewline(text[n + 1..]);
      }
    }
  }

  lemma {:induction false} LoadKeepsPrintable(entries: map<string, string>, lines: seq<string>)
    requires Printable(entries) && forall line | line in lines :: '\n' !in line
    ensures Printable(LoadLines(entries, lines)) && LoadLines(entries, lines).Keys == entries.Keys
  {
    if lines != [] {
      assert lines[0] in lines;
      var n := Find(lines[0], '=');
      assert n + 1 < |lines[0]| ==> '\n' !in lines[0][n + 1..];
      LoadKeepsPrintable(Assign(entries, lines[0]), lines[1..]);
    }
  }

  /** A text that `load` accepts can be replaced by what `store` then writes. */
  lemma LoadStoreLoad(keyOrder: seq<string>, defaults: map<string, string>, text: string)
    requires IsOrderOf(keyOrder, defaults) && Printable(defaults)
    requires forall key | key in LoadLines(defaults, Lines(text)) :: LoadLines(defaults, Lines(text))[key] != ""
    ensures var loaded := LoadLines(defaults, Lines(text));
      && IsOrderOf(keyOrder, loaded)
      && LoadLines(defaults, Lines(Print(keyOrder, loaded))) == loaded
  {
    LinesHaveNoNewline(text);
    LoadKeepsPrintable(defaults, Lines(text));
    StoreThenLoadIff(keyOrder, LoadLines(defaults, Lines(text)), defaults);
  }
}
