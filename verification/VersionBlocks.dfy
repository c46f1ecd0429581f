/**
 Reading the served versions of a CRD file, and cutting versions out of it, line by line.
 */
module VersionBlocks {
  import opened Wrappers
  import Text

  // ---------------------------------------------------------------- lines

  const HEADER := "  versions:"
  const ITEM := "  - "
  const NESTED := "    "
  const NAME := "    name: "

  predicate Space(c: char) {
    Text.IsSpace(c) || '\U{1C}' <= c <= '\U{1F}'
  }

  predicate Blank(s: string) {
    forall i :: 0 <= i < |s| ==> Space(s[i])
  }

  predicate IsHeader(line: string) {
    HEADER <= line && Blank(line[|HEADER|..])
  }

  predicate Opens(line: string) {
    ITEM <= line
  }

  // The line leaves the versions block.
  predicate Leaves(line: string) {
    !Blank(line) && !Opens(line) && !(NESTED <= line)
  }

  function NameIn(line: string): seq<string> {
    if NAME < line && forall i :: |NAME| <= i < |line| ==> !Space(line[i]) then [line[|NAME|..]] else []
  }

  predicate Word(s: string) {
    s != "" && forall i :: 0 <= i < |s| ==> !Space(s[i])
  }

  // A line gives a name exactly if it is the key of an item followed by one word.
  lemma NameInIsExact(line: string, name: string)
    ensures NameIn(line) == [name] <==> line == "    name: " + name && Word(name)
    ensures NameIn(line) == [] || NameIn(line) == [line[10..]]
  {
    assert |NAME| == 10;
    if line == NAME + name && Word(name) {
      assert NAME < line && line[|NAME|..] == name;
      assert forall i :: |NAME| <= i < |line| ==> line[i] == name[i - |NAME|];
    }
    if NameIn(line) == [name] {
      assert line == NAME + line[|NAME|..];
      assert forall i :: 0 <= i < |name| ==> name[i] == line[i + |NAME|];
    }
  }

  // ---------------------------------------------------------------- reading

  function Served(lines: seq<string>, inside: bool): seq<string> {
    if lines == [] then []
    else if IsHeader(lines[0]) then Served(lines[1..], true)
    else if !inside || Leaves(lines[0]) then Served(lines[1..], false)
    else NameIn(lines[0]) + Served(lines[1..], true)
  }

  method ReadServed(lines: seq<string>) returns (names: seq<string>)
    ensures names == Served(lines, false)
  {
    names := [];
    var inside := false;
    for i := 0 to |lines|
      invariant Served(lines, false) == names + Served(lines[i..], inside)
    {
      var line := lines[i];
      assert lines[i..][1..] == lines[i + 1..];
      if IsHeader(line) {
        inside := true;
        continue;
      }
      if inside {
        if Leaves(line) {
          inside := false;
          continue;
        }
        names := names + NameIn(line);
      }
    }
  }

  // ---------------------------------------------------------------- reading what is written

  // A version as the generator writes it: the line that opens the item, lines nested in it,
  // its name, more nested lines.
  datatype Version = Version(opening: string, before: seq<string>, name: string, after: seq<string>)

  // A line of an item that is not its name: nested deeper than the name, or another key.
  predicate OtherKey(line: string) {
    "    " <= line && !("    name: " <= line)
  }

  predicate WellWritten(v: Version) {
    && Word(v.name) && |v.opening| > 4
    && (forall i :: 0 <= i < |v.before| ==> OtherKey(v.before[i]))
    && (forall i :: 0 <= i < |v.after| ==> OtherKey(v.after[i]))
  }

  function VersionLines(v: Version): seq<string> {
    ["  - " + v.opening] + v.before + ["    name: " + v.name] + v.after
  }

  function AllLines(versions: seq<Version>): seq<string> {
    if versions == [] then [] else VersionLines(versions[0]) + AllLines(versions[1..])
  }

  function NamesWritten(versions: seq<Version>): seq<string> {
    if versions == [] then [] else [versions[0].name] + NamesWritten(versions[1..])
  }

  function BlockLines(header: string, versions: seq<Version>, tail: seq<string>): seq<string> {
    [header] + (AllLines(versions) + tail)
  }

  // A file as it is written: anything without the header, the header, the versions, and
  // what follows the block, which starts at a line of less depth.
  function FileLines(head: seq<string>, versions: seq<Version>, tail: seq<string>): seq<string> {
    head + BlockLines("  versions:", versions, tail)
  }

  predicate Outside(head: seq<string>, tail: seq<string>) {
    && (forall i :: 0 <= i < |head| ==> !IsHeader(head[i]))
    && (forall i :: 0 <= i < |tail| ==> !IsHeader(tail[i]))
    && (tail != [] ==> tail[0] != "" && !Space(tail[0][0]))
  }

  // Reading gives the names that were written, in order. The name key of anything nested
  // deeper, as of a printer column, is not read as a version.
  lemma ReadsWhatIsWritten(head: seq<string>, versions: seq<Version>, tail: seq<string>)
    requires Outside(head, tail) && forall i :: 0 <= i < |versions| ==> WellWritten(versions[i])
    ensures Served(FileLines(head, versions, tail), false) == NamesWritten(versions)
  {
    HeaderIsHeader();
    ServedFile(head, "  versions:", versions, tail);
  }

  lemma LinesSplit(versions: seq<Version>, tail: seq<string>)
    requires versions != []
    ensures AllLines(versions) + tail == VersionLines(versions[0]) + (AllLines(versions[1..]) + tail)
  {}

  lemma HeaderIsHeader()
    ensures IsHeader("  versions:")
  {}

  lemma ServedFile(head: seq<string>, header: string, versions: seq<Version>, tail: seq<string>)
    requires IsHeader(header) && Outside(head, tail) && forall i :: 0 <= i < |versions| ==> WellWritten(versions[i])
    ensures Served(head + BlockLines(header, versions, tail), false) == NamesWritten(versions)
  {
    ServedHead(head, BlockLines(header, versions, tail));
    ServedBlock(header, versions, tail);
  }

  lemma ServedBlock(header: string, versions: seq<Version>, tail: seq<string>)
    requires IsHeader(header) && Outside([], tail) && forall i :: 0 <= i < |versions| ==> WellWritten(versions[i])
    ensures Served(BlockLines(header, versions, tail), false) == NamesWritten(versions)
  {
    ServedHeader(header, AllLines(versions) + tail);
    ServedVersions(versions, tail);
  }

  lemma ServedHeader(header: string, rest: seq<string>)
    requires IsHeader(header)
    ensures Served([header] + rest, false) == Served(rest, true)
  {
    assert ([header] + rest)[1..] == rest;
  }

  lemma {:induction false} ServedHead(head: seq<string>, rest: seq<string>)
    requires forall i :: 0 <= i < |head| ==> !IsHeader(head[i])
    ensures Served(head + rest, false) == Served(rest, false)
  {
    if head == [] {
      assert head + rest == rest;
    } else {
      assert (head + rest)[1..] == head[1..] + rest;
      ServedHead(head[1..], rest);
    }
  }

  lemma {:induction false} ServedVersions(versions: seq<Version>, tail: seq<string>)
    requires Outside([], tail) && forall i :: 0 <= i < |versions| ==> WellWritten(versions[i])
    ensures Served(AllLines(versions) + tail, true) == NamesWritten(versions)
  {
    if versions == [] {
      assert AllLines(versions) + tail == tail;
      ServedTail(tail);
    } else {
      LinesSplit(versions, tail);
      ServedVersion(versions[0], AllLines(versions[1..]) + tail);
      ServedVersions(versions[1..], tail);
    }
  }

  lemma ServedVersion(v: Version, rest: seq<string>)
    requires WellWritten(v)
    ensures Served(VersionLines(v) + rest, true) == [v.name] + Served(rest, true)
  {
    VersionSplits(v, rest);
    OpeningLine("  - " + v.opening);
    ServedFirst("  - " + v.opening, v.before + (["    name: " + v.name] + (v.after + rest)));
    ServedKeys(v.before, ["    name: " + v.name] + (v.after + rest));
    ServedName(v.name, v.after + rest);
    ServedKeys(v.after, rest);
  }

  lemma VersionSplits(v: Version, rest: seq<string>)
    ensures VersionLines(v) + rest == ["  - " + v.opening] + (v.before + (["    name: " + v.name] + (v.after + rest)))
  {}

  lemma ServedName(name: string, rest: seq<string>)
    requires Word(name)
    ensures Served(["    name: " + name] + rest, true) == [name] + Served(rest, true)
  {
    NameLine(name);
    ServedFirst("    name: " + name, rest);
  }

  // A line that stays in the block.
  lemma ServedFirst(line: string, rest: seq<string>)
    requires !IsHeader(line) && !Leaves(line)
    ensures Served([line] + rest, true) == NameIn(line) + Served(rest, true)
  {
    assert ([line] + rest)[1..] == rest;
  }

  lemma {:induction false} ServedKeys(keys: seq<string>, rest: seq<string>)
    requires forall i :: 0 <= i < |keys| ==> OtherKey(keys[i])
    ensures Served(keys + rest, true) == Served(rest, true)
  {
    if keys == [] {
      assert keys + rest == rest;
    } else {
      assert keys + rest == [keys[0]] + (keys[1..] + rest);
      KeyLine(keys[0]);
      ServedFirst(keys[0], keys[1..] + rest);
      ServedKeys(keys[1..], rest);
    }
  }

  lemma {:induction false} ServedTail(tail: seq<string>)
    requires forall i :: 0 <= i < |tail| ==> !IsHeader(tail[i])
    requires tail != [] ==> tail[0] != "" && !Space(tail[0][0])
    ensures Served(tail, true) == []
  {
    if tail != [] {
      assert Leaves(tail[0]) by {
        assert tail[0][0] != ' ';
      }
      ServedHead(tail[1..], []);
      assert tail[1..] + [] == tail[1..];
    }
  }

  lemma NotHeader(line: string)
    requires |line| > 2 && line[2] != 'v'
    ensures !IsHeader(line)
  {
    assert HEADER[2] == 'v';
  }

  lemma OpeningLine(line: string)
    requires "  - " <= line
    ensures !IsHeader(line) && !Leaves(line) && NameIn(line) == []
  {
    assert line[2] == "  - "[2] == '-';
    NotHeader(line);
    assert NAME[2] == ' ';
  }

  lemma KeyLine(line: string)
    requires OtherKey(line)
    ensures !IsHeader(line) && !Leaves(line) && !Opens(line) && NameIn(line) == []
  {
    assert line[2] == "    "[2] == ' ' && ITEM[2] == '-';
    NotHeader(line);
  }

  lemma NameLine(name: string)
    requires Word(name)
    ensures var line := "    name: " + name;
      !IsHeader(line) && !Leaves(line) && !Opens(line) && NameIn(line) == [name]
  {
    var line := "    name: " + name;
    assert line[2] == "    "[2] == ' ' && ITEM[2] == '-';
    NotHeader(line);
    assert NESTED <= line;
    assert line[|NAME|..] == name;
    forall i | |NAME| <= i < |line| ensures !Space(line[i]) {
      assert line[i] == name[i - |NAME|];
    }
  }

  // ---------------------------------------------------------------- cutting

  function Names(lines: seq<string>): seq<string> {
    if lines == [] then [] else NameIn(lines[0]) + Names(lines[1..])
  }

  // An item goes when the first name in it is to be dropped.
  predicate Dropped(item: seq<string>, drop: set<string>) {
    Names(item) != [] && Names(item)[0] in drop
  }

  function Flush(item: seq<string>, drop: set<string>): seq<string> {
    if Dropped(item, drop) then [] else item
  }

  // What one line makes the cutter write, and how it goes on.
  function Emitted(line: string, inside: bool, item: seq<string>, drop: set<string>): seq<string> {
    if IsHeader(line) || !inside then [line]
    else if Leaves(line) then Flush(item, drop) + [line]
    else if Opens(line) then Flush(item, drop)
    else if item != [] then []
    else [line]
  }

  function InsideAfter(line: string, inside: bool): bool {
    IsHeader(line) || (inside && !Leaves(line))
  }

  function ItemAfter(line: string, inside: bool, item: seq<string>): seq<string> {
    if IsHeader(line) || !inside then item
    else if Leaves(line) then []
    else if Opens(line) then [line]
    else if item != [] then item + [line]
    else []
  }

  function Strip(lines: seq<string>, inside: bool, item: seq<string>, drop: set<string>): seq<string> {
    if lines == [] then Flush(item, drop)
    else
      Emitted(lines[0], inside, item, drop)
      + Strip(lines[1..], InsideAfter(lines[0], inside), ItemAfter(lines[0], inside, item), drop)
  }

  method StripVersions(lines: seq<string>, drop: set<string>) returns (out: seq<string>)
    ensures out == Strip(lines, false, [], drop)
  {
    out := [];
    var item: seq<string> := [];
    var inside := false;
    for i := 0 to |lines|
      invariant Strip(lines, false, [], drop) == out + Strip(lines[i..], inside, item, drop)
    {
      StripStep(lines, i, inside, item, drop, out);
      var line := lines[i];
      if IsHeader(line) {
        out := out + [line];
        inside := true;
        continue;
      }
      if inside {
        if Leaves(line) {
          out := out + Flush(item, drop);
          item := [];
          inside := false;
        } else if Opens(line) {
          out := out + Flush(item, drop);
          item := [line];
          continue;
        } else if item != [] {
          item := item + [line];
          continue;
        }
      }
      out := out + [line];
    }
    out := out + Flush(item, drop);
  }

  lemma StripStep(lines: seq<string>, i: nat, inside: bool, item: seq<string>, drop: set<string>, out: seq<string>)
    requires i < |lines|
    ensures out + Strip(lines[i..], inside, item, drop) ==
      (out + Emitted(lines[i], inside, item, drop))
      + Strip(lines[i + 1..], InsideAfter(lines[i], inside), ItemAfter(lines[i], inside, item), drop)
    ensures out + (Flush(item, drop) + [lines[i]]) == (out + Flush(item, drop)) + [lines[i]]
    ensures out + [] == out
  {
    assert lines[i..][1..] == lines[i + 1..];
  }

  // ---------------------------------------------------------------- cutting what is written

  function KeptVersions(versions: seq<Version>, drop: set<string>): seq<Version> {
    if versions == [] then []
    else (if versions[0].name in drop then [] else [versions[0]]) + KeptVersions(versions[1..], drop)
  }

  // Cutting versions out of a file as it is written gives the file as it is written without
  // them.
  lemma CutsWhatIsWritten(head: seq<string>, versions: seq<Version>, tail: seq<string>, drop: set<string>)
    requires Outside(head, tail) && forall i :: 0 <= i < |versions| ==> WellWritten(versions[i])
    ensures Strip(FileLines(head, versions, tail), false, [], drop) == FileLines(head, KeptVersions(versions, drop), tail)
  {
    StripHead(head, BlockLines("  versions:", versions, tail), drop);
    StripBlock("  versions:", versions, tail, drop);
  }

  lemma StripBlock(header: string, versions: seq<Version>, tail: seq<string>, drop: set<string>)
    requires IsHeader(header) && Outside([], tail) && forall i :: 0 <= i < |versions| ==> WellWritten(versions[i])
    ensures Strip(BlockLines(header, versions, tail), false, [], drop)
         == BlockLines(header, KeptVersions(versions, drop), tail)
  {
    StripHeader(header, AllLines(versions) + tail, drop);
    StripAllFresh(versions, tail, drop);
  }

  lemma StripHeader(header: string, rest: seq<string>, drop: set<string>)
    requires IsHeader(header)
    ensures Strip([header] + rest, false, [], drop) == [header] + Strip(rest, true, [], drop)
  {
    StripFirst(header, rest, false, [], drop);
  }

  lemma StripAllFresh(versions: seq<Version>, tail: seq<string>, drop: set<string>)
    requires Outside([], tail) && forall i :: 0 <= i < |versions| ==> WellWritten(versions[i])
    ensures Strip(AllLines(versions) + tail, true, [], drop) == AllLines(KeptVersions(versions, drop)) + tail
  {
    StripAll(versions, tail, [], drop);
    NothingFlushed(drop, AllLines(KeptVersions(versions, drop)) + tail);
  }

  lemma NothingFlushed(drop: set<string>, more: seq<string>)
    ensures Flush([], drop) + more == more
  {}

  lemma {:induction false} StripHead(head: seq<string>, rest: seq<string>, drop: set<string>)
    requires forall i :: 0 <= i < |head| ==> !IsHeader(head[i])
    ensures Strip(head + rest, false, [], drop) == head + Strip(rest, false, [], drop)
  {
    if head == [] {
      assert head + rest == rest;
    } else {
      assert head + rest == [head[0]] + (head[1..] + rest);
      StripFirst(head[0], head[1..] + rest, false, [], drop);
      StripHead(head[1..], rest, drop);
      assert head == [head[0]] + head[1..];
    }
  }

  lemma StripFirst(line: string, rest: seq<string>, inside: bool, item: seq<string>, drop: set<string>)
    ensures Strip([line] + rest, inside, item, drop) ==
      Emitted(line, inside, item, drop) + Strip(rest, InsideAfter(line, inside), ItemAfter(line, inside, item), drop)
  {
    assert ([line] + rest)[1..] == rest;
  }

  lemma StripLeaving(line: string, rest: seq<string>, item: seq<string>, drop: set<string>)
    requires !IsHeader(line) && Leaves(line)
    ensures Strip([line] + rest, true, item, drop) == Flush(item, drop) + ([line] + Strip(rest, false, [], drop))
  {
    StripFirst(line, rest, true, item, drop);
  }

  lemma StripOpening(line: string, rest: seq<string>, item: seq<string>, drop: set<string>)
    requires !IsHeader(line) && !Leaves(line) && Opens(line)
    ensures Strip([line] + rest, true, item, drop) == Flush(item, drop) + Strip(rest, true, [line], drop)
  {
    StripFirst(line, rest, true, item, drop);
  }

  lemma StripInner(line: string, rest: seq<string>, item: seq<string>, drop: set<string>)
    requires !IsHeader(line) && !Leaves(line) && !Opens(line) && item != []
    ensures Strip([line] + rest, true, item, drop) == Strip(rest, true, item + [line], drop)
  {
    StripFirst(line, rest, true, item, drop);
    assert [] + Strip(rest, true, item + [line], drop) == Strip(rest, true, item + [line], drop);
  }

  // Lines that belong to the item under collection.
  predicate Nested(lines: seq<string>) {
    forall i :: 0 <= i < |lines| ==> !IsHeader(lines[i]) && !Leaves(lines[i]) && !Opens(lines[i])
  }

  lemma {:induction false} StripNested(nested: seq<string>, rest: seq<string>, item: seq<string>, drop: set<string>)
    requires item != [] && Nested(nested)
    ensures Strip(nested + rest, true, item, drop) == Strip(rest, true, item + nested, drop)
  {
    if nested == [] {
      assert nested + rest == rest && item + nested == item;
    } else {
      NestedSplits(nested, rest, item);
      StripInner(nested[0], nested[1..] + rest, item, drop);
      StripNested(nested[1..], rest, item + [nested[0]], drop);
    }
  }

  lemma NestedSplits(nested: seq<string>, rest: seq<string>, item: seq<string>)
    requires nested != []
    ensures nested + rest == [nested[0]] + (nested[1..] + rest)
    ensures (item + [nested[0]]) + nested[1..] == item + nested
  {}

  lemma VersionIsItem(v: Version)
    requires WellWritten(v)
    ensures Nested(VersionLines(v)[1..]) && Names(VersionLines(v)) == [v.name]
  {
    var nested := v.before + (["    name: " + v.name] + v.after);
    assert VersionLines(v) == ["  - " + v.opening] + nested;
    OpeningLine("  - " + v.opening);
    NestedParts(v);
    NameLine(v.name);
    KeysHaveNoNames(v.before);
    KeysHaveNoNames(v.after);
    NamesConcat(v.before, ["    name: " + v.name] + v.after);
    assert (["    name: " + v.name] + v.after)[1..] == v.after;
  }

  lemma NestedParts(v: Version)
    requires WellWritten(v)
    ensures Nested(v.before + (["    name: " + v.name] + v.after))
  {
    NameLine(v.name);
    forall i | 0 <= i < |v.before| ensures !IsHeader(v.before[i]) && !Leaves(v.before[i]) && !Opens(v.before[i]) {
      KeyLine(v.before[i]);
    }
    forall i | 0 <= i < |v.after| ensures !IsHeader(v.after[i]) && !Leaves(v.after[i]) && !Opens(v.after[i]) {
      KeyLine(v.after[i]);
    }
    NestedConcat(["    name: " + v.name], v.after);
    NestedConcat(v.before, ["    name: " + v.name] + v.after);
  }

  lemma NestedConcat(a: seq<string>, b: seq<string>)
    requires Nested(a) && Nested(b)
    ensures Nested(a + b)
  {}

  lemma {:induction false} KeysHaveNoNames(keys: seq<string>)
    requires forall i :: 0 <= i < |keys| ==> OtherKey(keys[i])
    ensures Names(keys) == []
  {
    if keys != [] {
      KeyLine(keys[0]);
      KeysHaveNoNames(keys[1..]);
    }
  }

  lemma {:induction false} NamesConcat(a: seq<string>, b: seq<string>)
    ensures Names(a + b) == Names(a) + Names(b)
  {
    if a == [] {
      assert a + b == b;
    } else {
      assert (a + b)[1..] == a[1..] + b;
      NamesConcat(a[1..], b);
    }
  }

  lemma StripVersion(v: Version, rest: seq<string>, item: seq<string>, drop: set<string>)
    requires WellWritten(v)
    ensures Strip(VersionLines(v) + rest, true, item, drop) == Flush(item, drop) + Strip(rest, true, VersionLines(v), drop)
  {
    var lines := VersionLines(v);
    VersionIsItem(v);
    OpeningLine(lines[0]);
    NestedSplits(lines, rest, []);
    StripOpening(lines[0], lines[1..] + rest, item, drop);
    StripNested(lines[1..], rest, [lines[0]], drop);
    assert [lines[0]] + lines[1..] == lines;
  }

  lemma {:induction false} StripAll(versions: seq<Version>, tail: seq<string>, item: seq<string>, drop: set<string>)
    requires Outside([], tail) && forall i :: 0 <= i < |versions| ==> WellWritten(versions[i])
    ensures Strip(AllLines(versions) + tail, true, item, drop)
         == Flush(item, drop) + (AllLines(KeptVersions(versions, drop)) + tail)
  {
    if versions == [] {
      assert AllLines(versions) + tail == tail;
      StripTail(tail, item, drop);
    } else {
      LinesSplit(versions, tail);
      StripVersion(versions[0], AllLines(versions[1..]) + tail, item, drop);
      StripAll(versions[1..], tail, VersionLines(versions[0]), drop);
      KeptLines(versions, drop, tail);
    }
  }

  lemma DroppedFlushes(v: Version, drop: set<string>)
    requires Names(VersionLines(v)) == [v.name] && v.name in drop
    ensures forall more: seq<string> :: Flush(VersionLines(v), drop) + more == more
  {
    assert Flush(VersionLines(v), drop) == [];
  }

  lemma KeptFlushes(v: Version, drop: set<string>)
    requires Names(VersionLines(v)) == [v.name] && v.name !in drop
    ensures Flush(VersionLines(v), drop) == VersionLines(v)
  {}

  lemma KeptLines(versions: seq<Version>, drop: set<string>, tail: seq<string>)
    requires versions != [] && WellWritten(versions[0])
    ensures Flush(VersionLines(versions[0]), drop) + (AllLines(KeptVersions(versions[1..], drop)) + tail)
         == AllLines(KeptVersions(versions, drop)) + tail
  {
    var v, kept := versions[0], KeptVersions(versions[1..], drop);
    VersionIsItem(v);
    if v.name in drop {
      DroppedFlushes(v, drop);
      assert [] + kept == kept;
    } else {
      KeptFlushes(v, drop);
      assert ([v] + kept)[1..] == kept;
      LinesSplit([v] + kept, tail);
    }
  }

  lemma StripOutside(lines: seq<string>, drop: set<string>)
    requires forall i :: 0 <= i < |lines| ==> !IsHeader(lines[i])
    ensures Strip(lines, false, [], drop) == lines
  {
    StripHead(lines, [], drop);
    assert lines + [] == lines;
  }

  lemma StripTail(tail: seq<string>, item: seq<string>, drop: set<string>)
    requires Outside([], tail)
    ensures Strip(tail, true, item, drop) == Flush(item, drop) + tail
  {
    if tail != [] {
      assert Leaves(tail[0]) by {
        assert tail[0][0] != ' ';
      }
      assert tail == [tail[0]] + tail[1..];
      StripLeaving(tail[0], tail[1..], item, drop);
      StripOutside(tail[1..], drop);
    }
  }

  // ---------------------------------------------------------------- pieces of a file

  // How the cutter sees a file: single lines, in the versions block or not, and items.
  datatype Piece = Line(text: string, inside: bool) | Item(lines: seq<string>)

  // The pieces a line completes.
  function Completed(line: string, inside: bool, item: seq<string>): seq<Piece> {
    if IsHeader(line) || !inside then [Line(line, false)]
    else if Leaves(line) then Pending(item) + [Line(line, false)]
    else if Opens(line) then Pending(item)
    else if item != [] then []
    else [Line(line, true)]
  }

  function Pending(item: seq<string>): seq<Piece> {
    if item == [] then [] else [Item(item)]
  }

  function Pieces(lines: seq<string>, inside: bool, item: seq<string>): seq<Piece> {
    if lines == [] then Pending(item)
    else
      Completed(lines[0], inside, item)
      + Pieces(lines[1..], InsideAfter(lines[0], inside), ItemAfter(lines[0], inside, item))
  }

  function LinesOf(p: Piece): seq<string> {
    match p
    case Line(text, _) => [text]
    case Item(lines) => lines
  }

  function FlatMap<A, B>(f: A -> seq<B>, xs: seq<A>): seq<B> {
    if xs == [] then [] else f(xs[0]) + FlatMap(f, xs[1..])
  }

  lemma {:induction false} FlatMapConcat<A, B>(f: A -> seq<B>, a: seq<A>, b: seq<A>)
    ensures FlatMap(f, a + b) == FlatMap(f, a) + FlatMap(f, b)
  {
    if a == [] {
      assert a + b == b;
    } else {
      assert (a + b)[1..] == a[1..] + b;
      FlatMapConcat(f, a[1..], b);
    }
  }

  lemma FlatMapOne<A, B>(f: A -> seq<B>, x: A)
    ensures FlatMap(f, [x]) == f(x)
  {
    assert [x][1..] == [] && FlatMap(f, []) == [];
  }

  function Flatten(ps: seq<Piece>): seq<string> {
    FlatMap(LinesOf, ps)
  }

  // The names a piece contributes to what is served.
  function NamesOf(p: Piece): seq<string> {
    match p
    case Line(text, inside) => if inside then NameIn(text) else []
    case Item(lines) => Names(lines)
  }

  function AllNames(ps: seq<Piece>): seq<string> {
    FlatMap(NamesOf, ps)
  }

  predicate Goes(p: Piece, drop: set<string>) {
    p.Item? && Dropped(p.lines, drop)
  }

  function Stays(drop: set<string>): Piece -> seq<Piece> {
    p => if Goes(p, drop) then [] else [p]
  }

  function Remaining(ps: seq<Piece>, drop: set<string>): seq<Piece> {
    FlatMap(Stays(drop), ps)
  }

  predicate NoHeader(lines: seq<string>) {
    forall i :: 0 <= i < |lines| ==> !IsHeader(lines[i])
  }

  // A second versions header while an item is being collected would be written ahead of
  // it; the files have one header.
  predicate OneHeader(lines: seq<string>) {
    forall i, j :: 0 <= i < j < |lines| ==> !(IsHeader(lines[i]) && IsHeader(lines[j]))
  }

  predicate StaysInside(item: seq<string>) {
    forall i :: 0 <= i < |item| ==> !Leaves(item[i]) && !IsHeader(item[i])
  }

  // What holds of the rest of a file and of the item under collection.
  predicate Under(lines: seq<string>, inside: bool, item: seq<string>) {
    && OneHeader(lines)
    && (inside ==> NoHeader(lines))
    && (item != [] ==> inside)
    && StaysInside(item)
  }

  // ---------------------------------------------------------------- the cutter keeps the rest

  lemma UnderStep(lines: seq<string>, inside: bool, item: seq<string>)
    requires lines != [] && Under(lines, inside, item)
    ensures Under(lines[1..], InsideAfter(lines[0], inside), ItemAfter(lines[0], inside, item))
  {
    assert forall i :: 0 <= i < |lines[1..]| ==> lines[1..][i] == lines[i + 1];
  }

  // The pieces make up the file.
  lemma {:induction false} PiecesMakeFile(lines: seq<string>, inside: bool, item: seq<string>)
    requires Under(lines, inside, item)
    ensures Flatten(Pieces(lines, inside, item)) == item + lines
    decreases |lines|
  {
    if lines == [] {
      PendingPieces(item, {});
      assert item + lines == item;
    } else {
      var inside', item' := InsideAfter(lines[0], inside), ItemAfter(lines[0], inside, item);
      UnderStep(lines, inside, item);
      PiecesMakeFile(lines[1..], inside', item');
      FlatMapConcat(LinesOf, Completed(lines[0], inside, item), Pieces(lines[1..], inside', item'));
      CompletedLines(lines[0], inside, item);
      Regroup(Flatten(Completed(lines[0], inside, item)), item', item, lines);
    }
  }

  lemma Regroup(done: seq<string>, item': seq<string>, item: seq<string>, lines: seq<string>)
    requires lines != [] && done + item' == item + [lines[0]]
    ensures done + (item' + lines[1..]) == item + lines
  {
    assert done + (item' + lines[1..]) == (done + item') + lines[1..];
    assert lines == [lines[0]] + lines[1..];
  }

  lemma CompletedLines(line: string, inside: bool, item: seq<string>)
    requires item != [] ==> inside && !IsHeader(line)
    ensures Flatten(Completed(line, inside, item)) + ItemAfter(line, inside, item) == item + [line]
  {
    PendingPieces(item, {});
    FlatMapOne(LinesOf, Line(line, true));
    FlatMapOne(LinesOf, Line(line, false));
    FlatMapConcat(LinesOf, Pending(item), [Line(line, false)]);
    assert FlatMap(LinesOf, []) == [] && item + [line] + [] == item + [line];
  }

  lemma PendingPieces(item: seq<string>, drop: set<string>)
    ensures Flatten(Pending(item)) == item
    ensures var left := Remaining(Pending(item), drop);
      Flatten(left) == Flush(item, drop) && AllNames(left) == Names(Flush(item, drop))
  {
    FlatMapOne(Stays(drop), Item(item));
    FlatMapOne(LinesOf, Item(item));
    FlatMapOne(NamesOf, Item(item));
  }

  // What is left of the pieces a line completes is what the cutter writes for it.
  lemma CompletedRemaining(line: string, inside: bool, item: seq<string>, drop: set<string>)
    ensures Flatten(Remaining(Completed(line, inside, item), drop)) == Emitted(line, inside, item, drop)
    ensures AllNames(Remaining(Completed(line, inside, item), drop)) ==
      (if IsHeader(line) || !inside then []
       else if Leaves(line) || Opens(line) then Names(Flush(item, drop))
       else if item != [] then [] else NameIn(line))
  {
    PendingPieces(item, drop);
    var last := Line(line, inside && !IsHeader(line) && !Leaves(line));
    FlatMapOne(Stays(drop), last);
    FlatMapOne(LinesOf, last);
    FlatMapOne(NamesOf, last);
    if inside && !IsHeader(line) && Leaves(line) {
      FlatMapConcat(Stays(drop), Pending(item), [last]);
      FlatMapConcat(LinesOf, Remaining(Pending(item), drop), [last]);
      FlatMapConcat(NamesOf, Remaining(Pending(item), drop), [last]);
    }
  }

  // What the cutter writes is the file without the items that go, in order.
  lemma {:induction false} StripKeepsRemaining(lines: seq<string>, inside: bool, item: seq<string>, drop: set<string>)
    ensures Strip(lines, inside, item, drop) == Flatten(Remaining(Pieces(lines, inside, item), drop))
    decreases |lines|
  {
    if lines == [] {
      PendingPieces(item, drop);
    } else {
      var done := Completed(lines[0], inside, item);
      var later := Pieces(lines[1..], InsideAfter(lines[0], inside), ItemAfter(lines[0], inside, item));
      StripKeepsRemaining(lines[1..], InsideAfter(lines[0], inside), ItemAfter(lines[0], inside, item), drop);
      FlatMapConcat(Stays(drop), done, later);
      FlatMapConcat(LinesOf, Remaining(done, drop), Remaining(later, drop));
      CompletedRemaining(lines[0], inside, item, drop);
    }
  }

  // ---------------------------------------------------------------- the reader on what is left

  lemma {:induction false} ServedItem(item: seq<string>, rest: seq<string>)
    requires StaysInside(item)
    ensures Served(item + rest, true) == Names(item) + Served(rest, true)
  {
    if item == [] {
      assert item + rest == rest;
    } else {
      assert (item + rest)[1..] == item[1..] + rest;
      ServedItem(item[1..], rest);
    }
  }

  lemma ServedLine(line: string, inside: bool, rest: seq<string>)
    ensures Served([line] + rest, inside) ==
      (if inside && !IsHeader(line) && !Leaves(line) then NameIn(line) else [])
      + Served(rest, InsideAfter(line, inside))
  {
    assert ([line] + rest)[1..] == rest;
  }

  lemma ServedLeaving(line: string, item: seq<string>, rest: seq<string>)
    requires !IsHeader(line) && Leaves(line) && StaysInside(item)
    ensures Served(item + [line] + rest, true) == Names(item) + Served(rest, false)
  {
    ServedItem(item, [line] + rest);
    ServedLine(line, true, rest);
    assert item + ([line] + rest) == item + [line] + rest;
  }

  lemma ServedEmitted(line: string, inside: bool, item: seq<string>, drop: set<string>, rest: seq<string>)
    requires item != [] ==> inside && !IsHeader(line)
    requires StaysInside(item)
    ensures Served(Emitted(line, inside, item, drop) + rest, inside) ==
      AllNames(Remaining(Completed(line, inside, item), drop)) + Served(rest, InsideAfter(line, inside))
  {
    CompletedNames(line, inside, item, drop);
    if IsHeader(line) || !inside {
      ServedLine(line, inside, rest);
    } else if Leaves(line) {
      ServedLeaving(line, Flush(item, drop), rest);
    } else if Opens(line) {
      ServedItem(Flush(item, drop), rest);
    } else if item != [] {
      assert [] + rest == rest;
    } else {
      ServedLine(line, true, rest);
    }
  }

  lemma CompletedNames(line: string, inside: bool, item: seq<string>, drop: set<string>)
    ensures AllNames(Remaining(Completed(line, inside, item), drop)) ==
      if IsHeader(line) || !inside then []
      else if Leaves(line) || Opens(line) then Names(Flush(item, drop))
      else if item != [] then [] else NameIn(line)
  {
    CompletedRemaining(line, inside, item, drop);
  }

  // Reading the cut file gives the names of the pieces that are left.
  lemma {:induction false} ServedOfRemaining(lines: seq<string>, inside: bool, item: seq<string>, drop: set<string>)
    requires Under(lines, inside, item)
    ensures var left := Remaining(Pieces(lines, inside, item), drop); Served(Flatten(left), inside) == AllNames(left)
    decreases |lines|
  {
    if lines == [] {
      PendingPieces(item, drop);
      if item != [] {
        ServedItem(Flush(item, drop), []);
        assert Flush(item, drop) + [] == Flush(item, drop);
      }
    } else {
      var done := Completed(lines[0], inside, item);
      var inside', item' := InsideAfter(lines[0], inside), ItemAfter(lines[0], inside, item);
      var later := Pieces(lines[1..], inside', item');
      UnderStep(lines, inside, item);
      ServedOfRemaining(lines[1..], inside', item', drop);
      FlatMapConcat(Stays(drop), done, later);
      FlatMapConcat(LinesOf, Remaining(done, drop), Remaining(later, drop));
      FlatMapConcat(NamesOf, Remaining(done, drop), Remaining(later, drop));
      CompletedRemaining(lines[0], inside, item, drop);
      ServedEmitted(lines[0], inside, item, drop, Flatten(Remaining(later, drop)));
    }
  }

  // ---------------------------------------------------------------- reading agrees with cutting

  function Without(names: seq<string>, drop: set<string>): seq<string> {
    if names == [] then [] else (if names[0] in drop then [] else [names[0]]) + Without(names[1..], drop)
  }

  lemma {:induction false} WithoutConcat(a: seq<string>, b: seq<string>, drop: set<string>)
    ensures Without(a + b, drop) == Without(a, drop) + Without(b, drop)
  {
    if a == [] {
      assert a + b == b;
    } else {
      assert (a + b)[1..] == a[1..] + b;
      WithoutConcat(a[1..], b, drop);
    }
  }

  lemma {:induction false} WithoutDrops(names: seq<string>, drop: set<string>)
    ensures forall n :: n in Without(names, drop) ==> n !in drop
    ensures (forall n :: n in names ==> n !in drop) ==> Without(names, drop) == names
    ensures Without(names, drop) == [] <==> forall n :: n in names ==> n in drop
  {
    if names != [] {
      WithoutDrops(names[1..], drop);
      assert forall n :: n in names <==> n == names[0] || n in names[1..];
      assert names == [names[0]] + names[1..];
    }
  }

  // The names of a piece go or stay together.
  predicate Uniform(p: Piece, drop: set<string>) {
    if Goes(p, drop) then forall n :: n in NamesOf(p) ==> n in drop else forall n :: n in NamesOf(p) ==> n !in drop
  }

  lemma {:induction false} UniformPiecesAgree(ps: seq<Piece>, drop: set<string>)
    requires forall i :: 0 <= i < |ps| ==> Uniform(ps[i], drop)
    ensures AllNames(Remaining(ps, drop)) == Without(AllNames(ps), drop)
  {
    if ps != [] {
      UniformPiecesAgree(ps[1..], drop);
      RemainingNames(ps, drop);
      WithoutConcat(NamesOf(ps[0]), AllNames(ps[1..]), drop);
      WithoutDrops(NamesOf(ps[0]), drop);
    }
  }

  lemma RemainingNames(ps: seq<Piece>, drop: set<string>)
    requires ps != []
    ensures AllNames(Remaining(ps, drop)) ==
      (if Goes(ps[0], drop) then [] else NamesOf(ps[0])) + AllNames(Remaining(ps[1..], drop))
  {
    var first := if Goes(ps[0], drop) then [] else [ps[0]];
    FlatMapConcat(NamesOf, first, Remaining(ps[1..], drop));
    FlatMapOne(NamesOf, ps[0]);
    assert FlatMap(NamesOf, []) == [];
  }

  // A name that should have gone but is still there shows up in what is left.
  lemma {:induction false} LeftoverShows(ps: seq<Piece>, drop: set<string>, i: nat, name: string)
    requires i < |ps| && !Goes(ps[i], drop) && name in NamesOf(ps[i])
    ensures name in AllNames(Remaining(ps, drop))
  {
    RemainingNames(ps, drop);
    if i > 0 {
      LeftoverShows(ps[1..], drop, i - 1, name);
    }
  }

  // If no such name is left, the cut file has no more names than it should, and fewer as
  // soon as an item went that held another name.
  lemma {:induction false} CutIsShort(ps: seq<Piece>, drop: set<string>)
    requires forall i :: 0 <= i < |ps| && !Goes(ps[i], drop) ==> Uniform(ps[i], drop)
    ensures |AllNames(Remaining(ps, drop))| <= |Without(AllNames(ps), drop)|
    ensures (exists i :: 0 <= i < |ps| && !Uniform(ps[i], drop)) ==> |AllNames(Remaining(ps, drop))| < |Without(AllNames(ps), drop)|
  {
    if ps != [] {
      CutIsShort(ps[1..], drop);
      RemainingNames(ps, drop);
      WithoutConcat(NamesOf(ps[0]), AllNames(ps[1..]), drop);
      WithoutDrops(NamesOf(ps[0]), drop);
      if exists i :: 0 <= i < |ps| && !Uniform(ps[i], drop) {
        var i :| 0 <= i < |ps| && !Uniform(ps[i], drop);
        assert i > 0 ==> ps[1..][i - 1] == ps[i];
      }
    }
  }

  lemma PiecesAgreeIffUniform(ps: seq<Piece>, drop: set<string>)
    ensures AllNames(Remaining(ps, drop)) == Without(AllNames(ps), drop) <==> forall i :: 0 <= i < |ps| ==> Uniform(ps[i], drop)
  {
    if forall i :: 0 <= i < |ps| ==> Uniform(ps[i], drop) {
      UniformPiecesAgree(ps, drop);
    } else if exists i :: 0 <= i < |ps| && !Goes(ps[i], drop) && !Uniform(ps[i], drop) {
      var i :| 0 <= i < |ps| && !Goes(ps[i], drop) && !Uniform(ps[i], drop);
      var name :| name in NamesOf(ps[i]) && name in drop;
      LeftoverShows(ps, drop, i, name);
      WithoutDrops(AllNames(ps), drop);
    } else {
      CutIsShort(ps, drop);
    }
  }

  lemma {:induction false} NothingGoes(ps: seq<Piece>)
    ensures Remaining(ps, {}) == ps
  {
    if ps != [] {
      NothingGoes(ps[1..]);
      assert ps == [ps[0]] + ps[1..];
    }
  }

  // Reading a file gives the names of its pieces.
  lemma ServedIsNames(lines: seq<string>)
    requires OneHeader(lines)
    ensures Served(lines, false) == AllNames(Pieces(lines, false, []))
  {
    var ps := Pieces(lines, false, []);
    NothingGoes(ps);
    ServedOfRemaining(lines, false, [], {});
    PiecesMakeFile(lines, false, []);
    assert [] + lines == lines;
  }

  // Cutting versions out of a file and reading it gives the file's versions without them,
  // exactly when the names of each item go or stay together and no name to be dropped
  // stands in the block outside an item.
  lemma CuttingAgreesWithReading(lines: seq<string>, drop: set<string>)
    requires OneHeader(lines)
    ensures Served(Strip(lines, false, [], drop), false) == Without(Served(lines, false), drop) <==>
      forall i :: 0 <= i < |Pieces(lines, false, [])| ==> Uniform(Pieces(lines, false, [])[i], drop)
  {
    var ps := Pieces(lines, false, []);
    ServedIsNames(lines);
    StripKeepsRemaining(lines, false, [], drop);
    ServedOfRemaining(lines, false, [], drop);
    PiecesAgreeIffUniform(ps, drop);
  }

  predicate OneNameEach(p: Piece) {
    |NamesOf(p)| == if p.Item? then 1 else 0
  }

  lemma OneNameIsUniform(p: Piece, drop: set<string>)
    requires OneNameEach(p)
    ensures Uniform(p, drop) && (Goes(p, drop) <==> p.Item? && NamesOf(p)[0] in drop)
  {}

  // Files as the generator writes them: each item holds one name, and no name stands in
  // the block outside an item.
  predicate Generated(lines: seq<string>) {
    OneHeader(lines) && forall i :: 0 <= i < |Pieces(lines, false, [])| ==> OneNameEach(Pieces(lines, false, [])[i])
  }

  // For these both promises hold whatever is dropped: reading agrees, and the file is kept
  // line by line except for the items whose one name is dropped.
  lemma GeneratedFilesAgree(lines: seq<string>, drop: set<string>)
    requires Generated(lines)
    ensures Served(Strip(lines, false, [], drop), false) == Without(Served(lines, false), drop)
    ensures var ps := Pieces(lines, false, []);
      && lines == Flatten(ps)
      && Strip(lines, false, [], drop) == Flatten(Remaining(ps, drop))
      && forall i :: 0 <= i < |ps| ==> (Goes(ps[i], drop) <==> ps[i].Item? && NamesOf(ps[i])[0] in drop)
  {
    var ps := Pieces(lines, false, []);
    forall i | 0 <= i < |ps|
      ensures Uniform(ps[i], drop) && (Goes(ps[i], drop) <==> ps[i].Item? && NamesOf(ps[i])[0] in drop)
    {
      assert OneNameEach(ps[i]);
      OneNameIsUniform(ps[i], drop);
    }
    CuttingAgreesWithReading(lines, drop);
    PiecesMakeFile(lines, false, []);
    StripKeepsRemaining(lines, false, [], drop);
    assert [] + lines == lines;
  }
}
