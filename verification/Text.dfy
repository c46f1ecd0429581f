/** The string operations of the Go standard library that the modelled code uses. */
module Text {
  // unicode.IsSpace.
  predicate IsSpace(c: char) {
    || '\t' <= c <= '\r' || c == ' ' || c == '\U{85}' || c == '\U{A0}' || c == '\U{1680}'
    || '\U{2000}' <= c <= '\U{200A}' || c == '\U{2028}' || c == '\U{2029}'
    || c == '\U{202F}' || c == '\U{205F}' || c == '\U{3000}'
  }

  function TrimLeft(s: string): string {
    if s != "" && IsSpace(s[0]) then TrimLeft(s[1..]) else s
  }

  function TrimRight(s: string): string {
    if s != "" && IsSpace(s[|s| - 1]) then TrimRight(s[..|s| - 1]) else s
  }

  // strings.TrimSpace.
  function TrimSpace(s: string): string {
    TrimRight(TrimLeft(s))
  }

  // Text that trimming leaves as it is.
  predicate Trimmed(s: string) {
    s == "" || (!IsSpace(s[0]) && !IsSpace(s[|s| - 1]))
  }

  lemma {:induction false} TrimRightEnds(s: string)
    ensures TrimRight(s) <= s
    ensures TrimRight(s) == "" || !IsSpace(TrimRight(s)[|TrimRight(s)| - 1])
  {
    if s != "" && IsSpace(s[|s| - 1]) {
      TrimRightEnds(s[..|s| - 1]);
    }
  }

  lemma {:induction false} TrimLeftStarts(s: string)
    ensures TrimLeft(s) == "" || !IsSpace(TrimLeft(s)[0])
  {
    if s != "" && IsSpace(s[0]) {
      TrimLeftStarts(s[1..]);
    }
  }

  lemma TrimIsTrimmed(s: string)
    ensures Trimmed(TrimSpace(s))
  {
    TrimLeftStarts(s);
    TrimRightEnds(TrimLeft(s));
  }

  predicate Blank(s: string) {
    forall i :: 0 <= i < |s| ==> IsSpace(s[i])
  }

  // Trimming takes blanks off both ends and nothing else.
  lemma TrimIsExact(s: string) returns (before: string, after: string)
    ensures s == before + TrimSpace(s) + after && Blank(before) && Blank(after) && Trimmed(TrimSpace(s))
  {
    TrimIsTrimmed(s);
    before := LeftBlanks(s);
    after := RightBlanks(TrimLeft(s));
    assert before + TrimSpace(s) + after == before + (TrimSpace(s) + after);
  }

  lemma {:induction false} LeftBlanks(s: string) returns (blanks: string)
    ensures s == blanks + TrimLeft(s) && Blank(blanks)
  {
    blanks := "";
    if s != "" && IsSpace(s[0]) {
      blanks := LeftBlanks(s[1..]);
      blanks := [s[0]] + blanks;
    }
  }

  lemma {:induction false} RightBlanks(s: string) returns (blanks: string)
    ensures s == TrimRight(s) + blanks && Blank(blanks)
  {
    blanks := "";
    if s != "" && IsSpace(s[|s| - 1]) {
      blanks := RightBlanks(s[..|s| - 1]);
      blanks := blanks + [s[|s| - 1]];
    }
  }

  lemma TrimOfTrimmed(s: string)
    requires Trimmed(s)
    ensures TrimSpace(s) == s
  {}

  lemma {:induction false} TrimTrailing(s: string, blanks: string)
    requires Trimmed(s) && Blank(blanks)
    ensures TrimSpace(s + blanks) == s
  {
    if s == "" {
      TrimLeftBlanks(blanks);
      assert s + blanks == blanks;
    } else {
      TrimRightBlanks(s, blanks);
    }
  }

  lemma {:induction false} TrimLeftBlanks(blanks: string)
    requires Blank(blanks)
    ensures TrimLeft(blanks) == ""
  {
    if blanks != "" {
      TrimLeftBlanks(blanks[1..]);
    }
  }

  lemma {:induction false} TrimRightBlanks(s: string, blanks: string)
    requires s != "" && !IsSpace(s[|s| - 1]) && Blank(blanks)
    ensures TrimRight(s + blanks) == s
  {
    if blanks == "" {
      assert s + blanks == s;
    } else {
      var t := s + blanks;
      assert IsSpace(t[|t| - 1]) by { assert t[|t| - 1] == blanks[|blanks| - 1]; }
      assert t[..|t| - 1] == s + blanks[..|blanks| - 1];
      TrimRightBlanks(s, blanks[..|blanks| - 1]);
    }
  }

  // strings.Split for a one-character separator.
  function Split(s: string, sep: char): (parts: seq<string>)
    ensures parts != []
  {
    if s == "" then [""]
    else
      var rest := Split(s[1..], sep);
      if s[0] == sep then [""] + rest
      else [[s[0]] + rest[0]] + rest[1..]
  }

  function Join(parts: seq<string>, sep: char): string {
    if parts == [] then ""
    else if |parts| == 1 then parts[0]
    else parts[0] + [sep] + Join(parts[1..], sep)
  }

  lemma {:induction false} JoinOfSplit(s: string, sep: char)
    ensures Join(Split(s, sep), sep) == s
  {
    if s != "" {
      var rest := Split(s[1..], sep);
      JoinOfSplit(s[1..], sep);
      if s[0] == sep {
        assert ([""] + rest)[1..] == rest;
      } else {
        assert ([[s[0]] + rest[0]] + rest[1..])[1..] == rest[1..];
      }
    }
  }

  lemma {:induction false} SplitHasNoSeparator(s: string, sep: char)
    ensures forall part :: part in Split(s, sep) ==> sep !in part
  {
    if s != "" {
      SplitHasNoSeparator(s[1..], sep);
    }
  }

  lemma {:induction false} SplitOfPart(s: string, sep: char)
    requires sep !in s
    ensures Split(s, sep) == [s]
  {
    if s != "" {
      SplitOfPart(s[1..], sep);
      assert [s[0]] + s[1..] == s;
    }
  }

  lemma {:induction false} SplitOfConcat(head: string, sep: char, tail: string)
    requires sep !in head
    ensures Split(head + [sep] + tail, sep) == [head] + Split(tail, sep)
  {
    var s := head + [sep] + tail;
    if head == "" {
      assert s[1..] == tail;
    } else {
      assert s[1..] == head[1..] + [sep] + tail;
      SplitOfConcat(head[1..], sep, tail);
      assert [head[0]] + head[1..] == head;
    }
  }

  lemma {:induction false} SplitOfJoin(parts: seq<string>, sep: char)
    requires parts != [] && forall part :: part in parts ==> sep !in part
    ensures Split(Join(parts, sep), sep) == parts
  {
    if |parts| == 1 {
      SplitOfPart(parts[0], sep);
    } else {
      SplitOfConcat(parts[0], sep, Join(parts[1..], sep));
      SplitOfJoin(parts[1..], sep);
    }
  }

  // strings.ReplaceAll of the two-character text `old0 old1` by one character:
  // a left to right scan that does not look at what it has written.
  function ReplacePair(s: string, old0: char, old1: char, new0: char): string {
    if s == "" then ""
    else if |s| >= 2 && s[0] == old0 && s[1] == old1 then [new0] + ReplacePair(s[2..], old0, old1, new0)
    else [s[0]] + ReplacePair(s[1..], old0, old1, new0)
  }
}
