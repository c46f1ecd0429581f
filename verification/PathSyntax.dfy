/** The two spellings of an ignore path, and the one form the rest of the code uses. */
module PathSyntax {
  import opened Wrappers
  import opened Text

  datatype BadPath = Empty | IndexOrWildcard | NotForProvider | Unparsable

  const PREFIX := "forProvider."

  // What fieldpath.Parse rejects once brackets are ruled out: an empty segment.
  predicate Parses(p: string) {
    "" !in Split(p, '.')
  }

  predicate HasIndexOrWildcard(p: string) {
    '[' in p || ']' in p || '*' in p
  }

  // The decoding loop of normalizePath on one reference token.
  function DecodeToken(part: string): string {
    ReplacePair(ReplacePair(part, '~', '1', '/'), '~', '0', '~')
  }

  function DecodeAll(parts: seq<string>): seq<string> {
    seq(|parts|, i requires 0 <= i < |parts| => DecodeToken(parts[i]))
  }

  function PointerToPath(p: string): string
    requires p != "" && p[0] == '/'
  {
    Join(DecodeAll(Split(p[1..], '/')), '.')
  }

  function Check(p: string): Result<string, BadPath> {
    if HasIndexOrWildcard(p) then Failure(IndexOrWildcard)
    else if !(PREFIX <= p) then Failure(NotForProvider)
    else if !Parses(p) then Failure(Unparsable)
    else Success(p)
  }

  function Normalize(s: string): Result<string, BadPath> {
    var p := TrimSpace(s);
    if p == "" then Failure(Empty)
    else Check(if p[0] == '/' then PointerToPath(p) else p)
  }

  method NormalizePath(s: string) returns (result: Result<string, BadPath>)
    ensures result == Normalize(s)
  {
    var p := TrimSpace(s);
    if p == "" {
      return Failure(Empty);
    }
    if p[0] == '/' {
      var parts := Split(p[1..], '/');
      parts := DecodeParts(parts);
      p := Join(parts, '.');
    }
    return Check(p);
  }

  method DecodeParts(tokens: seq<string>) returns (parts: seq<string>)
    ensures parts == DecodeAll(tokens)
  {
    parts := tokens;
    for i := 0 to |parts|
      invariant |parts| == |tokens|
      invariant forall j :: 0 <= j < |parts| ==> parts[j] == if j < i then DecodeToken(tokens[j]) else tokens[j]
    {
      var part := ReplacePair(parts[i], '~', '1', '/');
      parts := parts[i := ReplacePair(part, '~', '0', '~')];
    }
  }

  // ---------------------------------------------------------------- RFC 6901

  // Section 4 of RFC 6901, read in one pass: ~1 stands for a slash, ~0 for a tilde.
  function Unescape(s: string): string {
    if s == "" then ""
    else if |s| >= 2 && s[0] == '~' && s[1] == '1' then "/" + Unescape(s[2..])
    else if |s| >= 2 && s[0] == '~' && s[1] == '0' then "~" + Unescape(s[2..])
    else [s[0]] + Unescape(s[1..])
  }

  // Section 3 of RFC 6901.
  function Escape(token: string): string {
    if token == "" then ""
    else (if token[0] == '~' then "~0" else if token[0] == '/' then "~1" else [token[0]]) + Escape(token[1..])
  }

  function EscapeAll(tokens: seq<string>): seq<string> {
    seq(|tokens|, i requires 0 <= i < |tokens| => Escape(tokens[i]))
  }

  // The two replacements, one after the other, decode as the one-pass reading does.
  lemma {:induction false} TwoReplacementsDecode(s: string)
    ensures DecodeToken(s) == Unescape(s)
  {
    if s != "" {
      var once := ReplacePair(s, '~', '1', '/');
      if |s| >= 2 && s[0] == '~' && s[1] == '1' {
        TwoReplacementsDecode(s[2..]);
        assert once[1..] == ReplacePair(s[2..], '~', '1', '/');
      } else if |s| >= 2 && s[0] == '~' && s[1] == '0' {
        TwoReplacementsDecode(s[2..]);
        var rest := ReplacePair(s[2..], '~', '1', '/');
        assert s[1..][1..] == s[2..];
        assert ReplacePair(s[1..], '~', '1', '/') == "0" + rest;
        assert once[2..] == rest;
      } else {
        TwoReplacementsDecode(s[1..]);
        assert once[1..] == ReplacePair(s[1..], '~', '1', '/');
      }
    }
  }

  lemma {:induction false} UnescapeOfEscape(token: string)
    ensures Unescape(Escape(token)) == token
  {
    if token != "" {
      UnescapeOfEscape(token[1..]);
      var rest := Escape(token[1..]);
      if token[0] == '~' {
        assert ("~0" + rest)[2..] == rest;
      } else if token[0] == '/' {
        assert ("~1" + rest)[2..] == rest;
      } else {
        assert ([token[0]] + rest)[1..] == rest;
      }
    }
  }

  lemma {:induction false} EscapedHasNoSlash(token: string)
    ensures '/' !in Escape(token)
    ensures token != "" ==> Escape(token) != "" && Last(Escape(token)) in [Last(token), '0', '1']
  {
    if token != "" {
      EscapedHasNoSlash(token[1..]);
    }
  }

  function Last(s: string): char
    requires s != ""
  {
    s[|s| - 1]
  }

  // ---------------------------------------------------------------- pointers

  function Pointer(tokens: seq<string>): string {
    "/" + Join(EscapeAll(tokens), '/')
  }

  lemma {:induction false} LastOfJoin(parts: seq<string>, sep: char)
    requires parts != [] && parts[|parts| - 1] != ""
    ensures var j := Join(parts, sep); j != "" && Last(j) == Last(parts[|parts| - 1])
  {
    if |parts| > 1 {
      LastOfJoin(parts[1..], sep);
    }
  }

  lemma PointerDecodes(tokens: seq<string>)
    requires tokens != []
    ensures PointerToPath(Pointer(tokens)) == Join(tokens, '.')
  {
    var escaped := EscapeAll(tokens);
    forall part | part in escaped ensures '/' !in part {
      var i :| 0 <= i < |escaped| && part == escaped[i];
      EscapedHasNoSlash(tokens[i]);
    }
    assert Pointer(tokens)[1..] == Join(escaped, '/');
    SplitOfJoin(escaped, '/');
    forall i | 0 <= i < |tokens| ensures DecodeAll(escaped)[i] == tokens[i] {
      TwoReplacementsDecode(escaped[i]);
      UnescapeOfEscape(tokens[i]);
    }
    assert DecodeAll(escaped) == tokens;
  }

  // A token that means the same in both spellings.
  predicate Plain(token: string) {
    token != "" && '.' !in token && !HasIndexOrWildcard(token)
  }

  // A token list under forProvider, written as a JSON pointer, normalizes to its
  // dotted form.
  lemma PointerNormalizes(tokens: seq<string>)
    requires |tokens| >= 2 && tokens[0] == "forProvider"
    requires AllPlain(tokens) && Plain(tokens[|tokens| - 1]) && !IsSpace(Last(tokens[|tokens| - 1]))
    ensures Normalize(Pointer(tokens)) == Success(Join(tokens, '.'))
  {
    PointerIsTrimmed(tokens);
    PointerDecodes(tokens);
    DottedIsAccepted(tokens);
    NormalizeOfPointer(Pointer(tokens));
  }

  lemma NormalizeOfPointer(p: string)
    requires p != "" && p[0] == '/' && Trimmed(p)
    ensures Normalize(p) == Check(PointerToPath(p))
  {
    TrimOfTrimmed(p);
  }

  lemma PointerIsTrimmed(tokens: seq<string>)
    requires tokens != [] && tokens[|tokens| - 1] != "" && !IsSpace(Last(tokens[|tokens| - 1]))
    ensures Trimmed(Pointer(tokens))
  {
    PointerEnd(tokens);
    NoSpaceEnds(Pointer(tokens), Last(tokens[|tokens| - 1]));
  }

  lemma PointerEnd(tokens: seq<string>)
    requires tokens != [] && tokens[|tokens| - 1] != ""
    ensures Last(Pointer(tokens)) in [Last(tokens[|tokens| - 1]), '0', '1']
  {
    var escaped := EscapeAll(tokens);
    EscapedHasNoSlash(tokens[|tokens| - 1]);
    assert escaped[|tokens| - 1] == Escape(tokens[|tokens| - 1]);
    LastOfJoin(escaped, '/');
  }

  lemma NoSpaceEnds(p: string, c: char)
    requires p != "" && p[0] == '/' && Last(p) in [c, '0', '1'] && !IsSpace(c)
    ensures Trimmed(p)
  {}

  predicate AllPlain(tokens: seq<string>) {
    forall i :: 0 <= i < |tokens| ==> Plain(tokens[i])
  }

  lemma DottedIsAccepted(tokens: seq<string>)
    requires |tokens| >= 2 && tokens[0] == "forProvider" && AllPlain(tokens)
    ensures Check(Join(tokens, '.')) == Success(Join(tokens, '.'))
  {
    DottedParses(tokens);
    DottedHasNoIndex(tokens);
    assert Join(tokens, '.') == PREFIX + Join(tokens[1..], '.');
  }

  lemma DottedParses(tokens: seq<string>)
    requires tokens != [] && AllPlain(tokens)
    ensures Parses(Join(tokens, '.'))
  {
    forall part | part in tokens ensures '.' !in part && part != "" {
      var i :| 0 <= i < |tokens| && part == tokens[i];
    }
    SplitOfJoin(tokens, '.');
  }

  lemma DottedHasNoIndex(tokens: seq<string>)
    requires AllPlain(tokens)
    ensures !HasIndexOrWildcard(Join(tokens, '.'))
  {
    NotInDotted(tokens, '[');
    NotInDotted(tokens, ']');
    NotInDotted(tokens, '*');
  }

  lemma NotInDotted(tokens: seq<string>, c: char)
    requires c != '.' && forall i :: 0 <= i < |tokens| ==> c !in tokens[i]
    ensures c !in Join(tokens, '.')
  {
    if c in Join(tokens, '.') {
      CharsOfJoin(tokens, '.', c);
    }
  }

  lemma {:induction false} CharsOfJoin(parts: seq<string>, sep: char, c: char)
    requires c in Join(parts, sep)
    ensures c == sep || exists part :: part in parts && c in part
  {
    if |parts| > 1 && c !in parts[0] && c != sep {
      CharsOfJoin(parts[1..], sep, c);
    }
  }

  // ---------------------------------------------------------------- idempotence

  // The normalized form normalizes to itself, so a stored path can be read again.
  lemma NormalizedIsStable(s: string)
    requires Normalize(s).Success?
    ensures Normalize(Normalize(s).value) == Normalize(s)
  {
    var p := TrimSpace(s);
    TrimIsTrimmed(s);
    if p[0] == '/' {
      PointerEndsTrimmed(p);
    }
    CheckedIsStable(Normalize(s).value);
  }

  lemma CheckedIsStable(n: string)
    requires Check(n) == Success(n) && !IsSpace(Last(n))
    ensures Normalize(n) == Success(n)
  {
    assert n[0] == PREFIX[0];
    TrimOfTrimmed(n);
  }

  lemma PointerEndsTrimmed(p: string)
    requires p != "" && p[0] == '/' && !IsSpace(Last(p))
    requires Parses(PointerToPath(p))
    ensures PointerToPath(p) != "" && !IsSpace(Last(PointerToPath(p)))
  {
    var part := LastPart(p);
    if DecodeToken(part) == "" {
      EmptyLastPart(DecodeAll(Split(p[1..], '/')));
      assert false;
    }
    DecodedEnd(part);
    LastPartEnds(p);
    LastOfJoin(DecodeAll(Split(p[1..], '/')), '.');
  }

  function LastPart(p: string): string
    requires p != ""
  {
    var parts := Split(p[1..], '/');
    parts[|parts| - 1]
  }

  lemma LastPartEnds(p: string)
    requires p != "" && LastPart(p) != ""
    ensures Last(p) == Last(LastPart(p))
  {
    JoinOfSplit(p[1..], '/');
    LastOfJoin(Split(p[1..], '/'), '/');
  }

  lemma {:induction false} EmptyLastPart(parts: seq<string>)
    requires parts != [] && parts[|parts| - 1] == ""
    ensures "" in Split(Join(parts, '.'), '.')
  {
    if |parts| > 1 {
      EmptyLastPart(parts[1..]);
      EmptyAfterDot(parts[0], Join(parts[1..], '.'));
    }
  }

  lemma {:induction false} EmptyAfterDot(head: string, tail: string)
    requires "" in Split(tail, '.')
    ensures "" in Split(head + ['.'] + tail, '.')[1..]
  {
    var s := head + ['.'] + tail;
    if head == "" {
      assert s[1..] == tail;
    } else {
      assert s[1..] == head[1..] + ['.'] + tail;
      EmptyAfterDot(head[1..], tail);
    }
  }

  lemma {:induction false} DecodedEnd(part: string)
    requires DecodeToken(part) != ""
    ensures part != "" && Last(DecodeToken(part)) in [Last(part), '/', '~']
  {
    TwoReplacementsDecode(part);
    UnescapedEnd(part);
  }

  lemma {:induction false} UnescapedEnd(s: string)
    ensures Unescape(s) == "" <==> s == ""
    ensures s != "" ==> Last(Unescape(s)) in [Last(s), '/', '~']
  {
    if s != "" {
      UnescapedEnd(s[1..]);
      if |s| >= 2 {
        UnescapedEnd(s[2..]);
      }
    }
  }

  // ---------------------------------------------------------------- segments

  // The segments of an accepted path below forProvider.
  function Segments(s: string): (path: seq<string>)
    requires Normalize(s).Success?
    ensures path != [] && "" !in path
  {
    var p := Normalize(s).value;
    SplitOfConcat("forProvider", '.', p[|PREFIX|..]);
    assert p == "forProvider" + ['.'] + p[|PREFIX|..];
    Split(p, '.')[1..]
  }

  // ---------------------------------------------------------------- what is accepted

  function UnescapeAll(tokens: seq<string>): seq<string> {
    seq(|tokens|, i requires 0 <= i < |tokens| => Unescape(tokens[i]))
  }

  // The dotted form of a path in either spelling, by the text and RFC 6901 alone.
  function Dotted(p: string): string {
    if p != "" && p[0] == '/' then Join(UnescapeAll(Split(p[1..], '/')), '.') else p
  }

  // A path is accepted exactly if, blanks at its ends aside, its dotted form is below
  // forProvider, has no empty segment, and holds no bracket and no star. Of several reasons
  // to refuse it a bracket or star comes first, then the root.
  lemma NormalizeIsExact(s: string)
    ensures var n := Dotted(TrimSpace(s));
      match Normalize(s)
      case Success(p) =>
        && p == n && TrimSpace(s) != "" && "forProvider." <= n && "" !in Split(n, '.')
        && forall c :: c in n ==> c !in ['[', ']', '*']
      case Failure(Empty) => TrimSpace(s) == ""
      case Failure(IndexOrWildcard) => TrimSpace(s) != "" && exists c :: c in n && c in ['[', ']', '*']
      case Failure(NotForProvider) =>
        TrimSpace(s) != "" && (forall c :: c in n ==> c !in ['[', ']', '*']) && !("forProvider." <= n)
      case Failure(Unparsable) =>
        && TrimSpace(s) != "" && "forProvider." <= n && "" in Split(n, '.')
        && forall c :: c in n ==> c !in ['[', ']', '*']
  {
    var p := TrimSpace(s);
    if p != "" {
      if p[0] == '/' {
        DecodingUnescapes(Split(p[1..], '/'));
      }
      CheckIsExact(Dotted(p));
    }
  }

  lemma DecodingUnescapes(tokens: seq<string>)
    ensures DecodeAll(tokens) == UnescapeAll(tokens)
  {
    forall i | 0 <= i < |tokens| ensures DecodeAll(tokens)[i] == UnescapeAll(tokens)[i] {
      TwoReplacementsDecode(tokens[i]);
    }
  }

  lemma CheckIsExact(n: string)
    ensures match Check(n)
            case Success(p) =>
              p == n && "forProvider." <= n && "" !in Split(n, '.') && forall c :: c in n ==> c !in ['[', ']', '*']
            case Failure(Empty) => false
            case Failure(IndexOrWildcard) => exists c :: c in n && c in ['[', ']', '*']
            case Failure(NotForProvider) => (forall c :: c in n ==> c !in ['[', ']', '*']) && !("forProvider." <= n)
            case Failure(Unparsable) =>
              "forProvider." <= n && "" in Split(n, '.') && forall c :: c in n ==> c !in ['[', ']', '*']
  {
    if HasIndexOrWildcard(n) {
      var c :| c in ['[', ']', '*'] && c in n;
      assert c in n && c in ['[', ']', '*'];
    }
  }
}
