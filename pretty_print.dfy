/** `prettyPrintTypeString`: breaks a one-line type expression into lines and indents each line
    by its brace depth. */
module PrettyPrint {
  import opened Common

  /** `' '.repeat(indentation).repeat(depth)` throws a `RangeError` for a negative depth. */
  datatype Outcome = Ok(text: string) | RangeError

  // ---------------------------------------------------------------------------------------
  // Brace depth of a string

  function Step(c: char): int
  {
    if c == '{' then 1 else if c == '}' then -1 else 0
  }

  /** The brace depth after reading `s` from depth `d`. */
  function Depth(s: string, d: int): int
    decreases |s|
  {
    if s == [] then d else Depth(s[1..], d + Step(s[0]))
  }

  /** Reading `s` from depth `d`, the depth is never negative. */
  predicate NeverBelow(s: string, d: int)
    decreases |s|
  {
    d >= 0 && (s == [] || NeverBelow(s[1..], d + Step(s[0])))
  }

  /** Every `}` closes an earlier `{`, and every `{` is closed. */
  predicate Balanced(s: string)
  {
    NeverBelow(s, 0) && Depth(s, 0) == 0
  }

  lemma {:induction false} ScanAppend(a: string, b: string, d: int)
    ensures Depth(a + b, d) == Depth(b, Depth(a, d))
    ensures NeverBelow(a + b, d) <==> NeverBelow(a, d) && NeverBelow(b, Depth(a, d))
    decreases |a|
  {
    if a == [] {
      assert a + b == b;
    } else {
      assert (a + b)[1..] == a[1..] + b;
      ScanAppend(a[1..], b, d + Step(a[0]));
    }
  }

  /** Starting `k` deeper shifts every depth by `k`. */
  lemma {:induction false} ScanShift(s: string, d: int, k: nat)
    ensures Depth(s, d + k) == Depth(s, d) + k
    ensures NeverBelow(s, d) ==> NeverBelow(s, d + k)
    decreases |s|
  {
    if s != [] {
      ScanShift(s[1..], d + Step(s[0]), k);
    }
  }

  lemma {:induction false} ScanBraceFree(s: string, d: int)
    requires '{' !in s && '}' !in s
    ensures Depth(s, d) == d
    ensures NeverBelow(s, d) <==> d >= 0
    decreases |s|
  {
    if s != [] {
      assert s[0] != '{' && s[0] != '}';
      ScanBraceFree(s[1..], d);
    }
  }

  /** The depth a reading ends at is one it passed through. */
  lemma {:induction false} NeverBelowEnd(s: string, d: int)
    requires NeverBelow(s, d)
    ensures Depth(s, d) >= 0
    decreases |s|
  {
    if s != [] {
      NeverBelowEnd(s[1..], d + Step(s[0]));
    }
  }

  /** A balanced string read from any depth `d >= 0` stays at or above zero and ends at `d`. */
  lemma BalancedFrom(s: string, d: int)
    requires Balanced(s) && d >= 0
    ensures NeverBelow(s, d) && Depth(s, d) == d
  {
    ScanShift(s, 0, d);
  }

  lemma BalancedAppend(a: string, b: string)
    requires Balanced(a) && Balanced(b)
    ensures Balanced(a + b)
  {
    ScanAppend(a, b, 0);
  }

  lemma BraceFreeBalanced(s: string)
    requires '{' !in s && '}' !in s
    ensures Balanced(s)
  {
    ScanBraceFree(s, 0);
  }

  // ---------------------------------------------------------------------------------------
  // The text transformations

  /** The normalisation applied before anything else: ` } & { ` becomes one space. The
      module-path rewrite of `typeof import(...)` is not part of this model. */
  function Normalise(s: string): string
  {
    ReplaceAll(s, " } & { ", " ")
  }

  /** A newline after every `{` and before every `}`. */
  function BreakBraces(s: string): string
  {
    ReplaceChar(ReplaceChar(s, '{', "{\n"), '}', "\n}")
  }

  /** `.replace(/(\S); /g, '$1;\n ')`: a newline after each `; ` that follows a non-space;
      matches are found left to right and do not overlap. */
  function SplitStatements(s: string): (r: string)
    ensures s != [] ==> r != [] && r[0] == s[0]
    decreases |s|
  {
    if s == [] then []
    else if |s| >= 3 && !IsWhitespace(s[0]) && s[1] == ';' && s[2] == ' ' then
      s[..2] + "\n " + SplitStatements(s[3..])
    else [s[0]] + SplitStatements(s[1..])
  }

  /** The lines the loop walks over. */
  function Lines(typeString: string): seq<string>
  {
    Split(SplitStatements(BreakBraces(typeString)), '\n')
  }

  /** A line as printed: trimmed, and its first `false | true` turned into `boolean`. */
  function CleanLine(line: string): string
  {
    ReplaceFirst(Trim(line), "false | true", "boolean")
  }

  function CleanLines(lines: seq<string>): (r: seq<string>)
    ensures |r| == |lines|
  {
    seq(|lines|, i requires 0 <= i < |lines| => CleanLine(lines[i]))
  }

  /** The loop from `depth` over the cleaned `lines`: the printed text and the final depth, or
      `None` once a line would be indented by a negative depth. */
  function Indent(lines: seq<string>, indentation: int, depth: int): (r: Option<(string, int)>)
    requires indentation >= 1
    decreases |lines|
  {
    if lines == [] then Some(("", depth))
    else match PrintLine(lines[0], indentation, depth)
      case None => None
      case Some((printed, next)) => Prepend(printed, Indent(lines[1..], indentation, next))
  }

  /** One cleaned line at `depth`: a line holding `}` is printed one level out, and a line
      holding `{` opens a level for the lines after it. The result is the printed text and the
      depth for the next line, or `None` when the indent would be negative. */
  function PrintLine(line: string, indentation: int, depth: int): (r: Option<(string, int)>)
    requires indentation >= 1
  {
    var d := if '}' in line then depth - 1 else depth;
    if d < 0 then None
    else Some((Repeat(Spaces(indentation), d) + line + "\n", if '{' in line then d + 1 else d))
  }

  /** `s.repeat(n)`. */
  function Repeat(s: string, n: nat): string
  {
    if n == 0 then "" else s + Repeat(s, n - 1)
  }

  /** A line's margin is `indentation * depth` spaces. */
  lemma {:induction false} MarginWidth(indentation: nat, depth: nat)
    ensures Repeat(Spaces(indentation), depth) == Spaces(indentation * depth)
  {
    if depth > 0 {
      MarginWidth(indentation, depth - 1);
      assert indentation * depth == indentation + indentation * (depth - 1);
      var a := Spaces(indentation);
      var b := Spaces(indentation * (depth - 1));
      assert a + b == Spaces(indentation * depth);
    }
  }

  function Prepend(prefix: string, o: Option<(string, int)>): Option<(string, int)>
  {
    match o
    case None => None
    case Some((text, depth)) => Some((prefix + text, depth))
  }

  /** `prettyPrintTypeString(typeStringInput, indentation)`, before its three closing regex
      clean-ups. */
  function PrettyPrinted(typeStringInput: string, indentation: int): Outcome
  {
    var typeString := Normalise(typeStringInput);
    if indentation < 1 then Ok(typeString)
    else match Indent(CleanLines(Lines(typeString)), indentation, 0)
      case None => RangeError
      case Some((text, _)) => Ok(text)
  }

  /** `prettyPrintTypeString`: the normalisation, then the loop over the lines. */
  method PrettyPrintTypeString(typeStringInput: string, indentation: int) returns (r: Outcome)
    ensures r == PrettyPrinted(typeStringInput, indentation)
  {
    var typeString := Normalise(typeStringInput);
    if indentation < 1 {
      return Ok(typeString);
    }
    var lines := Lines(typeString);
    r := IndentLines(lines, indentation);
  }

  /** The source's loop over the lines, updating `depth` and appending to `result`. */
  method IndentLines(lines: seq<string>, indentation: int) returns (r: Outcome)
    requires indentation >= 1
    ensures Indent(CleanLines(lines), indentation, 0).None? ==> r == RangeError
    ensures Indent(CleanLines(lines), indentation, 0).Some?
            ==> r == Ok(Indent(CleanLines(lines), indentation, 0).value.0)
  {
    ghost var cleaned := CleanLines(lines);
    ghost var total := Indent(cleaned, indentation, 0);
    var depth := 0;
    var result := "";
    assert cleaned[0..] == cleaned;
    PrependTwice("", "", total);
    for i := 0 to |lines|
      invariant depth >= 0
      invariant total == Prepend(result, Indent(cleaned[i..], indentation, depth))
    {
      var line := CleanLine(lines[i]);
      var hasOpenBrace := '{' in line;
      var hasCloseBrace := '}' in line;
      ghost var previous := depth;
      if hasCloseBrace {
        depth := depth - 1;
      }
      IndentUnroll(cleaned, i, indentation, previous, depth, result);
      if depth < 0 {
        return RangeError;
      }
      result := result + (Repeat(Spaces(indentation), depth) + line + "\n");
      if hasOpenBrace {
        depth := depth + 1;
      }
    }
    assert cleaned[|lines|..] == [];
    r := Ok(result);
  }

  /** One turn of the loop, from the text printed so far, where the line at `i` is indented
      by `depth`: it fails on a negative indent, or is appended to the text before the rest of
      the lines, which start from the depth it leaves. */
  lemma IndentUnroll(cleaned: seq<string>, i: nat, indentation: int, previous: int, depth: int, result: string)
    requires indentation >= 1 && i < |cleaned|
    requires depth == if '}' in cleaned[i] then previous - 1 else previous
    requires Indent(cleaned, indentation, 0) == Prepend(result, Indent(cleaned[i..], indentation, previous))
    ensures depth < 0 ==> Indent(cleaned, indentation, 0).None?
    ensures depth >= 0 ==> Indent(cleaned, indentation, 0)
                           == Prepend(result + (Repeat(Spaces(indentation), depth) + cleaned[i] + "\n"),
                                      Indent(cleaned[i + 1..], indentation, if '{' in cleaned[i] then depth + 1 else depth))
  {
    assert cleaned[i..][0] == cleaned[i];
    assert cleaned[i..][1..] == cleaned[i + 1..];
    if depth >= 0 {
      var printed := Repeat(Spaces(indentation), depth) + cleaned[i] + "\n";
      PrependTwice(result, printed, Indent(cleaned[i + 1..], indentation, if '{' in cleaned[i] then depth + 1 else depth));
    }
  }

  lemma PrependTwice(a: string, b: string, o: Option<(string, int)>)
    ensures Prepend(a, Prepend(b, o)) == Prepend(a + b, o)
    ensures Prepend("", o) == o
  {
    match o
    case None =>
    case Some((text, _)) =>
      assert a + (b + text) == (a + b) + text;
      assert "" + text == text;
  }

  // ---------------------------------------------------------------------------------------
  // Line structure after the brace breaks

  /** Neighbouring characters: a `{` is followed by a newline, and a `}` follows one. */
  predicate Neighbours(a: char, b: char)
  {
    (a == '{' ==> b == '\n') && (b == '}' ==> a == '\n')
  }

  /** Every `{` ends a line and every `}` starts one. */
  predicate BracesBreakLines(s: string)
  {
    forall i :: 0 <= i < |s| - 1 ==> Neighbours(s[i], s[i + 1])
  }

  lemma BreaksAppend(a: string, b: string)
    requires BracesBreakLines(a) && BracesBreakLines(b)
    requires a != [] && b != [] ==> Neighbours(a[|a| - 1], b[0])
    ensures BracesBreakLines(a + b)
  {
    var ab := a + b;
    forall i | 0 <= i < |ab| - 1 ensures Neighbours(ab[i], ab[i + 1]) {
      if i < |a| - 1 {
        assert ab[i] == a[i] && ab[i + 1] == a[i + 1];
      } else if i >= |a| {
        assert ab[i] == b[i - |a|] && ab[i + 1] == b[i + 1 - |a|];
      }
    }
  }

  lemma BreaksSlice(s: string, lo: nat, hi: nat)
    requires BracesBreakLines(s) && lo <= hi <= |s|
    ensures BracesBreakLines(s[lo..hi])
  {
    var t := s[lo..hi];
    forall i | 0 <= i < |t| - 1 ensures Neighbours(t[i], t[i + 1]) {
      assert t[i] == s[lo + i] && t[i + 1] == s[lo + i + 1];
    }
  }

  /** What `BreakBraces` makes of one character. */
  function BracePiece(c: char): string
  {
    if c == '{' then "{\n" else if c == '}' then "\n}" else [c]
  }

  lemma BreakBracesFirst(s: string)
    requires s != []
    ensures BreakBraces(s) == BracePiece(s[0]) + BreakBraces(s[1..])
  {
    assert s == [s[0]] + s[1..];
    ReplaceCharAppend([s[0]], s[1..], '{', "{\n");
    var first := ReplaceChar([s[0]], '{', "{\n");
    assert [s[0]][1..] == [];
    assert first == if s[0] == '{' then "{\n" else [s[0]];
    ReplaceCharAppend(first, ReplaceChar(s[1..], '{', "{\n"), '}', "\n}");
    if s[0] == '{' {
      assert "{\n"[1..] == "\n" && "\n"[1..] == [];
    } else {
      assert first[1..] == [];
    }
  }

  /** `{c}` read from `d`: its only brace, if any, comes first. */
  lemma ScanLeadingBrace(x: string, d: int)
    requires x != [] && '{' !in x[1..] && '}' !in x[1..]
    ensures Depth(x, d) == d + Step(x[0])
    ensures NeverBelow(x, d) <==> d >= 0 && d + Step(x[0]) >= 0
  {
    ScanBraceFree(x[1..], d + Step(x[0]));
  }

  /** The brace breaks keep the brace depth and leave every `{` at a line end and every `}`
      at a line start. */
  lemma {:induction false} BreakBracesShape(s: string, d: int)
    ensures BracesBreakLines(BreakBraces(s))
    ensures BreakBraces(s) != [] ==> BreakBraces(s)[0] != '}'
    ensures Depth(BreakBraces(s), d) == Depth(s, d)
    ensures NeverBelow(BreakBraces(s), d) <==> NeverBelow(s, d)
    decreases |s|, 1
  {
    if s == [] {
      assert BreakBraces(s) == [];
    } else {
      BreakBracesStep(s, d);
    }
  }

  /** The inductive step of `BreakBracesShape`, over the first character. */
  lemma {:induction false} BreakBracesStep(s: string, d: int)
    requires s != []
    ensures BracesBreakLines(BreakBraces(s))
    ensures BreakBraces(s)[0] != '}'
    ensures Depth(BreakBraces(s), d) == Depth(s, d)
    ensures NeverBelow(BreakBraces(s), d) <==> NeverBelow(s, d)
    decreases |s|, 0
  {
    BreakBracesFirst(s);
    var piece := BracePiece(s[0]);
    var rest := BreakBraces(s[1..]);
    BreakBracesShape(s[1..], d + Step(s[0]));
    assert Depth(piece, d) == d + Step(s[0]) && (NeverBelow(piece, d) <==> NeverBelow([s[0]], d)) by {
      if s[0] == '{' {
        assert piece[1..] == "\n";
        ScanLeadingBrace(piece, d);
      } else if s[0] == '}' {
        assert piece == "\n" + "}";
        ScanAppend("\n", "}", d);
        ScanBraceFree("\n", d);
        ScanLeadingBrace("}", d);
      } else {
        ScanLeadingBrace(piece, d);
      }
      ScanLeadingBrace([s[0]], d);
    }
    assert s == [s[0]] + s[1..];
    ScanAppend([s[0]], s[1..], d);
    ScanAppend(piece, rest, d);
    BreaksAppend(piece, rest);
  }

  /** The replacement for one `c; `: the same first character, a `;`, then a line break. */
  lemma StatementBreak(s: string, d: int)
    requires |s| >= 3 && s[1] == ';' && s[2] == ' ' && BracesBreakLines(s)
    ensures var head := s[..2] + "\n ";
            && BracesBreakLines(head)
            && Depth(head, d) == Depth(s[..3], d)
            && (NeverBelow(head, d) <==> NeverBelow(s[..3], d))
            && (s[3..] != [] ==> Neighbours(head[|head| - 1], s[3..][0]))
  {
    var head := s[..2] + "\n ";
    assert head[1..] == ";\n " && s[..3][1..] == "; ";
    ScanLeadingBrace(head, d);
    ScanLeadingBrace(s[..3], d);
    assert Neighbours(s[0], s[1]);
    if |s| > 3 {
      assert Neighbours(s[2], s[3]);
    }
  }

  /** Splitting after `; ` keeps the brace depth and the line breaks around braces. */
  lemma {:induction false} SplitStatementsShape(s: string, d: int)
    requires BracesBreakLines(s)
    ensures BracesBreakLines(SplitStatements(s))
    ensures Depth(SplitStatements(s), d) == Depth(s, d)
    ensures NeverBelow(SplitStatements(s), d) <==> NeverBelow(s, d)
    decreases |s|, 1
  {
    if s == [] {
    } else if |s| >= 3 && !IsWhitespace(s[0]) && s[1] == ';' && s[2] == ' ' {
      SplitStatementsBreak(s, d);
    } else {
      SplitStatementsKeep(s, d);
    }
  }

  /** The step over a `c; ` that is split. */
  lemma {:induction false} SplitStatementsBreak(s: string, d: int)
    requires BracesBreakLines(s)
    requires |s| >= 3 && !IsWhitespace(s[0]) && s[1] == ';' && s[2] == ' '
    ensures BracesBreakLines(SplitStatements(s))
    ensures Depth(SplitStatements(s), d) == Depth(s, d)
    ensures NeverBelow(SplitStatements(s), d) <==> NeverBelow(s, d)
    decreases |s|, 0
  {
    var head := s[..2] + "\n ";
    var rest := s[3..];
    assert SplitStatements(s) == head + SplitStatements(rest);
    BreaksSlice(s, 3, |s|);
    SplitStatementsShape(rest, d + Step(s[0]));
    StatementBreak(s, d);
    ScanLeadingBrace(s[..3], d);
    assert s == s[..3] + rest;
    ScanAppend(s[..3], rest, d);
    ScanAppend(head, SplitStatements(rest), d);
    BreaksAppend(head, SplitStatements(rest));
  }

  /** The step over a character that is kept as it is. */
  lemma {:induction false} SplitStatementsKeep(s: string, d: int)
    requires BracesBreakLines(s) && s != []
    requires !(|s| >= 3 && !IsWhitespace(s[0]) && s[1] == ';' && s[2] == ' ')
    ensures BracesBreakLines(SplitStatements(s))
    ensures Depth(SplitStatements(s), d) == Depth(s, d)
    ensures NeverBelow(SplitStatements(s), d) <==> NeverBelow(s, d)
    decreases |s|, 0
  {
    assert SplitStatements(s) == [s[0]] + SplitStatements(s[1..]);
    BreaksSlice(s, 1, |s|);
    SplitStatementsShape(s[1..], d + Step(s[0]));
    ScanLeadingBrace([s[0]], d);
    if |s| > 1 {
      assert Neighbours(s[0], s[1]);
    }
    assert s == [s[0]] + s[1..];
    ScanAppend([s[0]], s[1..], d);
    ScanAppend([s[0]], SplitStatements(s[1..]), d);
    BreaksAppend([s[0]], SplitStatements(s[1..]));
  }

  /** A stretch whose only brace is a trailing `{`. */
  lemma ScanTrailingBrace(x: string, d: int)
    requires '}' !in x && forall j :: 0 <= j < |x| - 1 ==> x[j] != '{'
    ensures Depth(x, d) == d + (if '{' in x then 1 else 0)
    ensures NeverBelow(x, d) <==> d >= 0
  {
    if x != [] {
      var front := x[..|x| - 1];
      assert x == front + [x[|x| - 1]];
      assert '{' !in front;
      ScanBraceFree(front, d);
      ScanAppend(front, [x[|x| - 1]], d);
    }
  }

  /** A line of such a string holds at most a leading `}` and a trailing `{`, so reading it
      dips below the starting depth only through that `}`. */
  lemma LineBraces(line: string, d: int)
    requires BracesBreakLines(line) && '\n' !in line && d >= 0
    ensures NeverBelow(line, d) <==> ('}' in line ==> d >= 1)
    ensures Depth(line, d) == d - (if '}' in line then 1 else 0) + (if '{' in line then 1 else 0)
  {
    forall j | 0 < j < |line| ensures line[j] != '}' {
      assert line[j - 1] in line;
    }
    forall j | 0 <= j < |line| - 1 ensures line[j] != '{' {
      assert line[j + 1] in line;
    }
    if line != [] && line[0] == '}' {
      var rest := line[1..];
      assert '}' !in rest;
      assert '{' in line <==> '{' in rest;
      ScanTrailingBrace(rest, d - 1);
    } else {
      ScanTrailingBrace(line, d);
    }
  }

  lemma CleanLineKeepsBraces(line: string)
    ensures '{' in CleanLine(line) <==> '{' in line
    ensures '}' in CleanLine(line) <==> '}' in line
  {
    TrimKeeps(line, '{');
    TrimKeeps(line, '}');
    ReplaceFirstKeeps(Trim(line), "false | true", "boolean", '{');
    ReplaceFirstKeeps(Trim(line), "false | true", "boolean", '}');
  }

  /** One line: printing it fails exactly when its depth would go negative. */
  lemma PrintLineTracksDepth(line: string, indentation: int, d: int)
    requires indentation >= 1 && d >= 0 && BracesBreakLines(line) && '\n' !in line
    ensures var r := PrintLine(CleanLine(line), indentation, d);
            && (r.Some? <==> NeverBelow(line, d))
            && (r.Some? ==> r.value.1 == Depth(line, d))
  {
    CleanLineKeepsBraces(line);
    LineBraces(line, d);
  }

  /** The loop over `[line] + lines`: the first line is printed, then the rest from the depth
      it leaves, failing exactly when either fails. */
  lemma IndentFirst(line: string, lines: seq<string>, indentation: int, d: int)
    requires indentation >= 1
    ensures var r := Indent(CleanLines([line] + lines), indentation, d);
            var first := PrintLine(CleanLine(line), indentation, d);
            && (r.Some? <==> first.Some? && Indent(CleanLines(lines), indentation, first.value.1).Some?)
            && (r.Some? ==> r.value.1 == Indent(CleanLines(lines), indentation, first.value.1).value.1)
  {
    assert CleanLines([line] + lines)[1..] == CleanLines(lines);
  }

  lemma ScanNewline(s: string, first: string, rest: string, d: int)
    requires s == first + ("\n" + rest)
    ensures Depth(s, d) == Depth(rest, Depth(first, d))
    ensures NeverBelow(s, d) <==> NeverBelow(first, d) && NeverBelow(rest, Depth(first, d))
  {
    ScanAppend(first, "\n" + rest, d);
    assert ("\n" + rest)[1..] == rest;
    if NeverBelow(first, d) {
      NeverBelowEnd(first, d);
    }
  }

  /** The loop over the cleaned lines of `s` from depth `d` fails exactly when the brace depth of
      `s` goes negative, and otherwise ends at the final depth of `s`. */
  predicate IndentTracks(s: string, indentation: int, d: int)
    requires indentation >= 1
  {
    var r := Indent(CleanLines(Split(s, '\n')), indentation, d);
    && (r.Some? <==> NeverBelow(s, d))
    && (r.Some? ==> r.value.1 == Depth(s, d))
  }

  lemma IndentOneLine(s: string, indentation: int, d: int)
    requires indentation >= 1 && d >= 0 && BracesBreakLines(s) && '\n' !in s
    ensures IndentTracks(s, indentation, d)
  {
    assert Split(s, '\n') == [s] + [];
    IndentFirst(s, [], indentation, d);
    PrintLineTracksDepth(s, indentation, d);
  }

  /** The step over the first line: if the rest is tracked from the depth the first line
      leaves, the whole string is tracked. */
  lemma IndentNewline(s: string, first: string, rest: string, indentation: int, d: int)
    requires indentation >= 1 && d >= 0 && BracesBreakLines(first) && '\n' !in first
    requires s == first + ("\n" + rest) && Split(s, '\n') == [first] + Split(rest, '\n')
    requires NeverBelow(first, d) ==> IndentTracks(rest, indentation, Depth(first, d))
    ensures IndentTracks(s, indentation, d)
  {
    PrintLineTracksDepth(first, indentation, d);
    ScanNewline(s, first, rest, d);
    IndentFirst(first, Split(rest, '\n'), indentation, d);
  }

  /** Over the lines of a string whose braces break lines, the loop fails exactly when the
      brace depth of the string goes negative, and otherwise ends at its final depth. */
  lemma {:induction false} IndentTracksDepth(s: string, indentation: int, d: int)
    requires indentation >= 1 && d >= 0 && BracesBreakLines(s)
    ensures IndentTracks(s, indentation, d)
    decreases |s|, 1
  {
    if '\n' !in s {
      IndentOneLine(s, indentation, d);
    } else {
      IndentTracksLines(s, indentation, d);
    }
  }

  /** The inductive step of `IndentTracksDepth`, over the first newline of `s`. */
  lemma {:induction false} IndentTracksLines(s: string, indentation: int, d: int)
    requires indentation >= 1 && d >= 0 && BracesBreakLines(s) && '\n' in s
    ensures IndentTracks(s, indentation, d)
    decreases |s|, 0
  {
    var k := IndexOf(s, '\n');
    var first := s[..k];
    var rest := s[k + 1..];
    assert s == first + ("\n" + rest);
    assert Split(s, '\n') == [first] + Split(rest, '\n');
    assert BracesBreakLines(first) by {
      BreaksSlice(s, 0, k);
    }
    assert NeverBelow(first, d) ==> IndentTracks(rest, indentation, Depth(first, d)) by {
      if NeverBelow(first, d) {
        BreaksSlice(s, k + 1, |s|);
        NeverBelowEnd(first, d);
        IndentTracksDepth(rest, indentation, Depth(first, d));
      }
    }
    IndentNewline(s, first, rest, indentation, d);
  }

  // ---------------------------------------------------------------------------------------
  // When the printer throws

  /** The merged intersection joint ` } & { ` closes and reopens a brace, so it needs depth one
      and leaves the depth where it was; its one-space replacement needs nothing. */
  lemma JointScan(d: int)
    ensures Depth(" } & { ", d) == d && (NeverBelow(" } & { ", d) <==> d >= 1)
    ensures Depth(" ", d) == d && (NeverBelow(" ", d) <==> d >= 0)
  {
    assert " } & { " == " " + ("} & " + "{ ");
    ScanBraceFree(" ", d);
    assert "} & "[1..] == " & " && "{ "[1..] == " ";
    ScanLeadingBrace("} & ", d);
    ScanLeadingBrace("{ ", d - 1);
    ScanAppend("} & ", "{ ", d);
    ScanAppend(" ", "} & " + "{ ", d);
  }

  /** The normalisation keeps the final brace depth and never makes it dip. */
  lemma {:induction false} NormaliseKeepsScan(s: string, d: int)
    ensures Depth(ReplaceAll(s, " } & { ", " "), d) == Depth(s, d)
    ensures NeverBelow(s, d) ==> NeverBelow(ReplaceAll(s, " } & { ", " "), d)
    decreases |s|
  {
    var joint := " } & { ";
    if |s| < |joint| {
    } else if s[..|joint|] == joint {
      var rest := s[|joint|..];
      assert s == joint + rest;
      JointScan(d);
      ScanAppend(joint, rest, d);
      NormaliseKeepsScan(rest, d);
      ScanAppend(" ", ReplaceAll(rest, joint, " "), d);
    } else {
      var merged := ReplaceAll(s[1..], joint, " ");
      assert ([s[0]] + merged)[1..] == merged;
      NormaliseKeepsScan(s[1..], d + Step(s[0]));
    }
  }

  /** With an indentation of at least one, `prettyPrintTypeString` throws exactly when some `}`
      of the normalised type string has no open `{` before it. */
  lemma PrettyPrintFailsIffUnderflow(typeStringInput: string, indentation: int)
    requires indentation >= 1
    ensures PrettyPrinted(typeStringInput, indentation).RangeError?
            <==> !NeverBelow(Normalise(typeStringInput), 0)
    ensures var typeString := Normalise(typeStringInput);
            var r := Indent(CleanLines(Lines(typeString)), indentation, 0);
            NeverBelow(typeString, 0) ==> r.Some? && r.value.1 == Depth(typeString, 0)
  {
    var typeString := Normalise(typeStringInput);
    BreakBracesShape(typeString, 0);
    SplitStatementsShape(BreakBraces(typeString), 0);
    IndentTracksDepth(SplitStatements(BreakBraces(typeString)), indentation, 0);
  }

  /** A type string whose braces balance never makes the printer throw. */
  lemma BalancedNeverFails(typeStringInput: string, indentation: int)
    requires Balanced(typeStringInput)
    ensures PrettyPrinted(typeStringInput, indentation).Ok?
    ensures indentation >= 1 ==>
              var r := Indent(CleanLines(Lines(Normalise(typeStringInput))), indentation, 0);
              r.Some? && r.value.1 == 0
  {
    if indentation >= 1 {
      NormaliseKeepsScan(typeStringInput, 0);
      PrettyPrintFailsIffUnderflow(typeStringInput, indentation);
    }
  }

  lemma NoJointIn(text: string)
    requires '&' !in text
    ensures Normalise(text) == text
  {
    assert " } & { "[3] == '&';
    ReplaceAllAbsent(text, " } & { ", " ", '&');
  }

  /** `{ a: "`, then `}"; `, then `}`: depth one, zero, then -1. */
  lemma ClosingTwiceUnderflows(opening: string, literal: string, closing: string)
    requires opening == "{ a: \"" && literal == "}\"; " && closing == "}"
    ensures !NeverBelow(opening + (literal + closing), 0)
  {
    assert opening[1..] == " a: \"" && literal[1..] == "\"; " && closing[1..] == [];
    ScanLeadingBrace(opening, 0);
    ScanLeadingBrace(literal, 1);
    ScanLeadingBrace(closing, 0);
    ScanAppend(literal, closing, 1);
    ScanAppend(opening, literal + closing, 0);
  }

  /** The object type `{ a: "}"; }` with a `}` inside a string literal: its braces do not
      balance, and its last `}` takes the depth to -1. */
  lemma BraceInLiteralUnderflows(text: string)
    requires text == "{ a: \"}\"; }"
    ensures Normalise(text) == text && !NeverBelow(text, 0)
  {
    NoJointIn(text);
    assert text == "{ a: \"" + ("}\"; " + "}");
    ClosingTwiceUnderflows("{ a: \"", "}\"; ", "}");
  }

  /** The printer counts every brace, including one inside a string literal type, so it throws
      on `{ a: "}"; }`: `repeat(-1)` is a `RangeError`. */
  lemma BraceInLiteralFails(text: string, indentation: int)
    requires text == "{ a: \"}\"; }" && indentation >= 1
    ensures PrettyPrinted(text, indentation) == RangeError
  {
    BraceInLiteralUnderflows(text);
    PrettyPrintFailsIffUnderflow(text, indentation);
  }

  // ---------------------------------------------------------------------------------------
  // A printer that does not throw

  /** One line as printed when the depth is kept at zero or above: an unmatched `}` is indented
      like its neighbours instead of throwing. */
  function PrintLineClamped(line: string, indentation: nat, depth: nat): (string, nat)
  {
    var d := if '}' in line then Max(0, depth - 1) else depth;
    (Repeat(Spaces(indentation), d) + line + "\n", if '{' in line then d + 1 else d)
  }

  function IndentClamped(lines: seq<string>, indentation: nat, depth: nat): (string, nat)
    decreases |lines|
  {
    if lines == [] then ("", depth)
    else
      var (printed, next) := PrintLineClamped(lines[0], indentation, depth);
      var (text, last) := IndentClamped(lines[1..], indentation, next);
      (printed + text, last)
  }

  /** `prettyPrintTypeString` with the depth clamped at zero. */
  function PrettyPrintedClamped(typeStringInput: string, indentation: int): string
  {
    var typeString := Normalise(typeStringInput);
    if indentation < 1 then typeString
    else IndentClamped(CleanLines(Lines(typeString)), indentation, 0).0
  }

  /** Wherever the loop does not throw, clamping changes nothing. */
  lemma {:induction false} IndentClampedAgrees(lines: seq<string>, indentation: int, depth: nat)
    requires indentation >= 1 && Indent(lines, indentation, depth).Some?
    ensures IndentClamped(lines, indentation, depth) == Indent(lines, indentation, depth).value
    decreases |lines|
  {
    if lines != [] {
      var next := PrintLine(lines[0], indentation, depth).value.1;
      assert PrintLineClamped(lines[0], indentation, depth) == PrintLine(lines[0], indentation, depth).value;
      IndentClampedAgrees(lines[1..], indentation, next);
    }
  }

  /** The clamped printer prints every type string, and prints exactly what
      `prettyPrintTypeString` prints wherever that does not throw. */
  lemma ClampedExtendsPrinter(typeStringInput: string, indentation: int)
    ensures PrettyPrinted(typeStringInput, indentation).Ok?
            ==> PrettyPrinted(typeStringInput, indentation).text == PrettyPrintedClamped(typeStringInput, indentation)
  {
    if indentation >= 1 && PrettyPrinted(typeStringInput, indentation).Ok? {
      IndentClampedAgrees(CleanLines(Lines(Normalise(typeStringInput))), indentation, 0);
    }
  }
}
