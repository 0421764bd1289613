/**
 splitLines of internal/capture/diff.go: how a capture becomes lines.

 A text is written down from its lines with any mixture of LF and CRLF, with or
 without a terminator on the last one. The theorem says exactly when splitting
 gives the lines back, which is what makes line endings and a missing final
 newline no change.
 */
module TextLines {
  import opened Sequences

  const CR: string := "\r"
  const LF: string := "\n"
  const CRLF: string := "\r\n"

  predicate StartsWithCrLf(s: string) {
    |s| >= 2 && s[0] == '\r' && s[1] == '\n'
  }

  function ReplaceCrLf(s: string): string {
    if s == "" then ""
    else if StartsWithCrLf(s) then LF + ReplaceCrLf(s[2..])
    else [s[0]] + ReplaceCrLf(s[1..])
  }

  /** The stretches of s between line feeds; one more of them than there are line feeds. */
  function SplitAtLf(s: string): (parts: seq<string>)
    ensures parts != []
  {
    if s == [] then [""]
    else
      var rest := SplitAtLf(s[1..]);
      if s[0] == '\n' then [""] + rest else [[s[0]] + rest[0]] + rest[1..]
  }

  function TrimAll(parts: seq<string>): seq<string> {
    if parts == [] then [] else [TrimSuffix(parts[0], CR)] + TrimAll(parts[1..])
  }

  /** What splitting returns. */
  function Lines(text: string): seq<string> {
    var t := TrimSuffix(ReplaceCrLf(text), LF);
    if t == "" then [] else TrimAll(SplitAtLf(t))
  }

  method SplitLines(text: string) returns (out: seq<string>)
    ensures out == Lines(text)
  {
    var t := TrimSuffix(ReplaceCrLf(text), LF);
    if |t| == 0 {
      return [];
    }
    var parts := SplitAtLf(t);
    out := [];
    for i := 0 to |parts|
      invariant out + TrimAll(parts[i..]) == TrimAll(parts)
    {
      assert parts[i..][1..] == parts[i + 1..];
      out := out + [TrimSuffix(parts[i], CR)];
    }
  }

  // ----- writing lines down

  /** A line's own characters: no line feed, and no carriage return that would join its terminator. */
  predicate Clean(line: string) {
    '\n' !in line && (line == "" || line[|line| - 1] != '\r')
  }

  function Terminator(crlf: bool): string {
    if crlf then CRLF else LF
  }

  /** The lines as a text; crlf chooses each line's terminator, final whether the last one has any. */
  function Render(lines: seq<string>, crlf: seq<bool>, final: bool): string
    requires |crlf| == |lines|
  {
    if lines == [] then ""
    else if |lines| == 1 then lines[0] + (if final then Terminator(crlf[0]) else "")
    else lines[0] + Terminator(crlf[0]) + Render(lines[1..], crlf[1..], final)
  }

  function Join(lines: seq<string>): string {
    if lines == [] then "" else if |lines| == 1 then lines[0] else lines[0] + LF + Join(lines[1..])
  }

  /** When a text written from lines can be read back: an empty last line needs its terminator. */
  predicate Readable(lines: seq<string>, final: bool) {
    lines != [""] && (final || lines == [] || lines[|lines| - 1] != "")
  }

  /** Replacing leaves a line's own characters alone, unless its end joins what comes after it. */
  lemma {:induction false} ReplaceInner(line: string, rest: string)
    requires '\n' !in line && (line == "" || line[|line| - 1] != '\r' || rest == "" || rest[0] != '\n')
    ensures ReplaceCrLf(line + rest) == line + ReplaceCrLf(rest)
    decreases |line|
  {
    if line == "" {
      assert line + rest == rest;
    } else {
      var s := line + rest;
      assert s[0] == line[0] && s[1..] == line[1..] + rest;
      ReplaceInner(line[1..], rest);
      assert |line| >= 2 ==> s[1] == line[1] && line[1] in line;
      assert !StartsWithCrLf(s);
      assert [line[0]] + (line[1..] + ReplaceCrLf(rest)) == line + ReplaceCrLf(rest);
    }
  }

  lemma {:induction false} ReplaceTerminator(crlf: bool, rest: string)
    ensures ReplaceCrLf(Terminator(crlf) + rest) == LF + ReplaceCrLf(rest)
  {
    var s := Terminator(crlf) + rest;
    assert s[|Terminator(crlf)|..] == rest;
    assert StartsWithCrLf(s) == crlf;
  }

  lemma {:induction false} ReplaceLast(line: string, crlf: bool, final: bool)
    requires Clean(line)
    ensures ReplaceCrLf(line + (if final then Terminator(crlf) else "")) == line + (if final then LF else "")
  {
    if final {
      ReplaceInner(line, Terminator(crlf));
      ReplaceTerminator(crlf, "");
      assert Terminator(crlf) + "" == Terminator(crlf);
    } else {
      ReplaceInner(line, "");
    }
  }

  lemma {:induction false} ReplaceCons(line: string, crlf: bool, rest: string, joined: string, end: string)
    requires Clean(line) && ReplaceCrLf(rest) == joined + end
    ensures ReplaceCrLf(line + Terminator(crlf) + rest) == line + LF + joined + end
  {
    Regroup(line, Terminator(crlf), rest);
    ReplaceInner(line, Terminator(crlf) + rest);
    ReplaceTerminator(crlf, rest);
    Regroup(line, LF, joined);
    Regroup(line, LF + joined, end);
    Regroup(LF, joined, end);
  }

  /** After replacing, which terminators were CRLF no longer shows. */
  lemma {:induction false} ReplaceRender(lines: seq<string>, crlf: seq<bool>, final: bool)
    requires |crlf| == |lines| && forall l | l in lines :: Clean(l)
    ensures ReplaceCrLf(Render(lines, crlf, final)) == Join(lines) + (if final && lines != [] then LF else "")
  {
    if |lines| == 1 {
      ReplaceLast(lines[0], crlf[0], final);
    } else if |lines| > 1 {
      ReplaceRender(lines[1..], crlf[1..], final);
      assert Clean(lines[0]);
      ReplaceCons(lines[0], crlf[0], Render(lines[1..], crlf[1..], final), Join(lines[1..]), if final then LF else "");
    }
  }

  lemma {:induction false} SplitSkipsLine(line: string, rest: string)
    requires '\n' !in line
    ensures SplitAtLf(line + rest) == [line + SplitAtLf(rest)[0]] + SplitAtLf(rest)[1..]
  {
    if line == "" {
      assert line + rest == rest;
      assert "" + SplitAtLf(rest)[0] == SplitAtLf(rest)[0];
    } else {
      assert (line + rest)[1..] == line[1..] + rest;
      SplitSkipsLine(line[1..], rest);
      assert [line[0]] + (line[1..] + SplitAtLf(rest)[0]) == line + SplitAtLf(rest)[0];
    }
  }

  lemma {:induction false} SplitJoin(lines: seq<string>)
    requires lines != [] && forall l | l in lines :: '\n' !in l
    ensures SplitAtLf(Join(lines)) == lines
  {
    if |lines| == 1 {
      SplitSkipsLine(lines[0], "");
      assert lines[0] + "" == lines[0] && lines == [lines[0]];
    } else {
      SplitJoin(lines[1..]);
      assert Join(lines) == lines[0] + (LF + Join(lines[1..]));
      SplitSkipsLine(lines[0], LF + Join(lines[1..]));
      assert (LF + Join(lines[1..]))[1..] == Join(lines[1..]);
      assert lines[0] + "" == lines[0] && lines == [lines[0]] + lines[1..];
    }
  }

  lemma {:induction false} TrimClean(lines: seq<string>)
    requires forall l | l in lines :: Clean(l)
    ensures TrimAll(lines) == lines
  {
    if lines != [] {
      TrimClean(lines[1..]);
      assert Clean(lines[0]);
      assert lines == [lines[0]] + lines[1..];
    }
  }

  lemma {:induction false} JoinEnds(lines: seq<string>)
    requires forall l | l in lines :: Clean(l)
    ensures Join(lines) == "" <==> lines == [] || lines == [""]
    ensures Join(lines) != "" ==> (Join(lines)[|Join(lines)| - 1] == '\n' <==> lines[|lines| - 1] == "")
  {
    if |lines| > 1 {
      var rest := Join(lines[1..]);
      JoinEnds(lines[1..]);
      assert |Join(lines)| == |lines[0]| + 1 + |rest|;
      assert rest == "" ==> Join(lines)[|lines[0]|] == '\n';
    } else if |lines| == 1 && Join(lines) != "" {
      assert Clean(lines[0]) && lines[0][|lines[0]| - 1] in lines[0];
    }
  }

  lemma {:induction false} JoinDropLast(lines: seq<string>)
    requires |lines| > 1 && lines[|lines| - 1] == ""
    ensures Join(lines) == Join(lines[..|lines| - 1]) + LF
  {
    if |lines| == 2 {
      assert lines[0] + LF + "" == lines[0] + LF;
    } else {
      JoinDropLast(lines[1..]);
      assert lines[1..][..|lines| - 2] == lines[..|lines| - 1][1..];
    }
  }

  /** Joined lines whose last one shows are read back as they were. */
  lemma {:induction false} LinesOfJoin(lines: seq<string>)
    requires forall l | l in lines :: Clean(l)
    requires lines != [""]
    ensures (if Join(lines) == "" then [] else TrimAll(SplitAtLf(Join(lines)))) == lines
  {
    JoinEnds(lines);
    if lines != [] {
      SplitJoin(lines);
      TrimClean(lines);
    }
  }

  /**
   Splitting gives back the lines a text was written from, whatever its line
   endings, exactly when each line is clean and the text is readable. "Readable"
   fails only for a lone empty line and for an empty last line without its
   terminator.
   */
  lemma {:induction false} SplitReadsBack(lines: seq<string>, crlf: seq<bool>, final: bool)
    requires |crlf| == |lines|
    ensures Lines(Render(lines, crlf, final)) == lines
            <==> (forall l | l in lines :: Clean(l)) && Readable(lines, final)
  {
    if i :| 0 <= i < |lines| && !Clean(lines[i]) {
      assert lines[i] in lines;
      DirtyIsLost(lines, crlf, final, i);
    } else {
      assert forall l | l in lines :: Clean(l);
      ReplaceRender(lines, crlf, final);
      JoinEnds(lines);
      if Readable(lines, final) {
        ReadableShows(lines, crlf, final);
      } else if lines != [""] {
        HiddenLast(lines, crlf);
      }
    }
  }

  lemma {:induction false} ReadableShows(lines: seq<string>, crlf: seq<bool>, final: bool)
    requires |crlf| == |lines| && forall l | l in lines :: Clean(l)
    requires Readable(lines, final)
    ensures Lines(Render(lines, crlf, final)) == lines
  {
    ReplaceRender(lines, crlf, final);
    JoinEnds(lines);
    LinesOfJoin(lines);
    var t := ReplaceCrLf(Render(lines, crlf, final));
    if final && lines != [] {
      assert t[..|t| - 1] == Join(lines);
    } else {
      assert t == Join(lines);
    }
  }

  lemma {:induction false} HiddenLast(lines: seq<string>, crlf: seq<bool>)
    requires |crlf| == |lines| && forall l | l in lines :: Clean(l)
    requires |lines| > 1 && lines[|lines| - 1] == ""
    ensures Lines(Render(lines, crlf, false)) != lines
  {
    var shown := lines[..|lines| - 1];
    ReplaceRender(lines, crlf, false);
    JoinDropLast(lines);
    JoinEnds(shown);
    var t := ReplaceCrLf(Render(lines, crlf, false));
    assert t == Join(shown) + LF && t[..|t| - 1] == Join(shown);
    if shown != [""] {
      LinesOfJoin(shown);
    }
  }

  // ----- lines that are never given back

  lemma {:induction false} PartsHaveNoLf(s: string)
    ensures forall p | p in SplitAtLf(s) :: '\n' !in p
  {
    if s != "" {
      PartsHaveNoLf(s[1..]);
      var rest := SplitAtLf(s[1..]);
      assert rest[0] in rest && forall p | p in rest[1..] :: p in rest;
    }
  }

  lemma {:induction false} TrimmedHaveNoLf(parts: seq<string>)
    requires forall p | p in parts :: '\n' !in p
    ensures forall p | p in TrimAll(parts) :: '\n' !in p
  {
    if parts != [] {
      assert parts[0] in parts && forall p | p in parts[1..] :: p in parts;
      TrimmedHaveNoLf(parts[1..]);
    }
  }

  /** No line that splitting gives holds a line feed. */
  lemma {:induction false} LinesHaveNoLf(text: string)
    ensures forall l | l in Lines(text) :: '\n' !in l
  {
    var t := TrimSuffix(ReplaceCrLf(text), LF);
    PartsHaveNoLf(t);
    TrimmedHaveNoLf(SplitAtLf(t));
  }

  /** The lines of a text with nothing cut off its end. */
  function AllParts(text: string): seq<string> {
    TrimAll(SplitAtLf(ReplaceCrLf(text)))
  }

  lemma {:induction false} SplitLastLf(s: string)
    ensures SplitAtLf(s + LF) == SplitAtLf(s) + [""]
  {
    if s == "" {
      assert s + LF == LF && LF[1..] == "";
    } else {
      assert (s + LF)[1..] == s[1..] + LF;
      SplitLastLf(s[1..]);
      var rest := SplitAtLf(s[1..]);
      assert (rest + [""])[1..] == rest[1..] + [""];
    }
  }

  lemma {:induction false} TrimAllAppend(x: seq<string>, y: seq<string>)
    ensures TrimAll(x + y) == TrimAll(x) + TrimAll(y) && |TrimAll(x)| == |x|
  {
    if x == [] {
      assert x + y == y;
    } else {
      assert (x + y)[1..] == x[1..] + y;
      TrimAllAppend(x[1..], y);
    }
  }

  /** What splitting gives is the beginning of that: at most an empty end is left out. */
  lemma {:induction false} LinesArePrefix(text: string)
    ensures Lines(text) <= AllParts(text)
  {
    var all := ReplaceCrLf(text);
    var t := TrimSuffix(all, LF);
    if t != all {
      assert all == t + LF;
      SplitLastLf(t);
      TrimAllAppend(SplitAtLf(t), [""]);
    }
  }

  /** What is left of a line and its terminator when CRLF is replaced and the trailing carriage return cut. */
  function Left(line: string, crlf: bool): string {
    TrimSuffix(if crlf then line else TrimSuffix(line, CR), CR)
  }

  /** A line with its terminator, replaced: a carriage return before a plain line feed goes with it. */
  lemma {:induction false} ReplaceTerminated(line: string, crlf: bool, rest: string)
    requires '\n' !in line
    ensures ReplaceCrLf(line + Terminator(crlf) + rest)
            == (if crlf then line else TrimSuffix(line, CR)) + LF + ReplaceCrLf(rest)
  {
    Regroup(line, Terminator(crlf), rest);
    if crlf || !EndsWith(line, CR) {
      ReplaceTerminator(crlf, rest);
      TerminatorStarts(crlf, rest);
      EndsWithCr(line);
      ReplaceInner(line, Terminator(crlf) + rest);
      Regroup(line, LF, ReplaceCrLf(rest));
    } else {
      var start := line[..|line| - 1];
      assert line == start + CR && CR + LF == CRLF;
      assert line + (LF + rest) == start + (CRLF + rest);
      ReplaceTerminator(true, rest);
      TerminatorStarts(true, rest);
      ReplaceInner(start, CRLF + rest);
      Regroup(start, LF, ReplaceCrLf(rest));
    }
  }

  lemma {:induction false} TerminatorStarts(crlf: bool, rest: string)
    ensures Terminator(crlf) + rest != "" && (crlf ==> (Terminator(crlf) + rest)[0] == '\r')
  {
  }

  lemma {:induction false} EndsWithCr(line: string)
    ensures EndsWith(line, CR) <==> line != "" && line[|line| - 1] == '\r'
  {
    if line != "" {
      assert line[|line| - 1..] == [line[|line| - 1]];
    }
  }

  lemma {:induction false} SplitFirst(part: string, rest: string)
    requires '\n' !in part
    ensures SplitAtLf(part + LF + rest) == [part] + SplitAtLf(rest)
  {
    SplitSkipsLine(part, LF + rest);
    Regroup(part, LF, rest);
    assert (LF + rest)[1..] == rest;
    assert part + "" == part;
  }

  /** Each part is what is left of its line, which is shorter if the line ended in a carriage return. */
  lemma {:induction false} PartsShrink(lines: seq<string>, crlf: seq<bool>, final: bool, i: nat)
    requires |crlf| == |lines| && i < |lines| && forall l | l in lines :: '\n' !in l
    ensures var parts := AllParts(Render(lines, crlf, final));
            i < |parts| && (EndsWith(lines[i], CR) ==> |parts[i]| < |lines[i]|)
  {
    assert lines[0] in lines && forall l | l in lines[1..] :: l in lines;
    RenderedFirst(lines, crlf, final);
    if i > 0 {
      PartsShrink(lines[1..], crlf[1..], final, i - 1);
    }
  }

  /** The parts of a text written from lines: that of the first line, and those of the rest. */
  lemma {:induction false} RenderedFirst(lines: seq<string>, crlf: seq<bool>, final: bool)
    requires |crlf| == |lines| > 0 && '\n' !in lines[0]
    ensures var parts := AllParts(Render(lines, crlf, final));
            && parts != [] && (EndsWith(lines[0], CR) ==> |parts[0]| < |lines[0]|)
            && (|lines| > 1 ==> parts[1..] == AllParts(Render(lines[1..], crlf[1..], final)))
  {
    var line := lines[0];
    if |lines| == 1 && !final {
      assert Render(lines, crlf, final) == line + "" && line + "" == line;
      LastPart(line);
    } else {
      var rest := if |lines| == 1 then "" else Render(lines[1..], crlf[1..], final);
      assert |lines| == 1 ==> line + Terminator(crlf[0]) + "" == line + Terminator(crlf[0]);
      assert Render(lines, crlf, final) == line + Terminator(crlf[0]) + rest;
      FirstPart(line, crlf[0], rest);
    }
  }

  lemma {:induction false} LeftIsShorter(line: string, crlf: bool)
    ensures '\n' !in line ==> '\n' !in Left(line, crlf)
    ensures EndsWith(line, CR) ==> |Left(line, crlf)| < |line|
  {
  }

  lemma {:induction false} FirstPart(line: string, crlf: bool, rest: string)
    requires '\n' !in line
    ensures AllParts(line + Terminator(crlf) + rest) == [Left(line, crlf)] + AllParts(rest)
    ensures EndsWith(line, CR) ==> |Left(line, crlf)| < |line|
  {
    var part := if crlf then line else TrimSuffix(line, CR);
    ReplaceTerminated(line, crlf, rest);
    SplitFirst(part, ReplaceCrLf(rest));
    TrimAllAppend([part], SplitAtLf(ReplaceCrLf(rest)));
    assert TrimAll([part]) == [TrimSuffix(part, CR)];
    LeftIsShorter(line, crlf);
  }

  lemma {:induction false} LastPart(line: string)
    requires '\n' !in line
    ensures AllParts(line) == [TrimSuffix(line, CR)]
  {
    assert line + "" == line;
    ReplaceInner(line, "");
    SplitSkipsLine(line, "");
    assert TrimAll([line]) == [TrimSuffix(line, CR)];
  }

  /** A line that holds a line feed, or ends in a carriage return, is not given back. */
  lemma {:induction false} DirtyIsLost(lines: seq<string>, crlf: seq<bool>, final: bool, i: nat)
    requires |crlf| == |lines| && i < |lines| && !Clean(lines[i])
    ensures Lines(Render(lines, crlf, final)) != lines
  {
    var text := Render(lines, crlf, final);
    LinesHaveNoLf(text);
    EndsWithCr(lines[i]);
    if Lines(text) == lines {
      assert lines[i] in lines;
      LinesArePrefix(text);
      PartsShrink(lines, crlf, final, i);
    }
  }

  lemma {:induction false} LoneBreak(text: string)
    requires ReplaceCrLf(text) == "" || ReplaceCrLf(text) == LF
    ensures Lines(text) == []
  {
  }

  /** A carriage return alone is one empty line, although an empty text is none. */
  lemma {:induction false} LoneCarriageReturn()
    ensures Lines(CR) == [""] && Lines("") == [] && Lines(LF) == [] && Lines(CRLF) == []
  {
    assert CR[1..] == "" && LF[1..] == "" && CRLF[2..] == "";
    assert ReplaceCrLf(CR) == CR && ReplaceCrLf(LF) == LF && ReplaceCrLf(CRLF) == LF;
    LoneBreak("");
    LoneBreak(LF);
    LoneBreak(CRLF);
    assert SplitAtLf(CR) == [CR];
    assert TrimAll([CR]) == [""];
  }
}
