/**
 The names of the files in one capture type's directory: captures named by their
 time (internal/capture/store.go), and the parses written beside them
 (internal/capture/parsed.go).
 */
module FileNames {
  import opened Sequences

  const TXT: string := ".txt"
  const PARSED: string := ".parsed.json"
  const HISTORY: string := "history.jsonl"

  // ----- decimal numbers

  function Digit(d: nat): char
    requires d < 10
  {
    "0123456789"[d]
  }

  function Decimal(n: nat): (s: string)
    ensures s != ""
  {
    if n < 10 then [Digit(n)] else Decimal(n / 10) + [Digit(n % 10)]
  }

  function DigitValue(c: char): int {
    c as int - '0' as int
  }

  function ValueOf(s: string): int {
    if s == "" then 0 else 10 * ValueOf(s[..|s| - 1]) + DigitValue(s[|s| - 1])
  }

  lemma {:induction false} DigitReadsBack(d: nat)
    requires d < 10
    ensures DigitValue(Digit(d)) == d
  {
  }

  lemma {:induction false} DecimalReadsBack(n: nat)
    ensures ValueOf(Decimal(n)) == n
  {
    DigitReadsBack(n % 10);
    if n >= 10 {
      DecimalReadsBack(n / 10);
      var s := Decimal(n);
      assert s[..|s| - 1] == Decimal(n / 10);
    } else {
      assert ValueOf([Digit(n)][..0]) == 0;
    }
  }

  // ----- capture files

  /** The i-th name tried for a capture made at the time written as stamp. */
  function Candidate(stamp: string, i: nat): string {
    if i == 0 then stamp + TXT else stamp + "-" + Decimal(i) + TXT
  }

  lemma {:induction false} CandidatesDiffer(stamp: string, i: nat, j: nat)
    requires Candidate(stamp, i) == Candidate(stamp, j)
    ensures i == j
  {
    var x := if i == 0 then "" else "-" + Decimal(i);
    var y := if j == 0 then "" else "-" + Decimal(j);
    assert Candidate(stamp, i) == stamp + x + TXT && Candidate(stamp, j) == stamp + y + TXT;
    SameMiddle(stamp, x, y, TXT);
    if i > 0 && j > 0 {
      assert x[1..] == Decimal(i) && y[1..] == Decimal(j);
      DecimalReadsBack(i);
      DecimalReadsBack(j);
    }
  }

  lemma {:induction false} SameMiddle(s: string, x: string, y: string, t: string)
    requires s + x + t == s + y + t
    ensures x == y
  {
    var a, b := s + x + t, s + y + t;
    assert a[|s|..|a| - |t|] == x && b[|s|..|b| - |t|] == y;
  }

  lemma {:induction false} CandidateIsTxt(stamp: string, i: nat)
    ensures EndsWith(Candidate(stamp, i), TXT)
  {
  }

  /** The first untaken name, from the i-th on. */
  function FirstFree(taken: set<string>, stamp: string, i: nat): (n: nat)
    decreases |taken|
  {
    if Candidate(stamp, i) !in taken then i else FirstFree(taken - {Candidate(stamp, i)}, stamp, i + 1)
  }

  /** The naming loop ends, at the first name not taken. */
  lemma {:induction false} FirstFreeIsFirst(taken: set<string>, stamp: string, i: nat)
    ensures var n := FirstFree(taken, stamp, i);
            && i <= n && Candidate(stamp, n) !in taken
            && forall j | i <= j < n :: Candidate(stamp, j) in taken
    decreases |taken|
  {
    var c := Candidate(stamp, i);
    if c in taken {
      FirstFreeIsFirst(taken - {c}, stamp, i + 1);
      var n := FirstFree(taken, stamp, i);
      if Candidate(stamp, n) == c {
        CandidatesDiffer(stamp, n, i);
      }
    }
  }

  // ----- parses

  function ParsedName(file: string): string {
    TrimSuffix(file, TXT) + PARSED
  }

  /** The capture file the sweep takes a parse to belong to. */
  function RawOf(sidecar: string): string {
    TrimSuffix(sidecar, PARSED) + TXT
  }

  /** The sweep finds the capture a parse was named after exactly when that capture is a .txt file. */
  lemma {:induction false} SweepInvertsParsedName(file: string)
    ensures EndsWith(ParsedName(file), PARSED)
    ensures RawOf(ParsedName(file)) == file <==> EndsWith(file, TXT)
  {
    var stem := TrimSuffix(file, TXT);
    assert ParsedName(file)[|stem|..] == PARSED;
    assert TrimSuffix(ParsedName(file), PARSED) == stem;
    if EndsWith(file, TXT) {
      assert stem + TXT == file;
    } else {
      assert EndsWith(stem + TXT, TXT);
    }
  }

  /** Two captures never share a parse. */
  lemma {:induction false} ParsedNamesDiffer(f: string, g: string)
    requires EndsWith(f, TXT) && EndsWith(g, TXT) && ParsedName(f) == ParsedName(g)
    ensures f == g
  {
    SweepInvertsParsedName(f);
    SweepInvertsParsedName(g);
  }

  lemma {:induction false} LastOfSuffix(s: string)
    ensures forall t | t != "" && EndsWith(s, t) :: s[|s| - 1] == t[|t| - 1]
  {
    forall t | t != "" && EndsWith(s, t)
      ensures s[|s| - 1] == t[|t| - 1]
    {
      assert s[|s| - |t|..][|t| - 1] == s[|s| - 1];
    }
  }

  /** A capture's name is not a parse's name. */
  lemma {:induction false} TxtIsNotParsed(name: string)
    requires EndsWith(name, TXT)
    ensures !EndsWith(name, PARSED)
  {
    LastOfSuffix(name);
  }
}
