/**
 One capture type's directory in the store (internal/capture/store.go): the
 files in it, the history beside them, and what a Put or a written parse makes
 of the two.

 Every file step (a file renamed into place, one line appended, history
 rewritten, a file unlinked) either happens or does not. An Io says which of
 them do. Stopping between two steps, be it a crash or an error, leaves exactly
 the directory of the Io in which the later steps do not happen, so a theorem
 over every Io is one over every crash point and every refused deletion.
 */
module StoreModel {
  import opened FileNames
  import opened Sequences
  import opened Wrappers

  // Raw content; a char stands for a byte.
  type Bytes = string

  // A parse beside a capture. What was parsed is opaque here.
  datatype ParsedFile = ParsedFile(rawFile: string, rawSha: string, body: string)

  datatype Content = Capture(bytes: Bytes) | Parse(parsed: ParsedFile)

  // One line of history.jsonl; again is its mark for an unchanged attempt, which wrote no file.
  datatype Entry = Entry(at: nat, command: string, sha: string, bytes: nat, file: string, again: bool)

  datatype Dir = Dir(files: map<string, Content>, history: seq<Entry>)

  // Which file steps happen; refused holds the files that cannot be unlinked. A line that was
  // appended may still be reported as an error, when the file cannot be synced after it.
  datatype Io = Io(write: bool, append: bool, sync: bool, rewrite: bool, refused: set<string>)

  const ALL_GOES_WELL := Io(true, true, true, true, {})

  // What a Put reports: the file holding the content, or an error.
  datatype Outcome = Stored(name: string, pruneFailed: bool) | Unchanged(name: string) | Failed

  // ----- history

  function LastStored(h: seq<Entry>): Option<Entry> {
    if h == [] then None
    else if h[|h| - 1].file != "" then Some(h[|h| - 1])
    else LastStored(h[..|h| - 1])
  }

  /** The files a history names. */
  function Files(h: seq<Entry>): set<string> {
    set e | e in h && e.file != "" :: e.file
  }

  /** Where the longest suffix begins that names at most keep files. */
  function CutOf(h: seq<Entry>, keep: nat): (c: nat)
    ensures c <= |h|
  {
    if |Files(h)| <= keep || h == [] then 0 else 1 + CutOf(h[1..], keep)
  }

  /** An entry continues the run of the one before it, or starts a new version under a name not used before. */
  predicate RunAt(h: seq<Entry>, i: nat)
    requires i < |h|
  {
    if h[i].again then i > 0 && h[i].file == h[i - 1].file && h[i].sha == h[i - 1].sha
    else (forall j | 0 <= j < i :: h[j].file != h[i].file) && (i > 0 ==> h[i].sha != h[i - 1].sha)
  }

  ghost predicate Runs(h: seq<Entry>) {
    forall i | 0 <= i < |h| :: RunAt(h, i)
  }

  // ----- Put

  /** Whether the sweep removes a file, given the captures that survive. */
  predicate Swept(name: string, survive: set<string>) {
    if EndsWith(name, PARSED) then RawOf(name) !in survive
    else EndsWith(name, TXT) && name !in survive
  }

  function PruneDir(d: Dir, keep: int, io: Io): Dir {
    if keep <= 0 || d.history == [] then d
    else
      var cut := CutOf(d.history, keep);
      if cut > 0 && !io.rewrite then d
      else
        var kept := d.history[cut..];
        Dir(map n | n in d.files && (!Swept(n, Files(kept)) || n in io.refused) :: d.files[n], kept)
  }

  predicate PruneFails(d: Dir, keep: int, io: Io) {
    && keep > 0 && d.history != []
    && var cut := CutOf(d.history, keep);
       if cut > 0 && !io.rewrite then true
       else exists n | n in d.files :: Swept(n, Files(d.history[cut..])) && n in io.refused
  }

  function FreshName(d: Dir, stamp: string): string {
    Candidate(stamp, FirstFree(d.files.Keys, stamp, 0))
  }

  /** Whether content of a digest is that of the last stored capture. */
  predicate Repeats(d: Dir, digest: string) {
    var prev := LastStored(d.history);
    prev.Some? && prev.value.sha == digest
  }

  /** What a Put leaves behind. digest is the content's. */
  function PutDir(d: Dir, at: nat, stamp: string, command: string, content: Bytes, digest: string, keep: int,
                  io: Io): (Dir, Outcome) {
    if Repeats(d, digest) then
      var name := LastStored(d.history).value.file;
      if !io.append then (d, Failed)
      else
        (d.(history := d.history + [Entry(at, command, digest, |content|, name, true)]),
         if io.sync then Unchanged(name) else Failed)
    else
      var name := FreshName(d, stamp);
      if !io.write then (d, Failed)
      else
        var written := d.(files := d.files[name := Capture(content)]);
        if !io.append then (written, Failed)
        else
          var recorded := written.(history := d.history + [Entry(at, command, digest, |content|, name, false)]);
          if !io.sync then (recorded, Failed)
          else (PruneDir(recorded, keep, io), Stored(name, PruneFails(recorded, keep, io)))
  }

  // ----- parses

  predicate Exists(d: Dir, file: string) {
    file in d.files || (file == HISTORY && d.history != [])
  }

  /** What writing the parse of a file leaves behind; it needs the file. */
  function PutParsedDir(d: Dir, file: string, parsed: ParsedFile, written: bool): Dir {
    if Exists(d, file) && written then d.(files := d.files[ParsedName(file) := Parse(parsed)]) else d
  }

  // ----- what holds in every directory

  /** History names only captures that are there, with the content it recorded. */
  ghost predicate Honest(d: Dir, sha: Bytes -> string) {
    forall e | e in d.history ::
      && EndsWith(e.file, TXT) && e.file in d.files && d.files[e.file].Capture?
      && sha(d.files[e.file].bytes) == e.sha
  }

  ghost predicate Good(d: Dir, sha: Bytes -> string) {
    Honest(d, sha) && Runs(d.history)
  }

  lemma {:induction false} FilesSplit(h: seq<Entry>)
    requires h != []
    ensures Files(h) == Files(h[1..]) + (if h[0].file == "" then {} else {h[0].file})
  {
    assert h == [h[0]] + h[1..];
  }

  lemma {:induction false} FilesShrink(h: seq<Entry>, i: nat)
    requires i <= |h|
    ensures Files(h[i..]) <= Files(h) && |Files(h[i..])| <= |Files(h)|
  {
    assert forall e | e in h[i..] :: e in h;
    SubsetSize(Files(h[i..]), Files(h));
  }

  lemma {:induction false} SubsetSize(s: set<string>, t: set<string>)
    requires s <= t
    ensures |s| <= |t|
  {
    assert t == s + (t - s);
  }

  /** The cut leaves the longest suffix that names at most keep files. */
  lemma {:induction false} CutIsLongest(h: seq<Entry>, keep: nat)
    ensures var c := CutOf(h, keep);
            && |Files(h[c..])| <= keep
            && forall i | 0 <= i < c :: |Files(h[i..])| > keep
  {
    if |Files(h)| <= keep || h == [] {
      assert h[0..] == h;
    } else {
      CutIsLongest(h[1..], keep);
      var c := CutOf(h, keep);
      assert h[1..][c - 1..] == h[c..];
      forall i | 0 <= i < c
        ensures |Files(h[i..])| > keep
      {
        if i > 0 {
          assert h[1..][i - 1..] == h[i..];
        } else {
          assert h[0..] == h;
        }
      }
    }
  }

  /** In a history of runs the cut falls between two runs. */
  lemma {:induction false} CutOnBoundary(h: seq<Entry>, keep: nat)
    requires Runs(h) && h != [] && keep > 0
    ensures var c := CutOf(h, keep); c < |h| && !h[c].again
  {
    var c := CutOf(h, keep);
    CutIsLongest(h, keep);
    CutBeforeEnd(h, keep);
    assert RunAt(h, c);
    if c > 0 && h[c].file == h[c - 1].file {
      RunSharesFile(h, c);
    }
  }

  lemma {:induction false} RunSharesFile(h: seq<Entry>, c: nat)
    requires 0 < c < |h| && h[c].file == h[c - 1].file
    ensures Files(h[c - 1..]) == Files(h[c..])
  {
    FilesSplit(h[c - 1..]);
    assert h[c - 1..][1..] == h[c..] && h[c] in h[c..];
  }

  lemma {:induction false} CutBeforeEnd(h: seq<Entry>, keep: nat)
    requires h != [] && keep > 0
    ensures CutOf(h, keep) < |h|
  {
    var c := CutOf(h, keep);
    CutIsLongest(h, keep);
    if c == |h| {
      var last := h[|h| - 1..];
      FilesSplit(last);
      assert Files(last[1..]) == {};
      assert |Files(last)| <= 1;
    }
  }

  lemma {:induction false} RunsSuffix(h: seq<Entry>, c: nat)
    requires Runs(h) && c <= |h| && (c < |h| ==> !h[c].again)
    ensures Runs(h[c..])
  {
    forall i | 0 <= i < |h[c..]|
      ensures RunAt(h[c..], i)
    {
      assert RunAt(h, c + i);
    }
  }

  lemma {:induction false} LastStoredIsLast(h: seq<Entry>)
    requires forall e | e in h :: EndsWith(e.file, TXT)
    ensures LastStored(h) == if h == [] then None else Some(h[|h| - 1])
  {
    if h != [] {
      assert h[|h| - 1] in h;
    }
  }

  /** Pruning keeps a directory good, whatever it manages to remove. */
  lemma {:induction false} PruneKeepsGood(d: Dir, keep: int, io: Io, sha: Bytes -> string)
    requires Good(d, sha)
    ensures Good(PruneDir(d, keep, io), sha)
  {
    if keep > 0 && d.history != [] {
      var cut := CutOf(d.history, keep);
      CutOnBoundary(d.history, keep);
      RunsSuffix(d.history, cut);
      SweepSpares(d, d.history[cut..], io.refused, sha);
    }
  }

  lemma {:induction false} SweepSpares(d: Dir, kept: seq<Entry>, refused: set<string>, sha: Bytes -> string)
    requires Honest(d, sha) && forall e | e in kept :: e in d.history
    ensures Honest(Dir(map n | n in d.files && (!Swept(n, Files(kept)) || n in refused) :: d.files[n], kept), sha)
  {
    forall e | e in kept
      ensures !Swept(e.file, Files(kept))
    {
      assert e in d.history;
      TxtIsNotParsed(e.file);
    }
  }

  /** A fresh name is free, is a capture's name, and is in no history line. */
  lemma {:induction false} FreshNameIsFree(d: Dir, stamp: string)
    ensures FreshName(d, stamp) !in d.files && EndsWith(FreshName(d, stamp), TXT)
  {
    FirstFreeIsFirst(d.files.Keys, stamp, 0);
    CandidateIsTxt(stamp, FirstFree(d.files.Keys, stamp, 0));
  }

  lemma {:induction false} RunsAppend(h: seq<Entry>, e: Entry)
    requires Runs(h)
    requires RunAt(h + [e], |h|)
    ensures Runs(h + [e])
  {
    forall i | 0 <= i < |h + [e]|
      ensures RunAt(h + [e], i)
    {
      if i < |h| {
        assert RunAt(h, i);
      }
    }
  }

  /** A Put keeps a directory good, wherever it stops. */
  lemma {:induction false} PutKeepsGood(d: Dir, at: nat, stamp: string, command: string, content: Bytes, keep: int,
                                        io: Io, sha: Bytes -> string)
    requires Good(d, sha)
    ensures Good(PutDir(d, at, stamp, command, content, sha(content), keep, io).0, sha)
  {
    LastStoredIsLast(d.history);
    var prev := LastStored(d.history);
    if prev.Some? && prev.value.sha == sha(content) {
      RepeatKeepsGood(d, at, command, content, sha);
    } else {
      var name := FreshName(d, stamp);
      var written := d.(files := d.files[name := Capture(content)]);
      FreshNameIsFree(d, stamp);
      var entry := Entry(at, command, sha(content), |content|, name, false);
      WriteKeepsGood(d, name, content, sha);
      RecordKeepsGood(d, name, content, entry, sha);
      PruneKeepsGood(written.(history := d.history + [entry]), keep, io, sha);
    }
  }

  lemma {:induction false} WriteKeepsGood(d: Dir, name: string, content: Bytes, sha: Bytes -> string)
    requires Good(d, sha) && name !in d.files
    ensures Good(d.(files := d.files[name := Capture(content)]), sha)
  {
  }

  lemma {:induction false} RecordKeepsGood(d: Dir, name: string, content: Bytes, entry: Entry, sha: Bytes -> string)
    requires Good(d, sha) && name !in d.files && EndsWith(name, TXT)
    requires entry.file == name && entry.sha == sha(content) && !entry.again
    requires d.history != [] ==> d.history[|d.history| - 1].sha != sha(content)
    ensures Good(Dir(d.files[name := Capture(content)], d.history + [entry]), sha)
  {
    var h := d.history + [entry];
    assert forall j | 0 <= j < |d.history| :: h[j] in d.history;
    assert RunAt(h, |d.history|);
    RunsAppend(d.history, entry);
  }

  lemma {:induction false} RepeatKeepsGood(d: Dir, at: nat, command: string, content: Bytes, sha: Bytes -> string)
    requires Good(d, sha) && d.history != [] && d.history[|d.history| - 1].sha == sha(content)
    ensures var last := d.history[|d.history| - 1];
            Good(d.(history := d.history + [Entry(at, command, sha(content), |content|, last.file, true)]), sha)
  {
    var last := d.history[|d.history| - 1];
    var e := Entry(at, command, sha(content), |content|, last.file, true);
    assert last in d.history;
    assert RunAt(d.history + [e], |d.history|);
    RunsAppend(d.history, e);
  }

  /** A written parse keeps a directory good. */
  lemma {:induction false} PutParsedKeepsGood(d: Dir, file: string, parsed: ParsedFile, written: bool,
                                              sha: Bytes -> string)
    requires Good(d, sha)
    ensures Good(PutParsedDir(d, file, parsed, written), sha)
  {
    SweepInvertsParsedName(file);
    forall e | e in d.history
      ensures e.file != ParsedName(file)
    {
      TxtIsNotParsed(e.file);
    }
  }
}
